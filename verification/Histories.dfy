/**
  Runs of the chain as sequences of states and steps, and the invariants of every run that need
  no assumption on how quorums or limits change.
 */
module Histories {
  import opened Basics
  import opened ChainModel
  import opened Configs
  import opened Domains
  import opened QueueLaws
  import opened Times
  import opened VoteQueues

  datatype History = History(states: seq<Chain>, steps: seq<Step>)

  datatype Phase = Between | Recorded | InBlock | Reconfigured

  /** The chain as the genesis request leaves it. */
  ghost predicate IsGenesis(c: Chain) {
    && c.config.Some?
    && c == EmptyChain().(chainId := c.chainId, config := c.config)
  }

  function PhaseAfter(s: Step): Phase {
    match s
    case RecordHash(_) => Recorded
    case BeginBlock(_, _) => InBlock
    case ObserveStep(_, _) => InBlock
    case ReconfigureStep(_, _) => InBlock
    case PromoteConfigStep => Reconfigured
    case PromoteCanonicalStep => Between
  }

  /** The place of a state in its block, known from the step before it. */
  ghost function PhaseAt(h: History, i: nat): Phase
    requires i <= |h.steps|
  {
    if i == 0 then Between else PhaseAfter(h.steps[i - 1])
  }

  /**
    The order of steps in a block, and what consensus provides: consecutive heights from one, and
    times that do not run backwards or before 1970. Every block but the first begins after the hash of
    the one before it was recorded.
   */
  ghost predicate Scheduled(phase: Phase, c: Chain, s: Step) {
    match s
    case RecordHash(_) => phase == Between
    case BeginBlock(height, time) =>
      && phase == (if c.height.Some? then Recorded else Between)
      && height == (if c.height.Some? then c.height.value else 0) + 1
      && 0 <= time && (c.time.Some? ==> c.time.value <= time)
    case ObserveStep(_, _) => phase == InBlock
    case ReconfigureStep(_, _) => phase == InBlock
    case PromoteConfigStep => phase == InBlock
    case PromoteCanonicalStep => phase == Reconfigured
  }

  ghost predicate IsHistory(h: History) {
    && |h.states| == |h.steps| + 1
    && IsGenesis(h.states[0])
    && forall i :: 0 <= i < |h.steps| ==> IsStep(h, i)
  }

  ghost predicate IsStep(h: History, i: nat)
    requires |h.states| == |h.steps| + 1 && i < |h.steps|
  {
    && Enabled(h.states[i], h.steps[i])
    && Scheduled(PhaseAt(h, i), h.states[i], h.steps[i])
    && h.states[i + 1] == Apply(h.states[i], h.steps[i])
  }

  // ---------- The invariant of every run ----------

  /** Every oracle vote and pending change is for a name strictly below its zone. */
  ghost function Zoned(): (Domain, OracleVoteValue) -> bool {
    (d: Domain, w: OracleVoteValue) => StrictlyUnder(d, w.zone)
  }

  /** Every admin vote and pending configuration is sound and newer than a version. */
  ghost function NewerThan(version: nat): ((), Config) -> bool {
    (k: (), w: Config) => Sound(w) && version < w.version
  }

  /** Every admin vote is newer than the pending configuration. */
  ghost predicate VotesNewerThanPending(q: Queue<(), Config>) {
    forall a, p :: a in q.votes && p in q.pending ==> q.pending[p].version < q.votes[a].version
  }

  ghost predicate Invariant(phase: Phase, c: Chain) {
    && c.config.Some?
    && (c.time.Some? ==> 0 <= c.time.value)
    && (c.time.Some? <==> c.height.Some?)
    && (phase != Between ==> c.time.Some?)
    && ValidChain(c)
    && NonNegative(c.oracle) && NonNegative(c.admin)
    && Entries(c.oracle, Zoned())
    && Entries(c.admin, NewerThan(c.config.value.version))
    && VotesNewerThanPending(c.admin)
  }

  lemma BeginKeepsInvariant(phase: Phase, c: Chain, height: nat, time: Time)
    requires Invariant(phase, c) && Scheduled(phase, c, BeginBlock(height, time))
    ensures Invariant(InBlock, Apply(c, BeginBlock(height, time)))
  {
    ExpireKeepsValid(c.oracle, time, c.config.value.oracles.voting.timeout);
    ExpireKeepsValid(c.admin, time, c.config.value.admins.voting.timeout);
  }

  lemma ObserveKeepsInvariant(c: Chain, o: Observe, w: Option<OracleVoteValue>)
    requires Invariant(InBlock, c) && Enabled(c, ObserveStep(o, w))
    ensures Invariant(InBlock, Apply(c, ObserveStep(o, w)))
  {
    if MayObserve(c, o) {
      var v := ObservationVote(c, o);
      var rule := SubdomainRule(c.canonical.Keys, c.config.value.oracles.maxEnrolledSubdomains);
      CastKeepsValid(c.oracle, v, w, rule);
      CastKeepsEntries(c.oracle, v, c.config.value.oracles.voting.quorum, w, rule, Zoned());
    }
  }

  /** A winning configuration clears all votes, so whatever becomes pending is older than none. */
  lemma CastKeepsVotesNewer(q: Queue<(), Config>, v: Vote<(), Config>, quorum: nat, w: Option<Config>)
    requires VotesNewerThanPending(q)
    requires forall p :: p in q.pending ==> q.pending[p].version < v.value.version
    ensures VotesNewerThanPending(CastVote(q, v, w, NoLimit()).0)
  {
    var q1 := CastVote(q, v, w, NoLimit()).0;
    CastFrame(q, v, w, NoLimit());
    assert v.key == () && forall a :: a in q1.votes ==> a.key == ();
    assert w.Some? ==> q1.votes == map[];
  }

  lemma ReconfigureKeepsInvariant(c: Chain, r: Reconfigure, w: Option<Config>)
    requires Invariant(InBlock, c) && Enabled(c, ReconfigureStep(r, w))
    ensures Invariant(InBlock, Apply(c, ReconfigureStep(r, w)))
  {
    if MayReconfigure(c, r) {
      var v := ReconfigurationVote(c, r);
      var quorum := c.config.value.admins.voting.quorum;
      CastKeepsValid(c.admin, v, w, NoLimit());
      CastKeepsEntries(c.admin, v, quorum, w, NoLimit(), NewerThan(c.config.value.version));
      CastKeepsVotesNewer(c.admin, v, quorum, w);
    }
  }

  /**
    In a state of a run, the promotion of configurations never skips one: a ripe configuration is
    newer than the current one, there is at most one, and nothing is pending after it was installed.
   */
  lemma RipeConfigIsInstalled(c: Chain, p: PendingKey<()>)
    requires c.config.Some? && c.time.Some? && Valid(c.admin)
    requires Entries(c.admin, NewerThan(c.config.value.version))
    requires p in RipeConfigs(c)
    ensures PromotedConfig(c) == c.admin.pending[p]
    ensures c.config.value.version < PromotedConfig(c).version
    ensures Sound(PromotedConfig(c))
    ensures PromoteConfig(c).admin.pending == map[]
  {
    var k := ();
    assert p.key == k;
    forall r | r in c.admin.pending
      ensures r == p
    {
      assert r.key == k;
    }
    assert NewerThan(c.config.value.version)(p.key, c.admin.pending[p]);
  }

  lemma PromoteConfigKeepsInvariant(c: Chain)
    requires Invariant(InBlock, c)
    ensures Invariant(Reconfigured, PromoteConfig(c))
  {
    PromoteKeepsValid(c.admin, c.time.value, c.config.value.admins.voting.delay);
    var d := PromoteConfig(c);
    if p :| p in RipeConfigs(c) {
      RipeConfigIsInstalled(c, p);
      forall a | a in d.admin.votes
        ensures NewerThan(d.config.value.version)(a.key, d.admin.votes[a])
      {
        assert NewerThan(c.config.value.version)(a.key, c.admin.votes[a]);
      }
    }
  }

  lemma PromoteCanonicalKeepsInvariant(c: Chain)
    requires Invariant(Reconfigured, c)
    ensures Invariant(Between, PromoteCanonical(c))
  {
    PromoteKeepsValid(c.oracle, c.time.value, c.config.value.oracles.voting.delay);
  }

  lemma StepKeepsInvariant(phase: Phase, c: Chain, s: Step)
    requires Invariant(phase, c) && Scheduled(phase, c, s) && Enabled(c, s)
    ensures Invariant(PhaseAfter(s), Apply(c, s))
  {
    match s {
      case RecordHash(_) =>
      case BeginBlock(height, time) => BeginKeepsInvariant(phase, c, height, time);
      case ObserveStep(o, w) => ObserveKeepsInvariant(c, o, w);
      case ReconfigureStep(r, w) => ReconfigureKeepsInvariant(c, r, w);
      case PromoteConfigStep => PromoteConfigKeepsInvariant(c);
      case PromoteCanonicalStep => PromoteCanonicalKeepsInvariant(c);
    }
  }

  lemma GenesisInvariant(h: History)
    requires IsHistory(h)
    ensures |h.states| == |h.steps| + 1 && Invariant(Between, h.states[0])
  {}

  lemma StepOfRun(h: History, i: nat)
    requires IsHistory(h) && i < |h.steps|
    ensures |h.states| == |h.steps| + 1 && IsStep(h, i)
  {}

  /** Every state of every run satisfies the invariant. */
  lemma {:induction false} InvariantHolds(h: History, i: nat)
    requires IsHistory(h) && i < |h.states|
    ensures Invariant(PhaseAt(h, i), h.states[i])
  {
    hide IsHistory, Invariant, Apply, Enabled, Scheduled;
    GenesisInvariant(h);
    if i != 0 {
      InvariantHolds(h, i - 1);
      StepOfRun(h, i - 1);
      StepKeepsInvariant(PhaseAt(h, i - 1), h.states[i - 1], h.steps[i - 1]);
    }
  }

  /** What is known of one step of a run. */
  lemma StepAt(h: History, i: nat)
    requires IsHistory(h) && i < |h.steps|
    ensures |h.states| == |h.steps| + 1
    ensures Invariant(PhaseAt(h, i), h.states[i])
    ensures Enabled(h.states[i], h.steps[i])
    ensures Scheduled(PhaseAt(h, i), h.states[i], h.steps[i])
    ensures h.states[i + 1] == Apply(h.states[i], h.steps[i])
  {
    hide IsHistory, Invariant, Apply, Enabled, Scheduled;
    StepOfRun(h, i);
    InvariantHolds(h, i);
  }

  // ---------- Building histories step by step ----------

  ghost predicate EndsWith(h: History, phase: Phase, c: Chain) {
    IsHistory(h) && h.states[|h.steps|] == c && PhaseAt(h, |h.steps|) == phase
  }

  /** The history `g` continues `h`. */
  ghost predicate Continues(g: History, h: History) {
    && |h.states| <= |g.states| && g.states[..|h.states|] == h.states
    && |h.steps| <= |g.steps| && g.steps[..|h.steps|] == h.steps
  }

  lemma ContinuesTransitive(f: History, g: History, h: History)
    requires Continues(f, g) && Continues(g, h)
    ensures Continues(f, h)
  {
    assert f.states[..|g.states|][..|h.states|] == f.states[..|h.states|];
    assert f.steps[..|g.steps|][..|h.steps|] == f.steps[..|h.steps|];
  }

  lemma AppendStep(h: History, phase: Phase, c: Chain, s: Step) returns (g: History)
    requires EndsWith(h, phase, c) && Enabled(c, s) && Scheduled(phase, c, s)
    ensures g == History(h.states + [Apply(c, s)], h.steps + [s])
    ensures EndsWith(g, PhaseAfter(s), Apply(c, s)) && Continues(g, h)
  {
    hide Apply, Enabled, Scheduled;
    g := History(h.states + [Apply(c, s)], h.steps + [s]);
    forall i | 0 <= i < |g.steps|
      ensures IsStep(g, i)
    {
      if i < |h.steps| {
        assert IsStep(h, i);
        assert PhaseAt(g, i) == PhaseAt(h, i);
      }
    }
  }

  /** From the given place of a block, the step leads from one state to the other. */
  ghost predicate Takes(phase: Phase, c: Chain, s: Step, d: Chain) {
    Enabled(c, s) && Scheduled(phase, c, s) && d == Apply(c, s)
  }

  lemma Extend(h: History, phase: Phase, c: Chain, s: Step, d: Chain) returns (g: History)
    requires EndsWith(h, phase, c) && Takes(phase, c, s, d)
    ensures g == History(h.states + [d], h.steps + [s])
    ensures EndsWith(g, PhaseAfter(s), d)
  {
    hide Apply, Enabled, Scheduled, EndsWith;
    g := AppendStep(h, phase, c, s);
  }
}
