/**
  Where the canonical map and the installed configurations come from, over all runs of the chain.
 */
module Provenance {
  import opened Basics
  import opened ChainModel
  import opened Configs
  import opened Domains
  import opened Hex
  import opened Histories
  import opened QueueLaws
  import opened QueueRuns
  import opened Times
  import opened VoteQueues

  // ---------- The two queues of a history ----------

  ghost function OracleEvent(c: Chain, s: Step): Event<Domain, OracleVoteValue>
    requires Enabled(c, s)
  {
    match s
    case BeginBlock(_, time) => ExpireEvent(time, c.config.value.oracles.voting.timeout)
    case ObserveStep(o, w) =>
      if MayObserve(c, o) then
        CastEvent(ObservationVote(c, o), c.config.value.oracles.voting.quorum, w,
                  SubdomainRule(c.canonical.Keys, c.config.value.oracles.maxEnrolledSubdomains))
      else Quiet
    case PromoteCanonicalStep => PromoteEvent(c.time.value, c.config.value.oracles.voting.delay)
    case _ => Quiet
  }

  ghost function AdminEvent(c: Chain, s: Step): Event<(), Config>
    requires Enabled(c, s)
  {
    match s
    case BeginBlock(_, time) => ExpireEvent(time, c.config.value.admins.voting.timeout)
    case ReconfigureStep(r, w) =>
      if MayReconfigure(c, r) then
        CastEvent(ReconfigurationVote(c, r), c.config.value.admins.voting.quorum, w, NoLimit())
      else Quiet
    case PromoteConfigStep => PromoteEvent(c.time.value, c.config.value.admins.voting.delay)
    case _ => Quiet
  }

  ghost function OracleQueues(h: History): (qs: seq<Queue<Domain, OracleVoteValue>>)
    ensures |qs| == |h.states|
    ensures forall i :: 0 <= i < |qs| ==> qs[i] == h.states[i].oracle
  {
    seq(|h.states|, i requires 0 <= i < |h.states| => h.states[i].oracle)
  }

  ghost function AdminQueues(h: History): (qs: seq<Queue<(), Config>>)
    ensures |qs| == |h.states|
    ensures forall i :: 0 <= i < |qs| ==> qs[i] == h.states[i].admin
  {
    seq(|h.states|, i requires 0 <= i < |h.states| => h.states[i].admin)
  }

  ghost function OracleEvents(h: History): (es: seq<Event<Domain, OracleVoteValue>>)
    requires IsHistory(h)
    ensures |es| == |h.steps|
    ensures forall i :: 0 <= i < |es| ==> IsStep(h, i) && es[i] == OracleEvent(h.states[i], h.steps[i])
  {
    assert forall i :: 0 <= i < |h.steps| ==> IsStep(h, i);
    seq(|h.steps|, i requires 0 <= i < |h.steps| && IsStep(h, i) => OracleEvent(h.states[i], h.steps[i]))
  }

  ghost function AdminEvents(h: History): (es: seq<Event<(), Config>>)
    requires IsHistory(h)
    ensures |es| == |h.steps|
    ensures forall i :: 0 <= i < |es| ==> IsStep(h, i) && es[i] == AdminEvent(h.states[i], h.steps[i])
  {
    assert forall i :: 0 <= i < |h.steps| ==> IsStep(h, i);
    seq(|h.steps|, i requires 0 <= i < |h.steps| && IsStep(h, i) => AdminEvent(h.states[i], h.steps[i]))
  }

  lemma OracleStep(phase: Phase, c: Chain, s: Step)
    requires Invariant(phase, c) && Scheduled(phase, c, s) && Enabled(c, s)
    ensures Possible(c.oracle, OracleEvent(c, s))
    ensures Apply(c, s).oracle == After(c.oracle, OracleEvent(c, s))
  {}

  lemma AdminStep(phase: Phase, c: Chain, s: Step)
    requires Invariant(phase, c) && Scheduled(phase, c, s) && Enabled(c, s)
    ensures Possible(c.admin, AdminEvent(c, s))
    ensures Apply(c, s).admin == After(c.admin, AdminEvent(c, s))
  {}

  /** The oracle queue of a history is a run of a vote queue. */
  lemma OracleQueueRuns(h: History)
    requires IsHistory(h)
    ensures IsQueueRun(OracleQueues(h), OracleEvents(h))
  {
    var qs, es := OracleQueues(h), OracleEvents(h);
    forall i | 0 <= i < |es|
      ensures Possible(qs[i], es[i]) && qs[i + 1] == After(qs[i], es[i])
    {
      InvariantHolds(h, i);
      assert IsStep(h, i);
      OracleStep(PhaseAt(h, i), h.states[i], h.steps[i]);
    }
  }

  lemma AdminQueueRuns(h: History)
    requires IsHistory(h)
    ensures IsQueueRun(AdminQueues(h), AdminEvents(h))
  {
    var qs, es := AdminQueues(h), AdminEvents(h);
    forall i | 0 <= i < |es|
      ensures Possible(qs[i], es[i]) && qs[i + 1] == After(qs[i], es[i])
    {
      InvariantHolds(h, i);
      assert IsStep(h, i);
      AdminStep(PhaseAt(h, i), h.states[i], h.steps[i]);
    }
  }

  // ---------- Approval of an observation ----------

  /** The oracle, authorized at the time, observed this about the name at this step. */
  ghost predicate ObservedAt(h: History, m: nat, oracle: Bytes, d: Domain, w: OracleVoteValue)
    requires |h.states| == |h.steps| + 1 && m < |h.steps|
  {
    && h.steps[m].ObserveStep?
    && MayObserve(h.states[m], h.steps[m].observe)
    && h.states[m].config.Some?
    && (exists o :: o in h.states[m].config.value.oracles.authorized && o.identity == oracle)
    && h.steps[m].observe.oracle == oracle && h.steps[m].observe.domain == d
    && OracleVoteValue(h.steps[m].observe.hashObserved, h.steps[m].observe.zone) == w
  }

  /**
    The step is neither a newer vote by the oracle for the name, nor a decision that uses up the votes
    for the name, nor a timeout pass that catches the vote.
   */
  ghost predicate Undisturbed(h: History, l: nat, oracle: Bytes, d: Domain, cast: Seconds)
    requires |h.states| == |h.steps| + 1 && l < |h.steps|
    requires Enabled(h.states[l], h.steps[l])
  {
    match h.steps[l]
    case ObserveStep(o, winner) =>
      !MayObserve(h.states[l], o) || o.domain != d || (o.oracle != oracle && winner.None?)
    case BeginBlock(_, time) => !Due(time, cast, h.states[l].config.value.oracles.voting.timeout)
    case _ => true
  }

  /**
    At step i the observation of step m is the latest of this oracle for the name, not expired and not
    used up by an earlier decision.
   */
  ghost predicate Supports(h: History, m: nat, i: nat, oracle: Bytes, d: Domain, w: OracleVoteValue)
    requires IsHistory(h) && i < |h.steps|
  {
    && m <= i && ObservedAt(h, m, oracle, d, w)
    && (forall l :: m < l < i ==> IsStep(h, l) && Undisturbed(h, l, oracle, d, Second(h.states[m].time.value)))
    && (m < i ==> h.steps[m].winner.None? && h.steps[i].ObserveStep? && h.steps[i].observe.oracle != oracle)
  }

  ghost predicate Supported(h: History, i: nat, oracle: Bytes, d: Domain, w: OracleVoteValue)
    requires IsHistory(h) && i < |h.steps|
  {
    exists m: nat :: Supports(h, m, i, oracle, d, w)
  }

  /** At step i a quorum of distinct oracles supported this value for the name. */
  ghost predicate Approved(h: History, i: nat, d: Domain, w: OracleVoteValue, oracles: set<Bytes>)
    requires IsHistory(h) && i < |h.steps|
  {
    && h.steps[i].ObserveStep? && h.steps[i].observe.domain == d && h.steps[i].winner == Some(w)
    && MayObserve(h.states[i], h.steps[i].observe)
    && h.states[i].config.value.oracles.voting.quorum <= |oracles| && oracles != {}
    && forall k :: k in oracles ==> Supported(h, i, k, d, w)
  }

  lemma OracleEventAt(h: History, i: nat)
    requires IsHistory(h) && i < |h.steps|
    ensures |h.states| == |h.steps| + 1 == |OracleEvents(h)| + 1
    ensures IsStep(h, i) && Enabled(h.states[i], h.steps[i])
    ensures OracleEvents(h)[i] == OracleEvent(h.states[i], h.steps[i])
  {
    assert IsStep(h, i);
  }

  lemma CastIsObservation(h: History, m: nat)
    requires IsHistory(h) && m < |h.steps| && OracleEvents(h)[m].CastEvent?
    ensures |h.states| == |h.steps| + 1 && h.states[m].time.Some?
    ensures h.steps[m].ObserveStep? && MayObserve(h.states[m], h.steps[m].observe)
    ensures OracleEvents(h)[m].vote == ObservationVote(h.states[m], h.steps[m].observe)
    ensures OracleEvents(h)[m].quorum == h.states[m].config.value.oracles.voting.quorum
    ensures OracleEvents(h)[m].winner == h.steps[m].winner
    ensures ObservedAt(h, m, h.steps[m].observe.oracle, h.steps[m].observe.domain, OracleEvents(h)[m].vote.value)
  {
    OracleEventAt(h, m);
    hide IsHistory, OracleEvents;
  }

  lemma SparedIsUndisturbed(h: History, l: nat, oracle: Bytes, a: VoteKey<Domain>)
    requires IsHistory(h) && l < |h.steps| && Encode(oracle) == a.party
    requires Spares(OracleEvents(h)[l], a)
    ensures IsStep(h, l) && Undisturbed(h, l, oracle, a.key, a.sec)
  {
    OracleEventAt(h, l);
    hide IsHistory, MayObserve, OracleEvents;
  }

  lemma BackedIsSupported(h: History, m: nat, i: nat, d: Domain, party: string, w: OracleVoteValue)
    requires IsHistory(h) && i < |h.steps|
    requires BackedSince(OracleEvents(h), m, i, d, party, w)
    requires h.steps[i].ObserveStep? && h.steps[i].observe.domain == d && OracleEvents(h)[i].CastEvent?
    ensures m <= i && h.steps[m].ObserveStep? && Encode(h.steps[m].observe.oracle) == party
    ensures Supports(h, m, i, h.steps[m].observe.oracle, d, w)
  {
    hide IsHistory, MayObserve, ObservedAt, OracleEvents, Spares, Undisturbed, Enabled, Apply, Scheduled;
    var es := OracleEvents(h);
    CastIsObservation(h, m);
    CastIsObservation(h, i);
    var a := VoteKey(d, party, Second(es[m].vote.time));
    forall l | m < l < i
      ensures IsStep(h, l) && Undisturbed(h, l, h.steps[m].observe.oracle, d, a.sec)
    {
      assert Spares(es[l], a);
      SparedIsUndisturbed(h, l, h.steps[m].observe.oracle, a);
    }
  }

  /** The party counted in a decision is the name of a key whose observation supports it. */
  lemma BackerIsOracle(h: History, i: nat, d: Domain, party: string, w: OracleVoteValue) returns (oracle: Bytes)
    requires IsHistory(h) && i < |h.steps|
    requires h.steps[i].ObserveStep? && h.steps[i].observe.domain == d && OracleEvents(h)[i].CastEvent?
    requires Backed(OracleEvents(h), i, d, party, w)
    ensures Encode(oracle) == party && Supported(h, i, oracle, d, w)
  {
    hide IsHistory, OracleEvents, Supports, BackedSince, Encode;
    var m: nat :| BackedSince(OracleEvents(h), m, i, d, party, w);
    BackedIsSupported(h, m, i, d, party, w);
    oracle := h.steps[m].observe.oracle;
  }

  /** Different parties are different keys. */
  lemma {:induction false} BackersAreOracles(h: History, i: nat, d: Domain, w: OracleVoteValue, parties: set<string>)
    returns (oracles: set<Bytes>)
    requires IsHistory(h) && i < |h.steps|
    requires h.steps[i].ObserveStep? && h.steps[i].observe.domain == d && OracleEvents(h)[i].CastEvent?
    requires forall party :: party in parties ==> Backed(OracleEvents(h), i, d, party, w)
    ensures |oracles| == |parties|
    ensures forall k :: k in oracles ==> Encode(k) in parties && Supported(h, i, k, d, w)
  {
    hide IsHistory, OracleEvents, Supported, Backed, Encode;
    if parties == {} {
      oracles := {};
    } else {
      var party :| party in parties;
      var k := BackerIsOracle(h, i, d, party, w);
      var others := BackersAreOracles(h, i, d, w, parties - {party});
      oracles := others + {k};
    }
  }

  /** A decision of the oracle queue is the approval of a quorum of distinct oracle keys. */
  lemma DecidedIsApproved(h: History, i: nat, d: Domain, w: OracleVoteValue) returns (oracles: set<Bytes>)
    requires IsHistory(h) && i < |h.steps|
    requires Decided(OracleQueues(h), OracleEvents(h), i, d, w)
    ensures Approved(h, i, d, w, oracles)
  {
    hide IsHistory, OracleEvents, OracleQueues, OracleEvent, Supported, Backed, MayObserve, PutVote, Backers, Encode;
    CastIsObservation(h, i);
    var parties := Backers(PutVote(OracleQueues(h)[i], OracleEvents(h)[i].vote), d, w);
    oracles := BackersAreOracles(h, i, d, w, parties);
  }

  // ---------- Provenance of the canonical map ----------

  /** The change was pending from the state after its approval up to its promotion. */
  ghost predicate WaitedUntil(h: History, i: nat, j: nat, d: Domain, w: OracleVoteValue)
    requires IsHistory(h) && i < j < |h.steps|
    requires h.states[i].time.Some?
  {
    forall l :: i < l <= j ==>
      var p := PendingKey(d, Second(h.states[i].time.value));
      p in h.states[l].oracle.pending && h.states[l].oracle.pending[p] == w
  }

  /** Step j promotes the change approved at step i after at least the delay in force. */
  ghost predicate PromotedAt(h: History, i: nat, j: nat, d: Domain, w: OracleVoteValue)
    requires IsHistory(h)
  {
    && i < j < |h.steps|
    && h.states[i].time.Some? && h.states[j].time.Some? && h.states[j].config.Some?
    && WaitedUntil(h, i, j, d, w)
    && h.steps[j] == PromoteCanonicalStep
    && Due(h.states[j].time.value, Second(h.states[i].time.value), h.states[j].config.value.oracles.voting.delay)
  }

  ghost predicate CanonicalSince(h: History, j: nat, n: nat, d: Domain, hash: Bytes)
    requires n < |h.states|
  {
    forall l :: j < l <= n ==> d in h.states[l].canonical && h.states[l].canonical[d] == hash
  }

  /** The step did not change the canonical entry, or it promoted a ripe change to it. */
  lemma CanonicalChange(phase: Phase, c: Chain, s: Step, d: Domain) returns (p: PendingKey<Domain>)
    requires Invariant(phase, c) && Enabled(c, s)
    requires d in Apply(c, s).canonical
    requires d !in c.canonical || c.canonical[d] != Apply(c, s).canonical[d]
    ensures s == PromoteCanonicalStep && c.time.Some?
    ensures p.key == d && p in c.oracle.pending
    ensures c.oracle.pending[p].hashObserved == Hash(Apply(c, s).canonical[d])
    ensures Due(c.time.value, p.sec, c.config.value.oracles.voting.delay)
  {
    var ripe := RipeObservations(c);
    PromotePartitions(c.oracle, c.time.value, c.config.value.oracles.voting.delay);
    assert d in ChangesOf(c.oracle, ripe);
    p :| p in ripe && p.key == d;
  }

  /**
    Every canonical entry was approved by a quorum of distinct oracles, each authorized when it
    observed and with its latest, unexpired observation for exactly this value; the change then
    stayed pending, unreplaced, for at least the delay in force when it was promoted; and the entry
    has not changed since.
   */
  lemma {:induction false} CanonicalProvenance(h: History, n: nat, d: Domain)
    returns (i: nat, j: nat, w: OracleVoteValue, oracles: set<Bytes>)
    requires IsHistory(h) && n < |h.states| && d in h.states[n].canonical
    ensures i < j < n && w.hashObserved == Hash(h.states[n].canonical[d])
    ensures Approved(h, i, d, w, oracles)
    ensures PromotedAt(h, i, j, d, w)
    ensures CanonicalSince(h, j, n, d, h.states[n].canonical[d])
  {
    hide Invariant, Approved, PromotedAt, Enabled, Apply;
    if n == 0 {
      GenesisIsBlank(h);
    } else if d in h.states[n - 1].canonical && h.states[n - 1].canonical[d] == h.states[n].canonical[d] {
      i, j, w, oracles := CanonicalProvenance(h, n - 1, d);
    } else {
      j := n - 1;
      i, w, oracles := FreshEntryProvenance(h, n - 1, d);
    }
  }

  lemma GenesisIsBlank(h: History)
    requires IsHistory(h)
    ensures h.states[0].canonical == map[]
  {}

  /** An entry that one step brought into the canonical map was promoted by it. */
  lemma FreshEntryProvenance(h: History, j: nat, d: Domain) returns (i: nat, w: OracleVoteValue, oracles: set<Bytes>)
    requires IsHistory(h) && j < |h.steps| && d in h.states[j + 1].canonical
    requires d !in h.states[j].canonical || h.states[j].canonical[d] != h.states[j + 1].canonical[d]
    ensures i < j && w.hashObserved == Hash(h.states[j + 1].canonical[d])
    ensures Approved(h, i, d, w, oracles)
    ensures PromotedAt(h, i, j, d, w)
  {
    hide Approved;
    InvariantHolds(h, j);
    assert IsStep(h, j);
    var p := CanonicalChange(PhaseAt(h, j), h.states[j], h.steps[j], d);
    w := h.states[j].oracle.pending[p];
    i, oracles := PendingProvenance(h, j, p);
  }

  lemma CastTime(h: History, i: nat)
    requires IsHistory(h) && i < |h.steps| && OracleEvents(h)[i].CastEvent?
    ensures h.states[i].time == Some(OracleEvents(h)[i].vote.time)
  {
    assert IsStep(h, i) && OracleEvents(h)[i] == OracleEvent(h.states[i], h.steps[i]);
  }

  lemma PendingInOracle(h: History, i: nat, n: nat, p: PendingKey<Domain>, w: OracleVoteValue)
    requires n < |h.states| && PendingThroughout(OracleQueues(h), i, n, p, w)
    ensures forall l :: i < l <= n ==> p in h.states[l].oracle.pending && h.states[l].oracle.pending[p] == w
  {
    forall l | i < l <= n
      ensures p in h.states[l].oracle.pending && h.states[l].oracle.pending[p] == w
    {
      assert p in OracleQueues(h)[l].pending && OracleQueues(h)[l].pending[p] == w;
    }
  }

  /** Every pending change was approved at its timestamp and has been pending since. */
  lemma PendingProvenance(h: History, n: nat, p: PendingKey<Domain>) returns (i: nat, oracles: set<Bytes>)
    requires IsHistory(h) && n < |h.states| && p in h.states[n].oracle.pending
    ensures i < n && Approved(h, i, p.key, h.states[n].oracle.pending[p], oracles)
    ensures h.states[i].time.Some? && Second(h.states[i].time.value) == p.sec
    ensures forall l :: i < l <= n ==>
      p in h.states[l].oracle.pending && h.states[l].oracle.pending[p] == h.states[n].oracle.pending[p]
  {
    hide Approved, Decided, IsQueueRun, IsHistory;
    OracleQueueRuns(h);
    var qs, es := OracleQueues(h), OracleEvents(h);
    i := PendingWasDecided(qs, es, n, p);
    CastTime(h, i);
    oracles := DecidedIsApproved(h, i, p.key, qs[n].pending[p]);
    PendingInOracle(h, i, n, p, qs[n].pending[p]);
  }

  /**
    The delay is measured from a timestamp cut to whole seconds, so the time between approval and
    promotion can fall short of the delay, by less than a second.
   */
  lemma DelayUpToASecond(h: History, i: nat, j: nat, d: Domain, w: OracleVoteValue)
    requires IsHistory(h) && PromotedAt(h, i, j, d, w)
    requires 0 < h.states[j].config.value.oracles.voting.delay
    ensures h.states[j].time.value - h.states[i].time.value
            > (h.states[j].config.value.oracles.voting.delay - 1) * NANOS
  {}
}
