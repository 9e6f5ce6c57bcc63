/**
  What becomes of a decision: exactly when the subdomain limit lets the winner become pending, and
  that a supported change which it admits takes effect.
 */
module Admission {
  import opened Agreement
  import opened Basics
  import opened CanonicalRuns
  import opened ChainModel
  import opened Decisions
  import opened Domains
  import opened Hex
  import opened Histories
  import opened PendingChanges
  import opened QueueLaws
  import opened Times
  import opened VoteQueues

  /** The names that end in the last `depth` labels of `d` and are canonical, or pending unless they are `d` itself. */
  ghost function CountedBeside(c: Chain, d: Domain, depth: nat): set<Domain>
    requires depth <= |d|
  {
    set x: Domain | x in c.canonical.Keys + (set p | p in c.oracle.pending && p.key != d :: p.key)
                    && depth <= |x| && x[|x| - depth..] == d[|d| - depth..]
  }

  ghost predicate PendingWith(c: Chain, d: Domain, w: OracleVoteValue) {
    exists p :: p in c.oracle.pending && p.key == d && c.oracle.pending[p] == w
  }

  /** The change is pending already, the name is enrolled already, or there is room below the zone of the change. */
  ghost predicate HasRoom(c: Chain, d: Domain, w: OracleVoteValue)
    requires c.config.Some? && |w.zone| < |d|
  {
    || PendingWith(c, d, w)
    || d in c.canonical
    || |CountedBeside(c, d, |w.zone| + 1)| < c.config.value.oracles.maxEnrolledSubdomains
  }

  lemma CountedIsBelow(c: Chain, d: Domain, r: Domain)
    requires Under(d, r)
    ensures CountedBeside(c, d, |r|) == Below(PendingKeys(c.oracle) - {d} + c.canonical.Keys, r)
    ensures d in CountedBeside(c, d, |r|) <==> d in c.canonical
  {}

  lemma RuleIsRoom(c: Chain, d: Domain, w: OracleVoteValue, max: nat)
    requires StrictlyUnder(d, w.zone)
    ensures |w.zone| < |d|
    ensures SubdomainRule(c.canonical.Keys, max)(PendingKeys(c.oracle) - {d}, d, w) == Admit
      <==> d in c.canonical || |CountedBeside(c, d, |w.zone| + 1)| < max
  {
    RegisteredIsBelowZone(d, w.zone);
    CountedIsBelow(c, d, RegisteredDomain(d, w.zone).value);
    hide CountedBeside, Below, RegisteredDomain;
  }

  lemma WinnerIsZoned(c: Chain, o: Observe, w: OracleVoteValue)
    requires Invariant(InBlock, c) && Enabled(c, ObserveStep(o, Some(w))) && MayObserve(c, o)
    ensures StrictlyUnder(o.domain, w.zone) && |w.zone| < |o.domain|
  {
    var rule := SubdomainRule(c.canonical.Keys, c.config.value.oracles.maxEnrolledSubdomains);
    CastKeepsEntries(c.oracle, ObservationVote(c, o), c.config.value.oracles.voting.quorum, Some(w), rule, Zoned());
    assert Zoned()(o.domain, w);
    RegisteredIsBelowZone(o.domain, w.zone);
  }

  /** What a decision leaves pending for its name: the winner, with its old timer or a new one, or nothing. */
  ghost predicate Settled(c: Chain, e: Chain, d: Domain, w: OracleVoteValue, room: bool)
    requires c.time.Some?
  {
    && (PendingWith(c, d, w) ==> e.oracle.pending == c.oracle.pending)
    && (!PendingWith(c, d, w) && room ==>
        var p := PendingKey(d, Second(c.time.value)); p in e.oracle.pending && e.oracle.pending[p] == w)
    && (!PendingWith(c, d, w) && !room ==> forall p :: p in e.oracle.pending ==> p.key != d)
  }

  /**
    A decision makes its value pending if and only if it is pending already, or the name is canonical, or
    the names counted below the registered domain are fewer than the limit. So an update or a deletion of
    an enrolled name is never dropped.
   */
  lemma WinnerIsPendingIff(c: Chain, o: Observe, w: OracleVoteValue)
    requires Invariant(InBlock, c) && Enabled(c, ObserveStep(o, Some(w))) && MayObserve(c, o)
    ensures |w.zone| < |o.domain|
    ensures PendingWith(Apply(c, ObserveStep(o, Some(w))), o.domain, w) <==> HasRoom(c, o.domain, w)
    ensures Settled(c, Apply(c, ObserveStep(o, Some(w))), o.domain, w, HasRoom(c, o.domain, w))
  {
    WinnerIsZoned(c, o, w);
    var max := c.config.value.oracles.maxEnrolledSubdomains;
    RuleIsRoom(c, o.domain, w, max);
    CastPending(c.oracle, ObservationVote(c, o), Some(w), SubdomainRule(c.canonical.Keys, max));
    hide CountedBeside, SubdomainRule, CastVote, LegalWinner, MayObserve, Valid, NonNegative, Entries;
  }

  /**
    The way to the canonical map: a value that a quorum of distinct oracles supports, and that finds room,
    is canonical after the first block at its timestamp plus the delay, unless another value wins for the
    name before; and it stays until another change for the name is promoted.
   */
  lemma SupportedChangeTakesEffect(
      h: History, i: nat, m: nat, n: nat, d: Domain, w: OracleVoteValue, oracles: set<Bytes>)
    requires IsHistory(h) && OracleQuorumNeverLowered(h) && |h.states| == |h.steps| + 1
    requires i < m < |h.steps| && m < n < |h.states|
    requires ObservesAbout(h, i, d) && QuorumSupports(h, i, d, w, oracles)
    requires |w.zone| < |d| && HasRoom(h.states[i], d, w) && !PendingWith(h.states[i], d, w)
    requires h.states[i].time.Some?
    requires forall l :: i < l < m ==> LetsBe(h, l, PendingKey(d, Second(h.states[i].time.value)), w)
    requires h.steps[m] == PromoteCanonicalStep && h.states[m].time.Some? && h.states[m].config.Some?
    requires h.states[m].time.value
             >= (Second(h.states[i].time.value) + h.states[m].config.value.oracles.voting.delay) * NANOS
    requires forall k :: m < k < n ==> LeavesName(h, k, d)
    ensures d in h.states[n].canonical <==> w.hashObserved.Hash?
    ensures w.hashObserved.Hash? ==> h.states[n].canonical[d] == w.hashObserved.bytes
  {
    hide *;
    var p := PendingKey(d, Second(h.states[i].time.value));
    DecisionIsPending(h, i, d, w, oracles);
    PromotedInFirstRipeBlock(h, i + 1, m, p, w);
    CanonicalStays(h, m + 1, n, d);
  }

  lemma DecisionIsPending(h: History, i: nat, d: Domain, w: OracleVoteValue, oracles: set<Bytes>)
    requires IsHistory(h) && OracleQuorumNeverLowered(h) && i < |h.steps| && |h.states| == |h.steps| + 1
    requires ObservesAbout(h, i, d) && QuorumSupports(h, i, d, w, oracles)
    requires |w.zone| < |d| && HasRoom(h.states[i], d, w) && !PendingWith(h.states[i], d, w)
    requires h.states[i].time.Some?
    ensures var p := PendingKey(d, Second(h.states[i].time.value));
            p in h.states[i + 1].oracle.pending && h.states[i + 1].oracle.pending[p] == w
  {
    SupportedValueWins(h, i, d, w, oracles);
    StepAt(h, i);
    hide IsHistory, Apply, Enabled, Scheduled, HasRoom, PendingWith, MayObserve, QuorumSupports;
    WinnerIsPendingIff(h.states[i], h.steps[i].observe, w);
  }
}
