/** How long pending observations wait, and that a checked observation is never lost to an error. */
module PendingChanges {
  import opened ChainModel
  import opened Domains
  import opened Histories
  import opened Provenance
  import opened QueueLaws
  import opened QueueRuns
  import opened Times
  import opened VoteQueues

  /** The step lets the pending change be: no other value wins for its name, and no promotion finds it ripe. */
  ghost predicate LetsBe(h: History, l: nat, p: PendingKey<Domain>, w: OracleVoteValue)
    requires IsHistory(h) && l < |h.steps|
  {
    LeavesPending(OracleEvents(h)[l], p, w)
  }

  /**
    Once a value is pending for a name, later quorums for the same value do not touch its
    timestamp: as long as no other value wins and no promotion finds it ripe, the entry stays.
   */
  lemma NoTimerReset(h: History, i: nat, n: nat, p: PendingKey<Domain>, w: OracleVoteValue)
    requires IsHistory(h) && i <= n < |h.states|
    requires p in h.states[i].oracle.pending && h.states[i].oracle.pending[p] == w
    requires forall l :: i <= l < n ==> LetsBe(h, l, p, w)
    ensures p in h.states[n].oracle.pending && h.states[n].oracle.pending[p] == w
  {
    OracleQueueRuns(h);
    var qs, es := OracleQueues(h), OracleEvents(h);
    forall l | i <= l < n
      ensures LeavesPending(es[l], p, w)
    {
      assert LetsBe(h, l, p, w);
    }
    PendingStays(qs, es, i, n, p, w);
  }

  /** The effect of a promotion on a pending change: taken out and made canonical exactly when ripe. */
  lemma PromotionOf(c: Chain, p: PendingKey<Domain>)
    requires Invariant(Reconfigured, c) && p in c.oracle.pending
    ensures
      var d, w := PromoteCanonical(c), c.oracle.pending[p];
      if Due(c.time.value, p.sec, c.config.value.oracles.voting.delay) then
        && p !in d.oracle.pending
        && (w.hashObserved.Hash? ==> p.key in d.canonical && d.canonical[p.key] == w.hashObserved.bytes)
        && (w.hashObserved.NotFound? ==> p.key !in d.canonical)
      else
        p in d.oracle.pending && d.oracle.pending[p] == w
  {
    var delay := c.config.value.oracles.voting.delay;
    PromotePartitions(c.oracle, c.time.value, delay);
    if Due(c.time.value, p.sec, delay) {
      var changes := ChangesOf(c.oracle, RipeObservations(c));
      assert p in RipeObservations(c);
      assert p.key in changes && changes[p.key] == c.oracle.pending[p].hashObserved;
    }
  }

  /**
    Bounded wait: unless another value wins for the name before, a pending change takes effect in the
    first block whose time is at least its timestamp plus the delay then in force.
   */
  lemma PromotedInFirstRipeBlock(h: History, i: nat, m: nat, p: PendingKey<Domain>, w: OracleVoteValue)
    requires IsHistory(h) && i <= m < |h.steps|
    requires p in h.states[i].oracle.pending && h.states[i].oracle.pending[p] == w
    requires forall l :: i <= l < m ==> LetsBe(h, l, p, w)
    requires h.steps[m] == PromoteCanonicalStep && h.states[m].time.Some? && h.states[m].config.Some?
    requires p.sec * NANOS + h.states[m].config.value.oracles.voting.delay * NANOS <= h.states[m].time.value
    ensures p !in h.states[m + 1].oracle.pending
    ensures w.hashObserved.Hash? ==>
      p.key in h.states[m + 1].canonical && h.states[m + 1].canonical[p.key] == w.hashObserved.bytes
    ensures w.hashObserved.NotFound? ==> p.key !in h.states[m + 1].canonical
  {
    NoTimerReset(h, i, m, p, w);
    StepAt(h, m);
    PromotionOf(h.states[m], p);
  }

  /**
    The subtraction of depths in a cast never fails in a run: an observation that passes the checks
    is always accepted.
   */
  lemma CheckedObservationsAreAccepted(h: History, i: nat)
    requires IsHistory(h) && i < |h.steps| && h.steps[i].ObserveStep?
    requires Enabled(h.states[i], h.steps[i]) && MayObserve(h.states[i], h.steps[i].observe)
    ensures Accepted(h.states[i], h.steps[i])
  {
    InvariantHolds(h, i);
    var c, o := h.states[i], h.steps[i].observe;
    CastSucceeds(c.oracle, ObservationVote(c, o), c.config.value.oracles.voting.quorum, h.steps[i].winner,
                 SubdomainRule(c.canonical.Keys, c.config.value.oracles.maxEnrolledSubdomains), Zoned());
  }

  lemma EntryIsZoned(phase: Phase, c: Chain, d: Domain, w: OracleVoteValue)
    requires Invariant(phase, c)
    requires
      || (exists a :: a in c.oracle.votes && a.key == d && c.oracle.votes[a] == w)
      || (exists p :: p in c.oracle.pending && p.key == d && c.oracle.pending[p] == w)
    ensures StrictlyUnder(d, w.zone)
  {
    hide Valid, NonNegative;
    assert Zoned()(d, w);
  }

  lemma RegisteredByDepth(d: Domain, zone: Domain)
    requires StrictlyUnder(d, zone)
    ensures RegisteredDomain(d, zone).Some? && |Hierarchy(d)| == |d| && |zone| < |d|
    ensures Hierarchy(d)[|d| - |zone| - 1] == RegisteredDomain(d, zone).value
    ensures RegisteredDomain(d, zone).value[1..] == zone
  {
    RegisteredIsBelowZone(d, zone);
  }

  /**
    In every state, every vote and pending change of the oracle queue is strictly below its zone, so
    the hierarchy lookup finds the ancestor with one more label than the zone.
   */
  lemma EveryEntryHasRegisteredDomain(h: History, i: nat, d: Domain, w: OracleVoteValue)
    requires IsHistory(h) && i < |h.states|
    requires
      || (exists a :: a in h.states[i].oracle.votes && a.key == d && h.states[i].oracle.votes[a] == w)
      || (exists p :: p in h.states[i].oracle.pending && p.key == d && h.states[i].oracle.pending[p] == w)
    ensures StrictlyUnder(d, w.zone) && RegisteredDomain(d, w.zone).Some?
    ensures Hierarchy(d)[|d| - |w.zone| - 1] == RegisteredDomain(d, w.zone).value
    ensures RegisteredDomain(d, w.zone).value[1..] == w.zone
  {
    hide IsHistory, Invariant, Hierarchy, RegisteredDomain;
    GenesisInvariant(h);
    InvariantHolds(h, i);
    EntryIsZoned(PhaseAt(h, i), h.states[i], d, w);
    RegisteredByDepth(d, w.zone);
  }
}
