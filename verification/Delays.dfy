/** Exactly when the wait of a pending change is as long as the delay. */
module Delays {
  import opened Basics
  import opened ChainModel
  import opened Domains
  import opened Hex
  import opened Histories
  import opened ObservationRuns
  import opened Provenance
  import opened QueueRuns
  import opened QuietSteps
  import opened Times
  import opened VoteQueues

  /** For a single entry: ripe entries are as old as the delay if and only if they were made at a whole second. */
  lemma RipeMeansWaitedIff(t: Time, delay: nat)
    requires 1 <= delay && Second(t) + delay <= MAX_SECOND
    ensures (forall now: Time :: t <= now && Due(now, Second(t), delay) ==> delay * NANOS <= now - t) <==> t % NANOS == 0
  {
    var now: Time := (Second(t) + delay) * NANOS;
    assert Due(now, Second(t), delay) && t <= now;
    if t % NANOS != 0 {
      assert now - t < delay * NANOS;
    }
  }

  /** In every run, a change approved at `t` and promoted under `delay` has waited for the whole delay. */
  ghost predicate AlwaysWaits(t: Time, delay: nat) {
    forall h: History, i: nat, j: nat, d: Domain, w: OracleVoteValue, oracles: set<Bytes> ::
      IsHistory(h) && PromotedAt(h, i, j, d, w) && Approved(h, i, d, w, oracles) && WaitBetween(h, i, j, t, delay) ==>
        delay * NANOS <= h.states[j].time.value - t
  }

  ghost predicate WaitBetween(h: History, i: nat, j: nat, t: Time, delay: nat) {
    && i < |h.states| && j < |h.states|
    && h.states[i].time == Some(t)
    && h.states[j].time.Some? && h.states[j].config.Some?
    && h.states[j].config.value.oracles.voting.delay == delay
  }

  lemma {:induction false} TimeNeverFalls(h: History, i: nat, j: nat)
    requires IsHistory(h) && i <= j < |h.states| && h.states[i].time.Some?
    ensures h.states[j].time.Some? && h.states[i].time.value <= h.states[j].time.value
  {
    hide IsHistory, Invariant, Apply, Enabled, Scheduled;
    if i < j {
      TimeNeverFalls(h, i, j - 1);
      GenesisInvariant(h);
      StepAt(h, j - 1);
      StepKeepsTime(PhaseAt(h, j - 1), h.states[j - 1], h.steps[j - 1]);
    }
  }

  lemma StepKeepsTime(phase: Phase, c: Chain, s: Step)
    requires Enabled(c, s) && Scheduled(phase, c, s) && c.time.Some?
    ensures Apply(c, s).time.Some? && c.time.value <= Apply(c, s).time.value
  {}

  // ---------- A run with a short wait ----------

  /** From this state this step was taken, and ever since the change is pending. */
  ghost predicate Tracks(h: History, i: nat, c: Chain, s: Step, p: PendingKey<Domain>, w: OracleVoteValue) {
    && i < |h.states| && i < |h.steps| && h.states[i] == c && h.steps[i] == s
    && forall l :: i < l < |h.states| ==> p in h.states[l].oracle.pending && h.states[l].oracle.pending[p] == w
  }

  lemma ExtendTracking(
      h: History, phase: Phase, c: Chain, s: Step, d: Chain, i: nat, a: Chain, b: Step, p: PendingKey<Domain>,
      w: OracleVoteValue)
    returns (g: History)
    requires EndsWith(h, phase, c) && Takes(phase, c, s, d) && Tracks(h, i, a, b, p, w)
    requires p in d.oracle.pending && d.oracle.pending[p] == w
    ensures |g.steps| == |h.steps| + 1 && EndsWith(g, PhaseAfter(s), d) && Tracks(g, i, a, b, p, w)
  {
    hide EndsWith, Takes;
    g := Extend(h, phase, c, s, d);
  }

  const NAME: Domain := ["a", "b"]
  const ZONE: Domain := []

  function Entry(t: Time): PendingKey<Domain> {
    PendingKey(NAME, Second(t))
  }

  ghost function Ready(t: Time, delay: nat): Chain {
    ObservationRuns.BlockTwo(OneOracle(1, delay), t, map[])
  }

  function Decision(): Step {
    ObserveStep(Seen(NAME, ZONE), Some(SeenValue(ZONE)))
  }

  ghost function Pending(t: Time, delay: nat): Chain {
    ObservationRuns.BlockTwo(OneOracle(1, delay), t, map[Entry(t) := SeenValue(ZONE)])
  }

  ghost function PendingRecorded(t: Time, delay: nat): Chain {
    Pending(t, delay).(appHashes := map[0 := HASH, 1 := HASH])
  }

  ghost function NextBlock(t: Time, delay: nat, now: Time): Chain {
    PendingRecorded(t, delay).(height := Some(3), time := Some(now), blockTimes := map[1 := t, 2 := t, 3 := now])
  }

  lemma NameIsAdmissible()
    ensures Admissible(map[], 1, NAME, ZONE)
  {
    assert Below({} + {}, RegisteredDomain(NAME, ZONE).value) == {};
    assert PendingKeys(OnlyPending(map[])) == {};
  }

  lemma StepsOfSecondBlock(t: Time, delay: nat)
    requires 0 <= t && 1 <= delay
    ensures Takes(InBlock, Ready(t, delay), Decision(), Pending(t, delay))
    ensures Takes(InBlock, Pending(t, delay), PromoteConfigStep, Pending(t, delay))
    ensures Takes(Reconfigured, Pending(t, delay), PromoteCanonicalStep, Pending(t, delay))
    ensures Takes(Between, Pending(t, delay), RecordHash(HASH), PendingRecorded(t, delay))
  {
    hide Takes, Admissible;
    NameIsAdmissible();
    Decides(1, delay, t, map[], NAME, ZONE);
    NoConfigChange(Pending(t, delay));
    NoCanonicalChange(Pending(t, delay));
    HashRecorded(Pending(t, delay), HASH);
  }

  lemma StepsOfThirdBlock(t: Time, delay: nat, now: Time)
    requires 0 <= t <= now
    ensures Takes(Recorded, PendingRecorded(t, delay), BeginBlock(3, now), NextBlock(t, delay, now))
    ensures Takes(InBlock, NextBlock(t, delay, now), PromoteConfigStep, NextBlock(t, delay, now))
    ensures Enabled(NextBlock(t, delay, now), PromoteCanonicalStep)
  {
    hide Takes;
    BlockBegins(Recorded, PendingRecorded(t, delay), 3, now);
    NoConfigChange(NextBlock(t, delay, now));
  }

  lemma LastStep(c: Chain)
    requires Enabled(c, PromoteCanonicalStep)
    ensures Takes(Reconfigured, c, PromoteCanonicalStep, Apply(c, PromoteCanonicalStep))
  {}

  /** A change approved at `t` that waits until a block at `now`. */
  lemma WaitingRun(t: Time, delay: nat, now: Time) returns (h: History)
    requires 0 <= t <= now && 1 <= delay
    ensures |h.steps| == 11 && EndsWith(h, Reconfigured, NextBlock(t, delay, now))
    ensures Tracks(h, 5, Ready(t, delay), Decision(), Entry(t), SeenValue(ZONE))
  {
    hide EndsWith, Takes, Enabled;
    h := ReadyToObserve(OneOracle(1, delay), t);
    StepsOfSecondBlock(t, delay);
    StepsOfThirdBlock(t, delay, now);
    var p, w := Entry(t), SeenValue(ZONE);
    var a, b := Ready(t, delay), Decision();
    EndsAt(h, InBlock, a);
    h := Extend(h, InBlock, a, b, Pending(t, delay));
    assert Tracks(h, 5, a, b, p, w);
    hide Tracks;
    h := ExtendTracking(h, InBlock, Pending(t, delay), PromoteConfigStep, Pending(t, delay), 5, a, b, p, w);
    h := ExtendTracking(h, Reconfigured, Pending(t, delay), PromoteCanonicalStep, Pending(t, delay), 5, a, b, p, w);
    h := ExtendTracking(h, Between, Pending(t, delay), RecordHash(HASH), PendingRecorded(t, delay), 5, a, b, p, w);
    h := ExtendTracking(h, Recorded, PendingRecorded(t, delay), BeginBlock(3, now), NextBlock(t, delay, now), 5, a, b, p, w);
    h := ExtendTracking(h, InBlock, NextBlock(t, delay, now), PromoteConfigStep, NextBlock(t, delay, now), 5, a, b, p, w);
  }

  lemma EndsAt(h: History, phase: Phase, c: Chain)
    requires EndsWith(h, phase, c)
    ensures IsHistory(h) && |h.states| == |h.steps| + 1 && h.states[|h.steps|] == c
  {}

  /** The decision of the run is the approval of the one oracle. */
  lemma DecisionApproves(h: History, t: Time, delay: nat) returns (oracles: set<Bytes>)
    requires IsHistory(h) && 5 < |h.steps| && |h.states| == |h.steps| + 1
    requires h.states[5] == Ready(t, delay) && h.steps[5] == Decision()
    ensures Approved(h, 5, NAME, SeenValue(ZONE), oracles)
  {
    hide IsHistory, Approved, MayObserve, IsQueueRun, Decided;
    NameIsAdmissible();
    MayBeSeen(1, delay, t, map[], NAME, ZONE);
    OracleEventAt(h, 5);
    OracleQueueRuns(h);
    WinnersAreDecided(OracleQueues(h), OracleEvents(h), 5);
    oracles := DecidedIsApproved(h, 5, NAME, SeenValue(ZONE));
  }

  /** A run in which the change approved at `t` is promoted at the first second at which it is ripe. */
  lemma PromotedRun(t: Time, delay: nat) returns (h: History, now: Time, oracles: set<Bytes>)
    requires 0 <= t && 1 <= delay && Second(t) + delay <= MAX_SECOND
    ensures now == (Second(t) + delay) * NANOS
    ensures IsHistory(h) && PromotedAt(h, 5, 11, NAME, SeenValue(ZONE))
    ensures Approved(h, 5, NAME, SeenValue(ZONE), oracles)
    ensures WaitBetween(h, 5, 11, t, delay) && h.states[11].time == Some(now)
  {
    now := (Second(t) + delay) * NANOS;
    var f := WaitingRun(t, delay, now);
    var c := NextBlock(t, delay, now);
    StepsOfThirdBlock(t, delay, now);
    LastStep(c);
    EndsAt(f, Reconfigured, c);
    hide EndsWith, Takes, Apply, Enabled, IsHistory, Approved, PromotedAt, Tracks, WaitBetween, Ready, NextBlock;
    var d := Apply(c, PromoteCanonicalStep);
    h := Extend(f, Reconfigured, c, PromoteCanonicalStep, d);
    EndsAt(h, Between, d);
    TrackedIsPromoted(f, h, t, delay, now, d);
    oracles := DecisionApproves(h, t, delay);
  }

  lemma TrackedIsPromoted(f: History, h: History, t: Time, delay: nat, now: Time, d: Chain)
    requires IsHistory(h) && |f.states| == |f.steps| + 1 == 12
    requires h == History(f.states + [d], f.steps + [PromoteCanonicalStep])
    requires f.states[11] == NextBlock(t, delay, now) && Due(now, Second(t), delay)
    requires Tracks(f, 5, Ready(t, delay), Decision(), Entry(t), SeenValue(ZONE))
    ensures h.states[5] == Ready(t, delay) && h.steps[5] == Decision()
    ensures PromotedAt(h, 5, 11, NAME, SeenValue(ZONE))
    ensures WaitBetween(h, 5, 11, t, delay) && h.states[11].time == Some(now)
  {
    hide IsHistory, ObservationRuns.BlockTwo;
    assert h.states[11] == f.states[11] && h.states[5] == f.states[5] && h.steps[5] == f.steps[5];
    assert h.steps[11] == PromoteCanonicalStep;
    TimesOfBlocks(t, delay, now);
    forall l | 5 < l <= 11
      ensures Entry(t) in h.states[l].oracle.pending && h.states[l].oracle.pending[Entry(t)] == SeenValue(ZONE)
    {
      assert h.states[l] == f.states[l];
    }
  }

  lemma TimesOfBlocks(t: Time, delay: nat, now: Time)
    ensures Ready(t, delay).time == Some(t)
    ensures NextBlock(t, delay, now).time == Some(now)
    ensures NextBlock(t, delay, now).config == Some(OneOracle(1, delay))
  {}

  /**
    The exact condition over all runs, for approvals from 1970 on: the wait reaches the delay if and
    only if the approval came at a whole second, or there is no delay, or no block can be late enough
    for a promotion.
   */
  lemma AlwaysWaitsIff(t: Time, delay: nat)
    requires 0 <= t
    ensures AlwaysWaits(t, delay) <==> t % NANOS == 0 || delay == 0 || MAX_SECOND < Second(t) + delay
  {
    if t % NANOS == 0 || delay == 0 || MAX_SECOND < Second(t) + delay {
      forall h: History, i: nat, j: nat, d: Domain, w: OracleVoteValue, oracles: set<Bytes>
        | IsHistory(h) && PromotedAt(h, i, j, d, w) && Approved(h, i, d, w, oracles) && WaitBetween(h, i, j, t, delay)
        ensures delay * NANOS <= h.states[j].time.value - t
      {
        WaitsLongEnough(h, i, j, d, w, t, delay);
      }
    } else {
      var h, now, oracles := PromotedRun(t, delay);
      assert now - t < delay * NANOS;
      assert !AlwaysWaits(t, delay) by { hide IsHistory, PromotedAt, Approved; }
    }
  }

  lemma WaitsLongEnough(h: History, i: nat, j: nat, d: Domain, w: OracleVoteValue, t: Time, delay: nat)
    requires IsHistory(h) && PromotedAt(h, i, j, d, w) && WaitBetween(h, i, j, t, delay)
    requires t % NANOS == 0 || delay == 0 || MAX_SECOND < Second(t) + delay
    ensures delay * NANOS <= h.states[j].time.value - t
  {
    TimeNeverFalls(h, i, j);
    hide IsHistory, WaitedUntil;
  }
}
