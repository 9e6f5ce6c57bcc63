/** How long an approved configuration waits, and that it takes effect. */
module ConfigEffects {
  import opened AdminProvenance
  import opened Basics
  import opened ChainModel
  import opened ConfigChain
  import opened Configs
  import opened Decisions
  import opened Hex
  import opened Histories
  import opened Provenance
  import opened QueueLaws
  import opened QueueRuns
  import opened Times
  import opened VoteQueues

  lemma RipeIsDue(c: Chain, p: PendingKey<()>)
    requires c.config.Some? && c.time.Some? && Valid(c.admin) && NonNegative(c.admin)
    ensures p in RipeConfigs(c)
      <==> p in c.admin.pending && Due(c.time.value, p.sec, c.config.value.admins.voting.delay)
  {
    PromotePartitions(c.admin, c.time.value, c.config.value.admins.voting.delay);
  }

  lemma RipeInRun(h: History, j: nat, p: PendingKey<()>)
    requires IsHistory(h) && j < |h.steps| && h.states[j].time.Some? && h.states[j].config.Some?
    ensures p in RipeConfigs(h.states[j])
      <==> p in h.states[j].admin.pending && Due(h.states[j].time.value, p.sec, ConfigAt(h, j).admins.voting.delay)
    ensures ConfigAt(h, j) == h.states[j].config.value && p == PendingKey((), p.sec)
  {
    StepAt(h, j);
    assert p.key == ();
    hide IsHistory, Apply, Enabled, Scheduled, RipeConfigs, Valid, NonNegative;
    RipeIsDue(h.states[j], p);
  }

  /** In any state, whatever is pending, promotion takes a newer configuration when one is ripe and never an older one. */
  lemma PromotionNeverGoesBack(c: Chain)
    requires c.config.Some? && c.time.Some? && Valid(c.admin) && NonNegative(c.admin)
    ensures PromoteConfig(c).config.Some?
    ensures
      var now, next := c.config.value, PromoteConfig(c).config.value;
      && (next == now || now.version < next.version)
      && (next != now ==> exists p ::
            p in c.admin.pending && c.admin.pending[p] == next && Due(c.time.value, p.sec, now.admins.voting.delay))
      && (next == now ==> forall p ::
            p in c.admin.pending && Due(c.time.value, p.sec, now.admins.voting.delay) ==>
              c.admin.pending[p].version <= now.version)
  {
    PromotePartitions(c.admin, c.time.value, c.config.value.admins.voting.delay);
  }

  /** Step i decided on the configuration, and from then on up to step j it is pending and waits for the delay in force. */
  ghost predicate WaitedForDelay(h: History, i: nat, j: nat, w: Config)
    requires |h.states| == |h.steps| + 1
  {
    && i < j < |h.steps|
    && h.states[i].time.Some? && h.states[j].time.Some? && h.states[j].config.Some?
    && WaitedFrom(h, i, j, PendingKey((), Second(h.states[i].time.value)), w)
    && Due(h.states[j].time.value, Second(h.states[i].time.value), h.states[j].config.value.admins.voting.delay)
  }

  /**
    Every change of the configuration is the promotion of one that a quorum of admins had approved, that
    has been pending since, and that has waited for the delay of the configuration which approved it.
   */
  lemma ChangesHaveWaited(h: History, j: nat) returns (i: nat, admins: set<Bytes>)
    requires IsHistory(h) && j < |h.steps| && ConfigAt(h, j + 1) != ConfigAt(h, j)
    ensures |h.states| == |h.steps| + 1 && h.steps[j] == PromoteConfigStep
    ensures WaitedForDelay(h, i, j, ConfigAt(h, j + 1))
    ensures ConfigAt(h, i) == ConfigAt(h, j)
    ensures ApprovedByAdmins(h, i, ConfigAt(h, j + 1), admins)
  {
    var p := ChangeIsRipe(h, j);
    i, admins := ConfigReplacesItsApprover(h, j, p);
    assert |h.states| == |h.steps| + 1;
    hide IsHistory, ConfigAt, ApprovedByAdmins, RipeConfigs, WaitedFrom;
    RipeInRun(h, j, p);
  }

  // ---------- The way to the configuration in force ----------

  /** All queued proposals are newer than the pending configuration, so a winner always displaces it. */
  lemma WinnerIsNew(c: Chain, r: Reconfigure, w: Config, p: PendingKey<()>)
    requires Invariant(InBlock, c) && MayReconfigure(c, r) && Enabled(c, ReconfigureStep(r, Some(w)))
    requires p in c.admin.pending
    ensures c.admin.pending[p] != w
  {
    var q0 := PutVote(c.admin, ReconfigurationVote(c, r));
    var a :| a in Supporters(q0, (), w);
    assert a in c.admin.votes || w == r.config;
  }

  lemma WinnerIsNotPending(c: Chain, r: Reconfigure, w: Config)
    requires Invariant(InBlock, c) && MayReconfigure(c, r) && Enabled(c, ReconfigureStep(r, Some(w)))
    ensures !PendingAs(c.admin, (), w) && Valid(c.admin)
  {
    hide Enabled, MayReconfigure, Valid, NonNegative, Entries;
    if PendingAs(c.admin, (), w) {
      var p :| p in c.admin.pending && c.admin.pending[p] == w;
      WinnerIsNew(c, r, w, p);
    }
  }

  lemma NewEntryAlone(pending: map<PendingKey<()>, Config>, sec: Seconds, w: Config)
    requires forall p :: p in pending ==> p.sec == sec && pending[p] == w
    requires pending != map[]
    ensures pending == map[PendingKey((), sec) := w]
  {
    assert forall p: PendingKey<()> :: p.key == ();
    var p :| p in pending;
    assert p == PendingKey((), sec);
  }

  /** A decision leaves exactly its configuration pending, from the second of the decision on. */
  lemma DecisionReplacesPending(c: Chain, r: Reconfigure, w: Config)
    requires Invariant(InBlock, c) && MayReconfigure(c, r) && Enabled(c, ReconfigureStep(r, Some(w)))
    ensures Apply(c, ReconfigureStep(r, Some(w))).admin.pending == map[PendingKey((), Second(c.time.value)) := w]
  {
    WinnerIsNotPending(c, r, w);
    hide Invariant, CastVote, LegalWinner, MayReconfigure, Valid, NonNegative, Entries, PendingAs;
    var v := ReconfigurationVote(c, r);
    CastPending(c.admin, v, Some(w), NoLimit());
    var q := CastVote(c.admin, v, Some(w), NoLimit()).0;
    assert () in PendingKeys(q);
    assert forall p :: p in q.pending ==> p.key == ();
    NewEntryAlone(q.pending, Second(c.time.value), w);
  }

  lemma PendingConfigStays(h: History, i: nat, n: nat, p: PendingKey<()>, w: Config)
    requires IsHistory(h) && i <= n < |h.states|
    requires p in h.states[i].admin.pending && h.states[i].admin.pending[p] == w
    requires forall l :: i <= l < n ==> l < |h.steps| && LeavesPending(AdminEvents(h)[l], p, w)
    ensures p in h.states[n].admin.pending && h.states[n].admin.pending[p] == w
  {
    hide *;
    AdminQueueRuns(h);
    PendingStays(AdminQueues(h), AdminEvents(h), i, n, p, w);
  }

  /**
    A pending configuration is in force after the first block at its timestamp plus the delay, unless
    another one wins before.
   */
  lemma InstalledInFirstRipeBlock(h: History, i: nat, m: nat, p: PendingKey<()>, w: Config)
    requires IsHistory(h) && i <= m < |h.steps| && |h.states| == |h.steps| + 1
    requires p in h.states[i].admin.pending && h.states[i].admin.pending[p] == w
    requires forall l :: i <= l < m ==> LeavesPending(AdminEvents(h)[l], p, w)
    requires h.steps[m] == PromoteConfigStep && h.states[m].time.Some?
    requires (p.sec + ConfigAt(h, m).admins.voting.delay) * NANOS <= h.states[m].time.value
    ensures ConfigAt(h, m + 1) == w && h.states[m + 1].admin.pending == map[]
  {
    PendingConfigStays(h, i, m, p, w);
    assert Due(h.states[m].time.value, p.sec, ConfigAt(h, m).admins.voting.delay);
    assert h.states[m].config.Some? by { InvariantHolds(h, m); }
    hide *;
    RipeInRun(h, m, p);
    SkipGuardNeverFires(h, m, p);
  }

  /**
    The way of a configuration into force: one that a quorum of distinct admins endorses is installed by
    the first block at its timestamp plus the delay, unless another one wins before.
   */
  lemma EndorsedConfigTakesEffect(h: History, i: nat, m: nat, w: Config, admins: set<Bytes>)
    requires IsHistory(h) && AdminQuorumNeverLowered(h) && |h.states| == |h.steps| + 1
    requires i < m < |h.steps| && AdminEvents(h)[i].CastEvent? && QuorumEndorses(h, i, w, admins)
    requires h.states[i].time.Some?
    requires forall l :: i < l < m ==>
      LeavesPending(AdminEvents(h)[l], PendingKey((), Second(h.states[i].time.value)), w)
    requires h.steps[m] == PromoteConfigStep && h.states[m].time.Some?
    requires (Second(h.states[i].time.value) + ConfigAt(h, m).admins.voting.delay) * NANOS <= h.states[m].time.value
    ensures ConfigAt(h, m + 1) == w && h.states[m + 1].admin.pending == map[]
  {
    hide *;
    EndorsedConfigIsPending(h, i, w, admins);
    InstalledInFirstRipeBlock(h, i + 1, m, PendingKey((), Second(h.states[i].time.value)), w);
  }

  lemma EndorsedConfigWins(h: History, i: nat, w: Config, admins: set<Bytes>)
    requires IsHistory(h) && AdminQuorumNeverLowered(h) && i < |h.steps| && |h.states| == |h.steps| + 1
    requires AdminEvents(h)[i].CastEvent? && QuorumEndorses(h, i, w, admins)
    ensures h.steps[i].ReconfigureStep? && h.steps[i].choice == Some(w)
  {
    AdminQuorumDecides(h, i, w, admins);
    AdminsBelowQuorum(h, i);
    StepAt(h, i);
    CastIsProposal(h, i);
    hide IsHistory, AdminEvents, QuorumEndorses, LegalWinner, PutVote, BelowQuorum, MayReconfigure, Apply;
    var c := h.states[i];
    var v, quorum := ReconfigurationVote(c, h.steps[i].reconfigure), c.config.value.admins.voting.quorum;
    OnlyTheCastValueWins(c.admin, v, quorum, h.steps[i].choice);
    OnlyTheCastValueWins(c.admin, v, quorum, Some(w));
  }

  lemma EndorsedConfigIsPending(h: History, i: nat, w: Config, admins: set<Bytes>)
    requires IsHistory(h) && AdminQuorumNeverLowered(h) && i < |h.steps| && |h.states| == |h.steps| + 1
    requires AdminEvents(h)[i].CastEvent? && QuorumEndorses(h, i, w, admins) && h.states[i].time.Some?
    ensures h.states[i + 1].admin.pending == map[PendingKey((), Second(h.states[i].time.value)) := w]
  {
    EndorsedConfigWins(h, i, w, admins);
    StepAt(h, i);
    CastIsProposal(h, i);
    hide IsHistory, AdminEvents, QuorumEndorses, Apply, Enabled, Scheduled, MayReconfigure;
    DecisionReplacesPending(h.states[i], h.steps[i].reconfigure, w);
  }
}
