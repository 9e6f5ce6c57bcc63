/** The chain of configurations in force, over all runs. */
module ConfigChain {
  import opened AdminProvenance
  import opened Basics
  import opened ChainModel
  import opened Configs
  import opened Hex
  import opened Histories
  import opened Provenance
  import opened QueueLaws
  import opened QueueRuns
  import opened Times
  import opened VoteQueues

  ghost function ConfigAt(h: History, i: nat): Config
    requires IsHistory(h) && i < |h.states|
  {
    InvariantHolds(h, i);
    h.states[i].config.value
  }

  /**
    The guard that skips a configuration not newer than the current one never fires: a ripe
    configuration is installed, it is sound and newer, and it leaves nothing pending.
   */
  lemma SkipGuardNeverFires(h: History, j: nat, p: PendingKey<()>)
    requires IsHistory(h) && j < |h.steps| && h.steps[j] == PromoteConfigStep
    requires h.states[j].time.Some? && h.states[j].config.Some? && p in RipeConfigs(h.states[j])
    ensures p in h.states[j].admin.pending
    ensures ConfigAt(h, j + 1) == h.states[j].admin.pending[p]
    ensures ConfigAt(h, j).version < ConfigAt(h, j + 1).version
    ensures Sound(ConfigAt(h, j + 1))
    ensures h.states[j + 1].admin.pending == map[]
  {
    InvariantHolds(h, j);
    assert IsStep(h, j);
    RipeConfigIsInstalled(h.states[j], p);
  }

  /** The step installs a configuration: the one that was pending, sound and newer than the current one. */
  ghost predicate Installs(h: History, j: nat)
    requires IsHistory(h) && j < |h.steps|
  {
    && h.steps[j] == PromoteConfigStep
    && ConfigAt(h, j).version < ConfigAt(h, j + 1).version
    && Sound(ConfigAt(h, j + 1))
    && ConfigAt(h, j + 1) in h.states[j].admin.pending.Values
    && h.states[j + 1].admin.pending == map[]
  }

  /** The configuration in force changes only by being installed. */
  lemma ConfigStaysOrIsInstalled(h: History, j: nat)
    requires IsHistory(h) && j < |h.steps|
    ensures ConfigAt(h, j + 1) == ConfigAt(h, j) || Installs(h, j)
  {
    InvariantHolds(h, j);
    assert IsStep(h, j);
    if h.steps[j] == PromoteConfigStep && RipeConfigs(h.states[j]) != {} {
      var p :| p in RipeConfigs(h.states[j]);
      SkipGuardNeverFires(h, j, p);
    }
  }

  /** Every configuration in force is the genesis one or sound. */
  lemma {:induction false} InstalledConfigsAreSound(h: History, i: nat)
    requires IsHistory(h) && i < |h.states|
    ensures ConfigAt(h, i) == ConfigAt(h, 0) || Sound(ConfigAt(h, i))
  {
    assert |h.states| == |h.steps| + 1;
    hide IsHistory, ConfigAt, Sound;
    if i != 0 {
      InstalledConfigsAreSound(h, i - 1);
      ConfigStaysOrIsInstalled(h, i - 1);
    }
  }

  /** Versions never go back, and a configuration with the same version is the same configuration. */
  lemma {:induction false} VersionsGrow(h: History, i: nat, j: nat)
    requires IsHistory(h) && i <= j < |h.states|
    ensures ConfigAt(h, i).version <= ConfigAt(h, j).version
    ensures ConfigAt(h, i).version == ConfigAt(h, j).version ==> ConfigAt(h, i) == ConfigAt(h, j)
  {
    assert |h.states| == |h.steps| + 1;
    hide IsHistory, ConfigAt, Sound;
    if i < j {
      VersionsGrow(h, i, j - 1);
      ConfigStaysOrIsInstalled(h, j - 1);
    }
  }

  /** While a configuration stays pending, the one in force stays too. */
  lemma {:induction false} NoChangeWhilePending(h: History, i: nat, j: nat, p: PendingKey<()>)
    requires IsHistory(h) && i <= j < |h.states|
    requires forall l :: i < l <= j ==> p in h.states[l].admin.pending
    ensures ConfigAt(h, j) == ConfigAt(h, i)
  {
    assert |h.states| == |h.steps| + 1;
    hide IsHistory, ConfigAt, Sound;
    if i < j {
      NoChangeWhilePending(h, i, j - 1, p);
      ConfigStaysOrIsInstalled(h, j - 1);
    }
  }

  ghost predicate WaitedFrom(h: History, i: nat, j: nat, p: PendingKey<()>, w: Config)
    requires j < |h.states|
  {
    forall l :: i < l <= j ==> p in h.states[l].admin.pending && h.states[l].admin.pending[p] == w
  }

  lemma PendingInStates(h: History, i: nat, j: nat, p: PendingKey<()>, w: Config)
    requires IsHistory(h) && j < |h.states|
    requires PendingThroughout(AdminQueues(h), i, j, p, w)
    ensures WaitedFrom(h, i, j, p, w)
    ensures forall l :: i < l <= j ==> p in h.states[l].admin.pending
  {
    var qs := AdminQueues(h);
    forall l | i < l <= j
      ensures p in h.states[l].admin.pending && h.states[l].admin.pending[p] == w
    {
      assert p in qs[l].pending && qs[l].pending[p] == w;
    }
  }

  lemma ApprovalTime(h: History, i: nat)
    requires IsHistory(h) && i < |h.steps| && AdminEvents(h)[i].CastEvent?
    ensures h.states[i].time == Some(AdminEvents(h)[i].vote.time)
  {
    CastIsProposal(h, i);
    hide IsHistory, AdminEvents;
  }

  /**
    Each installed configuration was approved, at an earlier step, by a quorum of distinct admins, each
    authorized when it voted and with its latest, unexpired and unused vote for this configuration; it
    stayed pending from then on; and it replaces exactly the configuration that was in force, and whose
    quorum was met, when it was approved.
   */
  lemma ConfigReplacesItsApprover(h: History, j: nat, p: PendingKey<()>) returns (i: nat, admins: set<Bytes>)
    requires IsHistory(h) && j < |h.steps| && h.steps[j] == PromoteConfigStep
    requires h.states[j].time.Some? && h.states[j].config.Some? && p in RipeConfigs(h.states[j])
    ensures i < j && ConfigAt(h, j) == ConfigAt(h, i)
    ensures ApprovedByAdmins(h, i, ConfigAt(h, j + 1), admins)
    ensures h.states[i].time.Some? && Second(h.states[i].time.value) == p.sec
    ensures WaitedFrom(h, i, j, p, ConfigAt(h, j + 1))
  {
    hide Decided, IsQueueRun, AdminEvents, ConfigAt, IsHistory, ApprovedByAdmins, WaitedFrom, RipeConfigs, Sound;
    StepAt(h, j);
    SkipGuardNeverFires(h, j, p);
    AdminQueueRuns(h);
    i := PendingWasDecided(AdminQueues(h), AdminEvents(h), j, p);
    PendingInStates(h, i, j, p, ConfigAt(h, j + 1));
    assert p.key == ();
    ApprovalTime(h, i);
    admins := DecidedByAdmins(h, i, ConfigAt(h, j + 1));
    NoChangeWhilePending(h, i, j, p);
  }

  lemma ChangeIsRipe(h: History, j: nat) returns (p: PendingKey<()>)
    requires IsHistory(h) && j < |h.steps| && ConfigAt(h, j + 1) != ConfigAt(h, j)
    ensures h.steps[j] == PromoteConfigStep && h.states[j].time.Some? && h.states[j].config.Some?
    ensures p in RipeConfigs(h.states[j])
  {
    StepAt(h, j);
    ConfigStaysOrIsInstalled(h, j);
    if RipeConfigs(h.states[j]) != {} {
      p :| p in RipeConfigs(h.states[j]);
    }
  }

  /** Each vote counted in an admin decision came from an authorized admin, or there were no admins yet. */
  lemma AdminVotesAreAuthorized(h: History, m: nat)
    requires IsHistory(h) && m < |h.steps| && AdminEvents(h)[m].CastEvent?
    ensures h.steps[m].ReconfigureStep? && MayReconfigure(h.states[m], h.steps[m].reconfigure)
    ensures ConfigAt(h, m).admins.authorized == []
            || h.steps[m].reconfigure.admin in ConfigAt(h, m).admins.authorized
    ensures Acceptable(ConfigAt(h, m), AdminEvents(h)[m].vote.value)
  {
    assert IsStep(h, m) && AdminEvents(h)[m] == AdminEvent(h.states[m], h.steps[m]);
  }

  // ---------- The subdomain limit does not decrease ----------

  ghost predicate AdminQuorumNeverLowered(h: History)
    requires IsHistory(h)
  {
    forall i :: 0 <= i < |h.steps| ==>
      ConfigAt(h, i).admins.voting.quorum <= ConfigAt(h, i + 1).admins.voting.quorum
  }

  lemma {:induction false} AdminQuorumGrows(h: History, i: nat, j: nat)
    requires IsHistory(h) && AdminQuorumNeverLowered(h) && i <= j < |h.states|
    ensures ConfigAt(h, i).admins.voting.quorum <= ConfigAt(h, j).admins.voting.quorum
  {
    if i < j {
      AdminQuorumGrows(h, i, j - 1);
      assert ConfigAt(h, j - 1).admins.voting.quorum <= ConfigAt(h, j - 1 + 1).admins.voting.quorum;
    }
  }

  /** In every state no admin proposal waits with the quorum in force reached. */
  lemma AdminsBelowQuorum(h: History, n: nat)
    requires IsHistory(h) && AdminQuorumNeverLowered(h) && n < |h.states|
    ensures BelowQuorum(h.states[n].admin, ConfigAt(h, n).admins.voting.quorum)
  {
    AdminQueueRuns(h);
    var qs, es := AdminQueues(h), AdminEvents(h);
    forall i | 0 <= i < |es| && es[i].CastEvent?
      ensures es[i].quorum == ConfigAt(h, i).admins.voting.quorum
    {
      assert IsStep(h, i) && es[i] == AdminEvent(h.states[i], h.steps[i]);
    }
    forall i, j | 0 <= i < j < n && es[i].CastEvent? && es[j].CastEvent?
      ensures es[i].quorum <= es[j].quorum
    {
      AdminQuorumGrows(h, i, j);
    }
    forall i | 0 <= i < n && es[i].CastEvent?
      ensures es[i].quorum <= ConfigAt(h, n).admins.voting.quorum
    {
      AdminQuorumGrows(h, i, n);
    }
    NobodyWaitsAtQuorum(qs, es, n, ConfigAt(h, n).admins.voting.quorum);
  }

  /** A pending configuration does not lower the limit in force. */
  ghost predicate PendingKeepsLimit(c: Chain)
    requires c.config.Some?
  {
    forall p :: p in c.admin.pending ==>
      c.config.value.oracles.maxEnrolledSubdomains <= c.admin.pending[p].oracles.maxEnrolledSubdomains
  }

  /** A reconfiguration whose only possible winner is the proposal just checked keeps the limit. */
  lemma ReconfigureKeepsLimit(c: Chain, r: Reconfigure, w: Option<Config>)
    requires c.config.Some? && PendingKeepsLimit(c) && Valid(c.admin)
    requires Enabled(c, ReconfigureStep(r, w)) && MayReconfigure(c, r)
    requires BelowQuorum(c.admin, c.config.value.admins.voting.quorum)
    ensures PendingKeepsLimit(Apply(c, ReconfigureStep(r, w)))
  {
    var v := ReconfigurationVote(c, r);
    OnlyTheCastValueWins(c.admin, v, c.config.value.admins.voting.quorum, w);
    CastPending(c.admin, v, w, NoLimit());
    assert forall p: PendingKey<()> :: p.key == v.key;
  }

  lemma LimitStep(c: Chain, s: Step)
    requires c.config.Some? && PendingKeepsLimit(c) && Valid(c.admin)
    requires BelowQuorum(c.admin, c.config.value.admins.voting.quorum)
    requires Enabled(c, s) && s != PromoteConfigStep
    ensures Apply(c, s).config == c.config && PendingKeepsLimit(Apply(c, s))
  {
    if s.ReconfigureStep? && MayReconfigure(c, s.reconfigure) {
      ReconfigureKeepsLimit(c, s.reconfigure, s.choice);
    }
  }

  lemma ConfigOf(h: History, n: nat)
    requires IsHistory(h) && n < |h.states|
    ensures h.states[n].config == Some(ConfigAt(h, n))
  {
    InvariantHolds(h, n);
  }

  lemma NothingPendingAtGenesis(h: History)
    requires IsHistory(h)
    ensures h.states[0].config.Some? && PendingKeepsLimit(h.states[0])
  {}

  lemma StepKeepsLimit(h: History, n: nat)
    requires IsHistory(h) && AdminQuorumNeverLowered(h) && n < |h.steps|
    requires h.states[n].config.Some? && PendingKeepsLimit(h.states[n])
    ensures h.states[n + 1].config.Some? && PendingKeepsLimit(h.states[n + 1])
  {
    hide *;
    StepAt(h, n);
    if h.steps[n] == PromoteConfigStep {
      PromotionKeepsLimit(h, n);
    } else {
      AdminQueueRuns(h);
      RunIsValid(AdminQueues(h), AdminEvents(h), n);
      AdminsBelowQuorum(h, n);
      ConfigOf(h, n);
      LimitStep(h.states[n], h.steps[n]);
    }
  }

  lemma {:induction false} PendingNeverLowersLimit(h: History, n: nat)
    requires IsHistory(h) && AdminQuorumNeverLowered(h) && n < |h.states|
    ensures h.states[n].config.Some? && PendingKeepsLimit(h.states[n])
  {
    assert |h.states| == |h.steps| + 1;
    hide *;
    if n == 0 {
      NothingPendingAtGenesis(h);
    } else {
      PendingNeverLowersLimit(h, n - 1);
      StepKeepsLimit(h, n - 1);
    }
  }

  lemma PromotionKeepsLimit(h: History, n: nat)
    requires IsHistory(h) && n < |h.steps| && h.steps[n] == PromoteConfigStep
    requires h.states[n].config.Some? && PendingKeepsLimit(h.states[n])
    ensures h.states[n + 1].config.Some? && PendingKeepsLimit(h.states[n + 1])
  {
    InvariantHolds(h, n + 1);
    InvariantHolds(h, n);
    assert IsStep(h, n);
    ConfigStaysOrIsInstalled(h, n);
  }

  /** As long as no installed configuration lowers the admin quorum, the subdomain limit never decreases. */
  lemma {:induction false} LimitNeverDecreases(h: History, i: nat, j: nat)
    requires IsHistory(h) && AdminQuorumNeverLowered(h) && i <= j < |h.states|
    ensures ConfigAt(h, i).oracles.maxEnrolledSubdomains <= ConfigAt(h, j).oracles.maxEnrolledSubdomains
  {
    assert |h.states| == |h.steps| + 1;
    hide IsHistory, ConfigAt, Sound, AdminQuorumNeverLowered;
    if i < j {
      LimitNeverDecreases(h, i, j - 1);
      PendingNeverLowersLimit(h, j - 1);
      ConfigStaysOrIsInstalled(h, j - 1);
      LimitOfPending(h, j - 1);
    }
  }

  lemma LimitOfPending(h: History, j: nat)
    requires IsHistory(h) && j < |h.states| && h.states[j].config.Some? && PendingKeepsLimit(h.states[j])
    ensures forall w :: w in h.states[j].admin.pending.Values ==>
      ConfigAt(h, j).oracles.maxEnrolledSubdomains <= w.oracles.maxEnrolledSubdomains
  {}
}
