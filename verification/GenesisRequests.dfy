/** What the genesis request decides about the chain that follows. */
module GenesisRequests {
  import opened Basics
  import opened ChainModel
  import opened Checks
  import opened ConfigChain
  import opened ConfigEffects
  import opened Configs
  import opened Deliveries
  import opened Histories
  import opened QueueLaws
  import opened Times
  import opened VoteQueues

  /** The chain after the request succeeded for this configuration, if one is given. */
  ghost predicate StartedWith(c: Chain, id: string, config: Config) {
    IsGenesis(c) && c.chainId == Some(id) && c.config == Some(config)
  }

  /**
    A first request for height one starts the chain under its name with the configuration it gives; every
    request that does not succeed leaves the chain without a configuration.
   */
  lemma FirstRequest(id: string, initialHeight: nat, genesis: Genesis)
    ensures var (c, ok) := Initialized(EmptyChain(), id, initialHeight, genesis);
            && (ok <==> initialHeight == 1 && !genesis.BadConfig?)
            && (ok && genesis.Given? ==> StartedWith(c, id, genesis.config))
            && (ok && genesis.NoConfig? ==> StartedWith(c, id, DEFAULT_CONFIG))
            && (!ok ==> c.config.None?)
  {}

  /** Once a request named the chain, also when its configuration could not be read, all later ones fail without effect. */
  lemma LaterRequestsFail(
      id: string, initialHeight: nat, genesis: Genesis, later: string, height: nat, again: Genesis)
    ensures var c := Initialized(EmptyChain(), id, initialHeight, genesis).0;
            initialHeight == 1 ==> Initialized(c, later, height, again) == (c, false)
  {}

  /** The configuration of genesis is in force, and the chain keeps its name, until another one is installed. */
  lemma {:induction false} GenesisConfigInForce(h: History, n: nat, id: string, config: Config)
    requires IsHistory(h) && n < |h.states| && StartedWith(h.states[0], id, config)
    requires forall j :: 0 <= j < n ==> j < |h.steps| && !Installs(h, j)
    ensures ConfigAt(h, n) == config && h.states[n].chainId == Some(id)
  {
    ChainIdStays(h, n);
    if n == 0 {
      StartOfRun(h);
    } else {
      hide IsHistory, ConfigAt, Installs;
      GenesisConfigInForce(h, n - 1, id, config);
      ConfigStaysOrIsInstalled(h, n - 1);
    }
  }

  lemma StartOfRun(h: History)
    requires IsHistory(h)
    ensures ConfigAt(h, 0) == h.states[0].config.value
  {}

  // ---------- Chains started without a configuration ----------

  /** Under the default configuration nobody may observe. */
  lemma NoObservationsByDefault(c: Chain, o: Observe)
    requires c.config == Some(DEFAULT_CONFIG)
    ensures !ObservationChecked(c, o)
  {}

  lemma ActionsKeepPending(c: Chain, s: Step)
    requires Invariant(InBlock, c) && Enabled(c, s) && (s.ObserveStep? || s.ReconfigureStep?)
    requires c.admin.pending != map[]
    ensures Apply(c, s).admin.pending != map[]
  {
    hide CastVote, LegalWinner, MayObserve, MayReconfigure;
    if s.ReconfigureStep? && MayReconfigure(c, s.reconfigure) {
      if s.choice.Some? {
        DecisionReplacesPending(c, s.reconfigure, s.choice.value);
        assert PendingKey((), Second(c.time.value)) in Apply(c, s).admin.pending;
      } else {
        CastPending(c.admin, ReconfigurationVote(c, s.reconfigure), None, NoLimit());
      }
    }
  }

  lemma {:induction false} PendingUntilPromotion(h: History, i: nat, m: nat)
    requires IsHistory(h) && i <= m < |h.states| && h.states[i].admin.pending != map[]
    requires forall l :: i <= l < m ==> l < |h.steps| && (h.steps[l].ObserveStep? || h.steps[l].ReconfigureStep?)
    ensures h.states[m].admin.pending != map[]
    ensures ConfigAt(h, m) == ConfigAt(h, i)
  {
    assert |h.states| == |h.steps| + 1;
    hide IsHistory, ConfigAt, Apply, Enabled, Invariant;
    if i < m {
      PendingUntilPromotion(h, i, m - 1);
      StepAt(h, m - 1);
      ConfigStaysOrIsInstalled(h, m - 1);
      ActionPhase(h, m - 1);
      ActionsKeepPending(h.states[m - 1], h.steps[m - 1]);
    }
  }

  lemma ActionPhase(h: History, l: nat)
    requires IsHistory(h) && l < |h.steps| && (h.steps[l].ObserveStep? || h.steps[l].ReconfigureStep?)
    ensures PhaseAt(h, l) == InBlock
  {
    StepAt(h, l);
  }

  /** Under the default configuration a single vote of anybody decides. */
  lemma FirstVoteDecides(c: Chain, r: Reconfigure, w: Option<Config>)
    requires c.config == Some(DEFAULT_CONFIG) && MayReconfigure(c, r) && Enabled(c, ReconfigureStep(r, w))
    ensures w.Some?
  {
    var v := ReconfigurationVote(c, r);
    assert VoteKey(v.key, v.party, Second(v.time)) in VotesFor(PutVote(c.admin, v), ());
  }

  /**
    A chain started without a configuration gets one in the very block in which the first reconfiguration
    is accepted: it needs no permission, no further votes and no waiting.
   */
  lemma FirstReconfigurationTakesEffect(h: History, i: nat, m: nat)
    requires IsHistory(h) && i < m < |h.steps| && |h.states| == |h.steps| + 1
    requires ConfigAt(h, i) == DEFAULT_CONFIG
    requires h.steps[i].ReconfigureStep? && ReconfigurationChecked(h.states[i], h.steps[i].reconfigure)
    requires forall l :: i < l < m ==> h.steps[l].ObserveStep? || h.steps[l].ReconfigureStep?
    requires h.steps[m] == PromoteConfigStep
    ensures ConfigAt(h, m + 1).version > 0 && ConfigChecked(ConfigAt(h, m + 1))
  {
    FirstDecision(h, i);
    PendingUntilPromotion(h, i + 1, m);
    StepAt(h, m);
    hide IsHistory, ConfigAt, Apply, Enabled, ReconfigurationChecked, RipeConfigs, ConfigChecked, Sound;
    var p :| p in h.states[m].admin.pending;
    RipeInRun(h, m, p);
    assert Due(h.states[m].time.value, p.sec, 0);
    SkipGuardNeverFires(h, m, p);
    SoundIff(ConfigAt(h, m + 1));
  }

  lemma FirstDecision(h: History, i: nat)
    requires IsHistory(h) && i < |h.steps| && |h.states| == |h.steps| + 1
    requires ConfigAt(h, i) == DEFAULT_CONFIG
    requires h.steps[i].ReconfigureStep? && ReconfigurationChecked(h.states[i], h.steps[i].reconfigure)
    ensures h.states[i + 1].admin.pending != map[] && ConfigAt(h, i + 1) == DEFAULT_CONFIG
  {
    var c, r := h.states[i], h.steps[i].reconfigure;
    StepAt(h, i);
    ActionPhase(h, i);
    ConfigStaysOrIsInstalled(h, i);
    MayReconfigureIff(c, r);
    hide IsHistory, Apply, Enabled, Invariant, ReconfigurationChecked, MayReconfigure, LegalWinner;
    FirstVoteDecides(c, r, h.steps[i].choice);
    DecisionReplacesPending(c, r, h.steps[i].choice.value);
    assert PendingKey((), Second(c.time.value)) in h.states[i + 1].admin.pending;
  }
}
