/** Which transactions have an effect, and which of their actions. */
module Deliveries {
  import opened Basics
  import opened ChainModel
  import opened Checks
  import opened Histories
  import opened PendingChanges
  import opened Times

  // ---------- Whole transactions ----------

  lemma StepKeepsChainId(c: Chain, s: Step)
    requires Enabled(c, s)
    ensures Apply(c, s).chainId == c.chainId
  {}

  /** A chain keeps its name. */
  lemma {:induction false} ChainIdStays(h: History, n: nat)
    requires IsHistory(h) && n < |h.states|
    ensures h.states[n].chainId == h.states[0].chainId
  {
    assert |h.states| == |h.steps| + 1;
    hide IsHistory, Apply, Enabled, Invariant, Scheduled;
    if n != 0 {
      ChainIdStays(h, n - 1);
      StepAt(h, n - 1);
      StepKeepsChainId(h.states[n - 1], h.steps[n - 1]);
    }
  }

  /**
    In every state of a run, a transaction that is not authentic, that is meant for another chain than
    that of genesis, or that has no action fails without any effect.
   */
  lemma ForeignTransactionsHaveNoEffect(
      h: History, n: nat, tx: Option<Transaction>, steps: seq<Step>, ok: bool, after: Chain)
    requires IsHistory(h) && n < |h.states|
    requires Delivered(h.states[n], tx, steps, ok) && Run(h.states[n], steps) == Some(after)
    requires tx.None? || Some(tx.value.chainId) != h.states[0].chainId || |tx.value.actions| == 0
    ensures !ok && after == h.states[n]
  {
    ChainIdStays(h, n);
  }

  lemma {:induction false} RunKeepsChainId(c: Chain, steps: seq<Step>, d: Chain)
    requires Run(c, steps) == Some(d)
    ensures d.chainId == c.chainId
  {
    hide Apply, Enabled;
    if steps != [] {
      var n := |steps| - 1;
      RunKeepsChainId(c, steps[..n], Run(c, steps[..n]).value);
      StepKeepsChainId(Run(c, steps[..n]).value, steps[n]);
    }
  }

  lemma TakenIffOwn(c: Chain, tx: Option<Transaction>, steps: seq<Step>, ok: bool)
    requires Delivered(c, tx, steps, ok)
    ensures steps == [] <==> tx.None? || Some(tx.value.chainId) != c.chainId || |tx.value.actions| == 0
  {
    hide Run, AllAccepted, Enabled;
  }

  /** In a block, every transaction for this chain has its turn, whatever became of those before it. */
  lemma EveryTransactionHasItsTurn(
      c: Chain, height: nat, time: Time, txs: seq<Option<Transaction>>, oks: seq<bool>, blocks: seq<seq<Step>>, i: nat)
    requires DeliveredInOrder(c, height, time, txs, oks, blocks) && |oks| == |txs| && i < |txs|
    ensures blocks[i] == []
      <==> txs[i].None? || Some(txs[i].value.chainId) != c.chainId || |txs[i].value.actions| == 0
  {
    hide Run, Delivered;
    var start := BlockStart(height, time, blocks[..i]);
    RunKeepsChainId(c, start, Run(c, start).value);
    TakenIffOwn(Run(c, start).value, txs[i], blocks[i], oks[i]);
  }

  // ---------- The actions of a transaction ----------

  /** In the state that the steps before it lead to, step k is accepted. */
  ghost predicate AcceptedAt(c: Chain, steps: seq<Step>, k: nat)
    requires k < |steps|
  {
    && Run(c, steps[..k]).Some?
    && Enabled(Run(c, steps[..k]).value, steps[k])
    && Accepted(Run(c, steps[..k]).value, steps[k])
  }

  lemma {:induction false} AllAcceptedIff(c: Chain, steps: seq<Step>)
    ensures AllAccepted(c, steps) <==> forall k :: 0 <= k < |steps| ==> AcceptedAt(c, steps, k)
  {
    hide Run, Enabled, Accepted;
    if steps != [] {
      var n := |steps| - 1;
      AllAcceptedIff(c, steps[..n]);
      forall k | 0 <= k < n
        ensures AcceptedAt(c, steps[..n], k) <==> AcceptedAt(c, steps, k)
      {
        assert steps[..n][..k] == steps[..k];
      }
      assert AllAccepted(c, steps) <==> AllAccepted(c, steps[..n]) && AcceptedAt(c, steps, n);
    }
  }

  /**
    Of a transaction for this chain, an action is carried out exactly when all actions before it were
    accepted; the transaction succeeds exactly when all its actions are accepted.
   */
  lemma ActionsUpToFirstFailure(c: Chain, tx: Transaction, steps: seq<Step>, ok: bool)
    requires Delivered(c, Some(tx), steps, ok) && c.chainId == Some(tx.chainId) && |tx.actions| > 0
    ensures 1 <= |steps| <= |tx.actions|
    ensures forall k :: 0 <= k < |steps| ==> StepOf(tx.actions[k], steps[k])
    ensures forall k :: 0 <= k < |steps| - 1 ==> AcceptedAt(c, steps, k)
    ensures |steps| < |tx.actions| ==> !AcceptedAt(c, steps, |steps| - 1)
    ensures ok <==> |steps| == |tx.actions| && AcceptedAt(c, steps, |steps| - 1)
  {
    hide Run, Enabled, Accepted;
    var n := |steps| - 1;
    AllAcceptedIff(c, steps);
    if n >= 0 {
      AllAcceptedIff(c, steps[..n]);
      forall k | 0 <= k < n
        ensures AcceptedAt(c, steps[..n], k) <==> AcceptedAt(c, steps, k)
      {
        assert steps[..n][..k] == steps[..k];
      }
      hide AcceptedAt;
    }
  }

  /** In a run an action is accepted exactly when it passes the checks, and otherwise it changes nothing. */
  lemma AcceptedIffChecked(h: History, i: nat)
    requires IsHistory(h) && i < |h.steps| && |h.states| == |h.steps| + 1
    requires h.steps[i].ObserveStep? || h.steps[i].ReconfigureStep?
    ensures Enabled(h.states[i], h.steps[i])
    ensures Accepted(h.states[i], h.steps[i]) <==>
      if h.steps[i].ObserveStep? then ObservationChecked(h.states[i], h.steps[i].observe)
      else ReconfigurationChecked(h.states[i], h.steps[i].reconfigure)
    ensures !Accepted(h.states[i], h.steps[i]) ==> h.states[i + 1] == h.states[i]
  {
    StepAt(h, i);
    hide IsHistory, MayObserve, MayReconfigure, ObservationChecked, ReconfigurationChecked, CastObservation, Invariant;
    if h.steps[i].ObserveStep? {
      MayObserveIff(h.states[i], h.steps[i].observe);
      if MayObserve(h.states[i], h.steps[i].observe) {
        CheckedObservationsAreAccepted(h, i);
      }
    } else {
      MayReconfigureIff(h.states[i], h.steps[i].reconfigure);
    }
  }
}
