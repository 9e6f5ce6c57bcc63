/**
  The ledger: the states committed block after block. What an observation's blockstamp is checked
  against, and the fact that every ledger is a history in the sense of module Histories.
 */
module Ledgers {
  import opened Basics
  import opened ChainModel
  import opened ConfigChain
  import opened Configs
  import opened Hex
  import opened Histories
  import opened Stores
  import opened Times

  /** The state before the first block and after each block, the time of each block and its steps. */
  datatype Ledger = Ledger(states: seq<Chain>, times: seq<Time>, blocks: seq<seq<seq<Step>>>)

  /** The state a block starts from: between blocks the working state is the committed one. */
  ghost function StartOf(c: Chain, root: Chain -> Bytes): Chain {
    WithPreviousHash(Node(c, c, None), root)
  }

  ghost predicate IsActionStep(s: Step) {
    s.ObserveStep? || s.ReconfigureStep?
  }

  ghost predicate OnlyActions(steps: seq<Step>) {
    forall i :: 0 <= i < |steps| ==> IsActionStep(steps[i])
  }

  /** Blocks have consecutive heights from one, and times that do not run backwards or before 1970. */
  ghost predicate IsLedger(l: Ledger, root: Chain -> Bytes) {
    && |l.states| == |l.times| + 1 == |l.blocks| + 1
    && IsGenesis(l.states[0])
    && (forall k :: 0 <= k < |l.times| ==> 0 <= l.times[k])
    && (forall j, k :: 0 <= j < k < |l.times| ==> l.times[j] <= l.times[k])
    && (forall k :: 0 <= k < |l.blocks| ==> IsBlock(l, root, k))
  }

  ghost predicate IsBlock(l: Ledger, root: Chain -> Bytes, k: nat)
    requires |l.states| == |l.times| + 1 == |l.blocks| + 1 && k < |l.blocks|
  {
    && OnlyActions(Flatten(l.blocks[k]))
    && Run(StartOf(l.states[k], root), BlockSteps(k + 1, l.times[k], l.blocks[k])) == Some(l.states[k + 1])
  }

  // ---------- What the steps of a block leave alone ----------

  ghost predicate SameHistory(c: Chain, d: Chain) {
    && d.height == c.height && d.time == c.time && d.blockTimes == c.blockTimes && d.appHashes == c.appHashes
  }

  lemma StepKeepsHistory(c: Chain, s: Step)
    requires Enabled(c, s) && !s.RecordHash? && !s.BeginBlock?
    ensures SameHistory(c, Apply(c, s))
  {}

  lemma {:induction false} StepsKeepHistory(c: Chain, steps: seq<Step>, d: Chain)
    requires Run(c, steps) == Some(d)
    requires forall i :: 0 <= i < |steps| ==> !steps[i].RecordHash? && !steps[i].BeginBlock?
    ensures SameHistory(c, d)
  {
    if steps != [] {
      var n := |steps| - 1;
      hide Apply, Enabled;
      StepsKeepHistory(c, steps[..n], Run(c, steps[..n]).value);
      StepKeepsHistory(Run(c, steps[..n]).value, steps[n]);
    }
  }

  /** Any list of steps after the start of a block splits off the start. */
  lemma RunFromStart(c: Chain, height: nat, time: Time, rest: seq<Step>, d: Chain)
    requires Run(c, [BeginBlock(height, time)] + rest) == Some(d)
    ensures c.config.Some? && Enabled(c, BeginBlock(height, time))
    ensures Run(Apply(c, BeginBlock(height, time)), rest) == Some(d)
  {
    hide Apply;
    var s := BeginBlock(height, time);
    RunHead(c, s, rest);
  }

  lemma {:induction false} RunHead(c: Chain, s: Step, rest: seq<Step>)
    requires Run(c, [s] + rest).Some?
    ensures Enabled(c, s) && Run(c, [s] + rest) == Run(Apply(c, s), rest)
  {
    hide Apply, Enabled;
    if rest == [] {
      assert [s] + rest == [s];
      assert Run(c, [s]) == Next(Run(c, [s][..0]), s);
    } else {
      var n := |rest| - 1;
      assert ([s] + rest)[..n + 1] == [s] + rest[..n];
      assert ([s] + rest)[n + 1] == rest[n];
      RunHead(c, s, rest[..n]);
    }
  }

  // ---------- Recorded times and hashes ----------

  ghost function TimeOfBlock(l: Ledger, b: nat): Time
    requires 1 <= b <= |l.times|
  {
    l.times[b - 1]
  }

  /** The hash filed under a height: the root committed by the block after it. */
  ghost function FiledHash(l: Ledger, root: Chain -> Bytes, b: nat): Bytes
    requires b + 1 < |l.states|
  {
    root(l.states[b + 1])
  }

  /** The times of the blocks up to a height. */
  ghost function TimesUpTo(l: Ledger, h: nat): map<nat, Time>
    requires h <= |l.times|
  {
    map b: nat | 1 <= b <= h :: TimeOfBlock(l, b)
  }

  /** The hashes on file inside a block: the roots committed by all earlier blocks. */
  ghost function HashesBefore(l: Ledger, root: Chain -> Bytes, h: nat): map<nat, Bytes>
    requires h <= |l.states|
  {
    map b: nat | 0 <= b < h - 1 :: FiledHash(l, root, b)
  }

  /** Between blocks k and k + 1 everything up to block k is on file, but for the root of block k itself. */
  ghost predicate Filed(l: Ledger, root: Chain -> Bytes, k: nat, c: Chain)
    requires k <= |l.times| < |l.states|
  {
    && c.height == (if k == 0 then None else Some(k))
    && c.time == (if k == 0 then None else Some(TimeOfBlock(l, k)))
    && c.blockTimes == TimesUpTo(l, k)
    && c.appHashes == HashesBefore(l, root, k)
  }

  lemma StartFiles(l: Ledger, root: Chain -> Bytes, k: nat)
    requires k < |l.times| < |l.states| && Filed(l, root, k, l.states[k])
    requires StartOf(l.states[k], root).config.Some?
    ensures Filed(l, root, k + 1, Apply(StartOf(l.states[k], root), BeginBlock(k + 1, l.times[k])))
  {
    var c := l.states[k];
    StartHashes(l, root, k);
    TimesGrow(l, k);
    hide HashesBefore, TimesUpTo;
  }

  lemma StartHashes(l: Ledger, root: Chain -> Bytes, k: nat)
    requires k < |l.times| < |l.states| && Filed(l, root, k, l.states[k])
    ensures StartOf(l.states[k], root).appHashes == HashesBefore(l, root, k + 1)
  {
    if k != 0 {
      assert root(l.states[k]) == FiledHash(l, root, k - 1);
    }
  }

  lemma TimesGrow(l: Ledger, k: nat)
    requires k < |l.times|
    ensures TimesUpTo(l, k)[k + 1 := l.times[k]] == TimesUpTo(l, k + 1)
  {
    assert TimeOfBlock(l, k + 1) == l.times[k];
  }

  lemma SameHistoryIsFiled(l: Ledger, root: Chain -> Bytes, k: nat, c: Chain, d: Chain)
    requires k <= |l.times| < |l.states| && Filed(l, root, k, c) && SameHistory(c, d)
    ensures Filed(l, root, k, d)
  {}

  /** Anywhere inside block k + 1: its own time and all earlier ones are on file, and the roots of all earlier blocks. */
  lemma InsideBlock(l: Ledger, root: Chain -> Bytes, k: nat, rest: seq<Step>, c: Chain)
    requires k < |l.times| < |l.states| && Filed(l, root, k, l.states[k])
    requires Run(StartOf(l.states[k], root), [BeginBlock(k + 1, l.times[k])] + rest) == Some(c)
    requires forall i :: 0 <= i < |rest| ==> !rest[i].RecordHash? && !rest[i].BeginBlock?
    ensures Filed(l, root, k + 1, c)
  {
    hide *;
    var start := StartOf(l.states[k], root);
    RunFromStart(start, k + 1, l.times[k], rest, c);
    StartFiles(l, root, k);
    StepsKeepHistory(Apply(start, BeginBlock(k + 1, l.times[k])), rest, c);
    SameHistoryIsFiled(l, root, k + 1, Apply(start, BeginBlock(k + 1, l.times[k])), c);
  }

  /** A block is its start and steps that leave the files alone. */
  lemma RestOfBlock(l: Ledger, root: Chain -> Bytes, k: nat) returns (rest: seq<Step>)
    requires IsLedger(l, root) && k < |l.blocks|
    ensures |l.blocks| == |l.times| < |l.states|
    ensures Run(StartOf(l.states[k], root), [BeginBlock(k + 1, l.times[k])] + rest) == Some(l.states[k + 1])
    ensures forall i :: 0 <= i < |rest| ==> !rest[i].RecordHash? && !rest[i].BeginBlock?
  {
    assert IsBlock(l, root, k);
    hide Run, StartOf;
    rest := Flatten(l.blocks[k]) + [PromoteConfigStep, PromoteCanonicalStep];
    assert BlockSteps(k + 1, l.times[k], l.blocks[k]) == [BeginBlock(k + 1, l.times[k])] + rest;
    assert forall i :: 0 <= i < |Flatten(l.blocks[k])| ==> IsActionStep(Flatten(l.blocks[k])[i]);
  }

  lemma LedgerLengths(l: Ledger, root: Chain -> Bytes)
    requires IsLedger(l, root)
    ensures |l.states| == |l.times| + 1 == |l.blocks| + 1
  {}

  lemma NothingFiledAtGenesis(l: Ledger, root: Chain -> Bytes)
    requires IsLedger(l, root)
    ensures Filed(l, root, 0, l.states[0])
  {}

  /** Every committed state has everything before it on file. */
  lemma {:induction false} FiledAfter(l: Ledger, root: Chain -> Bytes, k: nat)
    requires IsLedger(l, root) && k < |l.states|
    ensures Filed(l, root, k, l.states[k])
  {
    hide *;
    LedgerLengths(l, root);
    if k == 0 {
      NothingFiledAtGenesis(l, root);
    } else {
      FiledAfter(l, root, k - 1);
      var rest := RestOfBlock(l, root, k - 1);
      InsideBlock(l, root, k - 1, rest, l.states[k]);
    }
  }

  /**
    The app-hash check of an observation, in any state inside block h = k + 1: it passes exactly when
    the blockstamp names a block 1 <= b <= h that is recent enough and carries the root committed
    after block (b - 1) mod 2^32 + 1, which must be an earlier one. The shift by one when hashes are
    filed and the shift by one when they are looked up cancel.
   */
  lemma BlockstampCheck(l: Ledger, root: Chain -> Bytes, k: nat, actions: seq<Step>, c: Chain, s: Blockstamp)
    requires IsLedger(l, root) && k < |l.blocks| && OnlyActions(actions)
    requires Run(StartOf(l.states[k], root), [BeginBlock(k + 1, l.times[k])] + actions) == Some(c)
    requires c.config.Some?
    ensures c.height == Some(k + 1) && c.time == Some(l.times[k])
    ensures StampHolds(c, s) <==>
      && 1 <= s.height <= k + 1
      && l.times[k] - l.times[s.height - 1] < c.config.value.oracles.observationTimeout * NANOS
      && (s.height - 1) % 0x1_0000_0000 + 1 <= k
      && s.appHash == root(l.states[(s.height - 1) % 0x1_0000_0000 + 1])
  {
    FiledInside(l, root, k, actions, c);
    StampAgainstFiles(l, root, k, c, s);
  }

  lemma FiledInside(l: Ledger, root: Chain -> Bytes, k: nat, actions: seq<Step>, c: Chain)
    requires IsLedger(l, root) && k < |l.blocks| && OnlyActions(actions)
    requires Run(StartOf(l.states[k], root), [BeginBlock(k + 1, l.times[k])] + actions) == Some(c)
    ensures |l.states| == |l.times| + 1 == |l.blocks| + 1
    ensures Filed(l, root, k + 1, c)
  {
    assert forall i :: 0 <= i < |actions| ==> IsActionStep(actions[i]);
    hide *;
    LedgerLengths(l, root);
    FiledAfter(l, root, k);
    InsideBlock(l, root, k, actions, c);
  }

  lemma StampAgainstFiles(l: Ledger, root: Chain -> Bytes, k: nat, c: Chain, s: Blockstamp)
    requires k < |l.times| < |l.states| && Filed(l, root, k + 1, c) && c.config.Some?
    requires forall b :: 0 <= b <= k ==> l.times[b] <= l.times[k]
    ensures StampHolds(c, s) <==>
      && 1 <= s.height <= k + 1
      && l.times[k] - l.times[s.height - 1] < c.config.value.oracles.observationTimeout * NANOS
      && (s.height - 1) % 0x1_0000_0000 + 1 <= k
      && s.appHash == root(l.states[(s.height - 1) % 0x1_0000_0000 + 1])
  {}

  /**
    Below height 2^32 the check is sound and complete: it passes exactly for a strictly earlier block,
    recent enough, with the root committed after that very block.
   */
  lemma BlockstampSound(l: Ledger, root: Chain -> Bytes, k: nat, actions: seq<Step>, c: Chain, s: Blockstamp)
    requires IsLedger(l, root) && k < |l.blocks| && OnlyActions(actions)
    requires Run(StartOf(l.states[k], root), [BeginBlock(k + 1, l.times[k])] + actions) == Some(c)
    requires c.config.Some? && k + 1 <= 0x1_0000_0000
    ensures c.height == Some(k + 1) && c.time == Some(l.times[k])
    ensures StampHolds(c, s) <==>
      && 1 <= s.height < k + 1
      && l.times[k] - l.times[s.height - 1] < c.config.value.oracles.observationTimeout * NANOS
      && s.appHash == root(l.states[s.height])
  {
    BlockstampCheck(l, root, k, actions, c, s);
    if 1 <= s.height <= k + 1 {
      assert (s.height - 1) % 0x1_0000_0000 == s.height - 1;
    }
  }

  // ---------- Ledgers are histories ----------

  lemma ActionsAreScheduled(c: Chain, s: Step)
    requires IsActionStep(s)
    ensures Scheduled(InBlock, c, s) && PhaseAfter(s) == InBlock
  {}

  lemma {:induction false} AppendActions(h: History, c: Chain, steps: seq<Step>, d: Chain) returns (g: History)
    requires EndsWith(h, InBlock, c) && OnlyActions(steps) && Run(c, steps) == Some(d)
    ensures EndsWith(g, InBlock, d) && Continues(g, h)
  {
    hide Apply, Enabled, EndsWith, Scheduled, Continues;
    if steps == [] {
      g := h;
      ContinuesItself(h);
    } else {
      var n := |steps| - 1;
      var m := Run(c, steps[..n]).value;
      var f := AppendActions(h, c, steps[..n], m);
      ActionsAreScheduled(m, steps[n]);
      g := AppendStep(f, InBlock, m, steps[n]);
      ContinuesTransitive(g, f, h);
    }
  }

  lemma ContinuesItself(h: History)
    ensures Continues(h, h)
  {}

  /** The place from which the next block begins. */
  function ReadyPhase(c: Chain): Phase {
    if c.height.Some? then Recorded else Between
  }

  lemma RecordingStep(c: Chain, root: Chain -> Bytes)
    ensures
      c.height.Some? && c.height.value != 0 ==>
        && Enabled(c, RecordHash(root(c))) && Scheduled(Between, c, RecordHash(root(c)))
        && StartOf(c, root) == Apply(c, RecordHash(root(c)))
    ensures c.height.None? ==> StartOf(c, root) == c
    ensures StartOf(c, root).height == c.height && StartOf(c, root).time == c.time
  {}

  lemma RecordedIsReady(hash: Bytes)
    ensures PhaseAfter(RecordHash(hash)) == Recorded
  {}

  /** A block carried out from the end of a history extends it. */
  lemma AppendBlock(
      h: History, c: Chain, root: Chain -> Bytes, height: nat, time: Time, blocks: seq<seq<Step>>, d: Chain)
    returns (g: History)
    requires EndsWith(h, Between, c) && (c.height.Some? ==> c.height.value != 0)
    requires Scheduled(ReadyPhase(c), StartOf(c, root), BeginBlock(height, time))
    requires OnlyActions(Flatten(blocks))
    requires Run(StartOf(c, root), BlockSteps(height, time, blocks)) == Some(d)
    ensures EndsWith(g, Between, d) && Continues(g, h)
  {
    var start := StartOf(c, root);
    RecordingStep(c, root);
    var first, middle := BeginBlock(height, time), Flatten(blocks);
    var rest := middle + [PromoteConfigStep, PromoteCanonicalStep];
    assert BlockSteps(height, time, blocks) == [first] + rest;
    RunHead(start, first, rest);
    hide Apply, Enabled, EndsWith, Scheduled, StartOf, Continues;
    var f := h;
    ContinuesItself(h);
    if c.height.Some? {
      RecordedIsReady(root(c));
      f := AppendStep(h, Between, c, RecordHash(root(c)));
    }
    var begun := Apply(start, first);
    var e := AppendStep(f, ReadyPhase(c), start, first);
    ContinuesTransitive(e, f, h);
    g := AppendRest(e, begun, middle, d);
    ContinuesTransitive(g, e, h);
  }

  /** The actions and the two promotions that end a block. */
  lemma AppendRest(h: History, c: Chain, actions: seq<Step>, d: Chain) returns (g: History)
    requires EndsWith(h, InBlock, c) && OnlyActions(actions)
    requires Run(c, actions + [PromoteConfigStep, PromoteCanonicalStep]) == Some(d)
    ensures EndsWith(g, Between, d) && Continues(g, h)
  {
    hide Apply, Enabled, EndsWith, Continues;
    var all := actions + [PromoteConfigStep, PromoteCanonicalStep];
    var n := |actions|;
    assert all[..n + 1] == actions + [PromoteConfigStep] && all[..n + 1][..n] == actions;
    var m1 := Run(c, actions).value;
    var m2 := Run(c, all[..n + 1]).value;
    assert m2 == Apply(m1, PromoteConfigStep) && d == Apply(m2, PromoteCanonicalStep);
    var e := AppendActions(h, c, actions, m1);
    var f := AppendStep(e, InBlock, m1, PromoteConfigStep);
    ContinuesTransitive(f, e, h);
    g := AppendStep(f, Reconfigured, m2, PromoteCanonicalStep);
    ContinuesTransitive(g, f, h);
  }

  /** The next block of a ledger is scheduled after the hash of the one before it was recorded. */
  lemma NextBlockIsScheduled(l: Ledger, root: Chain -> Bytes, k: nat)
    requires IsLedger(l, root) && k < |l.blocks|
    ensures l.states[k].height.Some? ==> l.states[k].height.value != 0
    ensures Scheduled(ReadyPhase(l.states[k]), StartOf(l.states[k], root), BeginBlock(k + 1, l.times[k]))
    ensures OnlyActions(Flatten(l.blocks[k]))
    ensures Run(StartOf(l.states[k], root), BlockSteps(k + 1, l.times[k], l.blocks[k])) == Some(l.states[k + 1])
  {
    hide Run, StartOf, OnlyActions, Filed;
    assert IsBlock(l, root, k);
    FiledAfter(l, root, k);
    RecordingStep(l.states[k], root);
    FiledHeight(l, root, k);
  }

  lemma FiledHeight(l: Ledger, root: Chain -> Bytes, k: nat)
    requires k <= |l.times| < |l.states| && Filed(l, root, k, l.states[k])
    ensures l.states[k].height == if k == 0 then None else Some(k)
    ensures l.states[k].time == if k == 0 then None else Some(l.times[k - 1])
  {}

  /** The history passes, in order, through the first committed states, at the given places. */
  ghost predicate PassesThrough(h: History, at: seq<nat>, states: seq<Chain>) {
    && |at| == |states|
    && (forall b :: 0 <= b < |at| ==> at[b] < |h.states| && h.states[at[b]] == states[b])
    && (forall b, c :: 0 <= b < c < |at| ==> at[b] <= at[c])
  }

  lemma PassesOneMore(h: History, g: History, at: seq<nat>, states: seq<Chain>, c: Chain)
    requires PassesThrough(h, at, states) && Continues(g, h) && EndsWith(g, Between, c)
    ensures |g.states| == |g.steps| + 1 && PassesThrough(g, at + [|g.steps|], states + [c])
  {
    assert |g.states| == |g.steps| + 1 by { StatesOfHistory(g); }
    hide IsHistory;
    forall b | 0 <= b < |at|
      ensures g.states[at[b]] == states[b]
    {
      assert g.states[..|h.states|][at[b]] == h.states[at[b]];
    }
  }

  lemma StatesOfHistory(h: History)
    requires IsHistory(h)
    ensures |h.states| == |h.steps| + 1
  {}

  lemma FirstCommitted(l: Ledger, root: Chain -> Bytes)
    requires IsLedger(l, root)
    ensures EndsWith(History([l.states[0]], []), Between, l.states[0])
    ensures PassesThrough(History([l.states[0]], []), [0], [l.states[0]])
  {}

  /**
    One history passes through all committed states of a ledger, so all that holds between states of
    a history holds between committed states.
   */
  lemma {:induction false} LedgerIsHistory(l: Ledger, root: Chain -> Bytes, k: nat)
    returns (h: History, at: seq<nat>)
    requires IsLedger(l, root) && k < |l.states|
    ensures EndsWith(h, Between, l.states[k])
    ensures PassesThrough(h, at, l.states[..k + 1])
  {
    hide IsLedger, Scheduled, Run, EndsWith, StartOf, PassesThrough, Continues, OnlyActions;
    if k == 0 {
      h, at := History([l.states[0]], []), [0];
      FirstCommitted(l, root);
      assert l.states[..1] == [l.states[0]];
    } else {
      var f, before := LedgerIsHistory(l, root, k - 1);
      LedgerLengths(l, root);
      NextBlockIsScheduled(l, root, k - 1);
      h := AppendBlock(f, l.states[k - 1], root, k, l.times[k - 1], l.blocks[k - 1], l.states[k]);
      PassesOneMore(f, h, before, l.states[..k], l.states[k]);
      at := before + [|h.steps|];
      assert l.states[..k + 1] == l.states[..k] + [l.states[k]];
    }
  }

  /** Between committed states configurations only advance, and only to sound ones. */
  lemma CommittedConfigsAdvance(l: Ledger, root: Chain -> Bytes, i: nat, j: nat)
    requires IsLedger(l, root) && i <= j < |l.states|
    ensures l.states[i].config.Some? && l.states[j].config.Some?
    ensures var c, d := l.states[i].config.value, l.states[j].config.value;
            && c.version <= d.version
            && (c.version == d.version ==> c == d)
            && (d == l.states[0].config.value || Sound(d))
  {
    var h, at := LedgerIsHistory(l, root, j);
    assert l.states[..j + 1][i] == l.states[i] && l.states[..j + 1][j] == l.states[j];
    assert l.states[..j + 1][0] == l.states[0];
    hide IsLedger;
    EndsInHistory(h, l.states[j]);
    hide IsHistory, Sound;
    ConfigOf(h, at[i]);
    ConfigOf(h, at[j]);
    ConfigOf(h, at[0]);
    VersionsGrow(h, at[i], at[j]);
    InstalledConfigsAreSound(h, at[j]);
    InstalledConfigsAreSound(h, at[0]);
    VersionsGrow(h, 0, at[0]);
    VersionsGrow(h, at[0], at[j]);
  }

  lemma EndsInHistory(h: History, c: Chain)
    requires EndsWith(h, Between, c)
    ensures IsHistory(h)
  {}

  lemma DeliveredActions(c: Chain, tx: Option<Transaction>, steps: seq<Step>, ok: bool)
    requires Delivered(c, tx, steps, ok)
    ensures OnlyActions(steps)
  {}

  /** The steps of delivered transactions are actions. */
  lemma {:induction false} DeliveredOnlyActions(
      c: Chain, height: nat, time: Time, txs: seq<Option<Transaction>>, oks: seq<bool>, blocks: seq<seq<Step>>, n: nat)
    requires DeliveredInOrder(c, height, time, txs, oks, blocks) && n <= |blocks|
    ensures OnlyActions(Flatten(blocks[..n]))
  {
    if n != 0 {
      hide Run, Delivered;
      DeliveredOnlyActions(c, height, time, txs, oks, blocks, n - 1);
      DeliveredActions(Run(c, BlockStart(height, time, blocks[..n - 1])).value, txs[n - 1], blocks[n - 1], oks[n - 1]);
      assert blocks[..n][..n - 1] == blocks[..n - 1];
    }
  }

  /**
    A FinalizeBlock at the next height, on the state a ledger ends in, followed by its Commit, extends
    the ledger by the committed state.
   */
  lemma FinalizedBlockExtendsLedger(
      l: Ledger, root: Chain -> Bytes, time: Time, txs: seq<Option<Transaction>>, oks: seq<bool>,
      blocks: seq<seq<Step>>, d: Chain)
    requires IsLedger(l, root) && 0 <= time && (forall k :: 0 <= k < |l.times| ==> l.times[k] <= time)
    requires DeliveredInOrder(StartOf(l.states[|l.blocks|], root), |l.blocks| + 1, time, txs, oks, blocks)
    requires Run(StartOf(l.states[|l.blocks|], root), BlockSteps(|l.blocks| + 1, time, blocks)) == Some(d)
    ensures IsLedger(Ledger(l.states + [d], l.times + [time], l.blocks + [blocks]), root)
  {
    hide Run, StartOf, OnlyActions, DeliveredInOrder;
    var g := Ledger(l.states + [d], l.times + [time], l.blocks + [blocks]);
    DeliveredOnlyActions(StartOf(l.states[|l.blocks|], root), |l.blocks| + 1, time, txs, oks, blocks, |blocks|);
    assert blocks[..|blocks|] == blocks;
    forall k | 0 <= k < |g.blocks|
      ensures IsBlock(g, root, k)
    {
      if k < |l.blocks| {
        assert IsBlock(l, root, k);
      }
    }
  }
}
