/**
  Requests at the granularity of locks. InitChain, FinalizeBlock and Commit arrive one after the
  other, but each takes and releases locks several times; CheckTx requests run concurrently with
  them, each forking the working state under the lock and then working on its fork.
 */
module Interleaving {
  import opened Basics
  import opened ChainModel
  import opened Hex
  import opened Stores
  import opened Times

  /** How far the consensus request in progress has come. */
  datatype Progress =
    | Idle
    | HeightRead(height: nat)
    | RootRead(hash: Bytes)
    | Ready
    | Executed
    | Taken(batch: Chain)
    | BatchTaken(staged: Chain)
    | Applied

  datatype Response =
    | InitDone(ok: bool)
    | BlockFailed
    | BlockDone(oks: seq<bool>)
    | BlockStaged(appHash: Bytes)
    | CommitFailed
    | CommitDone(root: Bytes)

  datatype Shared = Shared(node: Node, progress: Progress, responses: seq<Response>)

  /** The shared store and the forks of the CheckTx requests under way. */
  datatype System = System(shared: Shared, forks: map<nat, Chain>)

  datatype Event =
    | InitChain(id: string, initialHeight: nat, genesis: Genesis)
    | ReadHeight
    | ReadRoot
    | RecordRoot
    | Execute(height: nat, time: Time, txs: seq<Option<Transaction>>, oks: seq<bool>, blocks: seq<seq<Step>>, after: Chain)
    | ExecuteFails(height: nat, time: Time)
    | TakeState
    | StageBatch
    | TakeBatch
    | ApplyBatch
    | RefreshState
    | ForkState(request: nat)
    | TryTx(request: nat, tx: Option<Transaction>, steps: seq<Step>, accepted: bool)

  predicate IsCheckTx(e: Event) {
    e.ForkState? || e.TryTx?
  }

  /** When an event of the consensus connection can happen; it looks at the shared store alone. */
  ghost predicate CanMain(s: Shared, e: Event)
    requires !IsCheckTx(e)
  {
    match e
    case InitChain(_, _, _) => s.progress == Idle
    case ReadHeight => s.progress == Idle
    case ReadRoot => s.progress.HeightRead? && s.progress.height != 0
    case RecordRoot => s.progress.RootRead? && s.node.working.height.Some? && s.node.working.height.value != 0
    case Execute(height, time, txs, oks, blocks, after) =>
      && (s.progress == Ready || s.progress == HeightRead(0))
      && s.node.working.config.Some? && |oks| == |txs|
      && DeliveredInOrder(s.node.working, height, time, txs, oks, blocks)
      && Run(s.node.working, BlockSteps(height, time, blocks)) == Some(after)
    case ExecuteFails(_, _) =>
      (s.progress == Ready || s.progress == HeightRead(0)) && s.node.working.config.None?
    case TakeState => s.progress == Executed
    case StageBatch => s.progress.Taken?
    case TakeBatch => s.progress == Idle
    case ApplyBatch => s.progress.BatchTaken?
    case RefreshState => s.progress == Applied
    case _ => false
  }

  ghost function StepMain(s: Shared, e: Event, root: Chain -> Bytes): Shared
    requires !IsCheckTx(e) && CanMain(s, e)
  {
    var n := s.node;
    match e
    case InitChain(id, initialHeight, genesis) =>
      var (c, ok) := Initialized(n.working, id, initialHeight, genesis);
      Shared(n.(working := c), Idle, s.responses + [InitDone(ok)])
    case ReadHeight =>
      s.(progress := HeightRead(if n.working.height.Some? then n.working.height.value else 0))
    case ReadRoot => s.(progress := RootRead(root(n.committed)))
    case RecordRoot => Shared(n.(working := RecordAppHash(n.working, s.progress.hash)), Ready, s.responses)
    case Execute(_, _, _, oks, _, after) => Shared(n.(working := after), Executed, s.responses + [BlockDone(oks)])
    case ExecuteFails(height, time) =>
      Shared(n.(working := StartBlock(n.working, height, time)), Idle, s.responses + [BlockFailed])
    case TakeState => Shared(n.(working := n.committed), Taken(n.working), s.responses)
    case StageBatch =>
      Shared(n.(staged := Some(s.progress.batch)), Idle, s.responses + [BlockStaged(root(s.progress.batch))])
    case TakeBatch =>
      if n.staged.None? then s.(responses := s.responses + [CommitFailed])
      else Shared(n.(staged := None), BatchTaken(n.staged.value), s.responses)
    case ApplyBatch => Shared(n.(committed := s.progress.staged), Applied, s.responses)
    case RefreshState =>
      Shared(n.(working := n.committed), Idle, s.responses + [CommitDone(root(n.committed))])
  }

  ghost predicate Can(s: System, e: Event) {
    match e
    case ForkState(r) => r !in s.forks
    case TryTx(r, tx, steps, accepted) => r in s.forks && Delivered(s.forks[r], tx, steps, accepted)
    case _ => CanMain(s.shared, e)
  }

  ghost function StepSystem(s: System, e: Event, root: Chain -> Bytes): System
    requires Can(s, e)
  {
    match e
    case ForkState(r) => s.(forks := s.forks[r := s.shared.node.working])
    case TryTx(r, _, steps, _) => s.(forks := s.forks - {r})
    case _ => s.(shared := StepMain(s.shared, e, root))
  }

  ghost function Exec(s: System, es: seq<Event>, root: Chain -> Bytes): Option<System> {
    if es == [] then Some(s)
    else
      var m := Exec(s, es[..|es| - 1], root);
      if m.Some? && Can(m.value, es[|es| - 1]) then Some(StepSystem(m.value, es[|es| - 1], root)) else None
  }

  function WithoutCheckTx(es: seq<Event>): seq<Event> {
    if es == [] then []
    else
      var rest := WithoutCheckTx(es[..|es| - 1]);
      if IsCheckTx(es[|es| - 1]) then rest else rest + [es[|es| - 1]]
  }

  /**
    Erasing all CheckTx requests from any interleaving leaves every other response, the staged batch,
    the working state and the committed state as they were.
   */
  lemma {:induction false} CheckTxDoesNotInterfere(s: System, es: seq<Event>, root: Chain -> Bytes)
    requires Exec(s, es, root).Some?
    ensures Exec(s, WithoutCheckTx(es), root).Some?
    ensures Exec(s, WithoutCheckTx(es), root).value.shared == Exec(s, es, root).value.shared
  {
    if es != [] {
      var n := |es| - 1;
      CheckTxDoesNotInterfere(s, es[..n], root);
      var kept := WithoutCheckTx(es[..n]);
      if !IsCheckTx(es[n]) {
        assert (kept + [es[n]])[..|kept|] == kept;
      }
    }
  }

  /** No event tries the transaction of this request. */
  predicate NotTried(es: seq<Event>, r: nat) {
    forall i :: 0 <= i < |es| ==> !(es[i].TryTx? && es[i].request == r)
  }

  /** Whatever happens in between, a fork holds the working state of the moment it was taken. */
  lemma {:induction false} ForkKeepsSnapshot(s: System, r: nat, es: seq<Event>, root: Chain -> Bytes)
    requires Can(s, ForkState(r)) && NotTried(es, r)
    requires Exec(StepSystem(s, ForkState(r), root), es, root).Some?
    ensures var m := Exec(StepSystem(s, ForkState(r), root), es, root).value;
            r in m.forks && m.forks[r] == s.shared.node.working
  {
    if es != [] {
      ForkKeepsSnapshot(s, r, es[..|es| - 1], root);
    }
  }

  /**
    So a transaction is tried on the state in which its request arrived, and trying it only gives the
    fork up, however many blocks were executed and committed in the meantime.
   */
  lemma ForkIsSnapshot(
      s: System, r: nat, es: seq<Event>, m: System, tx: Option<Transaction>, steps: seq<Step>, accepted: bool,
      root: Chain -> Bytes)
    requires Can(s, ForkState(r)) && NotTried(es, r)
    requires Exec(StepSystem(s, ForkState(r), root), es, root) == Some(m)
    requires Can(m, TryTx(r, tx, steps, accepted))
    ensures Delivered(s.shared.node.working, tx, steps, accepted)
    ensures StepSystem(m, TryTx(r, tx, steps, accepted), root) == m.(forks := m.forks - {r})
  {
    ForkKeepsSnapshot(s, r, es, root);
    hide Delivered, Exec;
  }

  /** The locked parts of one FinalizeBlock, in order. */
  function FinalizeEvents(first: bool, execute: Event): seq<Event> {
    [ReadHeight] + (if first then [] else [ReadRoot, RecordRoot]) + [execute, TakeState, StageBatch]
  }

  function CommitEvents(): seq<Event> {
    [TakeBatch, ApplyBatch, RefreshState]
  }

  lemma {:induction false} ExecHead(s: System, es: seq<Event>, root: Chain -> Bytes)
    requires es != [] && Exec(s, es, root).Some?
    ensures Can(s, es[0]) && Exec(s, es, root) == Exec(StepSystem(s, es[0], root), es[1..], root)
  {
    hide Can, StepSystem;
    var n := |es| - 1;
    if n == 0 {
      assert Exec(s, es[..0], root) == Some(s);
    } else {
      ExecHead(s, es[..n], root);
      assert es[..n][1..] == es[1..][..n - 1];
    }
  }

  /** Takes the next event of a list that runs through. */
  lemma TakeEvent(s: System, es: seq<Event>, i: nat, m: System, root: Chain -> Bytes) returns (next: System)
    requires i < |es| && Exec(s, es, root).Some? && Exec(m, es[i..], root) == Exec(s, es, root)
    ensures Can(m, es[i]) && next == StepSystem(m, es[i], root)
    ensures Exec(next, es[i + 1..], root) == Exec(s, es, root)
  {
    hide Can, StepSystem;
    ExecHead(m, es[i..], root);
    assert es[i..][1..] == es[i + 1..];
    next := StepSystem(m, es[i], root);
  }

  ghost predicate FirstBlock(c: Chain) {
    c.height.None? || c.height.value == 0
  }

  /**
    What one block does to the node, whatever CheckTx requests run in between: FinalizeBlock stages
    the state the block leads to, starting from the working state with the hash of the last commit on
    file, and the Commit installs exactly that batch. The first block starts from the uncommitted
    writes of InitChain, so its Commit installs those too.
   */
  lemma BlockIsAtomic(
      s: System, es: seq<Event>, root: Chain -> Bytes, height: nat, time: Time, txs: seq<Option<Transaction>>,
      oks: seq<bool>, blocks: seq<seq<Step>>, after: Chain)
    requires s.shared.progress == Idle
    requires Exec(s, es, root).Some?
    requires WithoutCheckTx(es) ==
      FinalizeEvents(FirstBlock(s.shared.node.working), Execute(height, time, txs, oks, blocks, after)) + CommitEvents()
    ensures Run(WithPreviousHash(s.shared.node, root), BlockSteps(height, time, blocks)) == Some(after)
    ensures DeliveredInOrder(WithPreviousHash(s.shared.node, root), height, time, txs, oks, blocks)
    ensures Exec(s, es, root).value.shared ==
      Shared(Node(after, after, None), Idle,
             s.shared.responses + [BlockDone(oks), BlockStaged(root(after)), CommitDone(root(after))])
  {
    hide Run, DeliveredInOrder, Exec, WithoutCheckTx, Can, StepSystem, WithPreviousHash;
    CheckTxDoesNotInterfere(s, es, root);
    var main := WithoutCheckTx(es);
    var first := FirstBlock(s.shared.node.working);
    var i := if first then 1 else 3;
    assert main[0..] == main;
    assert main[i + 1..] == [TakeState, StageBatch] + CommitEvents();
    var m := ReadyToExecute(s, main, root);
    var log := s.shared.responses;
    var done := TakeEvent(s, main, i, m, root);
    OnExecute(m, main[i], root);
    FinishBlock(s, main, i, done, root, after);
    assert log + [BlockDone(oks)] + [BlockStaged(root(after)), CommitDone(root(after))]
           == log + [BlockDone(oks), BlockStaged(root(after)), CommitDone(root(after))];
  }

  lemma PreviousHash(n: Node, root: Chain -> Bytes)
    ensures FirstBlock(n.working) ==> WithPreviousHash(n, root) == n.working
    ensures !FirstBlock(n.working) ==> n.working.height.Some? && n.working.height.value != 0
    ensures !FirstBlock(n.working) ==> WithPreviousHash(n, root) == RecordAppHash(n.working, root(n.committed))
  {}

  /** The part of FinalizeBlock before the block is executed. */
  lemma ReadyToExecute(s: System, main: seq<Event>, root: Chain -> Bytes) returns (m: System)
    requires s.shared.progress == Idle && Exec(s, main, root).Some?
    requires |main| >= 3 && main[0] == ReadHeight
    requires !FirstBlock(s.shared.node.working) ==> main[1] == ReadRoot && main[2] == RecordRoot
    ensures
      var i := if FirstBlock(s.shared.node.working) then 1 else 3;
      Exec(m, main[i..], root) == Exec(s, main, root)
    ensures m.shared.node == s.shared.node.(working := WithPreviousHash(s.shared.node, root))
    ensures m.shared.responses == s.shared.responses
  {
    hide Run, DeliveredInOrder, Exec, Can, StepSystem, FirstBlock, WithPreviousHash, RecordAppHash;
    PreviousHash(s.shared.node, root);
    assert main[0..] == main;
    m := TakeEvent(s, main, 0, s, root);
    OnRecording(s, root);
    if !FirstBlock(s.shared.node.working) {
      var m1 := m;
      m := TakeEvent(s, main, 1, m1, root);
      OnRecording(m1, root);
      var m2 := m;
      m := TakeEvent(s, main, 2, m2, root);
      OnRecording(m2, root);
    }
  }

  lemma OnRecording(m: System, root: Chain -> Bytes)
    ensures Can(m, ReadHeight) ==> StepSystem(m, ReadHeight, root).shared.node == m.shared.node
    ensures Can(m, ReadHeight) ==> StepSystem(m, ReadHeight, root).shared.responses == m.shared.responses
    ensures Can(m, ReadRoot) ==>
      StepSystem(m, ReadRoot, root).shared == m.shared.(progress := RootRead(root(m.shared.node.committed)))
    ensures Can(m, RecordRoot) ==>
      m.shared.progress.RootRead? && m.shared.node.working.height.Some? && m.shared.node.working.height.value != 0
    ensures Can(m, RecordRoot) ==>
      StepSystem(m, RecordRoot, root).shared ==
      Shared(m.shared.node.(working := RecordAppHash(m.shared.node.working, m.shared.progress.hash)), Ready, m.shared.responses)
  {}

  lemma OnStaging(m: System, root: Chain -> Bytes)
    ensures Can(m, TakeState) ==>
      StepSystem(m, TakeState, root).shared ==
      Shared(m.shared.node.(working := m.shared.node.committed), Taken(m.shared.node.working), m.shared.responses)
    ensures Can(m, StageBatch) ==> m.shared.progress.Taken?
    ensures Can(m, StageBatch) ==>
      StepSystem(m, StageBatch, root).shared ==
      Shared(m.shared.node.(staged := Some(m.shared.progress.batch)), Idle,
             m.shared.responses + [BlockStaged(root(m.shared.progress.batch))])
  {}

  lemma OnCommit(m: System, root: Chain -> Bytes)
    ensures Can(m, TakeBatch) && m.shared.node.staged.Some? ==>
      StepSystem(m, TakeBatch, root).shared ==
      Shared(m.shared.node.(staged := None), BatchTaken(m.shared.node.staged.value), m.shared.responses)
    ensures Can(m, ApplyBatch) ==> m.shared.progress.BatchTaken?
    ensures Can(m, ApplyBatch) ==>
      StepSystem(m, ApplyBatch, root).shared ==
      Shared(m.shared.node.(committed := m.shared.progress.staged), Applied, m.shared.responses)
    ensures Can(m, RefreshState) ==>
      StepSystem(m, RefreshState, root).shared ==
      Shared(m.shared.node.(working := m.shared.node.committed), Idle,
             m.shared.responses + [CommitDone(root(m.shared.node.committed))])
  {}

  lemma OnExecute(m: System, e: Event, root: Chain -> Bytes)
    requires e.Execute? && Can(m, e)
    ensures StepSystem(m, e, root).shared ==
      Shared(m.shared.node.(working := e.after), Executed, m.shared.responses + [BlockDone(e.oks)])
    ensures Run(m.shared.node.working, BlockSteps(e.height, e.time, e.blocks)) == Some(e.after)
    ensures DeliveredInOrder(m.shared.node.working, e.height, e.time, e.txs, e.oks, e.blocks)
  {}

  /** From the executed block to the end of its Commit. */
  lemma FinishBlock(s: System, main: seq<Event>, i: nat, m: System, root: Chain -> Bytes, after: Chain)
    requires Exec(s, main, root).Some? && |main| == i + 6
    requires main[i + 1..] == [TakeState, StageBatch] + CommitEvents()
    requires Exec(m, main[i + 1..], root) == Exec(s, main, root)
    requires m.shared.node.working == after
    ensures Exec(s, main, root).value.shared ==
      Shared(Node(after, after, None), Idle,
             m.shared.responses + [BlockStaged(root(after)), CommitDone(root(after))])
  {
    hide Run, DeliveredInOrder, Exec, Can, StepSystem;
    assert main[i + 1] == main[i + 1..][0] && main[i + 2] == main[i + 1..][1];
    assert main[i + 3] == main[i + 1..][2] && main[i + 4] == main[i + 1..][3] && main[i + 5] == main[i + 1..][4];
    var log := m.shared.responses;
    var m1 := TakeEvent(s, main, i + 1, m, root);
    OnStaging(m, root);
    var m2 := TakeEvent(s, main, i + 2, m1, root);
    OnStaging(m1, root);
    var m3 := TakeEvent(s, main, i + 3, m2, root);
    OnCommit(m2, root);
    var m4 := TakeEvent(s, main, i + 4, m3, root);
    OnCommit(m3, root);
    var m5 := TakeEvent(s, main, i + 5, m4, root);
    OnCommit(m4, root);
    assert main[i + 6..] == [];
    ExecNothing(m5, root);
    assert log + [BlockStaged(root(after))] + [CommitDone(root(after))]
           == log + [BlockStaged(root(after)), CommitDone(root(after))];
  }

  lemma ExecNothing(s: System, root: Chain -> Bytes)
    ensures Exec(s, [], root) == Some(s)
  {}
}
