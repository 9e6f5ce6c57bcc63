/**
  The service with its objects: the store, and a separate state object for every CheckTx request under
  way. Each method is one locked part of a request and is proved to be the event of module Interleaving,
  so what the events keep apart is kept apart by objects that share nothing.
 */
module Services {
  import opened Basics
  import opened ChainModel
  import opened ChainStates
  import opened Hex
  import opened Interleaving
  import opened Stores
  import opened Times
  import opened VoteQueues

  // ---------- A table of forks ----------

  ghost function ObjectsOf(forks: map<nat, ChainState>): set<object> {
    set r, o | r in forks && o in forks[r].Repr :: o
  }

  /** The forks share no object with each other. */
  ghost predicate Apart(forks: map<nat, ChainState>) {
    forall r, s :: r in forks && s in forks && r != s ==> forks[r].Repr !! forks[s].Repr
  }

  ghost predicate AllSane(forks: map<nat, ChainState>)
    reads ObjectsOf(forks)
  {
    forall r :: r in forks ==> forks[r].Sane()
  }

  ghost function Contents(forks: map<nat, ChainState>): map<nat, Chain>
    reads ObjectsOf(forks)
  {
    map r | r in forks :: forks[r].Model()
  }

  lemma ObjectsAfterAdding(forks: map<nat, ChainState>, r: nat, fork: ChainState)
    requires r !in forks
    ensures ObjectsOf(forks[r := fork]) == ObjectsOf(forks) + fork.Repr
  {
    var more := forks[r := fork];
    forall o | o in ObjectsOf(more)
      ensures o in ObjectsOf(forks) + fork.Repr
    {
      var s :| s in more && o in more[s].Repr;
    }
    forall o | o in ObjectsOf(forks) + fork.Repr
      ensures o in ObjectsOf(more)
    {
      if o in fork.Repr {
        assert r in more && o in more[r].Repr;
      } else {
        var s :| s in forks && o in forks[s].Repr;
        assert s in more && o in more[s].Repr;
      }
    }
  }

  lemma ApartAfterAdding(forks: map<nat, ChainState>, r: nat, fork: ChainState)
    requires r !in forks && Apart(forks) && fork.Repr !! ObjectsOf(forks)
    ensures Apart(forks[r := fork])
  {
    forall s | s in forks
      ensures forks[s].Repr !! fork.Repr
    {
      assert forall o :: o in forks[s].Repr ==> o in ObjectsOf(forks);
    }
  }

  lemma ContentsAfterAdding(forks: map<nat, ChainState>, r: nat, fork: ChainState)
    requires r !in forks
    ensures Contents(forks[r := fork]) == Contents(forks)[r := fork.Model()]
    ensures AllSane(forks) && fork.Sane() ==> AllSane(forks[r := fork])
  {
    hide ChainState.Model, ChainState.Sane;
  }

  lemma DropFork(forks: map<nat, ChainState>, r: nat)
    requires r in forks && Apart(forks)
    ensures Apart(forks - {r}) && ObjectsOf(forks - {r}) <= ObjectsOf(forks)
    ensures ObjectsOf(forks - {r}) !! forks[r].Repr && forks[r].Repr <= ObjectsOf(forks)
    ensures Contents(forks - {r}) == Contents(forks) - {r}
    ensures AllSane(forks) ==> AllSane(forks - {r})
  {
    hide ChainState.Model, ChainState.Sane;
  }

  lemma ForkInTable(forks: map<nat, ChainState>, r: nat)
    requires r in forks
    ensures Contents(forks)[r] == forks[r].Model()
    ensures AllSane(forks) ==> forks[r].Sane()
  {}

  lemma ContentsKeys(forks: map<nat, ChainState>)
    ensures Contents(forks).Keys == forks.Keys
  {}

  lemma ForksExist(forks: map<nat, ChainState>)
    ensures forall o :: o in ObjectsOf(forks) ==> allocated(o)
  {}

  // ---------- The service ----------

  class Service {
    const store: Store
    var forks: map<nat, ChainState>
    var progress: Progress
    var responses: seq<Response>

    ghost function StoreObjects(): set<object>
      reads store
    {
      {store as object} + store.state.Repr
    }

    ghost function Model(): System
      reads this, store, store.state, store.state.Repr, ObjectsOf(forks)
    {
      System(Shared(store.Model(), progress, responses), Contents(forks))
    }

    /** The store, its working state and the forks share no object. */
    ghost predicate Separate()
      reads this, store
    {
      && this !in StoreObjects() && this !in ObjectsOf(forks)
      && StoreObjects() !! ObjectsOf(forks)
      && Apart(forks)
    }

    ghost predicate Sane()
      reads this, store, store.state, store.state.Repr, ObjectsOf(forks)
    {
      && store.Sane() && Separate() && AllSane(forks)
      && (progress.Taken? ==> ValidChain(progress.batch))
      && (progress.BatchTaken? ==> ValidChain(progress.staged))
    }

    constructor (root: Chain -> Bytes)
      ensures Sane()
      ensures Model() == System(Shared(Node(EmptyChain(), EmptyChain(), None), Idle, []), map[])
    {
      hide Valid, ValidChain, Store.Sane, ChainState.Sane, ChainState.Model, Run;
      store := new Store(root);
      forks, progress, responses := map[], Idle, [];
    }

    // ---------- CheckTx ----------

    method ForkState(r: nat)
      requires Sane() && r !in forks
      modifies this`forks
      ensures Sane()
      ensures Can(old(Model()), Event.ForkState(r))
      ensures Model() == StepSystem(old(Model()), Event.ForkState(r), store.root)
    {
      hide Valid, ValidChain, Store.Sane, ChainState.Sane, ChainState.Model, Contents, AllSane, Apart, ObjectsOf;
      ForksExist(forks);
      ContentsKeys(forks);
      var fork := store.Fork();
      ObjectsAfterAdding(forks, r, fork);
      ApartAfterAdding(forks, r, fork);
      ContentsAfterAdding(forks, r, fork);
      forks := forks[r := fork];
    }

    /** Tries a transaction on one fork, whose objects are the only ones modified, and gives the fork up. */
    method TryTx(r: nat, tx: Option<Transaction>) returns (accepted: bool, ghost steps: seq<Step>)
      requires Sane() && r in forks
      modifies this`forks, forks[r].Repr
      ensures Sane()
      ensures Can(old(Model()), Event.TryTx(r, tx, steps, accepted))
      ensures Model() == StepSystem(old(Model()), Event.TryTx(r, tx, steps, accepted), store.root)
    {
      hide Valid, ValidChain, Store.Sane, ChainState.Sane, ChainState.Model, Contents, AllSane, Apart, ObjectsOf, Delivered, Run;
      ForksExist(forks);
      ContentsKeys(forks);
      DropFork(forks, r);
      ForkInTable(forks, r);
      var fork := forks[r];
      var result;
      result, steps := fork.DeliverTx(tx);
      accepted := result.Ok?;
      forks := forks - {r};
    }

    // ---------- InitChain ----------

    method InitChain(id: string, initialHeight: nat, genesis: Genesis)
      requires Sane() && progress == Idle
      modifies this`responses, store.state
      ensures Sane()
      ensures Can(old(Model()), Event.InitChain(id, initialHeight, genesis))
      ensures Model() == StepSystem(old(Model()), Event.InitChain(id, initialHeight, genesis), store.root)
    {
      hide Valid, ValidChain, Contents, AllSane, Apart, ObjectsOf, ChainState.Model, Initialized;
      ForksExist(forks);
      var r := store.InitChain(id, initialHeight, genesis);
      responses := responses + [InitDone(r.Ok?)];
    }

    // ---------- FinalizeBlock ----------

    method ReadHeight()
      requires Sane() && progress == Idle
      modifies this`progress
      ensures Sane()
      ensures Can(old(Model()), Event.ReadHeight)
      ensures Model() == StepSystem(old(Model()), Event.ReadHeight, store.root)
    {
      hide Valid, ValidChain, Contents, AllSane, Apart, ObjectsOf;
      var height := store.state.height;
      progress := HeightRead(if height.Some? then height.value else 0);
    }

    method ReadRoot()
      requires Sane() && progress.HeightRead? && progress.height != 0
      modifies this`progress
      ensures Sane()
      ensures Can(old(Model()), Event.ReadRoot)
      ensures Model() == StepSystem(old(Model()), Event.ReadRoot, store.root)
    {
      hide Valid, ValidChain, Contents, AllSane, Apart, ObjectsOf, ChainState.Model;
      progress := RootRead(store.root(store.storage));
    }

    method RecordRoot()
      requires Sane() && progress.RootRead? && store.state.height.Some? && store.state.height.value != 0
      modifies this`progress, store.state
      ensures Sane()
      ensures Can(old(Model()), Event.RecordRoot)
      ensures Model() == StepSystem(old(Model()), Event.RecordRoot, store.root)
    {
      hide Valid, ValidChain, Contents, AllSane, Apart, ObjectsOf;
      ForksExist(forks);
      store.state.RecordAppHash(progress.hash);
      progress := Ready;
    }

    /** The block itself; it fails when the chain was never initialized. */
    method Execute(height: nat, time: Time, txs: seq<Option<Transaction>>) returns (ghost e: Event)
      requires Sane() && (progress == Ready || progress == HeightRead(0))
      modifies this`progress, this`responses, store.state.Repr
      ensures Sane()
      ensures (e.Execute? && e.height == height && e.time == time && e.txs == txs) || e == ExecuteFails(height, time)
      ensures Can(old(Model()), e) && Model() == StepSystem(old(Model()), e, store.root)
    {
      hide Valid, ValidChain, Contents, AllSane, Apart, ObjectsOf, DeliveredInOrder, Run, BlockSteps, ChainModel.StartBlock;
      ForksExist(forks);
      var results;
      ghost var blocks;
      results, blocks := store.state.FinalizeBlock(height, time, txs);
      if results.None? {
        progress, responses := Idle, responses + [BlockFailed];
        e := ExecuteFails(height, time);
      } else {
        progress, responses := Executed, responses + [BlockDone(results.value)];
        e := Event.Execute(height, time, txs, results.value, blocks, store.state.Model());
      }
    }

    method TakeState()
      requires Sane() && progress == Executed
      modifies this`progress, store`state
      ensures Sane()
      ensures Can(old(Model()), Event.TakeState)
      ensures Model() == StepSystem(old(Model()), Event.TakeState, store.root)
    {
      hide Valid, ValidChain, Contents, AllSane, Apart, ObjectsOf, ChainState.Model;
      ForksExist(forks);
      var batch := store.TakeState();
      progress := Taken(batch);
    }

    method StageBatch()
      requires Sane() && progress.Taken?
      modifies this`progress, this`responses, store`stagedBatch
      ensures Sane()
      ensures Can(old(Model()), Event.StageBatch)
      ensures Model() == StepSystem(old(Model()), Event.StageBatch, store.root)
    {
      hide Valid, ValidChain, Contents, AllSane, Apart, ObjectsOf, ChainState.Model;
      ForksExist(forks);
      var appHash := store.StageBatch(progress.batch);
      progress, responses := Idle, responses + [BlockStaged(appHash)];
    }

    // ---------- Commit ----------

    method TakeBatch()
      requires Sane() && progress == Idle
      modifies this`progress, this`responses, store`stagedBatch
      ensures Sane()
      ensures Can(old(Model()), Event.TakeBatch)
      ensures Model() == StepSystem(old(Model()), Event.TakeBatch, store.root)
    {
      hide Valid, ValidChain, Contents, AllSane, Apart, ObjectsOf, ChainState.Model;
      ForksExist(forks);
      var batch := store.TakeBatch();
      if batch.None? {
        responses := responses + [CommitFailed];
      } else {
        progress := BatchTaken(batch.value);
      }
    }

    method ApplyBatch()
      requires Sane() && progress.BatchTaken?
      modifies this`progress, store`storage
      ensures Sane()
      ensures Can(old(Model()), Event.ApplyBatch)
      ensures Model() == StepSystem(old(Model()), Event.ApplyBatch, store.root)
    {
      hide Valid, ValidChain, Contents, AllSane, Apart, ObjectsOf, ChainState.Model;
      ForksExist(forks);
      store.ApplyBatch(progress.staged);
      progress := Applied;
    }

    method RefreshState()
      requires Sane() && progress == Applied
      modifies this`progress, this`responses, store`state
      ensures Sane()
      ensures Can(old(Model()), Event.RefreshState)
      ensures Model() == StepSystem(old(Model()), Event.RefreshState, store.root)
    {
      hide Valid, ValidChain, Contents, AllSane, Apart, ObjectsOf, ChainState.Model;
      ForksExist(forks);
      var committed := store.RefreshState();
      progress, responses := Idle, responses + [CommitDone(committed)];
    }
  }
}
