/**
  The node's store and the requests that consensus sends it: the committed snapshot, the shared
  working state, and the batch staged between FinalizeBlock and Commit. The root hash of a state is
  an abstract function.
 */
module Stores {
  import opened Basics
  import opened ChainModel
  import opened ChainStates
  import opened Hex
  import opened Times
  import opened VoteQueues

  datatype Node = Node(committed: Chain, working: Chain, staged: Option<Chain>)

  /** The working state when a block is carried out: the hash of the last commit is filed, except in the first block. */
  ghost function WithPreviousHash(n: Node, root: Chain -> Bytes): Chain {
    if n.working.height.Some? && n.working.height.value != 0 then RecordAppHash(n.working, root(n.committed))
    else n.working
  }

  class Store {
    const root: Chain -> Bytes
    var storage: Chain
    var state: ChainState
    var stagedBatch: Option<Chain>

    ghost function Model(): Node
      reads this, state, state.Repr
    {
      Node(storage, state.Model(), stagedBatch)
    }

    ghost predicate Sane()
      reads this, state, state.Repr
    {
      && this !in state.Repr && state.Sane()
      && ValidChain(storage) && (stagedBatch.Some? ==> ValidChain(stagedBatch.value))
    }

    constructor (root: Chain -> Bytes)
      ensures Sane() && fresh(state) && fresh(state.Repr)
      ensures Model() == Node(EmptyChain(), EmptyChain(), None)
    {
      this.root := root;
      storage := Chain(None, None, None, None, map[], map[], map[],
                       Queue(map[], map[], map[], map[]), Queue(map[], map[], map[], map[]));
      state := new ChainState();
      stagedBatch := None;
    }

    /** Takes the working state out and puts a fresh view of the committed snapshot in its place. */
    method TakeState() returns (batch: Chain)
      requires Sane()
      modifies this`state
      ensures Sane() && fresh(state) && fresh(state.Repr)
      ensures state.Model() == storage && batch == old(state.Model()) && ValidChain(batch)
    {
      batch := state.Snapshot();
      state := new ChainState.Over(storage);
    }

    method StageBatch(batch: Chain) returns (appHash: Bytes)
      requires Sane() && ValidChain(batch)
      modifies this`stagedBatch
      ensures Sane() && stagedBatch == Some(batch) && appHash == root(batch)
    {
      stagedBatch := Some(batch);
      return root(batch);
    }

    /** Stages the working state and replaces it by a fresh view of the committed snapshot. */
    method PrepareCommit() returns (appHash: Bytes)
      requires Sane()
      modifies this
      ensures Sane() && fresh(state) && fresh(state.Repr)
      ensures Model() == Node(old(storage), old(storage), Some(old(state.Model())))
      ensures appHash == root(old(state.Model()))
    {
      var batch := TakeState();
      appHash := StageBatch(batch);
    }

    method InitChain(id: string, initialHeight: nat, genesis: Genesis) returns (r: Result<(), InitError>)
      requires Sane()
      modifies state
      ensures Sane() && unchanged(this)
      ensures (state.Model(), r.Ok?) == Initialized(old(state.Model()), id, initialHeight, genesis)
    {
      r := state.InitChain(id, initialHeight, genesis);
    }

    /** Carries out a block on the working state and stages the result; nothing is committed yet. */
    method FinalizeBlock(height: nat, time: Time, txs: seq<Option<Transaction>>)
      returns (r: Option<(seq<bool>, Bytes)>, ghost blocks: seq<seq<Step>>)
      requires Sane()
      modifies this, state, state.Repr
      ensures Sane()
      ensures r.None? <==> old(state.config).None?
      ensures storage == old(storage)
      ensures r.Some? ==>
        var start := WithPreviousHash(old(Model()), root);
        && Model() == Node(old(storage), old(storage), stagedBatch)
        && stagedBatch.Some?
        && Run(start, BlockSteps(height, time, blocks)) == stagedBatch
        && |r.value.0| == |txs|
        && DeliveredInOrder(start, height, time, txs, r.value.0, blocks)
        && r.value.1 == root(stagedBatch.value)
    {
      if state.height.Some? && state.height.value != 0 {
        var previous := root(storage);
        state.RecordAppHash(previous);
      }
      assert state.Model() == WithPreviousHash(old(Model()), root);
      var results;
      results, blocks := state.FinalizeBlock(height, time, txs);
      if results.None? {
        return None, blocks;
      }
      var appHash := PrepareCommit();
      return Some((results.value, appHash)), blocks;
    }

    method TakeBatch() returns (batch: Option<Chain>)
      requires Sane()
      modifies this`stagedBatch
      ensures Sane() && stagedBatch == None && batch == old(stagedBatch)
      ensures batch.Some? ==> ValidChain(batch.value)
    {
      batch := stagedBatch;
      stagedBatch := None;
    }

    method ApplyBatch(batch: Chain)
      requires Sane() && ValidChain(batch)
      modifies this`storage
      ensures Sane() && storage == batch
    {
      storage := batch;
    }

    method RefreshState() returns (committed: Bytes)
      requires Sane()
      modifies this`state
      ensures Sane() && fresh(state) && fresh(state.Repr)
      ensures state.Model() == storage && committed == root(storage)
    {
      state := new ChainState.Over(storage);
      return root(storage);
    }

    /** Applies the staged batch and starts from the new snapshot. */
    method Commit() returns (r: Option<Bytes>)
      requires Sane()
      modifies this
      ensures Sane()
      ensures r.None? <==> old(stagedBatch).None?
      ensures r.None? ==> unchanged(this)
      ensures r.Some? ==>
        && Model() == Node(old(stagedBatch).value, old(stagedBatch).value, None)
        && r.value == root(old(stagedBatch).value)
    {
      hide Valid, ValidChain;
      var batch := TakeBatch();
      if batch.None? {
        return None;
      }
      ApplyBatch(batch.value);
      var committed := RefreshState();
      return Some(committed);
    }

    /** A new object with the contents of the working state, sharing nothing with it. */
    method Fork() returns (fork: ChainState)
      requires Sane()
      ensures fork.Sane() && fresh(fork.Repr) && fork.Model() == state.Model()
    {
      var snapshot := state.Snapshot();
      fork := new ChainState.Over(snapshot);
    }

    /**
      Tries a transaction on a fork of the working state. It modifies nothing that existed before, and
      accepts exactly when delivering the transaction to the working state would be reported as a
      success for some iteration order of the tallies.
     */
    method CheckTx(tx: Option<Transaction>) returns (accepted: bool)
      requires Sane()
      ensures exists steps :: Delivered(state.Model(), tx, steps, accepted)
    {
      hide Delivered, Run, Model;
      ghost var before := state.Model();
      var fork := Fork();
      var r;
      ghost var steps;
      r, steps := fork.DeliverTx(tx);
      assert state.Model() == before && Delivered(before, tx, steps, r.Ok?);
      return r.Ok?;
    }
  }
}
