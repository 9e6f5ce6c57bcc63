/**
  The chain state as the program holds it, updated in place. Every method is tied to the steps of
  module ChainModel.
 */
module ChainStates {
  import opened Basics
  import opened ChainModel
  import opened Configs
  import opened Domains
  import opened Hex
  import opened Times
  import opened QueueLaws
  import opened VoteQueues

  datatype ActionError =
    | NotInitialized
    | NotAnOracle
    | FutureBlock
    | UnknownBlock
    | BlockAfterNow
    | TooOld
    | NoAppHash
    | WrongAppHash
    | NotBelowZone
    | BadDepths
    | AmbiguousPending
    | NothingToDelete
    | LimitExceeded
    | NotAnAdmin
    | TooEarly
    | TooLate
    | InvalidConfig(error: ConfigError)
    | VersionPending
    | NotAuthentic
    | WrongChain
    | NoActions

  datatype InitError = WrongInitialHeight | AlreadyInitialized | UnreadableConfig

  /** The names gathered by the separate reads are those at or below the registered domain. */
  lemma GatheredIsBelow(q: Queue<Domain, OracleVoteValue>, canonical: set<Domain>, r: Domain)
    ensures
      (if PendingFor(q, r) != {} then {r} else {})
      + (set p | p in q.pending && StrictlyUnder(p.key, r) :: p.key)
      + ((set d | d in canonical && StrictlyUnder(d, r)) + (if r in canonical then {r} else {}))
      == Below(PendingKeys(q) + canonical, r)
  {
    if PendingFor(q, r) != {} {
      var p :| p in PendingFor(q, r);
      assert p in q.pending && p.key == r;
    }
    if r in PendingKeys(q) {
      var p :| p in q.pending && p.key == r;
      assert p in PendingFor(q, r);
    }
  }

  /** There is one key to promote configurations for, so at most one is ripe. */
  lemma AtMostOneRipe(q: Queue<(), Config>, now: Time, delay: nat, order: seq<PendingKey<()>>)
    requires Valid(q) && Lists(order, RipeChanges(q, now, delay))
    ensures |order| <= 1
  {
    assert forall p :: p in q.pending ==> p.key == ();
    assert forall i :: 0 <= i < |order| ==> order[i] in q.pending;
    assert |order| > 1 ==> order[0] == order[1];
  }

  ghost function Updates(promoted: seq<(Domain, OracleVoteValue)>): seq<(Domain, HashObserved)> {
    seq(|promoted|, i requires 0 <= i < |promoted| => (promoted[i].0, promoted[i].1.hashObserved))
  }

  /** The promoted list names every ripe change once. */
  lemma RipeListsChanges(
      q: Queue<Domain, OracleVoteValue>, ripe: set<PendingKey<Domain>>,
      order: seq<PendingKey<Domain>>, promoted: seq<(Domain, OracleVoteValue)>)
    requires Valid(q) && ripe <= q.pendingIndex.Keys
    requires Lists(order, ripe) && |promoted| == |order|
    requires forall i :: 0 <= i < |order| ==>
      order[i] in q.pendingIndex && promoted[i] == (order[i].key, q.pendingIndex[order[i]])
    ensures ListsChanges(Updates(promoted), ChangesOf(q, ripe))
  {
    var changes := ChangesOf(q, ripe);
    forall i, j | 0 <= i < j < |order|
      ensures order[i].key != order[j].key
    {
      assert order[i] in q.pending && order[j] in q.pending;
    }
    forall d | d in changes
      ensures exists i :: 0 <= i < |promoted| && Updates(promoted)[i].0 == d
    {
      var p :| p in ripe && p.key == d;
      var i :| 0 <= i < |order| && order[i] == p;
      assert Updates(promoted)[i].0 == d;
    }
  }

  class ChainState {
    var chainId: Option<string>
    var config: Option<Config>
    var height: Option<nat>
    var time: Option<Time>
    var blockTimes: map<nat, Time>
    var appHashes: map<nat, Bytes>
    var canonical: map<Domain, Bytes>
    const oracleQueue: VoteQueue<Domain, OracleVoteValue>
    const adminQueue: VoteQueue<(), Config>

    ghost const Repr: set<object> := {this, oracleQueue, adminQueue}

    ghost function Model(): Chain
      reads Repr
    {
      Chain(chainId, config, height, time, blockTimes, appHashes, canonical,
            oracleQueue.Model(), adminQueue.Model())
    }

    /** The three objects are distinct and the two queues are consistent. */
    ghost predicate Sane()
      reads Repr
    {
      && oracleQueue as object != this && adminQueue as object != this
      && oracleQueue as object != adminQueue as object
      && ValidChain(Model())
    }

    constructor ()
      ensures Sane() && fresh(Repr)
      ensures Model() == EmptyChain()
    {
      chainId, config, height, time := None, None, None, None;
      blockTimes, appHashes, canonical := map[], map[], map[];
      oracleQueue := new VoteQueue();
      adminQueue := new VoteQueue();
    }

    /** A state over a snapshot; changes to it are not visible elsewhere. */
    constructor Over(c: Chain)
      requires ValidChain(c)
      ensures Sane() && fresh(Repr)
      ensures Model() == c
    {
      chainId, config, height, time := c.chainId, c.config, c.height, c.time;
      blockTimes, appHashes, canonical := c.blockTimes, c.appHashes, c.canonical;
      oracleQueue := new VoteQueue.Over(c.oracle);
      adminQueue := new VoteQueue.Over(c.admin);
    }

    method Snapshot() returns (c: Chain)
      ensures c == Model()
    {
      var oracle := oracleQueue.Contents();
      var admin := adminQueue.Contents();
      return Chain(chainId, config, height, time, blockTimes, appHashes, canonical, oracle, admin);
    }

    method InitChain(id: string, initialHeight: nat, genesis: Genesis) returns (r: Result<(), InitError>)
      requires Sane()
      modifies this
      ensures Sane()
      ensures (Model(), r.Ok?) == Initialized(old(Model()), id, initialHeight, genesis)
      ensures r == Err(AlreadyInitialized) <==> initialHeight == 1 && old(chainId).Some?
    {
      if initialHeight != 1 {
        return Err(WrongInitialHeight);
      }
      if chainId.Some? {
        return Err(AlreadyInitialized);
      }
      chainId := Some(id);
      match genesis {
        case NoConfig => config := Some(DEFAULT_CONFIG);
        case BadConfig => return Err(UnreadableConfig);
        case Given(c) => config := Some(c);
      }
      return Ok(());
    }

    method RecordAppHash(hash: Bytes)
      requires Sane() && height.Some? && height.value != 0
      modifies this`appHashes
      ensures Sane() && Model() == ChainModel.RecordAppHash(old(Model()), hash)
    {
      appHashes := appHashes[height.value - 1 := hash];
    }

    // ---------- Observations ----------

    /** The check of a blockstamp: height, age and app hash. */
    method CheckBlockstamp(s: Blockstamp) returns (r: Result<(), ActionError>)
      requires config.Some? && height.Some? && time.Some?
      ensures r.Ok? <==> StampHolds(Model(), s)
      ensures r.Err? && r.error == FutureBlock <==> height.value < s.height
      ensures r.Err? ==> r.error in {FutureBlock, UnknownBlock, BlockAfterNow, TooOld, NoAppHash, WrongAppHash}
    {
      if s.height > height.value {
        return Err(FutureBlock);
      }
      if s.height !in blockTimes {
        return Err(UnknownBlock);
      }
      var blockTime := blockTimes[s.height];
      if time.value < blockTime {
        return Err(BlockAfterNow);
      }
      if time.value - blockTime >= config.value.oracles.observationTimeout * NANOS {
        return Err(TooOld);
      }
      var index := StampIndex(s.height);
      if index !in appHashes {
        return Err(NoAppHash);
      }
      if appHashes[index] != s.appHash {
        return Err(WrongAppHash);
      }
      return Ok(());
    }

    /** Whether the subdomain limit lets a name become pending, gathered from the separate reads. */
    method CheckSubdomainLimit(subdomain: Domain, registered: Domain) returns (r: Result<(), ActionError>)
      requires Sane() && config.Some?
      ensures r.Ok? <==>
        LimitAllows(PendingKeys(oracleQueue.Model()), canonical.Keys,
                    config.value.oracles.maxEnrolledSubdomains, subdomain, registered)
      ensures r.Err? ==> r.error == LimitExceeded
    {
      var registeredPending := oracleQueue.PendingForKey(registered);
      AtMostOnePending(oracleQueue.Model(), registered);
      var own: set<Domain> := if registeredPending.value.Some? then {registered} else {};
      var pendingBelow := set p | p in oracleQueue.pending && StrictlyUnder(p.key, registered) :: p.key;
      var canonicalBelow := (set d | d in canonical && StrictlyUnder(d, registered))
                            + (if registered in canonical then {registered} else {});
      var unique := own + pendingBelow + canonicalBelow;
      GatheredIsBelow(oracleQueue.Model(), canonical.Keys, registered);
      if subdomain !in unique && |unique| + 1 > config.value.oracles.maxEnrolledSubdomains {
        return Err(LimitExceeded);
      }
      return Ok(());
    }

    method Observe(o: ChainModel.Observe)
      returns (r: Result<(), ActionError>, ghost winner: Option<OracleVoteValue>)
      requires Sane()
      modifies Repr
      ensures unchanged(this)
      ensures Enabled(old(Model()), ObserveStep(o, winner))
      ensures Model() == Apply(old(Model()), ObserveStep(o, winner))
      ensures Sane()
      ensures r.Ok? <==> MayObserve(old(Model()), o) && CastObservation(old(Model()), o, winner).1
      ensures r.Err? && r.error == NotAnOracle <==>
        old(config).Some? && !IsOracle(old(config).value, o.oracle)
    {
      winner := None;
      if config.None? {
        return Err(NotInitialized), winner;
      }
      if !exists a :: a in config.value.oracles.authorized && a.identity == o.oracle {
        return Err(NotAnOracle), winner;
      }
      if height.None? || time.None? {
        return Err(NotInitialized), winner;
      }
      var stamp := CheckBlockstamp(o.blockstamp);
      if stamp.Err? {
        return stamp, winner;
      }
      if o.domain == o.zone || !Under(o.domain, o.zone) {
        return Err(NotBelowZone), winner;
      }
      RegisteredIsBelowZone(o.domain, o.zone);
      var registered := RegisteredDomain(o.domain, o.zone).value;

      // Prevent unenrolling unknown names and enrolling too many.
      if o.domain !in canonical {
        var pending := oracleQueue.PendingForKey(o.domain);
        AtMostOnePending(oracleQueue.Model(), o.domain);
        if pending.Err? {
          return Err(AmbiguousPending), winner;
        }
        if pending.value.None? || pending.value.value.hashObserved.NotFound? {
          assert GoneFromPending(oracleQueue.Model(), o.domain);
          if o.hashObserved.NotFound? {
            return Err(NothingToDelete), winner;
          }
          var limit := CheckSubdomainLimit(o.domain, registered);
          if limit.Err? {
            return limit, winner;
          }
        }
      }
      assert MayObserve(Model(), o);
      var rule := SubdomainRule(canonical.Keys, config.value.oracles.maxEnrolledSubdomains);
      var ok, w := oracleQueue.Cast(
        Vote(Encode(o.oracle), time.value, o.domain, OracleVoteValue(o.hashObserved, o.zone)),
        config.value.oracles.voting.quorum, rule);
      CastKeepsValid(old(Model()).oracle, ObservationVote(old(Model()), o), w, rule);
      return if ok then Ok(()) else Err(BadDepths), w;
    }

    // ---------- Reconfigurations ----------

    method Reconfigure(p: ChainModel.Reconfigure)
      returns (r: Result<(), ActionError>, ghost winner: Option<Config>)
      requires Sane()
      modifies Repr
      ensures unchanged(this)
      ensures Enabled(old(Model()), ReconfigureStep(p, winner))
      ensures Model() == Apply(old(Model()), ReconfigureStep(p, winner))
      ensures Sane()
      ensures r.Ok? <==> MayReconfigure(old(Model()), p)
    {
      winner := None;
      if config.None? || time.None? {
        return Err(NotInitialized), winner;
      }
      if config.value.admins.authorized != [] && p.admin !in config.value.admins.authorized {
        return Err(NotAnAdmin), winner;
      }
      if time.value < p.notBefore {
        return Err(TooEarly), winner;
      }
      if time.value > p.notAfter {
        return Err(TooLate), winner;
      }
      var check := CheckConfig(config.value, p.config);
      if check.Err? {
        return Err(InvalidConfig(check.error)), winner;
      }
      var pending := adminQueue.PendingForKey(());
      AtMostOnePending(adminQueue.Model(), ());
      if pending.Err? {
        return Err(AmbiguousPending), winner;
      }
      if pending.value.Some? {
        if pending.value.value.version >= p.config.version {
          return Err(VersionPending), winner;
        }
      }
      assert forall k :: k in adminQueue.pending ==> k.key == ();
      assert MayReconfigure(Model(), p);
      var _, w := adminQueue.Cast(
        Vote(Encode(p.admin), time.value, (), p.config), config.value.admins.voting.quorum, NoLimit());
      CastKeepsValid(old(Model()).admin, ReconfigurationVote(old(Model()), p), w, NoLimit());
      return Ok(()), w;
    }

    // ---------- Blocks ----------

    method UpdateCanonical(d: Domain, observed: HashObserved)
      modifies this`canonical
      ensures canonical == ApplyUpdate(old(canonical), (d, observed))
    {
      match observed {
        case Hash(bytes) => canonical := canonical[d := bytes];
        case NotFound => canonical := canonical - {d};
      }
    }

    method DeliverAction(a: Action) returns (r: Result<(), ActionError>, ghost s: Step)
      requires Sane()
      modifies Repr
      ensures Sane() && unchanged(this)
      ensures StepOf(a, s) && Enabled(old(Model()), s)
      ensures Model() == Apply(old(Model()), s)
      ensures r.Ok? <==> Accepted(old(Model()), s)
    {
      match a {
        case ObserveAction(o) =>
          ghost var w;
          r, w := Observe(o);
          s := ObserveStep(o, w);
        case ReconfigureAction(p) =>
          ghost var w;
          r, w := Reconfigure(p);
          s := ReconfigureStep(p, w);
      }
    }

    method DeliverTx(tx: Option<Transaction>)
      returns (r: Result<(), ActionError>, ghost steps: seq<Step>)
      requires Sane()
      modifies Repr
      ensures Sane() && unchanged(this)
      ensures Delivered(old(Model()), tx, steps, r.Ok?)
      ensures Run(old(Model()), steps) == Some(Model())
    {
      steps := [];
      if tx.None? {
        return Err(NotAuthentic), steps;
      }
      if chainId.None? {
        return Err(NotInitialized), steps;
      }
      if tx.value.chainId != chainId.value {
        return Err(WrongChain), steps;
      }
      var actions := tx.value.actions;
      if actions == [] {
        return Err(NoActions), steps;
      }
      for i := 0 to |actions|
        invariant Sane() && unchanged(this)
        invariant |steps| == i
        invariant Partly(old(Model()), actions, steps, Model())
      {
        ghost var before := Model();
        ghost var s;
        r, s := DeliverAction(actions[i]);
        PartlyNext(old(Model()), tx.value, steps, before, s);
        steps := steps + [s];
        if r.Err? {
          return;
        }
      }
      return Ok(()), steps;
    }

    /** Installs the ripe configuration, if there is one and it is newer than the current one. */
    method PromoteConfigs()
      requires Sane() && config.Some? && time.Some?
      modifies Repr
      ensures config.Some? && time == old(time)
      ensures Sane() && Model() == ChainModel.PromoteConfig(old(Model()))
    {
      var promoted, order := adminQueue.PromotePendingChanges(time.value, config.value.admins.voting.delay);
      PromoteKeepsValid(old(Model()).admin, time.value, config.value.admins.voting.delay);
      AtMostOneRipe(old(Model()).admin, time.value, config.value.admins.voting.delay, order);
      for i := 0 to |promoted|
        invariant Model() == old(Model()).(admin := adminQueue.Model(), config := config)
        invariant adminQueue.Model() == Promote(old(Model()).admin, time.value, old(config).value.admins.voting.delay)
        invariant i == 0 ==> config == old(config)
        invariant i == 1 ==> config == Some(
          if old(config).value.version < promoted[0].1.version then promoted[0].1 else old(config).value)
      {
        if config.value.version >= promoted[i].1.version {
          continue;
        }
        config := Some(promoted[i].1);
      }
      if |order| == 1 {
        assert order[0] in RipeConfigs(old(Model()));
        assert forall p :: p in RipeConfigs(old(Model())) ==> p == order[0];
      } else {
        assert RipeConfigs(old(Model())) == {};
      }
    }

    /** Applies the ripe observations to the canonical map one by one. */
    method PromoteObservations()
      requires Sane() && config.Some? && time.Some?
      modifies Repr
      ensures Sane() && Model() == ChainModel.PromoteCanonical(old(Model()))
    {
      var promoted, order := oracleQueue.PromotePendingChanges(time.value, config.value.oracles.voting.delay);
      PromoteKeepsValid(old(Model()).oracle, time.value, config.value.oracles.voting.delay);
      ghost var promotedQueue := oracleQueue.Model();
      ghost var updates := Updates(promoted);
      for i := 0 to |promoted|
        invariant Model() == old(Model()).(oracle := promotedQueue, canonical := canonical)
        invariant canonical == ApplyUpdates(old(canonical), updates[..i])
      {
        UpdateCanonical(promoted[i].0, promoted[i].1.hashObserved);
        assert updates[..i + 1][..i] == updates[..i];
      }
      assert updates[..|promoted|] == updates;
      RipeListsChanges(old(Model()).oracle, RipeObservations(old(Model())), order, promoted);
      UpdatesInAnyOrder(old(canonical), updates, ChangesOf(old(Model()).oracle, RipeObservations(old(Model()))));
    }

    /** Sets height and time and expires votes; fails when the chain was never initialized. */
    method StartBlock(newHeight: nat, newTime: Time) returns (ok: bool)
      requires Sane()
      modifies Repr
      ensures Sane()
      ensures ok <==> old(config).Some?
      ensures !ok ==> Model() == ChainModel.StartBlock(old(Model()), newHeight, newTime)
      ensures ok ==> Model() == Apply(old(Model()), BeginBlock(newHeight, newTime))
      ensures ok ==> config == old(config) && time.Some?
    {
      height := Some(newHeight);
      time := Some(newTime);
      blockTimes := blockTimes[newHeight := newTime];
      if config.None? {
        return false;
      }
      adminQueue.TimeoutExpiredVotes(newTime, config.value.admins.voting.timeout);
      oracleQueue.TimeoutExpiredVotes(newTime, config.value.oracles.voting.timeout);
      ExpireKeepsValid(old(Model()).admin, newTime, config.value.admins.voting.timeout);
      ExpireKeepsValid(old(Model()).oracle, newTime, config.value.oracles.voting.timeout);
      return true;
    }

    /** Delivers the transactions of a block one after the other, whether or not they fail. */
    method DeliverTxs(txs: seq<Option<Transaction>>, ghost c: Chain, ghost h: nat, ghost t: Time)
      returns (oks: seq<bool>, ghost blocks: seq<seq<Step>>)
      requires Sane()
      requires Run(c, BlockStart(h, t, [])) == Some(Model())
      modifies Repr
      ensures Sane() && unchanged(this)
      ensures |oks| == |txs| && DeliveredInOrder(c, h, t, txs, oks, blocks)
      ensures Run(c, BlockStart(h, t, blocks)) == Some(Model())
    {
      hide Run, DeliveredInOrder, Delivered;
      oks, blocks := [], [];
      assert DeliveredInOrder(c, h, t, txs, oks, blocks) by {
        NothingDelivered(c, h, t, txs);
      }
      for i := 0 to |txs|
        invariant Sane() && unchanged(this)
        invariant |oks| == i
        invariant DeliveredInOrder(c, h, t, txs, oks, blocks)
        invariant Run(c, BlockStart(h, t, blocks)) == Some(Model())
      {
        ghost var before := Model();
        ghost var steps;
        var r;
        r, steps := DeliverTx(txs[i]);
        OneMoreDelivered(c, h, t, txs, oks, blocks, before, steps, r.Ok?, Model());
        oks := oks + [r.Ok?];
        blocks := blocks + [steps];
      }
    }

    /**
      A block: set height and time, expire votes, deliver the transactions, promote the ripe
      configuration and then the ripe observations.
     */
    method FinalizeBlock(newHeight: nat, newTime: Time, txs: seq<Option<Transaction>>)
      returns (results: Option<seq<bool>>, ghost blocks: seq<seq<Step>>)
      requires Sane()
      modifies Repr
      ensures Sane()
      ensures results.None? <==> old(config).None?
      ensures results.None? ==> Model() == ChainModel.StartBlock(old(Model()), newHeight, newTime)
      ensures results.Some? ==>
        && |results.value| == |txs|
        && DeliveredInOrder(old(Model()), newHeight, newTime, txs, results.value, blocks)
        && Run(old(Model()), BlockSteps(newHeight, newTime, blocks)) == Some(Model())
    {
      blocks := [];
      var started := StartBlock(newHeight, newTime);
      if !started {
        return None, blocks;
      }
      hide Apply, Delivered, DeliveredInOrder;
      StartOfBlock(old(Model()), newHeight, newTime);
      var oks;
      oks, blocks := DeliverTxs(txs, old(Model()), newHeight, newTime);
      ghost var delivered := Model();
      PromotionSteps(delivered);
      PromoteConfigs();
      ghost var reconfigured := Model();
      PromotionSteps(reconfigured);
      PromoteObservations();
      EndOfBlock(old(Model()), newHeight, newTime, blocks, delivered, reconfigured, Model());
      return Some(oks), blocks;
    }
  }
}
