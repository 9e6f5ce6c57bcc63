/**
  The state of the chain as a value, and what each step of a block does to it. The class in
  module ChainStates carries out the same steps by updating its fields; runs of the chain are
  sequences of these steps.
 */
module ChainModel {
  import opened Basics
  import opened Configs
  import opened Domains
  import opened Hex
  import opened Times
  import opened VoteQueues

  datatype HashObserved = Hash(bytes: Bytes) | NotFound

  datatype OracleVoteValue = OracleVoteValue(hashObserved: HashObserved, zone: Domain)

  datatype Blockstamp = Blockstamp(height: nat, appHash: Bytes)

  datatype Observe = Observe(
    oracle: Bytes, domain: Domain, zone: Domain, hashObserved: HashObserved, blockstamp: Blockstamp)

  datatype Reconfigure = Reconfigure(admin: Bytes, config: Config, notBefore: Time, notAfter: Time)

  datatype Action = ObserveAction(observe: Observe) | ReconfigureAction(reconfigure: Reconfigure)

  datatype Transaction = Transaction(chainId: string, actions: seq<Action>)

  /** The configuration part of the genesis request: absent, unreadable, or given. */
  datatype Genesis = NoConfig | BadConfig | Given(config: Config)

  datatype Chain = Chain(
    chainId: Option<string>,
    config: Option<Config>,
    height: Option<nat>,
    time: Option<Time>,
    blockTimes: map<nat, Time>,
    appHashes: map<nat, Bytes>,
    canonical: map<Domain, Bytes>,
    oracle: Queue<Domain, OracleVoteValue>,
    admin: Queue<(), Config>)

  ghost function EmptyChain(): Chain {
    Chain(None, None, None, None, map[], map[], map[], Empty(), Empty())
  }

  ghost predicate ValidChain(c: Chain) {
    Valid(c.oracle) && Valid(c.admin)
  }

  /** The genesis request; the flag tells whether it succeeds. An unreadable configuration leaves the chain id set. */
  ghost function Initialized(c: Chain, id: string, initialHeight: nat, genesis: Genesis): (Chain, bool) {
    if initialHeight != 1 || c.chainId.Some? then (c, false)
    else if genesis.BadConfig? then (c.(chainId := Some(id)), false)
    else (c.(chainId := Some(id), config := Some(if genesis.Given? then genesis.config else DEFAULT_CONFIG)), true)
  }

  // ---------- Observations ----------

  ghost predicate IsOracle(c: Config, identity: Bytes) {
    exists o :: o in c.oracles.authorized && o.identity == identity
  }

  /** The height under which the app hash of a blockstamp is looked up, cut to 32 bits. */
  function StampIndex(height: nat): nat {
    (if height == 0 then 0 else height - 1) % 0x1_0000_0000
  }

  /** The blockstamp is not in the future, recent enough, and carries the recorded app hash. */
  ghost predicate StampHolds(c: Chain, s: Blockstamp)
    requires c.config.Some? && c.height.Some? && c.time.Some?
  {
    && s.height <= c.height.value
    && s.height in c.blockTimes
    && c.blockTimes[s.height] <= c.time.value
    && c.time.value - c.blockTimes[s.height] < c.config.value.oracles.observationTimeout * NANOS
    && StampIndex(s.height) in c.appHashes
    && c.appHashes[StampIndex(s.height)] == s.appHash
  }

  /** The names in `names` at or below a registered domain. */
  function Below(names: set<Domain>, r: Domain): set<Domain> {
    set d | d in names && Under(d, r)
  }

  /** The subdomain limit lets `d` become pending: it is counted already, or there is room. */
  predicate LimitAllows(pending: set<Domain>, canonical: set<Domain>, max: nat, d: Domain, r: Domain) {
    d in Below(pending + canonical, r) || |Below(pending + canonical, r)| + 1 <= max
  }

  /** Nothing is pending for the name but, perhaps, its deletion. */
  ghost predicate GoneFromPending(q: Queue<Domain, OracleVoteValue>, d: Domain) {
    forall p :: p in q.pending && p.key == d ==> q.pending[p].hashObserved.NotFound?
  }

  /** A name that is neither enrolled nor about to be may only be enrolled, and within the limit. */
  ghost predicate Enrollable(c: Chain, o: Observe)
    requires c.config.Some?
  {
    o.domain !in c.canonical && GoneFromPending(c.oracle, o.domain) ==>
      && o.hashObserved.Hash?
      && RegisteredDomain(o.domain, o.zone).Some?
      && LimitAllows(PendingKeys(c.oracle), c.canonical.Keys, c.config.value.oracles.maxEnrolledSubdomains,
                     o.domain, RegisteredDomain(o.domain, o.zone).value)
  }

  /** An observation that is cast as a vote. */
  ghost predicate MayObserve(c: Chain, o: Observe) {
    && c.config.Some? && c.height.Some? && c.time.Some?
    && IsOracle(c.config.value, o.oracle)
    && StampHolds(c, o.blockstamp)
    && StrictlyUnder(o.domain, o.zone)
    && Enrollable(c, o)
  }

  ghost function ObservationVote(c: Chain, o: Observe): Vote<Domain, OracleVoteValue>
    requires c.time.Some?
  {
    Vote(Encode(o.oracle), c.time.value, o.domain, OracleVoteValue(o.hashObserved, o.zone))
  }

  /** The limit check made when a domain change is about to become pending. */
  function SubdomainRule(canonical: set<Domain>, max: nat): AdmissionRule<Domain, OracleVoteValue> {
    (pending: set<Domain>, d: Domain, w: OracleVoteValue) =>
      match RegisteredDomain(d, w.zone)
      case None => Admission.Fail
      case Some(r) => if LimitAllows(pending, canonical, max, d, r) then Admit else Drop
  }

  /** Configurations are not subject to a limit. */
  function NoLimit(): AdmissionRule<(), Config> {
    (pending: set<()>, k: (), w: Config) => Admit
  }

  ghost function CastObservation(c: Chain, o: Observe, winner: Option<OracleVoteValue>): (r: (Chain, bool))
    requires c.config.Some? && c.time.Some?
  {
    var rule := SubdomainRule(c.canonical.Keys, c.config.value.oracles.maxEnrolledSubdomains);
    var (q, ok) := CastVote(c.oracle, ObservationVote(c, o), winner, rule);
    (c.(oracle := q), ok)
  }

  // ---------- Reconfigurations ----------

  ghost predicate MayReconfigure(c: Chain, r: Reconfigure) {
    && c.config.Some? && c.time.Some?
    && (c.config.value.admins.authorized == [] || r.admin in c.config.value.admins.authorized)
    && r.notBefore <= c.time.value <= r.notAfter
    && Acceptable(c.config.value, r.config)
    && (forall p :: p in c.admin.pending ==> c.admin.pending[p].version < r.config.version)
  }

  ghost function ReconfigurationVote(c: Chain, r: Reconfigure): Vote<(), Config>
    requires c.time.Some?
  {
    Vote(Encode(r.admin), c.time.value, (), r.config)
  }

  ghost function CastReconfiguration(c: Chain, r: Reconfigure, winner: Option<Config>): Chain
    requires c.time.Some?
  {
    c.(admin := CastVote(c.admin, ReconfigurationVote(c, r), winner, NoLimit()).0)
  }

  // ---------- Block boundaries ----------

  ghost function StartBlock(c: Chain, height: nat, time: Time): Chain {
    c.(height := Some(height), time := Some(time), blockTimes := c.blockTimes[height := time])
  }

  ghost function ExpireVotes(c: Chain): Chain
    requires c.config.Some? && c.time.Some?
  {
    c.(admin := Expire(c.admin, c.time.value, c.config.value.admins.voting.timeout),
       oracle := Expire(c.oracle, c.time.value, c.config.value.oracles.voting.timeout))
  }

  ghost function RipeConfigs(c: Chain): set<PendingKey<()>>
    requires c.config.Some? && c.time.Some?
  {
    RipeChanges(c.admin, c.time.value, c.config.value.admins.voting.delay)
  }

  ghost function RipeObservations(c: Chain): set<PendingKey<Domain>>
    requires c.config.Some? && c.time.Some?
  {
    RipeChanges(c.oracle, c.time.value, c.config.value.oracles.voting.delay)
  }

  /** The configuration in force after promotion: the ripe one, unless it is not newer. */
  ghost function PromotedConfig(c: Chain): Config
    requires c.config.Some? && c.time.Some?
  {
    var ripe := RipeConfigs(c);
    if exists p :: p in ripe && c.config.value.version < c.admin.pendingIndex[p].version then
      var p :| p in ripe && c.config.value.version < c.admin.pendingIndex[p].version;
      c.admin.pendingIndex[p]
    else c.config.value
  }

  ghost function PromoteConfig(c: Chain): Chain
    requires c.config.Some? && c.time.Some?
  {
    c.(admin := Promote(c.admin, c.time.value, c.config.value.admins.voting.delay),
       config := Some(PromotedConfig(c)))
  }

  /** The canonical map after every name in `changes` was set or deleted. */
  ghost function Overlay(canonical: map<Domain, Bytes>, changes: map<Domain, HashObserved>): map<Domain, Bytes> {
    map d | d in canonical.Keys + changes.Keys && (d in changes ==> changes[d].Hash?)
      :: if d in changes then changes[d].bytes else canonical[d]
  }

  /** The changes that ripe entries ask for; their names are pairwise different. */
  ghost function ChangesOf(q: Queue<Domain, OracleVoteValue>, ripe: set<PendingKey<Domain>>): map<Domain, HashObserved>
    requires Valid(q) && ripe <= q.pendingIndex.Keys
  {
    map p | p in ripe :: p.key := q.pendingIndex[p].hashObserved
  }

  ghost function PromoteCanonical(c: Chain): Chain
    requires ValidChain(c) && c.config.Some? && c.time.Some?
  {
    c.(oracle := Promote(c.oracle, c.time.value, c.config.value.oracles.voting.delay),
       canonical := Overlay(c.canonical, ChangesOf(c.oracle, RipeObservations(c))))
  }

  /** The app hash of the previous block is filed under the height before the current one. */
  ghost function RecordAppHash(c: Chain, hash: Bytes): Chain
    requires c.height.Some? && c.height.value != 0
  {
    c.(appHashes := c.appHashes[c.height.value - 1 := hash])
  }

  // ---------- Steps ----------

  datatype Step =
    | RecordHash(hash: Bytes)
    | BeginBlock(height: nat, time: Time)
    | ObserveStep(observe: Observe, winner: Option<OracleVoteValue>)
    | ReconfigureStep(reconfigure: Reconfigure, choice: Option<Config>)
    | PromoteConfigStep
    | PromoteCanonicalStep

  /** The choices a step makes are among those the tally may report. */
  ghost predicate Enabled(c: Chain, s: Step) {
    match s
    case RecordHash(_) => c.height.Some? && c.height.value != 0
    case BeginBlock(_, _) => c.config.Some?
    case ObserveStep(o, w) => MayObserve(c, o) ==>
      LegalWinner(PutVote(c.oracle, ObservationVote(c, o)), o.domain, c.config.value.oracles.voting.quorum, w)
    case ReconfigureStep(r, w) => MayReconfigure(c, r) ==>
      LegalWinner(PutVote(c.admin, ReconfigurationVote(c, r)), (), c.config.value.admins.voting.quorum, w)
    case PromoteConfigStep => c.config.Some? && c.time.Some?
    case PromoteCanonicalStep => ValidChain(c) && c.config.Some? && c.time.Some?
  }

  ghost function Apply(c: Chain, s: Step): Chain
    requires Enabled(c, s)
  {
    match s
    case RecordHash(hash) => RecordAppHash(c, hash)
    case BeginBlock(height, time) => ExpireVotes(StartBlock(c, height, time))
    case ObserveStep(o, w) => if MayObserve(c, o) then CastObservation(c, o, w).0 else c
    case ReconfigureStep(r, w) => if MayReconfigure(c, r) then CastReconfiguration(c, r, w) else c
    case PromoteConfigStep => PromoteConfig(c)
    case PromoteCanonicalStep => PromoteCanonical(c)
  }

  /** The state after a list of steps; nothing, when one of them is not enabled when it is taken. */
  ghost function Run(c: Chain, steps: seq<Step>): Option<Chain> {
    if steps == [] then Some(c)
    else Next(Run(c, steps[..|steps| - 1]), steps[|steps| - 1])
  }

  ghost function Next(c: Option<Chain>, s: Step): Option<Chain> {
    if c.Some? && Enabled(c.value, s) then Some(Apply(c.value, s)) else None
  }

  lemma RunSnoc(c: Chain, steps: seq<Step>, d: Chain, s: Step)
    requires Run(c, steps) == Some(d) && Enabled(d, s)
    ensures Run(c, steps + [s]) == Some(Apply(d, s))
  {
    hide Apply;
    assert (steps + [s])[..|steps|] == steps;
  }

  lemma {:induction false} RunConcat(c: Chain, s: seq<Step>, d: Chain, t: seq<Step>)
    requires Run(c, s) == Some(d)
    ensures Run(c, s + t) == Run(d, t)
  {
    hide Next, Apply, Enabled;
    if t == [] {
      assert s + t == s;
    } else {
      var n := |t| - 1;
      RunConcat(c, s, d, t[..n]);
      assert (s + t)[..|s| + n] == s + t[..n];
    }
  }

  // ---------- Transactions ----------

  /** The step that carries out an action; the winner of its tally is free. */
  ghost predicate StepOf(a: Action, s: Step) {
    match a
    case ObserveAction(o) => s.ObserveStep? && s.observe == o
    case ReconfigureAction(r) => s.ReconfigureStep? && s.reconfigure == r
  }

  /** The step reports no error. */
  ghost predicate Accepted(c: Chain, s: Step)
    requires Enabled(c, s)
  {
    match s
    case ObserveStep(o, w) => MayObserve(c, o) && CastObservation(c, o, w).1
    case ReconfigureStep(r, _) => MayReconfigure(c, r)
    case _ => true
  }

  ghost predicate AllAccepted(c: Chain, steps: seq<Step>) {
    steps == [] ||
    (var n := |steps| - 1;
     && AllAccepted(c, steps[..n])
     && Run(c, steps[..n]).Some? && Enabled(Run(c, steps[..n]).value, steps[n])
     && Accepted(Run(c, steps[..n]).value, steps[n]))
  }

  /**
    How a transaction is carried out. It has no effect when it is not authentic, meant for another
    chain or empty. Otherwise its actions are taken in order up to and including the first one that
    fails; what was done before the failure stays.
   */
  ghost predicate Delivered(c: Chain, tx: Option<Transaction>, steps: seq<Step>, ok: bool) {
    if tx.None? || c.chainId != Some(tx.value.chainId) || tx.value.actions == [] then
      steps == [] && !ok
    else
      && Run(c, steps).Some?
      && |steps| <= |tx.value.actions|
      && (forall i :: 0 <= i < |steps| ==> StepOf(tx.value.actions[i], steps[i]))
      && (if ok then |steps| == |tx.value.actions| && AllAccepted(c, steps)
          else steps != [] && AllAccepted(c, steps[..|steps| - 1]) && !AllAccepted(c, steps))
  }

  /** The first actions of a transaction were carried out, all of them accepted. */
  ghost predicate Partly(c: Chain, actions: seq<Action>, steps: seq<Step>, m: Chain) {
    && |steps| <= |actions|
    && Run(c, steps) == Some(m)
    && AllAccepted(c, steps)
    && (forall i :: 0 <= i < |steps| ==> StepOf(actions[i], steps[i]))
  }

  /** One more action: either the list of accepted steps grows, or the transaction ends there. */
  lemma PartlyNext(c: Chain, tx: Transaction, steps: seq<Step>, m: Chain, s: Step)
    requires c.chainId == Some(tx.chainId)
    requires Partly(c, tx.actions, steps, m) && |steps| < |tx.actions|
    requires StepOf(tx.actions[|steps|], s) && Enabled(m, s)
    ensures Run(c, steps + [s]) == Some(Apply(m, s))
    ensures Accepted(m, s) ==> Partly(c, tx.actions, steps + [s], Apply(m, s))
    ensures !Accepted(m, s) ==> Delivered(c, Some(tx), steps + [s], false)
  {
    hide Apply, Accepted;
    RunSnoc(c, steps, m, s);
    assert (steps + [s])[..|steps|] == steps;
  }

  function Flatten(blocks: seq<seq<Step>>): seq<Step> {
    if blocks == [] then [] else Flatten(blocks[..|blocks| - 1]) + blocks[|blocks| - 1]
  }

  lemma FlattenSnoc(blocks: seq<seq<Step>>, b: seq<Step>)
    ensures Flatten(blocks + [b]) == Flatten(blocks) + b
  {
    assert (blocks + [b])[..|blocks|] == blocks;
  }

  // ---------- Blocks ----------

  function BlockStart(height: nat, time: Time, blocks: seq<seq<Step>>): seq<Step> {
    [BeginBlock(height, time)] + Flatten(blocks)
  }

  /** The steps of a block, given those of each of its transactions. */
  function BlockSteps(height: nat, time: Time, blocks: seq<seq<Step>>): seq<Step> {
    BlockStart(height, time, blocks) + [PromoteConfigStep, PromoteCanonicalStep]
  }

  /** The first transactions of a block were delivered one after the other. */
  ghost predicate DeliveredInOrder(
      c: Chain, height: nat, time: Time, txs: seq<Option<Transaction>>, oks: seq<bool>, blocks: seq<seq<Step>>)
  {
    && |blocks| == |oks| <= |txs|
    && forall i :: 0 <= i < |oks| ==>
      && Run(c, BlockStart(height, time, blocks[..i])).Some?
      && Delivered(Run(c, BlockStart(height, time, blocks[..i])).value, txs[i], blocks[i], oks[i])
  }

  lemma NothingDelivered(c: Chain, height: nat, time: Time, txs: seq<Option<Transaction>>)
    ensures DeliveredInOrder(c, height, time, txs, [], [])
  {}

  lemma StartOfBlock(c: Chain, height: nat, time: Time)
    requires c.config.Some?
    ensures Run(c, BlockStart(height, time, [])) == Some(Apply(c, BeginBlock(height, time)))
  {
    hide Apply;
    RunSnoc(c, [], c, BeginBlock(height, time));
    assert BlockStart(height, time, []) == [] + [BeginBlock(height, time)];
  }

  lemma PromotionSteps(c: Chain)
    requires ValidChain(c) && c.config.Some? && c.time.Some?
    ensures Enabled(c, PromoteConfigStep) && Apply(c, PromoteConfigStep) == PromoteConfig(c)
    ensures Enabled(c, PromoteCanonicalStep) && Apply(c, PromoteCanonicalStep) == PromoteCanonical(c)
  {}

  lemma EndOfBlock(c: Chain, height: nat, time: Time, blocks: seq<seq<Step>>, d: Chain, e: Chain, f: Chain)
    requires Run(c, BlockStart(height, time, blocks)) == Some(d)
    requires Enabled(d, PromoteConfigStep) && e == Apply(d, PromoteConfigStep)
    requires Enabled(e, PromoteCanonicalStep) && f == Apply(e, PromoteCanonicalStep)
    ensures Run(c, BlockSteps(height, time, blocks)) == Some(f)
  {
    hide Apply, Enabled, Run;
    var start := BlockStart(height, time, blocks);
    RunSnoc(c, start, d, PromoteConfigStep);
    RunSnoc(c, start + [PromoteConfigStep], e, PromoteCanonicalStep);
    assert BlockSteps(height, time, blocks) == start + [PromoteConfigStep] + [PromoteCanonicalStep];
  }

  lemma BlockStartSnoc(height: nat, time: Time, blocks: seq<seq<Step>>, steps: seq<Step>)
    ensures BlockStart(height, time, blocks + [steps]) == BlockStart(height, time, blocks) + steps
  {
    FlattenSnoc(blocks, steps);
  }

  lemma OneMoreDelivered(
      c: Chain, height: nat, time: Time, txs: seq<Option<Transaction>>, oks: seq<bool>, blocks: seq<seq<Step>>,
      m: Chain, steps: seq<Step>, ok: bool, d: Chain)
    requires DeliveredInOrder(c, height, time, txs, oks, blocks) && |oks| < |txs|
    requires Run(c, BlockStart(height, time, blocks)) == Some(m)
    requires Delivered(m, txs[|oks|], steps, ok) && Run(m, steps) == Some(d)
    ensures DeliveredInOrder(c, height, time, txs, oks + [ok], blocks + [steps])
    ensures Run(c, BlockStart(height, time, blocks + [steps])) == Some(d)
  {
    hide Run, Delivered, BlockStart;
    BlockStartSnoc(height, time, blocks, steps);
    RunConcat(c, BlockStart(height, time, blocks), m, steps);
    assert (blocks + [steps])[..|blocks|] == blocks;
    forall i | 0 <= i < |oks|
      ensures (blocks + [steps])[..i] == blocks[..i]
    {}
  }

  // ---------- The order in which promoted changes are applied ----------

  ghost function ApplyUpdate(canonical: map<Domain, Bytes>, u: (Domain, HashObserved)): map<Domain, Bytes> {
    if u.1.Hash? then canonical[u.0 := u.1.bytes] else canonical - {u.0}
  }

  ghost function ApplyUpdates(canonical: map<Domain, Bytes>, us: seq<(Domain, HashObserved)>): map<Domain, Bytes> {
    if us == [] then canonical
    else ApplyUpdate(ApplyUpdates(canonical, us[..|us| - 1]), us[|us| - 1])
  }

  lemma OverlayOneMore(canonical: map<Domain, Bytes>, changes: map<Domain, HashObserved>, u: (Domain, HashObserved))
    requires u.0 !in changes
    ensures ApplyUpdate(Overlay(canonical, changes), u) == Overlay(canonical, changes[u.0 := u.1])
  {}

  /** The changes are those of the list, each name once. */
  ghost predicate ListsChanges(us: seq<(Domain, HashObserved)>, changes: map<Domain, HashObserved>) {
    && (forall i, j :: 0 <= i < j < |us| ==> us[i].0 != us[j].0)
    && (forall i :: 0 <= i < |us| ==> us[i].0 in changes && changes[us[i].0] == us[i].1)
    && (forall d :: d in changes ==> exists i :: 0 <= i < |us| && us[i].0 == d)
  }

  lemma ListsFewerChanges(us: seq<(Domain, HashObserved)>, changes: map<Domain, HashObserved>)
    requires us != [] && ListsChanges(us, changes)
    ensures ListsChanges(us[..|us| - 1], changes - {us[|us| - 1].0})
  {
    var n := |us| - 1;
    forall d | d in changes - {us[n].0}
      ensures exists i :: 0 <= i < n && us[..n][i].0 == d
    {
      var i :| 0 <= i < |us| && us[i].0 == d;
      assert us[..n][i].0 == d;
    }
  }

  /**
    When every name is changed at most once, applying the changes one after the other, in whatever
    order they are listed, gives the map in which all of them were made.
   */
  lemma {:induction false} UpdatesInAnyOrder(
      canonical: map<Domain, Bytes>, us: seq<(Domain, HashObserved)>, changes: map<Domain, HashObserved>)
    requires ListsChanges(us, changes)
    ensures ApplyUpdates(canonical, us) == Overlay(canonical, changes)
  {
    if us == [] {
      assert changes == map[];
    } else {
      var n := |us| - 1;
      var fewer := changes - {us[n].0};
      ListsFewerChanges(us, changes);
      UpdatesInAnyOrder(canonical, us[..n], fewer);
      OverlayOneMore(canonical, fewer, us[n]);
      assert fewer[us[n].0 := us[n].1] == changes;
    }
  }
}
