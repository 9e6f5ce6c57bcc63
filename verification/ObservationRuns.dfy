/** Histories with a single oracle, whose every admitted observation becomes pending at once. */
module ObservationRuns {
  import opened Basics
  import opened ChainModel
  import opened Configs
  import opened Domains
  import opened Hex
  import opened Histories
  import opened QuietSteps
  import opened Times
  import opened VoteQueues

  const ADMIN: Bytes := [1]
  const ORACLE: Bytes := [2]
  const HASH: Bytes := []
  const EIGHT: Bytes := [1, 1, 1, 1, 1, 1, 1, 1]
  const CONTENT: Bytes := EIGHT + EIGHT + EIGHT + EIGHT

  function OneOracle(limit: nat, delay: nat): Config {
    Config(
      1,
      AdminConfig(VotingConfig(1, 1, 3600, 0), [ADMIN]),
      OracleConfig(true, VotingConfig(1, 1, 3600, delay), limit, 3600, [Oracle(ORACLE, "oracle")]),
      false)
  }

  ghost function AtGenesis(config: Config): Chain {
    EmptyChain().(config := Some(config))
  }

  ghost function BlockOne(config: Config, t: Time): Chain {
    AtGenesis(config).(height := Some(1), time := Some(t), blockTimes := map[1 := t])
  }

  ghost function BlockOneRecorded(config: Config, t: Time): Chain {
    BlockOne(config, t).(appHashes := map[0 := HASH])
  }

  /** The second block, at the same time as the first, with the given changes pending. */
  ghost function BlockTwo(config: Config, t: Time, pending: map<PendingKey<Domain>, OracleVoteValue>): Chain {
    BlockOneRecorded(config, t).(height := Some(2), blockTimes := map[1 := t, 2 := t], oracle := OnlyPending(pending))
  }

  ghost function OnlyPending(pending: map<PendingKey<Domain>, OracleVoteValue>): Queue<Domain, OracleVoteValue> {
    Queue(map[], map[], pending, pending)
  }

  lemma FirstBlock(config: Config, t: Time)
    requires 0 <= t
    ensures EndsWith(History([AtGenesis(config)], []), Between, AtGenesis(config))
    ensures Takes(Between, AtGenesis(config), BeginBlock(1, t), BlockOne(config, t))
    ensures Takes(InBlock, BlockOne(config, t), PromoteConfigStep, BlockOne(config, t))
    ensures Takes(Reconfigured, BlockOne(config, t), PromoteCanonicalStep, BlockOne(config, t))
    ensures Takes(Between, BlockOne(config, t), RecordHash(HASH), BlockOneRecorded(config, t))
    ensures Takes(Recorded, BlockOneRecorded(config, t), BeginBlock(2, t), BlockTwo(config, t, map[]))
  {
    hide Takes;
    BlockBegins(Between, AtGenesis(config), 1, t);
    NoConfigChange(BlockOne(config, t));
    NoCanonicalChange(BlockOne(config, t));
    HashRecorded(BlockOne(config, t), HASH);
    BlockBegins(Recorded, BlockOneRecorded(config, t), 2, t);
  }

  /** In the second block the hash recorded for the first one makes observations possible. */
  lemma ReadyToObserve(config: Config, t: Time) returns (h: History)
    requires 0 <= t
    ensures EndsWith(h, InBlock, BlockTwo(config, t, map[]))
    ensures |h.steps| == 5 && |h.states| == 6 && h.states[0] == AtGenesis(config)
  {
    FirstBlock(config, t);
    hide Takes, EndsWith, AtGenesis, BlockOne, BlockOneRecorded, BlockTwo;
    var one := BlockOne(config, t);
    h := History([AtGenesis(config)], []);
    h := Extend(h, Between, AtGenesis(config), BeginBlock(1, t), one);
    h := Extend(h, InBlock, one, PromoteConfigStep, one);
    h := Extend(h, Reconfigured, one, PromoteCanonicalStep, one);
    h := Extend(h, Between, one, RecordHash(HASH), BlockOneRecorded(config, t));
    h := Extend(h, Recorded, BlockOneRecorded(config, t), BeginBlock(2, t), BlockTwo(config, t, map[]));
  }

  function Seen(d: Domain, zone: Domain): Observe {
    Observe(ORACLE, d, zone, HashObserved.Hash(CONTENT), Blockstamp(1, HASH))
  }

  function SeenValue(zone: Domain): OracleVoteValue {
    OracleVoteValue(HashObserved.Hash(CONTENT), zone)
  }

  /** The name is new and strictly below its zone, and the limit has room for it. */
  ghost predicate Admissible(
      pending: map<PendingKey<Domain>, OracleVoteValue>, limit: nat, d: Domain, zone: Domain)
  {
    && (forall p, r :: p in pending && r in pending && p.key == r.key ==> p == r)
    && (forall p :: p in pending ==> p.key != d)
    && StrictlyUnder(d, zone) && RegisteredDomain(d, zone).Some?
    && LimitAllows(PendingKeys(OnlyPending(pending)), {}, limit, d, RegisteredDomain(d, zone).value)
  }

  lemma MayBeSeen(
      limit: nat, delay: nat, t: Time, pending: map<PendingKey<Domain>, OracleVoteValue>, d: Domain, zone: Domain)
    requires Admissible(pending, limit, d, zone)
    ensures MayObserve(BlockTwo(OneOracle(limit, delay), t, pending), Seen(d, zone))
  {
    var c := BlockTwo(OneOracle(limit, delay), t, pending);
    assert Oracle(ORACLE, "oracle") in c.config.value.oracles.authorized;
    assert c.canonical.Keys == {};
    hide LimitAllows;
  }

  lemma OneVoteWins(pending: map<PendingKey<Domain>, OracleVoteValue>, v: Vote<Domain, OracleVoteValue>)
    ensures LegalWinner(PutVote(OnlyPending(pending), v), v.key, 1, Some(v.value))
    ensures ClearVotes(PutVote(OnlyPending(pending), v), v.key) == OnlyPending(pending)
  {
    var q := PutVote(OnlyPending(pending), v);
    assert Supporters(q, v.key, v.value) == {VoteKey(v.key, v.party, Second(v.time))};
  }

  lemma BecomesPending(
      q: Queue<Domain, OracleVoteValue>, pending: map<PendingKey<Domain>, OracleVoteValue>, limit: nat, d: Domain,
      zone: Domain, sec: Seconds)
    requires Admissible(pending, limit, d, zone) && ClearVotes(q, d) == OnlyPending(pending)
    ensures Settle(q, d, sec, Some(SeenValue(zone)), SubdomainRule({}, limit))
      == (OnlyPending(pending[PendingKey(d, sec) := SeenValue(zone)]), true)
  {
    var q1 := OnlyPending(pending);
    assert PendingFor(q1, d) == {};
    assert ClearPending(q1, d) == q1;
    hide LimitAllows, Under;
  }

  /** The observation of the one oracle decides: its value becomes pending. */
  lemma Decides(
      limit: nat, delay: nat, t: Time, pending: map<PendingKey<Domain>, OracleVoteValue>, d: Domain, zone: Domain)
    requires Admissible(pending, limit, d, zone)
    ensures Takes(InBlock, BlockTwo(OneOracle(limit, delay), t, pending), ObserveStep(Seen(d, zone), Some(SeenValue(zone))),
                  BlockTwo(OneOracle(limit, delay), t, pending[PendingKey(d, Second(t)) := SeenValue(zone)]))
  {
    hide MayObserve, Admissible, PutVote, LegalWinner, Settle, SubdomainRule;
    MayBeSeen(limit, delay, t, pending, d, zone);
    var c := BlockTwo(OneOracle(limit, delay), t, pending);
    var v := ObservationVote(c, Seen(d, zone));
    OneVoteWins(pending, v);
    BecomesPending(PutVote(OnlyPending(pending), v), pending, limit, d, zone, Second(t));
    assert c.canonical.Keys == {};
  }
}
