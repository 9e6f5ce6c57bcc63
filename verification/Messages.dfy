/**
  The messages that carry transactions, and their conversion from and to transactions. Numbers
  travel as 64-bit signed integers and durations as whole seconds; every sub-message may be absent.
  A transaction has no signatures: converting it leaves a blank slot for the identity of each action.
 */
module Messages {
  import opened Basics
  import opened ChainModel
  import opened Configs
  import opened DomainText
  import opened Hex
  import opened Times
  import opened Traversal

  const MAX_INT64: int := 0x7fff_ffff_ffff_ffff
  const MAX_UINT32: int := 0xffff_ffff
  const HASH_LENGTH: nat := 32
  const LOCALHOST: string := "127.0.0.1"

  type Int64 = i: int | -MAX_INT64 - 1 <= i <= MAX_INT64
  type Int32 = i: int | -0x8000_0000 <= i <= 0x7fff_ffff

  datatype Timestamp = Timestamp(seconds: Int64, nanos: Int32)

  datatype VotingMessage = VotingMessage(total: Int64, quorum: Int64, timeout: Int64, delay: Int64)

  datatype AdminsMessage = AdminsMessage(admins: seq<Bytes>, voting: Option<VotingMessage>)

  datatype OracleMessage = OracleMessage(publicKey: Option<Bytes>, endpoint: string)

  datatype OraclesMessage = OraclesMessage(
    oracles: seq<OracleMessage>,
    voting: Option<VotingMessage>,
    enabled: bool,
    maxEnrolledSubdomains: Int64,
    observationTimeout: Int64)

  datatype ConfigMessage = ConfigMessage(
    admins: Option<AdminsMessage>, oracles: Option<OraclesMessage>, onion: Option<bool>, version: Int64)

  datatype BlockstampMessage = BlockstampMessage(blockHash: Bytes, blockNumber: Int64)

  datatype ObservationMessage = ObservationMessage(
    domain: string, zone: string, hashObserved: Option<Bytes>, blockstamp: Option<BlockstampMessage>)

  datatype ActionMessage =
    | NoAction
    | ReconfigureMessage(
        signature: Option<Signature>,
        config: Option<ConfigMessage>,
        notBefore: Option<Timestamp>,
        notAfter: Option<Timestamp>)
    | ObserveMessage(signature: Option<Signature>, observation: Option<ObservationMessage>)

  datatype TransactionMessage = TransactionMessage(chainId: string, actions: seq<ActionMessage>)

  // ---------- From transactions to messages ----------

  /** `i64::try_from(n).unwrap_or(i64::MAX)`. */
  function Clamp(n: nat): Int64 {
    if n <= MAX_INT64 then n else MAX_INT64
  }

  function ShowVoting(v: VotingConfig): VotingMessage {
    VotingMessage(Clamp(v.total), Clamp(v.quorum), Clamp(v.timeout), Clamp(v.delay))
  }

  function ShowOracle(o: Oracle): OracleMessage {
    OracleMessage(Some(o.identity), o.endpoint)
  }

  function ShowConfig(c: Config): ConfigMessage
    requires c.version <= MAX_UINT32
  {
    ConfigMessage(
      Some(AdminsMessage(c.admins.authorized, Some(ShowVoting(c.admins.voting)))),
      Some(OraclesMessage(
        seq(|c.oracles.authorized|, i requires 0 <= i < |c.oracles.authorized| => ShowOracle(c.oracles.authorized[i])),
        Some(ShowVoting(c.oracles.voting)),
        c.oracles.enabled,
        Clamp(c.oracles.maxEnrolledSubdomains),
        Clamp(c.oracles.observationTimeout))),
      Some(c.onionEnabled),
      c.version)
  }

  function ShowTime(t: Time): Timestamp {
    Timestamp(Second(t), t - Second(t) * NANOS)
  }

  function ShowObservation(o: Observe): ObservationMessage {
    ObservationMessage(
      ShowName(o.domain),
      ShowName(o.zone),
      Some(if o.hashObserved.NotFound? then [] else o.hashObserved.bytes),
      Some(BlockstampMessage(o.blockstamp.appHash, Clamp(o.blockstamp.height))))
  }

  function Blank(publicKey: Bytes): Signature {
    Signature(publicKey, [])
  }

  function ShowAction(a: Action): ActionMessage
    requires WellFormedAction(a)
  {
    match a
    case ReconfigureAction(r) =>
      ReconfigureMessage(
        Some(Blank(r.admin)), Some(ShowConfig(r.config)), Some(ShowTime(r.notBefore)), Some(ShowTime(r.notAfter)))
    case ObserveAction(o) => ObserveMessage(Some(Blank(o.oracle)), Some(ShowObservation(o)))
  }

  function ShowTransaction(tx: Transaction): TransactionMessage
    requires WellFormed(tx)
  {
    TransactionMessage(
      tx.chainId, seq(|tx.actions|, i requires 0 <= i < |tx.actions| => ShowAction(tx.actions[i])))
  }

  // ---------- From messages to transactions ----------

  /** All results, or nothing when one is missing. */
  function Collect<A, B>(xs: seq<A>, f: A -> Option<B>): (r: Option<seq<B>>)
    ensures r.Some? <==> forall i :: 0 <= i < |xs| ==> f(xs[i]).Some?
    ensures r.Some? ==> |r.value| == |xs| && forall i :: 0 <= i < |xs| ==> f(xs[i]) == Some(r.value[i])
  {
    if forall i :: 0 <= i < |xs| ==> f(xs[i]).Some?
    then Some(seq(|xs|, i requires 0 <= i < |xs| && f(xs[i]).Some? => f(xs[i]).value))
    else None
  }

  function ParseVoting(m: VotingMessage): Option<VotingConfig> {
    if 0 <= m.total && 0 <= m.quorum && 0 <= m.timeout && 0 <= m.delay
    then Some(VotingConfig(m.total, m.quorum, m.timeout, m.delay))
    else None
  }

  /** An oracle without an endpoint is taken to be on the local host. */
  function ParseOracle(m: OracleMessage): Option<Oracle> {
    if m.publicKey.None? then None
    else Some(Oracle(m.publicKey.value, if m.endpoint == "" then LOCALHOST else m.endpoint))
  }

  function ParseAdmins(m: AdminsMessage): Option<AdminConfig> {
    var voting := if m.voting.None? then None else ParseVoting(m.voting.value);
    if voting.None? then None else Some(AdminConfig(voting.value, m.admins))
  }

  function ParseOracles(m: OraclesMessage): Option<OracleConfig> {
    var voting := if m.voting.None? then None else ParseVoting(m.voting.value);
    var oracles := Collect(m.oracles, ParseOracle);
    if m.maxEnrolledSubdomains < 0 || oracles.None? || voting.None? || m.observationTimeout < 0 then None
    else Some(OracleConfig(m.enabled, voting.value, m.maxEnrolledSubdomains, m.observationTimeout, oracles.value))
  }

  function ParseConfig(m: ConfigMessage): Option<Config> {
    var admins := if m.admins.None? then None else ParseAdmins(m.admins.value);
    var oracles := if m.oracles.None? then None else ParseOracles(m.oracles.value);
    if !(0 <= m.version <= MAX_UINT32) || admins.None? || oracles.None? || m.onion.None? then None
    else Some(Config(m.version, admins.value, oracles.value, m.onion.value))
  }

  function ParseTime(m: Timestamp): Option<Time> {
    if MIN_SECOND <= m.seconds <= MAX_SECOND && 0 <= m.nanos < NANOS then Some(m.seconds * NANOS + m.nanos) else None
  }

  function ParseHash(hash: Bytes): Option<HashObserved> {
    if |hash| == HASH_LENGTH then Some(HashObserved.Hash(hash))
    else if hash == [] then Some(NotFound)
    else None
  }

  function ParseAction(m: ActionMessage): Option<Action> {
    match m
    case NoAction => None
    case ReconfigureMessage(signature, config, notBefore, notAfter) =>
      var c := if config.None? then None else ParseConfig(config.value);
      var before := if notBefore.None? then None else ParseTime(notBefore.value);
      var after := if notAfter.None? then None else ParseTime(notAfter.value);
      if signature.None? || c.None? || before.None? || after.None? then None
      else Some(ReconfigureAction(Reconfigure(signature.value.publicKey, c.value, before.value, after.value)))
    case ObserveMessage(signature, observation) =>
      if signature.None? || observation.None? then None
      else
        var o := observation.value;
        var domain, zone := ParseName(o.domain), ParseName(o.zone);
        var hash := if o.hashObserved.None? then None else ParseHash(o.hashObserved.value);
        if domain.None? || zone.None? || hash.None? || o.blockstamp.None? || o.blockstamp.value.blockNumber < 0 then None
        else
          var stamp := Blockstamp(o.blockstamp.value.blockNumber, o.blockstamp.value.blockHash);
          Some(ObserveAction(Observe(signature.value.publicKey, domain.value, zone.value, hash.value, stamp)))
  }

  function ParseTransaction(m: TransactionMessage): Option<Transaction> {
    var actions := Collect(m.actions, ParseAction);
    if actions.None? then None else Some(Transaction(m.chainId, actions.value))
  }

  // ---------- Round trips ----------

  /** What the types of the transaction guarantee. */
  predicate WellFormedAction(a: Action) {
    match a
    case ReconfigureAction(r) => r.config.version <= MAX_UINT32
    case ObserveAction(o) =>
      && GoodName(o.domain) && GoodName(o.zone)
      && o.blockstamp.height <= MAX_INT64
      && (o.hashObserved.Hash? ==> |o.hashObserved.bytes| == HASH_LENGTH)
  }

  predicate WellFormed(tx: Transaction) {
    forall i :: 0 <= i < |tx.actions| ==> WellFormedAction(tx.actions[i])
  }

  predicate Fits(v: VotingConfig) {
    v.total <= MAX_INT64 && v.quorum <= MAX_INT64 && v.timeout <= MAX_INT64 && v.delay <= MAX_INT64
  }

  /** Every number of the configuration is at most 2^63 - 1, and every oracle has an endpoint. */
  predicate Representable(c: Config) {
    && Fits(c.admins.voting)
    && Fits(c.oracles.voting)
    && c.oracles.maxEnrolledSubdomains <= MAX_INT64
    && c.oracles.observationTimeout <= MAX_INT64
    && forall i :: 0 <= i < |c.oracles.authorized| ==> c.oracles.authorized[i].endpoint != ""
  }

  predicate Faithful(tx: Transaction) {
    forall i :: 0 <= i < |tx.actions| && tx.actions[i].ReconfigureAction? ==>
      Representable(tx.actions[i].reconfigure.config)
  }

  /** A configuration comes back from its message if and only if it is representable. */
  lemma ConfigRoundTrip(c: Config)
    requires c.version <= MAX_UINT32
    ensures ParseConfig(ShowConfig(c)).Some?
    ensures ParseConfig(ShowConfig(c)) == Some(c) <==> Representable(c)
  {
    var authorized := c.oracles.authorized;
    var oracles := ShowConfig(c).oracles.value.oracles;
    assert forall i :: 0 <= i < |authorized| ==>
      ParseOracle(oracles[i]) == Some(Oracle(
        authorized[i].identity, if authorized[i].endpoint == "" then LOCALHOST else authorized[i].endpoint));
    var parsed := Collect(oracles, ParseOracle).value;
    assert forall i :: 0 <= i < |authorized| ==> (parsed[i] == authorized[i] <==> authorized[i].endpoint != "");
    assert parsed == authorized <==> forall i :: 0 <= i < |authorized| ==> parsed[i] == authorized[i];
  }

  /** A configuration that was read from a message is representable: storing it again loses nothing. */
  lemma ParsedConfigsAreRepresentable(m: ConfigMessage)
    requires ParseConfig(m).Some?
    ensures ParseConfig(m).value.version <= MAX_UINT32 && Representable(ParseConfig(m).value)
    ensures ParseConfig(ShowConfig(ParseConfig(m).value)) == ParseConfig(m)
  {
    var c := ParseConfig(m).value;
    var oracles := m.oracles.value.oracles;
    forall i | 0 <= i < |c.oracles.authorized|
      ensures c.oracles.authorized[i].endpoint != ""
    {
      assert ParseOracle(oracles[i]) == Some(c.oracles.authorized[i]);
    }
    ConfigRoundTrip(c);
  }

  lemma TimeRoundTrip(t: Time)
    ensures ParseTime(ShowTime(t)) == Some(t)
  {}

  lemma ActionRoundTrip(a: Action)
    requires WellFormedAction(a)
    ensures ParseAction(ShowAction(a)).Some?
    ensures ParseAction(ShowAction(a)) == Some(a) <==>
            (a.ReconfigureAction? ==> Representable(a.reconfigure.config))
  {
    match a
    case ReconfigureAction(r) =>
      ConfigRoundTrip(r.config);
      TimeRoundTrip(r.notBefore);
      TimeRoundTrip(r.notAfter);
    case ObserveAction(o) =>
      NameRoundTrip(o.domain);
      NameRoundTrip(o.zone);
  }

  /** A transaction comes back from its message if and only if its configurations are representable. */
  lemma TransactionRoundTrip(tx: Transaction)
    requires WellFormed(tx)
    ensures ParseTransaction(ShowTransaction(tx)).Some?
    ensures ParseTransaction(ShowTransaction(tx)) == Some(tx) <==> Faithful(tx)
  {
    var m := ShowTransaction(tx);
    forall i | 0 <= i < |tx.actions|
      ensures ParseAction(m.actions[i]).Some?
      ensures ParseAction(m.actions[i]) == Some(tx.actions[i]) <==>
              (tx.actions[i].ReconfigureAction? ==> Representable(tx.actions[i].reconfigure.config))
    {
      ActionRoundTrip(tx.actions[i]);
    }
    var parsed := Collect(m.actions, ParseAction).value;
    assert parsed == tx.actions <==> forall i :: 0 <= i < |parsed| ==> parsed[i] == tx.actions[i];
  }

  /** What is read from a message is well-formed and representable, so it survives every further conversion. */
  lemma ParsedTransactionsComeBack(m: TransactionMessage)
    requires ParseTransaction(m).Some?
    ensures WellFormed(ParseTransaction(m).value) && Faithful(ParseTransaction(m).value)
    ensures ParseTransaction(ShowTransaction(ParseTransaction(m).value)) == ParseTransaction(m)
  {
    var tx := ParseTransaction(m).value;
    forall i | 0 <= i < |tx.actions|
      ensures WellFormedAction(tx.actions[i])
      ensures tx.actions[i].ReconfigureAction? ==> Representable(tx.actions[i].reconfigure.config)
    {
      assert ParseAction(m.actions[i]) == Some(tx.actions[i]);
      ParsedActionIsWellFormed(m.actions[i]);
    }
    TransactionRoundTrip(tx);
  }

  lemma ParsedActionIsWellFormed(m: ActionMessage)
    requires ParseAction(m).Some?
    ensures WellFormedAction(ParseAction(m).value)
    ensures m.ReconfigureMessage? ==> Representable(ParseAction(m).value.reconfigure.config)
  {
    if m.ReconfigureMessage? {
      ParsedConfigsAreRepresentable(m.config.value);
    } else {
      ParsedNamesAreGood(m.observation.value.domain);
      ParsedNamesAreGood(m.observation.value.zone);
    }
  }

  /** The instant that a timestamp names. */
  predicate Names(m: Option<Timestamp>, t: Time) {
    m.Some? && 0 <= m.value.nanos < 1_000_000_000 && t == m.value.seconds * 1_000_000_000 + m.value.nanos
  }

  predicate SameVoting(m: Option<VotingMessage>, v: VotingConfig) {
    m.Some? && v.total == m.value.total && v.quorum == m.value.quorum
    && v.timeout == m.value.timeout && v.delay == m.value.delay
  }

  predicate SameConfig(m: Option<ConfigMessage>, c: Config) {
    && m.Some? && m.value.admins.Some? && m.value.oracles.Some?
    && c.version == m.value.version && m.value.onion == Some(c.onionEnabled)
    && c.admins.authorized == m.value.admins.value.admins
    && SameVoting(m.value.admins.value.voting, c.admins.voting)
    && SameVoting(m.value.oracles.value.voting, c.oracles.voting)
    && c.oracles.enabled == m.value.oracles.value.enabled
    && c.oracles.maxEnrolledSubdomains == m.value.oracles.value.maxEnrolledSubdomains
    && c.oracles.observationTimeout == m.value.oracles.value.observationTimeout
    && |c.oracles.authorized| == |m.value.oracles.value.oracles|
    && forall i :: 0 <= i < |c.oracles.authorized| ==>
         m.value.oracles.value.oracles[i].publicKey == Some(c.oracles.authorized[i].identity)
  }

  /** The action has the content of the message, field by field; an empty hash is that of an absent name. */
  predicate SameAction(m: ActionMessage, a: Action) {
    match a
    case ReconfigureAction(r) =>
      && m.ReconfigureMessage? && m.signature.Some? && m.signature.value.publicKey == r.admin
      && SameConfig(m.config, r.config)
      && Names(m.notBefore, r.notBefore) && Names(m.notAfter, r.notAfter)
    case ObserveAction(o) =>
      && m.ObserveMessage? && m.signature.Some? && m.signature.value.publicKey == o.oracle
      && m.observation.Some?
      && ParseName(m.observation.value.domain) == Some(o.domain)
      && ParseName(m.observation.value.zone) == Some(o.zone)
      && m.observation.value.blockstamp.Some?
      && m.observation.value.blockstamp.value.blockHash == o.blockstamp.appHash
      && m.observation.value.blockstamp.value.blockNumber == o.blockstamp.height
      && m.observation.value.hashObserved == Some(if o.hashObserved.NotFound? then [] else o.hashObserved.bytes)
      && (o.hashObserved.Hash? ==> |o.hashObserved.bytes| == 32)
  }

  /** Reading a message invents and confuses nothing: every field of the transaction is that of the message. */
  lemma ParsedTransactionsAreTheirMessages(m: TransactionMessage)
    requires ParseTransaction(m).Some?
    ensures var tx := ParseTransaction(m).value;
            && tx.chainId == m.chainId && |tx.actions| == |m.actions|
            && forall i :: 0 <= i < |tx.actions| ==> SameAction(m.actions[i], tx.actions[i])
  {
    var tx := ParseTransaction(m).value;
    forall i | 0 <= i < |tx.actions|
      ensures SameAction(m.actions[i], tx.actions[i])
    {
      assert ParseAction(m.actions[i]) == Some(tx.actions[i]);
      ParsedActionIsItsMessage(m.actions[i]);
    }
  }

  lemma ParsedActionIsItsMessage(m: ActionMessage)
    requires ParseAction(m).Some?
    ensures SameAction(m, ParseAction(m).value)
  {
    if m.ReconfigureMessage? {
      ParsedConfigIsItsMessage(m.config.value);
    }
  }

  lemma ParsedConfigIsItsMessage(m: ConfigMessage)
    requires ParseConfig(m).Some?
    ensures SameConfig(Some(m), ParseConfig(m).value)
  {
    var oracles, authorized := m.oracles.value.oracles, ParseConfig(m).value.oracles.authorized;
    forall i | 0 <= i < |authorized|
      ensures oracles[i].publicKey == Some(authorized[i].identity)
    {
      assert ParseOracle(oracles[i]) == Some(authorized[i]);
    }
  }
}
