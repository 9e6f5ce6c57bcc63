/**
  Chain configurations and the checks a proposed one must pass. Durations are whole seconds, the
  form in which a configuration is stored.
 */
module Configs {
  import opened Basics
  import opened Hex

  datatype VotingConfig = VotingConfig(total: nat, quorum: nat, timeout: nat, delay: nat)

  datatype AdminConfig = AdminConfig(voting: VotingConfig, authorized: seq<Bytes>)

  datatype Oracle = Oracle(identity: Bytes, endpoint: string)

  datatype OracleConfig = OracleConfig(
    enabled: bool,
    voting: VotingConfig,
    maxEnrolledSubdomains: nat,
    observationTimeout: nat,
    authorized: seq<Oracle>)

  datatype Config = Config(version: nat, admins: AdminConfig, oracles: OracleConfig, onionEnabled: bool)

  datatype ConfigError =
    | StaleVersion
    | WrongTotal
    | ZeroQuorum
    | QuorumAboveTotal
    | ZeroSubdomains
    | FewerSubdomains
    | PlaceholderAdmin(index: nat)
    | PlaceholderOracle(index: nat)

  // The largest whole number of seconds a configuration can hold.
  const FOREVER: nat := 0x7fff_ffff_ffff_ffff

  /** The configuration of a chain started without one: the first reconfiguration needs no permission. */
  const DEFAULT_CONFIG: Config := Config(
    0,
    AdminConfig(VotingConfig(0, 0, 0, 0), []),
    OracleConfig(false, VotingConfig(0, 0, 0, FOREVER), 0, FOREVER, []),
    false)

  ghost predicate AllZeros(bytes: Bytes) {
    forall i :: 0 <= i < |bytes| ==> bytes[i] == 0
  }

  /** 1 <= quorum <= total == number of authorized entries. */
  ghost predicate SoundVoting(v: VotingConfig, authorized: nat) {
    1 <= v.quorum <= v.total == authorized
  }

  /** What every configuration installed by reconfiguration satisfies on its own. */
  ghost predicate Sound(c: Config) {
    && SoundVoting(c.admins.voting, |c.admins.authorized|)
    && SoundVoting(c.oracles.voting, |c.oracles.authorized|)
    && 1 <= c.oracles.maxEnrolledSubdomains
    && (forall a :: a in c.admins.authorized ==> !AllZeros(a))
    && (forall o :: o in c.oracles.authorized ==> !AllZeros(o.identity))
  }

  /** When a configuration may be proposed while `current` is in force. */
  ghost predicate Acceptable(current: Config, c: Config) {
    && current.version < c.version
    && Sound(c)
    && current.oracles.maxEnrolledSubdomains <= c.oracles.maxEnrolledSubdomains
  }

  method IsAllZeros(bytes: Bytes) returns (zeros: bool)
    ensures zeros <==> AllZeros(bytes)
  {
    for i := 0 to |bytes|
      invariant forall j :: 0 <= j < i ==> bytes[j] == 0
    {
      if bytes[i] != 0 {
        return false;
      }
    }
    return true;
  }

  method CheckVotingConfig(expectedTotal: nat, v: VotingConfig) returns (r: Result<(), ConfigError>)
    ensures r.Ok? <==> SoundVoting(v, expectedTotal)
    ensures r.Err? ==>
      && (r.error == WrongTotal <==> v.total != expectedTotal)
      && (r.error == ZeroQuorum <==> v.total == expectedTotal && v.quorum == 0)
      && (r.error == QuorumAboveTotal <==> v.total == expectedTotal && v.total < v.quorum)
  {
    if v.total != expectedTotal {
      return Err(WrongTotal);
    }
    if v.quorum == 0 {
      return Err(ZeroQuorum);
    }
    if v.quorum > v.total {
      return Err(QuorumAboveTotal);
    }
    return Ok(());
  }

  /** Accepts exactly the acceptable configurations; a placeholder is reported by its first index. */
  method CheckConfig(current: Config, c: Config) returns (r: Result<(), ConfigError>)
    ensures r.Ok? <==> Acceptable(current, c)
    ensures r.Err? && r.error == StaleVersion <==> c.version <= current.version
    ensures r.Err? && r.error.PlaceholderAdmin? ==>
      && r.error.index < |c.admins.authorized| && AllZeros(c.admins.authorized[r.error.index])
      && (forall j :: 0 <= j < r.error.index ==> !AllZeros(c.admins.authorized[j]))
    ensures r.Err? && r.error.PlaceholderOracle? ==>
      && r.error.index < |c.oracles.authorized| && AllZeros(c.oracles.authorized[r.error.index].identity)
      && (forall a :: a in c.admins.authorized ==> !AllZeros(a))
      && (forall j :: 0 <= j < r.error.index ==> !AllZeros(c.oracles.authorized[j].identity))
  {
    if c.version <= current.version {
      return Err(StaleVersion);
    }
    var admins := CheckVotingConfig(|c.admins.authorized|, c.admins.voting);
    if admins.Err? {
      return admins;
    }
    var oracles := CheckVotingConfig(|c.oracles.authorized|, c.oracles.voting);
    if oracles.Err? {
      return oracles;
    }
    if c.oracles.maxEnrolledSubdomains == 0 {
      return Err(ZeroSubdomains);
    }
    if c.oracles.maxEnrolledSubdomains < current.oracles.maxEnrolledSubdomains {
      return Err(FewerSubdomains);
    }
    for i := 0 to |c.admins.authorized|
      invariant forall j :: 0 <= j < i ==> !AllZeros(c.admins.authorized[j])
    {
      var zeros := IsAllZeros(c.admins.authorized[i]);
      if zeros {
        return Err(PlaceholderAdmin(i));
      }
    }
    for i := 0 to |c.oracles.authorized|
      invariant forall j :: 0 <= j < i ==> !AllZeros(c.oracles.authorized[j].identity)
    {
      var zeros := IsAllZeros(c.oracles.authorized[i].identity);
      if zeros {
        return Err(PlaceholderOracle(i));
      }
    }
    return Ok(());
  }
}
