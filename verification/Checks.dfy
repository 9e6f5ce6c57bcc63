/**
  What an observation and a reconfiguration must satisfy to be cast, spelled out in terms of the state
  alone, and that in every run exactly those are cast while all others change nothing.
 */
module Checks {
  import opened AdminProvenance
  import opened ChainModel
  import opened ConfigChain
  import opened Configs
  import opened Domains
  import opened Hex
  import opened Histories
  import opened Provenance
  import opened VoteQueues

  // ---------- Observations ----------

  /** The key is that of an oracle in force. */
  ghost predicate HasOracle(c: Config, key: Bytes) {
    exists i :: 0 <= i < |c.oracles.authorized| && c.oracles.authorized[i].identity == key
  }

  /** The block is not in the future and younger than the observation timeout; its predecessor's hash is the one given. */
  ghost predicate StampChecked(c: Chain, s: Blockstamp)
    requires c.config.Some? && c.height.Some? && c.time.Some?
  {
    && s.height <= c.height.value
    && s.height in c.blockTimes
    && 0 <= c.time.value - c.blockTimes[s.height] < c.config.value.oracles.observationTimeout * 1_000_000_000
    && (var before := if s.height == 0 then 0 else (s.height - 1) % 0x1_0000_0000;
        before in c.appHashes && c.appHashes[before] == s.appHash)
  }

  /** A change for the name is pending, of either kind or with a hash. */
  ghost predicate IsPending(c: Chain, d: Domain) {
    exists p :: p in c.oracle.pending && p.key == d
  }

  ghost predicate HashIsPending(c: Chain, d: Domain) {
    exists p :: p in c.oracle.pending && p.key == d && c.oracle.pending[p].hashObserved.Hash?
  }

  /** The names, canonical or pending, that end in the last `depth` labels of a name. */
  ghost function NamesBeside(c: Chain, d: Domain, depth: nat): set<Domain>
    requires depth <= |d|
  {
    set x: Domain | x in c.canonical.Keys + (set p | p in c.oracle.pending :: p.key)
                    && depth <= |x| && x[|x| - depth..] == d[|d| - depth..]
  }

  /** A deletion is for a name that is there or about to be; a name that is neither needs room, or to be pending. */
  ghost predicate ChangeChecked(c: Chain, o: Observe)
    requires c.config.Some? && |o.zone| < |o.domain|
  {
    o.domain in c.canonical || HashIsPending(c, o.domain) ||
    (o.hashObserved.Hash? &&
     (IsPending(c, o.domain)
      || |NamesBeside(c, o.domain, |o.zone| + 1)| < c.config.value.oracles.maxEnrolledSubdomains))
  }

  ghost predicate ObservationChecked(c: Chain, o: Observe) {
    && c.config.Some? && c.height.Some? && c.time.Some?
    && HasOracle(c.config.value, o.oracle)
    && StampChecked(c, o.blockstamp)
    && |o.zone| < |o.domain| && o.domain[|o.domain| - |o.zone|..] == o.zone
    && ChangeChecked(c, o)
  }

  lemma OracleChecked(c: Config, key: Bytes)
    ensures IsOracle(c, key) <==> HasOracle(c, key)
  {
    if o :| o in c.oracles.authorized && o.identity == key {
      var i :| 0 <= i < |c.oracles.authorized| && c.oracles.authorized[i] == o;
    }
  }

  lemma StampsAgree(c: Chain, s: Blockstamp)
    requires c.config.Some? && c.height.Some? && c.time.Some?
    ensures StampHolds(c, s) <==> StampChecked(c, s)
  {}

  lemma NamesBesideAreBelow(c: Chain, d: Domain, r: Domain)
    requires Under(d, r)
    ensures NamesBeside(c, d, |r|) == Below(PendingKeys(c.oracle) + c.canonical.Keys, r)
    ensures d in NamesBeside(c, d, |r|) <==> d in c.canonical || IsPending(c, d)
  {}

  lemma ChangesAgree(c: Chain, o: Observe)
    requires c.config.Some? && StrictlyUnder(o.domain, o.zone)
    ensures |o.zone| < |o.domain| && (Enrollable(c, o) <==> ChangeChecked(c, o))
  {
    RegisteredIsBelowZone(o.domain, o.zone);
    var r := RegisteredDomain(o.domain, o.zone).value;
    NamesBesideAreBelow(c, o.domain, r);
    assert GoneFromPending(c.oracle, o.domain) <==> !HashIsPending(c, o.domain);
    assert HashIsPending(c, o.domain) ==> IsPending(c, o.domain);
    hide NamesBeside, Below, GoneFromPending, HashIsPending, IsPending, RegisteredDomain;
  }

  lemma StrictlyUnderByLabels(d: Domain, zone: Domain)
    ensures StrictlyUnder(d, zone) <==> |zone| < |d| && d[|d| - |zone|..] == zone
  {}

  /** The checks of the chain are these. */
  lemma MayObserveIff(c: Chain, o: Observe)
    ensures MayObserve(c, o) <==> ObservationChecked(c, o)
  {
    hide StampHolds, StampChecked, StrictlyUnder, Enrollable, ChangeChecked, IsOracle, HasOracle;
    StrictlyUnderByLabels(o.domain, o.zone);
    if c.config.Some? && c.height.Some? && c.time.Some? && StrictlyUnder(o.domain, o.zone) {
      OracleChecked(c.config.value, o.oracle);
      StampsAgree(c, o.blockstamp);
      ChangesAgree(c, o);
    }
  }

  /**
    In every run an observation is cast if and only if its key is that of an oracle in force, its
    blockstamp is recent and true, its name lies strictly below its zone, and the change is one that can
    be made; any other observation leaves the state as it was.
   */
  lemma ObservationIsCastIff(h: History, m: nat)
    requires IsHistory(h) && m < |h.steps| && h.steps[m].ObserveStep?
    ensures |h.states| == |h.steps| + 1
    ensures OracleEvents(h)[m].CastEvent? <==> ObservationChecked(h.states[m], h.steps[m].observe)
    ensures !ObservationChecked(h.states[m], h.steps[m].observe) ==> h.states[m + 1] == h.states[m]
  {
    StepAt(h, m);
    OracleEventAt(h, m);
    MayObserveIff(h.states[m], h.steps[m].observe);
    hide IsHistory, OracleEvents, ObservationChecked, MayObserve;
  }

  /** Whatever is cast in the oracle queue was signed by an oracle in force. */
  lemma OracleVotesAreAuthorized(h: History, m: nat)
    requires IsHistory(h) && m < |h.steps| && OracleEvents(h)[m].CastEvent?
    ensures h.steps[m].ObserveStep?
    ensures exists o :: o in ConfigAt(h, m).oracles.authorized && o.identity == h.steps[m].observe.oracle
  {
    CastIsObservation(h, m);
    MayObserveIff(h.states[m], h.steps[m].observe);
    hide IsHistory, OracleEvents;
  }

  // ---------- Reconfigurations ----------

  /** At least one vote decides, no more than all, and every authorized entry counts. */
  ghost predicate VotingChecked(v: VotingConfig, authorized: nat) {
    1 <= v.quorum && v.quorum <= v.total && v.total == authorized
  }

  ghost predicate SomeByteSet(key: Bytes) {
    exists i :: 0 <= i < |key| && key[i] != 0
  }

  /** Voting is possible for admins and oracles, names can be enrolled, and no key is a placeholder. */
  ghost predicate ConfigChecked(c: Config) {
    && VotingChecked(c.admins.voting, |c.admins.authorized|)
    && VotingChecked(c.oracles.voting, |c.oracles.authorized|)
    && 0 < c.oracles.maxEnrolledSubdomains
    && (forall i :: 0 <= i < |c.admins.authorized| ==> SomeByteSet(c.admins.authorized[i]))
    && (forall i :: 0 <= i < |c.oracles.authorized| ==> SomeByteSet(c.oracles.authorized[i].identity))
  }

  ghost predicate ReconfigurationChecked(c: Chain, r: Reconfigure) {
    && c.config.Some? && c.time.Some?
    && (var admins := c.config.value.admins.authorized;
        |admins| == 0 || exists i :: 0 <= i < |admins| && admins[i] == r.admin)
    && r.notBefore <= c.time.value && c.time.value <= r.notAfter
    && c.config.value.version < r.config.version
    && c.config.value.oracles.maxEnrolledSubdomains <= r.config.oracles.maxEnrolledSubdomains
    && ConfigChecked(r.config)
    && (forall p :: p in c.admin.pending ==> c.admin.pending[p].version < r.config.version)
  }

  lemma SoundIff(c: Config)
    ensures Sound(c) <==> ConfigChecked(c)
  {
    if Sound(c) {
      forall i | 0 <= i < |c.admins.authorized|
        ensures SomeByteSet(c.admins.authorized[i])
      {
        assert c.admins.authorized[i] in c.admins.authorized;
      }
      forall i | 0 <= i < |c.oracles.authorized|
        ensures SomeByteSet(c.oracles.authorized[i].identity)
      {
        assert c.oracles.authorized[i] in c.oracles.authorized;
      }
    }
  }

  lemma MayReconfigureIff(c: Chain, r: Reconfigure)
    ensures MayReconfigure(c, r) <==> ReconfigurationChecked(c, r)
  {
    hide Sound, ConfigChecked;
    SoundIff(r.config);
  }

  /**
    In every run a reconfiguration is cast if and only if its key is that of an admin in force, or there
    are none, the time of the block lies in its window, and its configuration is newer than the one in
    force and the pending one, sound, and does not lower the limit; any other leaves the state as it was.
   */
  lemma ReconfigurationIsCastIff(h: History, m: nat)
    requires IsHistory(h) && m < |h.steps| && h.steps[m].ReconfigureStep?
    ensures |h.states| == |h.steps| + 1
    ensures AdminEvents(h)[m].CastEvent? <==> ReconfigurationChecked(h.states[m], h.steps[m].reconfigure)
    ensures !ReconfigurationChecked(h.states[m], h.steps[m].reconfigure) ==> h.states[m + 1] == h.states[m]
  {
    StepAt(h, m);
    AdminEventAt(h, m);
    MayReconfigureIff(h.states[m], h.steps[m].reconfigure);
    hide IsHistory, AdminEvents, ReconfigurationChecked, MayReconfigure;
  }

  /** Whatever is cast in the admin queue was delivered within its time window. */
  lemma AdminVotesAreInTime(h: History, m: nat)
    requires IsHistory(h) && m < |h.steps| && AdminEvents(h)[m].CastEvent?
    ensures h.steps[m].ReconfigureStep? && h.states[m].time.Some?
    ensures h.steps[m].reconfigure.notBefore <= h.states[m].time.value <= h.steps[m].reconfigure.notAfter
  {
    CastIsProposal(h, m);
    MayReconfigureIff(h.states[m], h.steps[m].reconfigure);
    hide IsHistory, AdminEvents;
  }

  /** Every configuration in force is that of genesis or passed the check. */
  lemma ConfigsInForceAreChecked(h: History, n: nat)
    requires IsHistory(h) && n < |h.states|
    ensures ConfigAt(h, n) == ConfigAt(h, 0) || ConfigChecked(ConfigAt(h, n))
  {
    InstalledConfigsAreSound(h, n);
    SoundIff(ConfigAt(h, n));
  }
}
