/**
  What the zone of a vote means for the subdomain limit: exactly when the check bounds a registered
  domain, and a run in which votes that disagree exceed the limit.
 */
module ZoneDisagreement {
  import opened Basics
  import opened ChainModel
  import opened ConfigChain
  import opened Configs
  import opened Domains
  import opened Histories
  import opened ObservationRuns
  import opened SubdomainLimit
  import opened VoteQueues

  /** Whatever else is enrolled, admitting the name under the zone of its vote keeps `r` within the limit. */
  ghost predicate CheckProtects(d: Domain, zone: Domain, r: Domain, max: nat)
    requires RegisteredDomain(d, zone).Some?
  {
    forall names: set<Domain> ::
      && |Below(names, r)| <= max
      && LimitAllows(names, {}, max, d, RegisteredDomain(d, zone).value)
      ==> |Below(names + {d}, r)| <= max
  }

  /** A registered domain above `r` counts all names below `r`. */
  lemma HigherCheckProtects(d: Domain, zone: Domain, r: Domain, max: nat)
    requires StrictlyUnder(d, zone) && Under(d, r) && |zone| < |r|
    ensures RegisteredDomain(d, zone).Some? && CheckProtects(d, zone, r, max)
  {
    RegisteredIsBelowZone(d, zone);
    var registered := RegisteredDomain(d, zone).value;
    AncestorsCompare(d, registered, r);
    forall names: set<Domain>
      | |Below(names, r)| <= max && LimitAllows(names, {}, max, d, registered)
      ensures |Below(names + {d}, r)| <= max
    {
      if d !in names {
        assert names + {} == names;
        BelowShrinks(names, r, registered);
        OneMoreName(names, d, r, max);
      } else {
        assert names + {d} == names;
      }
    }
  }

  lemma BelowShrinks(names: set<Domain>, r: Domain, s: Domain)
    requires Under(r, s)
    ensures |Below(names, r)| <= |Below(names, s)|
  {
    forall d | d in Below(names, r)
      ensures d in Below(names, s)
    {
      UnderTransitive(d, r, s);
    }
    SubsetSize(Below(names, r), Below(names, s));
  }

  // ---------- Names that a deeper check does not count ----------

  /** A label repeated below `r`. */
  function Deep(tag: string, k: nat, r: Domain): (d: Domain)
    ensures |d| == k + |r| && Under(d, r)
    ensures forall i :: 0 <= i < k ==> d[i] == tag
  {
    seq(k, i => tag) + r
  }

  ghost function Others(tag: string, r: Domain, n: nat): set<Domain> {
    set k | 1 <= k <= n :: Deep(tag, k, r)
  }

  lemma {:induction false} OthersCount(tag: string, r: Domain, n: nat)
    ensures |Others(tag, r, n)| == n
  {
    if n == 0 {
      assert Others(tag, r, 0) == {};
    } else {
      OthersCount(tag, r, n - 1);
      assert Deep(tag, n, r) !in Others(tag, r, n - 1);
      assert Others(tag, r, n) == Others(tag, r, n - 1) + {Deep(tag, n, r)};
    }
  }

  /** These names are below `r`, but not below a domain whose label next to `r` is another. */
  lemma OthersEscape(tag: string, r: Domain, n: nat, s: Domain)
    requires Under(s, r) && |r| < |s| && s[|s| - |r| - 1] != tag
    ensures Below(Others(tag, r, n), r) == Others(tag, r, n)
    ensures Below(Others(tag, r, n), s) == {}
  {
    forall d | d in Others(tag, r, n)
      ensures Under(d, r) && !Under(d, s)
    {
      var k :| 1 <= k <= n && d == Deep(tag, k, r);
      assert d[k - 1] == tag;
      assert |s| <= |d| ==> d[|d| - |s|..][|s| - |r| - 1] == d[k - 1];
    }
  }

  lemma DeeperCheckFails(d: Domain, zone: Domain, r: Domain, max: nat)
    requires StrictlyUnder(d, zone) && Under(d, r) && |r| <= |zone| && 1 <= max
    ensures RegisteredDomain(d, zone).Some? && !CheckProtects(d, zone, r, max)
  {
    RegisteredIsBelowZone(d, zone);
    var s := RegisteredDomain(d, zone).value;
    AncestorsCompare(d, r, s);
    var tag := s[|s| - |r| - 1] + "x";
    var names := Others(tag, r, max);
    OthersCount(tag, r, max);
    OthersEscape(tag, r, max, s);
    assert names + {} == names;
    assert LimitAllows(names, {}, max, d, s);
    assert d in names ==> d in Below(names, s);
    assert Below(names + {d}, r) == names + {d};
  }

  /** A limit of zero admits only names that are counted already. */
  lemma ClosedCheckProtects(d: Domain, zone: Domain, r: Domain)
    requires StrictlyUnder(d, zone)
    ensures RegisteredDomain(d, zone).Some? && CheckProtects(d, zone, r, 0)
  {
    RegisteredIsBelowZone(d, zone);
    forall names: set<Domain> | |Below(names, r)| <= 0 && LimitAllows(names, {}, 0, d, RegisteredDomain(d, zone).value)
      ensures |Below(names + {d}, r)| <= 0
    {
      assert names + {} == names && names + {d} == names;
    }
  }

  /**
    The check made for a vote protects a domain above the name if and only if the domain has more
    labels than the zone that the vote carries, or the limit admits no name at all.
   */
  lemma CheckProtectsIff(d: Domain, zone: Domain, r: Domain, max: nat)
    requires StrictlyUnder(d, zone) && Under(d, r)
    ensures RegisteredDomain(d, zone).Some?
    ensures CheckProtects(d, zone, r, max) <==> |zone| < |r| || max == 0
  {
    if |zone| < |r| {
      HigherCheckProtects(d, zone, r, max);
    } else if max == 0 {
      ClosedCheckProtects(d, zone, r);
    } else {
      DeeperCheckFails(d, zone, r, max);
    }
  }

  // ---------- A run above the limit ----------

  const COM: Domain := ["com"]
  const REGISTERED: Domain := ["example", "com"]
  const FIRST: Domain := ["a", "example", "com"]
  const SECOND: Domain := ["b", "example", "com"]

  lemma Labels()
    ensures FIRST[1..] == REGISTERED && SECOND[1..] == REGISTERED
    ensures FIRST[2..] == COM && SECOND[0..] == SECOND
    ensures RegisteredDomain(FIRST, COM) == Some(REGISTERED) && StrictlyUnder(FIRST, COM)
    ensures RegisteredDomain(SECOND, REGISTERED) == Some(SECOND) && StrictlyUnder(SECOND, REGISTERED)
    ensures Under(FIRST, REGISTERED) && Under(SECOND, REGISTERED) && !Under(FIRST, SECOND)
  {
    assert FIRST[0..] == FIRST && FIRST[0] != SECOND[0];
    assert SECOND[|SECOND| - |REGISTERED| - 1..] == SECOND;
  }

  ghost function OnePending(): map<PendingKey<Domain>, OracleVoteValue> {
    map[PendingKey(FIRST, 0) := SeenValue(COM)]
  }

  ghost function TwoPending(): map<PendingKey<Domain>, OracleVoteValue> {
    OnePending()[PendingKey(SECOND, 0) := SeenValue(REGISTERED)]
  }

  lemma BothAdmissible()
    ensures Admissible(map[], 1, FIRST, COM)
    ensures Admissible(OnePending(), 1, SECOND, REGISTERED)
  {
    Labels();
    assert PendingKeys(OnlyPending(map[])) == {};
    assert PendingKeys(OnlyPending(OnePending())) == {FIRST} by { KeysOfPending(); }
    assert Below({} + {}, REGISTERED) == {};
    assert Below({FIRST} + {}, SECOND) == {};
  }

  lemma KeysOfPending()
    ensures PendingKeys(OnlyPending(OnePending())) == {FIRST}
    ensures PendingKeys(OnlyPending(TwoPending())) == {FIRST, SECOND}
  {
    assert PendingKey(FIRST, 0) in OnePending() && PendingKey(FIRST, 0) in TwoPending();
    assert PendingKey(SECOND, 0) in TwoPending();
  }

  lemma TwoNames(config: Config)
    ensures Below(Names(BlockTwo(config, 0, TwoPending())), REGISTERED) == {FIRST, SECOND}
    ensures |{FIRST, SECOND}| == 2
  {
    Labels();
    KeysOfPending();
    assert Names(BlockTwo(config, 0, TwoPending())) == {FIRST, SECOND};
  }

  lemma TwoObservations(h: History) returns (g: History)
    requires EndsWith(h, InBlock, BlockTwo(OneOracle(1, 1), 0, map[]))
    ensures EndsWith(g, InBlock, BlockTwo(OneOracle(1, 1), 0, TwoPending()))
    ensures |g.steps| == |h.steps| + 2 && Continues(g, h)
  {
    hide EndsWith, Takes, Admissible, BlockTwo;
    var config := OneOracle(1, 1);
    BothAdmissible();
    Decides(1, 1, 0, map[], FIRST, COM);
    Decides(1, 1, 0, OnePending(), SECOND, REGISTERED);
    g := Extend(h, InBlock, BlockTwo(config, 0, map[]), ObserveStep(Seen(FIRST, COM), Some(SeenValue(COM))),
                BlockTwo(config, 0, OnePending()));
    g := Extend(g, InBlock, BlockTwo(config, 0, OnePending()),
                ObserveStep(Seen(SECOND, REGISTERED), Some(SeenValue(REGISTERED))), BlockTwo(config, 0, TwoPending()));
  }

  /**
    A run in which two names are pending below a registered domain under a limit of one, which was in
    force throughout: the second vote names the registered domain itself as the zone.
   */
  lemma LimitCanBeExceeded() returns (h: History)
    ensures IsHistory(h) && |h.states| == 8 && LimitNeverLowered(h)
    ensures ConfigAt(h, 7).oracles.maxEnrolledSubdomains == 1
    ensures |Below(Names(h.states[7]), REGISTERED)| == 2
  {
    hide EndsWith, IsHistory, Below, ConfigAt;
    var config := OneOracle(1, 1);
    var f := ReadyToObserve(config, 0);
    h := TwoObservations(f);
    EndOf(h, BlockTwo(config, 0, TwoPending()));
    TwoNames(config);
    ConfigOf(h, 0);
    ConfigOf(h, 7);
    assert h.states[0] == AtGenesis(config) && ConfigAt(h, 0) == ConfigAt(h, 7) == config;
    forall i | 0 <= i < |h.steps|
      ensures ConfigAt(h, i) == ConfigAt(h, i + 1)
    {
      VersionsGrow(h, 0, i);
      VersionsGrow(h, i, i + 1);
      VersionsGrow(h, i + 1, 7);
    }
  }

  lemma EndOf(h: History, c: Chain)
    requires EndsWith(h, InBlock, c)
    ensures IsHistory(h) && |h.states| == |h.steps| + 1 && h.states[|h.steps|] == c
  {}
}
