/** The subdomain limit as an invariant of every run in which each name has one zone. */
module SubdomainLimit {
  import opened Basics
  import opened ChainModel
  import opened ConfigChain
  import opened Domains
  import opened Histories
  import opened QueueLaws
  import opened Times
  import opened VoteQueues

  /**
    A consistent choice of zones: all names at or below a registered domain share its parent zone.
    Names that are not below the zone chosen for them, and so cannot be voted for, do not matter.
   */
  ghost predicate Consistent(zone: Domain -> Domain) {
    forall d, e ::
      StrictlyUnder(d, zone(d)) && StrictlyUnder(e, zone(e)) && Under(e, Registered(d, zone)) ==> zone(e) == zone(d)
  }

  function Registered(d: Domain, zone: Domain -> Domain): Domain {
    match RegisteredDomain(d, zone(d))
    case Some(r) => r
    case None => d
  }

  /** All votes name the zone that the choice gives. */
  ghost predicate UsesZones(h: History, zone: Domain -> Domain) {
    |h.states| == |h.steps| + 1 &&
    forall i :: 0 <= i < |h.steps| && h.steps[i].ObserveStep? && MayObserve(h.states[i], h.steps[i].observe) ==>
      h.steps[i].observe.zone == zone(h.steps[i].observe.domain)
  }

  ghost function HasZone(zone: Domain -> Domain): (Domain, OracleVoteValue) -> bool {
    (d: Domain, w: OracleVoteValue) => StrictlyUnder(d, w.zone) && w.zone == zone(d)
  }

  /** The names enrolled, or about to be changed. */
  ghost function Names(c: Chain): set<Domain> {
    PendingKeys(c.oracle) + c.canonical.Keys
  }

  /** No registered domain has more names at or below it than the limit in force. */
  ghost predicate WithinLimit(c: Chain, zone: Domain -> Domain)
    requires c.config.Some?
  {
    Bounded(Names(c), zone, c.config.value.oracles.maxEnrolledSubdomains)
  }

  /** Fewer names stay within the limit. */
  lemma FewerNames(c: Chain, e: Chain, zone: Domain -> Domain)
    requires c.config.Some? && e.config.Some? && WithinLimit(c, zone)
    requires Names(e) <= Names(c)
    requires c.config.value.oracles.maxEnrolledSubdomains <= e.config.value.oracles.maxEnrolledSubdomains
    ensures WithinLimit(e, zone)
  {
    FewerStayBounded(Names(e), Names(c), zone, c.config.value.oracles.maxEnrolledSubdomains);
  }

  /** A name below a registered domain has that registered domain itself. */
  lemma SameRegisteredDomain(d: Domain, e: Domain, zone: Domain -> Domain)
    requires Consistent(zone)
    requires StrictlyUnder(d, zone(d)) && StrictlyUnder(e, zone(e)) && Under(e, Registered(d, zone))
    ensures zone(e) == zone(d) && Registered(e, zone) == Registered(d, zone)
  {
    RegisteredIsBelowZone(d, zone(d));
    var r := Registered(d, zone);
    UnderTransitive(e, r, zone(d));
    RegisteredIsBelowZone(e, zone(e));
    AncestorsCompare(e, r, Registered(e, zone));
  }

  /** No registered domain has more than `max` of these names at or below it. */
  ghost predicate Bounded(names: set<Domain>, zone: Domain -> Domain, max: nat) {
    forall d :: StrictlyUnder(d, zone(d)) ==> |Below(names, Registered(d, zone))| <= max
  }

  lemma OneMoreName(names: set<Domain>, d: Domain, r: Domain, max: nat)
    requires |Below(names, r)| <= max
    requires d in Below(names, r) || |Below(names, r)| + 1 <= max
    ensures |Below(names + {d}, r)| <= max
  {
    if d in Below(names, r) {
      assert Below(names + {d}, r) == Below(names, r);
    } else {
      assert Below(names + {d}, r) <= Below(names, r) + {d};
      SubsetSize(Below(names + {d}, r), Below(names, r) + {d});
    }
  }

  /** Adding a name that the limit admits keeps every registered domain within it. */
  lemma AdmittedName(names: set<Domain>, d: Domain, zone: Domain -> Domain, max: nat)
    requires Consistent(zone) && Bounded(names, zone, max) && StrictlyUnder(d, zone(d))
    requires d in Below(names, Registered(d, zone)) || |Below(names, Registered(d, zone))| + 1 <= max
    ensures Bounded(names + {d}, zone, max)
  {
    hide Consistent, Registered;
    forall e | StrictlyUnder(e, zone(e))
      ensures |Below(names + {d}, Registered(e, zone))| <= max
    {
      if Under(d, Registered(e, zone)) {
        SameRegisteredDomain(e, d, zone);
        OneMoreName(names, d, Registered(e, zone), max);
      } else {
        assert Below(names + {d}, Registered(e, zone)) == Below(names, Registered(e, zone));
      }
    }
  }

  lemma FewerStayBounded(few: set<Domain>, many: set<Domain>, zone: Domain -> Domain, max: nat)
    requires few <= many && Bounded(many, zone, max)
    ensures Bounded(few, zone, max)
  {
    forall d | StrictlyUnder(d, zone(d))
      ensures |Below(few, Registered(d, zone))| <= max
    {
      SubsetSize(Below(few, Registered(d, zone)), Below(many, Registered(d, zone)));
    }
  }

  /** What a cast adds to the pending names: nothing, or its own name, admitted by the rule. */
  lemma CastNames<K, V>(q: Queue<K, V>, v: Vote<K, V>, winner: Option<V>, admits: AdmissionRule<K, V>)
    ensures
      var q1 := CastVote(q, v, winner, admits).0;
      || PendingKeys(q1) <= PendingKeys(q)
      || (exists rest :: rest <= PendingKeys(q) && winner.Some? && admits(rest, v.key, winner.value) == Admit
                         && PendingKeys(q1) == rest + {v.key})
  {
    var q0 := PutVote(q, v);
    var q1 := CastVote(q, v, winner, admits).0;
    if winner.Some? && !PendingAs(ClearVotes(q0, v.key), v.key, winner.value) {
      var q2 := ClearPending(ClearVotes(q0, v.key), v.key);
      assert PendingKeys(q2) <= PendingKeys(q);
      if admits(PendingKeys(q2), v.key, winner.value) == Admit {
        assert PendingKeys(q1) == PendingKeys(q2) + {v.key} by {
          assert PendingKey(v.key, Second(v.time)) in q1.pending;
        }
      }
    }
  }

  /** The names after a cast are bounded by the limit its rule enforces. */
  lemma CastStaysBounded(
      q: Queue<Domain, OracleVoteValue>, v: Vote<Domain, OracleVoteValue>, w: Option<OracleVoteValue>,
      canonical: set<Domain>, max: nat, zone: Domain -> Domain)
    requires Consistent(zone) && Bounded(PendingKeys(q) + canonical, zone, max)
    requires w.Some? ==> w.value.zone == zone(v.key) && StrictlyUnder(v.key, zone(v.key))
    ensures Bounded(PendingKeys(CastVote(q, v, w, SubdomainRule(canonical, max)).0) + canonical, zone, max)
  {
    var rule := SubdomainRule(canonical, max);
    var after := PendingKeys(CastVote(q, v, w, rule).0);
    CastNames(q, v, w, rule);
    hide CastVote, Bounded, Consistent, LimitAllows;
    if after <= PendingKeys(q) {
      FewerStayBounded(after + canonical, PendingKeys(q) + canonical, zone, max);
    } else {
      var rest :| rest <= PendingKeys(q) && w.Some? && rule(rest, v.key, w.value) == Admit && after == rest + {v.key};
      FewerStayBounded(rest + canonical, PendingKeys(q) + canonical, zone, max);
      RuleAdmits(rest, v.key, w.value, canonical, max, zone);
      AdmittedName(rest + canonical, v.key, zone, max);
      assert after + canonical == rest + canonical + {v.key};
    }
  }

  lemma RuleAdmits(
      rest: set<Domain>, d: Domain, w: OracleVoteValue, canonical: set<Domain>, max: nat, zone: Domain -> Domain)
    requires SubdomainRule(canonical, max)(rest, d, w) == Admit
    requires w.zone == zone(d)
    ensures d in Below(rest + canonical, Registered(d, zone))
            || |Below(rest + canonical, Registered(d, zone))| + 1 <= max
  {}

  lemma ObserveStaysWithin(c: Chain, o: Observe, w: Option<OracleVoteValue>, zone: Domain -> Domain)
    requires Consistent(zone) && c.config.Some? && WithinLimit(c, zone)
    requires Enabled(c, ObserveStep(o, w)) && MayObserve(c, o) && o.zone == zone(o.domain)
    requires Entries(c.oracle, HasZone(zone))
    ensures WithinLimit(Apply(c, ObserveStep(o, w)), zone)
    ensures Entries(Apply(c, ObserveStep(o, w)).oracle, HasZone(zone))
  {
    hide Bounded, Consistent, CastVote, LegalWinner;
    var v, max := ObservationVote(c, o), c.config.value.oracles.maxEnrolledSubdomains;
    var rule := SubdomainRule(c.canonical.Keys, max);
    CastKeepsEntries(c.oracle, v, c.config.value.oracles.voting.quorum, w, rule, HasZone(zone));
    CastStaysBounded(c.oracle, v, w, c.canonical.Keys, max, zone);
  }

  lemma StepStaysWithin(phase: Phase, c: Chain, s: Step, zone: Domain -> Domain)
    requires Consistent(zone) && Invariant(phase, c) && WithinLimit(c, zone)
    requires Scheduled(phase, c, s) && Enabled(c, s)
    requires s.ObserveStep? && MayObserve(c, s.observe) ==> s.observe.zone == zone(s.observe.domain)
    requires Entries(c.oracle, HasZone(zone))
    requires Apply(c, s).config.Some?
             && c.config.value.oracles.maxEnrolledSubdomains <= Apply(c, s).config.value.oracles.maxEnrolledSubdomains
    ensures WithinLimit(Apply(c, s), zone)
    ensures Entries(Apply(c, s).oracle, HasZone(zone))
  {
    if s.ObserveStep? && MayObserve(c, s.observe) {
      ObserveStaysWithin(c, s.observe, s.winner, zone);
    } else {
      if s == PromoteCanonicalStep {
        PromotionAddsNoName(c);
      }
      FewerNames(c, Apply(c, s), zone);
    }
  }

  lemma PromotionAddsNoName(c: Chain)
    requires ValidChain(c) && c.config.Some? && c.time.Some?
    ensures Names(PromoteCanonical(c)) <= Names(c)
  {
    forall d | d in ChangesOf(c.oracle, RipeObservations(c))
      ensures d in PendingKeys(c.oracle)
    {
      var p :| p in RipeObservations(c) && p.key == d;
      assert p in c.oracle.pending;
    }
  }

  lemma LimitAfterStep(h: History, n: nat, zone: Domain -> Domain)
    requires IsHistory(h) && n < |h.steps| && Consistent(zone)
    requires h.steps[n].ObserveStep? && MayObserve(h.states[n], h.steps[n].observe) ==>
      h.steps[n].observe.zone == zone(h.steps[n].observe.domain)
    requires ConfigAt(h, n).oracles.maxEnrolledSubdomains <= ConfigAt(h, n + 1).oracles.maxEnrolledSubdomains
    requires h.states[n].config.Some? && WithinLimit(h.states[n], zone)
    requires Entries(h.states[n].oracle, HasZone(zone))
    ensures h.states[n + 1].config.Some? && WithinLimit(h.states[n + 1], zone)
    ensures Entries(h.states[n + 1].oracle, HasZone(zone))
  {
    hide WithinLimit, Entries, Apply, Enabled, Scheduled, Consistent, MayObserve;
    InvariantHolds(h, n + 1);
    StepAt(h, n);
    StepStaysWithin(PhaseAt(h, n), h.states[n], h.steps[n], zone);
  }

  ghost predicate LimitNeverLowered(h: History)
    requires IsHistory(h)
  {
    forall i :: 0 <= i < |h.steps| ==>
      ConfigAt(h, i).oracles.maxEnrolledSubdomains <= ConfigAt(h, i + 1).oracles.maxEnrolledSubdomains
  }

  lemma GenesisWithinLimit(h: History, zone: Domain -> Domain)
    requires IsHistory(h)
    ensures h.states[0].config.Some? && WithinLimit(h.states[0], zone)
    ensures Entries(h.states[0].oracle, HasZone(zone))
  {
    assert Names(h.states[0]) == {};
  }

  /**
    In every state of such a run, counting canonical and pending names together, no registered
    domain has more names at or below it than the limit in force: also after several quorums in one
    block, overwritten changes, deletions and promotions.
   */
  lemma {:induction false} LimitHolds(h: History, n: nat, zone: Domain -> Domain)
    requires IsHistory(h) && n < |h.states|
    requires Consistent(zone) && UsesZones(h, zone) && LimitNeverLowered(h)
    ensures h.states[n].config.Some? && WithinLimit(h.states[n], zone)
    ensures Entries(h.states[n].oracle, HasZone(zone))
  {
    hide IsHistory, WithinLimit, Entries, Consistent, ConfigAt, MayObserve, HasZone;
    assert |h.states| == |h.steps| + 1;
    if n == 0 {
      GenesisWithinLimit(h, zone);
    } else {
      LimitHolds(h, n - 1, zone);
      LimitAfterStep(h, n - 1, zone);
    }
  }

  /** A quorum of admins that is never lowered is enough to keep the limit from being lowered. */
  lemma LimitHoldsUnderStableQuorum(h: History, n: nat, zone: Domain -> Domain)
    requires IsHistory(h) && n < |h.states| && Consistent(zone) && UsesZones(h, zone)
    requires AdminQuorumNeverLowered(h)
    ensures h.states[n].config.Some? && WithinLimit(h.states[n], zone)
  {
    forall i | 0 <= i < |h.steps|
      ensures ConfigAt(h, i).oracles.maxEnrolledSubdomains <= ConfigAt(h, i + 1).oracles.maxEnrolledSubdomains
    {
      LimitNeverDecreases(h, i, i + 1);
    }
    LimitHolds(h, n, zone);
  }
}
