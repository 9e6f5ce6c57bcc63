/**
  The converse of the approvals in Provenance and AdminProvenance, over all runs of the chain: no
  vote is lost while it stands, and a quorum of standing votes decides.
 */
module Decisions {
  import opened AdminProvenance
  import opened Agreement
  import opened Basics
  import opened ChainModel
  import opened Configs
  import opened Domains
  import opened Hex
  import opened Histories
  import opened Provenance
  import opened QueueLaws
  import opened QueueRuns
  import opened Times
  import opened VoteQueues

  /** The names under which the holders of keys vote. */
  ghost function Parties(keys: set<Bytes>): set<string> {
    set k | k in keys :: Encode(k)
  }

  lemma OtherParties(keys: set<Bytes>, k: Bytes)
    requires k !in keys
    ensures Encode(k) !in Parties(keys)
    ensures Parties(keys + {k}) == Parties(keys) + {Encode(k)}
  {
    hide Encode;
    if j :| j in keys && Encode(j) == Encode(k) {
      EncodeInjective(j, k);
    }
  }

  /** As many parties as keys. */
  lemma {:induction false} PartiesOfKeys(keys: set<Bytes>)
    ensures |Parties(keys)| == |keys|
  {
    if keys != {} {
      var k :| k in keys;
      PartiesOfKeys(keys - {k});
      OtherParties(keys - {k}, k);
      assert keys - {k} + {k} == keys;
    }
  }

  // ---------- Observations ----------

  /** An observation that was cast is an event of the oracle queue. */
  lemma ObservationIsCast(h: History, m: nat, oracle: Bytes, d: Domain, w: OracleVoteValue)
    requires IsHistory(h) && m < |h.steps| && |h.states| == |h.steps| + 1 && ObservedAt(h, m, oracle, d, w)
    ensures h.states[m].time.Some? && OracleEvents(h)[m].CastEvent?
    ensures CastAt(OracleEvents(h), m, VoteKey(d, Encode(oracle), Second(h.states[m].time.value)), w)
    ensures OracleEvents(h)[m].winner == h.steps[m].winner
  {
    OracleEventAt(h, m);
    hide IsHistory, OracleEvents;
  }

  lemma UndisturbedIsSpared(h: History, l: nat, oracle: Bytes, a: VoteKey<Domain>)
    requires IsHistory(h) && l < |h.steps| && |h.states| == |h.steps| + 1 && IsStep(h, l)
    requires Encode(oracle) == a.party && Undisturbed(h, l, oracle, a.key, a.sec)
    ensures Spares(OracleEvents(h)[l], a)
  {
    OracleEventAt(h, l);
    hide IsHistory, MayObserve, OracleEvents, Encode;
    if h.steps[l].ObserveStep? && Encode(h.steps[l].observe.oracle) == a.party {
      EncodeInjective(h.steps[l].observe.oracle, oracle);
    }
  }

  ghost predicate UndisturbedBetween(h: History, m: nat, n: nat, oracle: Bytes, d: Domain)
    requires IsHistory(h) && m < n < |h.states|
  {
    h.states[m].time.Some?
    && forall l :: m < l < n ==> IsStep(h, l) && Undisturbed(h, l, oracle, d, Second(h.states[m].time.value))
  }

  lemma UndisturbedStands(h: History, m: nat, n: nat, oracle: Bytes, d: Domain)
    requires IsHistory(h) && m < n < |h.states| && UndisturbedBetween(h, m, n, oracle, d)
    ensures n <= |h.steps|
    ensures Standing(OracleEvents(h), m, n, VoteKey(d, Encode(oracle), Second(h.states[m].time.value)))
  {
    assert |h.states| == |h.steps| + 1;
    hide IsHistory, OracleEvents, Undisturbed, Spares, Encode;
    var a := VoteKey(d, Encode(oracle), Second(h.states[m].time.value));
    forall l | m < l < n
      ensures Spares(OracleEvents(h)[l], a)
    {
      UndisturbedIsSpared(h, l, oracle, a);
    }
  }

  /**
    No observation is lost: one that was cast without deciding is among the votes for as long as its
    oracle does not vote for the name again, nobody's vote decides on the name, and it does not time out.
   */
  lemma ObservationsAreKept(h: History, m: nat, n: nat, oracle: Bytes, d: Domain, w: OracleVoteValue)
    requires IsHistory(h) && m < n < |h.states| && |h.states| == |h.steps| + 1
    requires ObservedAt(h, m, oracle, d, w) && h.steps[m].winner.None?
    requires UndisturbedBetween(h, m, n, oracle, d)
    ensures var a := VoteKey(d, Encode(oracle), Second(h.states[m].time.value));
            a in h.states[n].oracle.votes && h.states[n].oracle.votes[a] == w
  {
    hide *;
    ObservationIsCast(h, m, oracle, d, w);
    UndisturbedStands(h, m, n, oracle, d);
    OracleQueueRuns(h);
    StandingVotesAreQueued(OracleQueues(h), OracleEvents(h), m, n,
                           VoteKey(d, Encode(oracle), Second(h.states[m].time.value)), w);
  }

  /** Step i casts an observation about the name. */
  ghost predicate ObservesAbout(h: History, i: nat, d: Domain)
    requires IsHistory(h) && i < |h.steps|
  {
    h.steps[i].ObserveStep? && h.steps[i].observe.domain == d && MayObserve(h.states[i], h.steps[i].observe)
  }

  lemma ObservationEvent(h: History, i: nat, d: Domain)
    requires IsHistory(h) && i < |h.steps| && ObservesAbout(h, i, d)
    ensures h.steps[i].ObserveStep? && h.states[i].time.Some? && h.states[i].config.Some?
    ensures OracleEvents(h)[i].CastEvent?
    ensures OracleEvents(h)[i].vote == ObservationVote(h.states[i], h.steps[i].observe)
    ensures OracleEvents(h)[i].vote.party == Encode(h.steps[i].observe.oracle)
    ensures OracleEvents(h)[i].vote.key == d && OracleEvents(h)[i].winner == h.steps[i].winner
    ensures OracleEvents(h)[i].quorum == h.states[i].config.value.oracles.voting.quorum
  {
    OracleEventAt(h, i);
    hide IsHistory, OracleEvents;
  }

  lemma OlderSupport(h: History, m: nat, i: nat, oracle: Bytes, d: Domain, w: OracleVoteValue)
    requires IsHistory(h) && i < |h.steps| && m < i && Supports(h, m, i, oracle, d, w)
    ensures |h.states| == |h.steps| + 1
    ensures ObservedAt(h, m, oracle, d, w) && h.steps[m].ObserveStep? && h.steps[m].winner.None?
    ensures UndisturbedBetween(h, m, i, oracle, d)
    ensures h.steps[i].ObserveStep? && Encode(h.steps[i].observe.oracle) != Encode(oracle)
  {
    assert |h.states| == |h.steps| + 1;
    hide IsHistory, Encode, Undisturbed, MayObserve, Apply, Enabled, Scheduled;
    if Encode(h.steps[i].observe.oracle) == Encode(oracle) {
      EncodeInjective(h.steps[i].observe.oracle, oracle);
    }
  }

  lemma OwnSupport(h: History, i: nat, oracle: Bytes, d: Domain, w: OracleVoteValue)
    requires IsHistory(h) && i < |h.steps| && Supports(h, i, i, oracle, d, w)
    ensures |h.states| == |h.steps| + 1 && ObservedAt(h, i, oracle, d, w)
  {
    assert |h.states| == |h.steps| + 1;
  }

  /** A vote cast now, or one cast undecided before and standing until another party votes, backs its value. */
  lemma CastBacks<K, V>(es: seq<Event<K, V>>, m: nat, i: nat, key: K, party: string, sec: Seconds, w: V)
    requires m <= i < |es| && CastAt(es, m, VoteKey(key, party, sec), w)
    requires m < i ==>
      && Standing(es, m, i, VoteKey(key, party, sec)) && es[m].winner.None?
      && es[i].CastEvent? && es[i].vote.party != party
    ensures BackedSince(es, m, i, key, party, w)
  {}

  lemma SupportIsBacking(h: History, m: nat, i: nat, oracle: Bytes, d: Domain, w: OracleVoteValue)
    requires IsHistory(h) && i < |h.steps| && ObservesAbout(h, i, d)
    requires Supports(h, m, i, oracle, d, w) && m <= i
    ensures BackedSince(OracleEvents(h), m, i, d, Encode(oracle), w)
  {
    hide *;
    ObservationEvent(h, i, d);
    if m < i {
      OlderSupport(h, m, i, oracle, d, w);
      UndisturbedStands(h, m, i, oracle, d);
    } else {
      OwnSupport(h, i, oracle, d, w);
    }
    ObservationIsCast(h, m, oracle, d, w);
    CastBacks(OracleEvents(h), m, i, d, Encode(oracle), Second(h.states[m].time.value), w);
  }

  lemma SupportedIsBacked(h: History, i: nat, oracle: Bytes, d: Domain, w: OracleVoteValue)
    requires IsHistory(h) && i < |h.steps| && ObservesAbout(h, i, d) && Supported(h, i, oracle, d, w)
    ensures Backed(OracleEvents(h), i, d, Encode(oracle), w)
  {
    hide IsHistory, OracleEvents, BackedSince, ObservesAbout, ObservedAt, Undisturbed, Encode;
    var m: nat :| Supports(h, m, i, oracle, d, w) && m <= i;
    SupportIsBacking(h, m, i, oracle, d, w);
  }

  /** At step i a quorum of distinct oracles, at least one, supports the value for the name. */
  ghost predicate QuorumSupports(h: History, i: nat, d: Domain, w: OracleVoteValue, oracles: set<Bytes>)
    requires IsHistory(h) && i < |h.steps|
  {
    && h.states[i].config.Some?
    && Larger(1, h.states[i].config.value.oracles.voting.quorum) <= |oracles|
    && forall k :: k in oracles ==> Supported(h, i, k, d, w)
  }

  lemma OraclesBack(h: History, i: nat, d: Domain, w: OracleVoteValue, oracles: set<Bytes>)
    requires IsHistory(h) && i < |h.steps| && ObservesAbout(h, i, d)
    requires forall k :: k in oracles ==> Supported(h, i, k, d, w)
    ensures forall party :: party in Parties(oracles) ==> Backed(OracleEvents(h), i, d, party, w)
  {
    hide IsHistory, OracleEvents, Supported, Backed, ObservesAbout, Encode;
    forall k | k in oracles
      ensures Backed(OracleEvents(h), i, d, Encode(k), w)
    {
      SupportedIsBacked(h, i, k, d, w);
    }
  }

  lemma OracleQuorumBacks(h: History, i: nat, d: Domain, w: OracleVoteValue, oracles: set<Bytes>)
    requires IsHistory(h) && i < |h.steps| && ObservesAbout(h, i, d) && QuorumSupports(h, i, d, w, oracles)
    ensures OracleEvents(h)[i].CastEvent? && QuorumBacks(OracleEvents(h), i, w, Parties(oracles))
  {
    hide IsHistory, OracleEvents, Supported, Backed, ObservesAbout, Parties;
    ObservationEvent(h, i, d);
    PartiesOfKeys(oracles);
    OraclesBack(h, i, d, w, oracles);
  }

  /** A quorum of oracles decides, and its value is one that may win. */
  lemma OracleQuorumDecides(h: History, i: nat, d: Domain, w: OracleVoteValue, oracles: set<Bytes>)
    requires IsHistory(h) && i < |h.steps| && ObservesAbout(h, i, d) && QuorumSupports(h, i, d, w, oracles)
    ensures h.steps[i].winner.Some? && h.states[i].time.Some?
    ensures LegalWinner(PutVote(h.states[i].oracle, ObservationVote(h.states[i], h.steps[i].observe)), d,
                        h.states[i].config.value.oracles.voting.quorum, Some(w))
  {
    hide *;
    OracleQueueRuns(h);
    ObservationEvent(h, i, d);
    OracleQuorumBacks(h, i, d, w, oracles);
    QuorumDecides(OracleQueues(h), OracleEvents(h), i, w, Parties(oracles));
  }

  lemma DecisionHasQuorum(h: History, i: nat, d: Domain) returns (oracles: set<Bytes>)
    requires IsHistory(h) && i < |h.steps| && ObservesAbout(h, i, d) && h.steps[i].winner.Some?
    ensures QuorumSupports(h, i, d, h.steps[i].winner.value, oracles)
  {
    hide *;
    OracleQueueRuns(h);
    ObservationEvent(h, i, d);
    WinnersAreDecided(OracleQueues(h), OracleEvents(h), i);
    oracles := DecidedIsApproved(h, i, d, h.steps[i].winner.value);
    ApprovedHasQuorum(h, i, d, h.steps[i].winner.value, oracles);
  }

  lemma ApprovedHasQuorum(h: History, i: nat, d: Domain, w: OracleVoteValue, oracles: set<Bytes>)
    requires IsHistory(h) && i < |h.steps| && Approved(h, i, d, w, oracles)
    ensures QuorumSupports(h, i, d, w, oracles)
  {
    hide IsHistory, Supported;
    assert |oracles| != 0;
  }

  /**
    An observation that is cast decides if and only if, with it, some value has the support of a quorum
    of distinct oracles.
   */
  lemma ObservationDecidesIff(h: History, i: nat, d: Domain)
    requires IsHistory(h) && i < |h.steps| && ObservesAbout(h, i, d)
    ensures h.steps[i].winner.Some? <==> exists w, oracles :: QuorumSupports(h, i, d, w, oracles)
  {
    hide IsHistory, QuorumSupports, LegalWinner, PutVote;
    if h.steps[i].winner.Some? {
      var oracles := DecisionHasQuorum(h, i, d);
    }
    if w, oracles :| QuorumSupports(h, i, d, w, oracles) {
      OracleQuorumDecides(h, i, d, w, oracles);
    }
  }

  /** While the quorum was not lowered, the value with the quorum is the winner. */
  lemma SupportedValueWins(h: History, i: nat, d: Domain, w: OracleVoteValue, oracles: set<Bytes>)
    requires IsHistory(h) && i < |h.steps| && ObservesAbout(h, i, d) && QuorumSupports(h, i, d, w, oracles)
    requires OracleQuorumNeverLowered(h)
    ensures h.steps[i].winner == Some(w)
  {
    OracleQuorumDecides(h, i, d, w, oracles);
    OraclesBelowQuorum(h, i);
    StepAt(h, i);
    hide IsHistory, QuorumSupports, LegalWinner, PutVote, BelowQuorum, MayObserve, Apply;
    var c := h.states[i];
    var v, quorum := ObservationVote(c, h.steps[i].observe), c.config.value.oracles.voting.quorum;
    OnlyTheCastValueWins(c.oracle, v, quorum, h.steps[i].winner);
    OnlyTheCastValueWins(c.oracle, v, quorum, Some(w));
  }

  // ---------- Reconfigurations ----------

  lemma ProposalIsCast(h: History, m: nat, admin: Bytes, w: Config)
    requires IsHistory(h) && m < |h.steps| && |h.states| == |h.steps| + 1 && ProposedAt(h, m, admin, w)
    ensures h.states[m].time.Some? && AdminEvents(h)[m].CastEvent?
    ensures CastAt(AdminEvents(h), m, VoteKey((), Encode(admin), Second(h.states[m].time.value)), w)
    ensures AdminEvents(h)[m].winner == h.steps[m].choice
  {
    AdminEventAt(h, m);
    hide IsHistory, AdminEvents;
  }

  lemma LeftProposalIsSpared(h: History, l: nat, admin: Bytes, a: VoteKey<()>)
    requires IsHistory(h) && l < |h.steps| && |h.states| == |h.steps| + 1 && IsStep(h, l)
    requires Encode(admin) == a.party && LeavesProposal(h, l, admin, a.sec)
    ensures Spares(AdminEvents(h)[l], a)
  {
    AdminEventAt(h, l);
    hide IsHistory, MayReconfigure, AdminEvents, Encode;
    if h.steps[l].ReconfigureStep? && Encode(h.steps[l].reconfigure.admin) == a.party {
      EncodeInjective(h.steps[l].reconfigure.admin, admin);
    }
  }

  ghost predicate LeftBetween(h: History, m: nat, n: nat, admin: Bytes)
    requires IsHistory(h) && m < n < |h.states|
  {
    h.states[m].time.Some?
    && forall l :: m < l < n ==> IsStep(h, l) && LeavesProposal(h, l, admin, Second(h.states[m].time.value))
  }

  lemma LeftProposalStands(h: History, m: nat, n: nat, admin: Bytes)
    requires IsHistory(h) && m < n < |h.states| && LeftBetween(h, m, n, admin)
    ensures n <= |h.steps|
    ensures Standing(AdminEvents(h), m, n, VoteKey((), Encode(admin), Second(h.states[m].time.value)))
  {
    assert |h.states| == |h.steps| + 1;
    hide IsHistory, AdminEvents, LeavesProposal, Spares, Encode;
    var a := VoteKey((), Encode(admin), Second(h.states[m].time.value));
    forall l | m < l < n
      ensures Spares(AdminEvents(h)[l], a)
    {
      LeftProposalIsSpared(h, l, admin, a);
    }
  }

  /** No proposal is lost while it stands. */
  lemma ProposalsAreKept(h: History, m: nat, n: nat, admin: Bytes, w: Config)
    requires IsHistory(h) && m < n < |h.states| && |h.states| == |h.steps| + 1
    requires ProposedAt(h, m, admin, w) && h.steps[m].choice.None?
    requires LeftBetween(h, m, n, admin)
    ensures var a := VoteKey((), Encode(admin), Second(h.states[m].time.value));
            a in h.states[n].admin.votes && h.states[n].admin.votes[a] == w
  {
    hide *;
    ProposalIsCast(h, m, admin, w);
    LeftProposalStands(h, m, n, admin);
    AdminQueueRuns(h);
    StandingVotesAreQueued(AdminQueues(h), AdminEvents(h), m, n,
                           VoteKey((), Encode(admin), Second(h.states[m].time.value)), w);
  }

  lemma ProposalEvent(h: History, i: nat)
    requires IsHistory(h) && i < |h.steps| && AdminEvents(h)[i].CastEvent?
    ensures h.steps[i].ReconfigureStep? && h.states[i].time.Some? && h.states[i].config.Some?
    ensures AdminEvents(h)[i].vote == ReconfigurationVote(h.states[i], h.steps[i].reconfigure)
    ensures AdminEvents(h)[i].vote.party == Encode(h.steps[i].reconfigure.admin)
    ensures AdminEvents(h)[i].vote.key == () && AdminEvents(h)[i].winner == h.steps[i].choice
    ensures AdminEvents(h)[i].quorum == h.states[i].config.value.admins.voting.quorum
  {
    CastIsProposal(h, i);
    hide IsHistory, AdminEvents;
  }

  lemma OlderEndorsement(h: History, m: nat, i: nat, admin: Bytes, w: Config)
    requires IsHistory(h) && i < |h.steps| && m < i && Endorses(h, m, i, admin, w)
    ensures |h.states| == |h.steps| + 1
    ensures ProposedAt(h, m, admin, w) && h.steps[m].ReconfigureStep? && h.steps[m].choice.None?
    ensures LeftBetween(h, m, i, admin)
    ensures h.steps[i].ReconfigureStep? && Encode(h.steps[i].reconfigure.admin) != Encode(admin)
  {
    assert |h.states| == |h.steps| + 1;
    hide IsHistory, Encode, LeavesProposal, MayReconfigure, Apply, Enabled, Scheduled;
    if Encode(h.steps[i].reconfigure.admin) == Encode(admin) {
      EncodeInjective(h.steps[i].reconfigure.admin, admin);
    }
  }

  lemma OwnEndorsement(h: History, i: nat, admin: Bytes, w: Config)
    requires IsHistory(h) && i < |h.steps| && Endorses(h, i, i, admin, w)
    ensures |h.states| == |h.steps| + 1 && ProposedAt(h, i, admin, w) && h.states[i].time.Some?
  {
    assert |h.states| == |h.steps| + 1;
  }

  lemma EndorsementIsBacking(h: History, m: nat, i: nat, admin: Bytes, w: Config)
    requires IsHistory(h) && i < |h.steps| && AdminEvents(h)[i].CastEvent?
    requires Endorses(h, m, i, admin, w) && m <= i
    ensures BackedSince(AdminEvents(h), m, i, (), Encode(admin), w)
  {
    hide *;
    ProposalEvent(h, i);
    if m < i {
      OlderEndorsement(h, m, i, admin, w);
      LeftProposalStands(h, m, i, admin);
    } else {
      OwnEndorsement(h, i, admin, w);
    }
    ProposalIsCast(h, m, admin, w);
    CastBacks(AdminEvents(h), m, i, (), Encode(admin), Second(h.states[m].time.value), w);
  }

  lemma EndorsedIsBacked(h: History, i: nat, admin: Bytes, w: Config)
    requires IsHistory(h) && i < |h.steps| && AdminEvents(h)[i].CastEvent? && Endorsed(h, i, admin, w)
    ensures Backed(AdminEvents(h), i, (), Encode(admin), w)
  {
    hide IsHistory, AdminEvents, BackedSince, ProposedAt, LeavesProposal, Encode;
    var m: nat :| Endorses(h, m, i, admin, w) && m <= i;
    EndorsementIsBacking(h, m, i, admin, w);
  }

  /** At step i a quorum of distinct admins, at least one, endorses the configuration. */
  ghost predicate QuorumEndorses(h: History, i: nat, w: Config, admins: set<Bytes>)
    requires IsHistory(h) && i < |h.steps|
  {
    && h.states[i].config.Some?
    && Larger(1, h.states[i].config.value.admins.voting.quorum) <= |admins|
    && forall k :: k in admins ==> Endorsed(h, i, k, w)
  }

  lemma AdminsBack(h: History, i: nat, w: Config, admins: set<Bytes>)
    requires IsHistory(h) && i < |h.steps| && AdminEvents(h)[i].CastEvent?
    requires forall k :: k in admins ==> Endorsed(h, i, k, w)
    ensures forall party :: party in Parties(admins) ==> Backed(AdminEvents(h), i, (), party, w)
  {
    hide IsHistory, AdminEvents, Endorsed, Backed, Encode;
    forall k | k in admins
      ensures Backed(AdminEvents(h), i, (), Encode(k), w)
    {
      EndorsedIsBacked(h, i, k, w);
    }
  }

  lemma AdminQuorumBacks(h: History, i: nat, w: Config, admins: set<Bytes>)
    requires IsHistory(h) && i < |h.steps| && AdminEvents(h)[i].CastEvent? && QuorumEndorses(h, i, w, admins)
    ensures QuorumBacks(AdminEvents(h), i, w, Parties(admins))
  {
    CastIsProposal(h, i);
    assert AdminEvents(h)[i].vote.key == ();
    hide IsHistory, AdminEvents, Endorsed, Backed, Parties, MayReconfigure;
    PartiesOfKeys(admins);
    AdminsBack(h, i, w, admins);
  }

  /** A quorum of admins decides, and its configuration is one that may win. */
  lemma AdminQuorumDecides(h: History, i: nat, w: Config, admins: set<Bytes>)
    requires IsHistory(h) && i < |h.steps| && AdminEvents(h)[i].CastEvent? && QuorumEndorses(h, i, w, admins)
    ensures h.steps[i].ReconfigureStep? && h.steps[i].choice.Some? && h.states[i].time.Some?
    ensures LegalWinner(PutVote(h.states[i].admin, ReconfigurationVote(h.states[i], h.steps[i].reconfigure)), (),
                        h.states[i].config.value.admins.voting.quorum, Some(w))
  {
    ProposalEvent(h, i);
    hide *;
    AdminQueueRuns(h);
    AdminQuorumBacks(h, i, w, admins);
    QuorumDecides(AdminQueues(h), AdminEvents(h), i, w, Parties(admins));
  }

  lemma AdminDecisionHasQuorum(h: History, i: nat) returns (admins: set<Bytes>)
    requires IsHistory(h) && i < |h.steps| && AdminEvents(h)[i].CastEvent?
    requires h.steps[i].ReconfigureStep? && h.steps[i].choice.Some?
    ensures QuorumEndorses(h, i, h.steps[i].choice.value, admins)
  {
    hide *;
    AdminQueueRuns(h);
    ProposalEvent(h, i);
    WinnersAreDecided(AdminQueues(h), AdminEvents(h), i);
    admins := DecidedByAdmins(h, i, h.steps[i].choice.value);
    ApprovedByQuorum(h, i, h.steps[i].choice.value, admins);
  }

  lemma ApprovedByQuorum(h: History, i: nat, w: Config, admins: set<Bytes>)
    requires IsHistory(h) && i < |h.steps| && ApprovedByAdmins(h, i, w, admins)
    ensures QuorumEndorses(h, i, w, admins)
  {
    hide IsHistory, Endorsed;
    assert |admins| != 0;
  }

  /**
    A reconfiguration that is cast decides if and only if, with it, some configuration is endorsed by a
    quorum of distinct admins.
   */
  lemma ReconfigurationDecidesIff(h: History, i: nat)
    requires IsHistory(h) && i < |h.steps| && AdminEvents(h)[i].CastEvent?
    ensures h.steps[i].ReconfigureStep?
    ensures h.steps[i].choice.Some? <==> exists w, admins :: QuorumEndorses(h, i, w, admins)
  {
    CastIsProposal(h, i);
    hide IsHistory, AdminEvents, QuorumEndorses, MayReconfigure, LegalWinner, PutVote;
    if h.steps[i].choice.Some? {
      var admins := AdminDecisionHasQuorum(h, i);
    }
    if w, admins :| QuorumEndorses(h, i, w, admins) {
      AdminQuorumDecides(h, i, w, admins);
    }
  }
}
