/**
  Replicas agree: the tally iterates a hash map, whose order differs between machines, but as long
  as quorums are not lowered the same blocks lead every replica to the same state.
 */
module Agreement {
  import opened Basics
  import opened ChainModel
  import opened ConfigChain
  import opened Configs
  import opened Histories
  import opened Provenance
  import opened QueueLaws
  import opened QueueRuns
  import opened Times
  import opened VoteQueues

  ghost predicate OracleQuorumNeverLowered(h: History)
    requires IsHistory(h)
  {
    forall i :: 0 <= i < |h.steps| ==>
      ConfigAt(h, i).oracles.voting.quorum <= ConfigAt(h, i + 1).oracles.voting.quorum
  }

  lemma {:induction false} OracleQuorumGrows(h: History, i: nat, j: nat)
    requires IsHistory(h) && OracleQuorumNeverLowered(h) && i <= j < |h.states|
    ensures ConfigAt(h, i).oracles.voting.quorum <= ConfigAt(h, j).oracles.voting.quorum
  {
    if i < j {
      OracleQuorumGrows(h, i, j - 1);
      assert ConfigAt(h, j - 1).oracles.voting.quorum <= ConfigAt(h, j - 1 + 1).oracles.voting.quorum;
    }
  }

  /** In every state no value waits for a name with the quorum in force reached. */
  lemma OraclesBelowQuorum(h: History, n: nat)
    requires IsHistory(h) && OracleQuorumNeverLowered(h) && n < |h.states|
    ensures BelowQuorum(h.states[n].oracle, ConfigAt(h, n).oracles.voting.quorum)
  {
    OracleQueueRuns(h);
    var qs, es := OracleQueues(h), OracleEvents(h);
    forall i | 0 <= i < |es| && es[i].CastEvent?
      ensures es[i].quorum == ConfigAt(h, i).oracles.voting.quorum
    {
      assert IsStep(h, i) && es[i] == OracleEvent(h.states[i], h.steps[i]);
    }
    forall i, j | 0 <= i < j < n && es[i].CastEvent? && es[j].CastEvent?
      ensures es[i].quorum <= es[j].quorum
    {
      OracleQuorumGrows(h, i, j);
    }
    forall i | 0 <= i < n && es[i].CastEvent?
      ensures es[i].quorum <= ConfigAt(h, n).oracles.voting.quorum
    {
      OracleQuorumGrows(h, i, n);
    }
    NobodyWaitsAtQuorum(qs, es, n, ConfigAt(h, n).oracles.voting.quorum);
  }

  /** The same input: equal up to the winner that the tally happened to report. */
  predicate SameInput(s: Step, t: Step) {
    match (s, t)
    case (ObserveStep(o, _), ObserveStep(p, _)) => o == p
    case (ReconfigureStep(r, _), ReconfigureStep(q, _)) => r == q
    case _ => s == t
  }

  /** Whatever the tallies report, a step from a state in which nobody waits has one outcome. */
  lemma OneOutcome(c: Chain, s: Step, t: Step)
    requires c.config.Some?
    requires BelowQuorum(c.oracle, c.config.value.oracles.voting.quorum)
    requires BelowQuorum(c.admin, c.config.value.admins.voting.quorum)
    requires Enabled(c, s) && Enabled(c, t) && SameInput(s, t)
    ensures Apply(c, s) == Apply(c, t)
  {
    match s {
      case ObserveStep(o, w) =>
        if MayObserve(c, o) {
          var v, quorum := ObservationVote(c, o), c.config.value.oracles.voting.quorum;
          OnlyTheCastValueWins(c.oracle, v, quorum, w);
          OnlyTheCastValueWins(c.oracle, v, quorum, t.winner);
        }
      case ReconfigureStep(r, w) =>
        if MayReconfigure(c, r) {
          var v, quorum := ReconfigurationVote(c, r), c.config.value.admins.voting.quorum;
          OnlyTheCastValueWins(c.admin, v, quorum, w);
          OnlyTheCastValueWins(c.admin, v, quorum, t.choice);
        }
      case _ =>
    }
  }

  // ---------- Exactly when a reconfiguration has one outcome ----------

  lemma SettledIsPending(q: Queue<(), Config>, sec: Seconds, w: Config)
    requires Valid(q)
    ensures var r := Settle(q, (), sec, Some(w), NoLimit()).0;
            Valid(r) && PendingAs(r, (), w)
  {
    SettleKeepsValid(q, (), sec, Some(w), NoLimit());
    var q1 := ClearVotes(q, ());
    if !PendingAs(q1, (), w) {
      assert PendingKey((), sec) in PutPending(ClearPending(q1, ()), (), sec, w).pending;
    }
  }

  /** Different winners leave different configurations pending. */
  lemma WinnersShow(q: Queue<(), Config>, sec: Seconds, u: Config, w: Config)
    requires Valid(q) && Settle(q, (), sec, Some(u), NoLimit()).0 == Settle(q, (), sec, Some(w), NoLimit()).0
    ensures u == w
  {
    SettledIsPending(q, sec, u);
    SettledIsPending(q, sec, w);
    var r := Settle(q, (), sec, Some(u), NoLimit()).0;
    hide Settle;
    var p :| p in r.pending && p.key == () && r.pending[p] == u;
    var o :| o in r.pending && o.key == () && r.pending[o] == w;
    assert p == o;
  }

  /** No two configurations have the quorum once the vote is put. */
  ghost predicate OneAtQuorum(q: Queue<(), Config>, quorum: nat) {
    forall a, b :: a in q.votes && b in q.votes
      && quorum <= |Supporters(q, (), q.votes[a])| && quorum <= |Supporters(q, (), q.votes[b])|
      ==> q.votes[a] == q.votes[b]
  }

  lemma LegalWinnersOf(q: Queue<(), Config>, quorum: nat)
    ensures forall a :: a in q.votes && quorum <= |Supporters(q, (), q.votes[a])| ==>
      LegalWinner(q, (), quorum, Some(q.votes[a]))
    ensures forall w :: LegalWinner(q, (), quorum, Some(w)) ==>
      exists a :: a in q.votes && q.votes[a] == w && quorum <= |Supporters(q, (), w)|
    ensures LegalWinner(q, (), quorum, None) ==> forall w :: !LegalWinner(q, (), quorum, Some(w))
  {
    forall a | a in q.votes
      ensures a in Supporters(q, (), q.votes[a])
    {
      assert a.key == ();
    }
    forall w | LegalWinner(q, (), quorum, Some(w))
      ensures exists a :: a in q.votes && q.votes[a] == w && quorum <= |Supporters(q, (), w)|
    {
      var a :| a in Supporters(q, (), w);
    }
  }

  /** Every tally of this reconfiguration leads to the same state. */
  ghost predicate OneOutcomeOf(c: Chain, r: Reconfigure) {
    forall u, w :: Enabled(c, ReconfigureStep(r, u)) && Enabled(c, ReconfigureStep(r, w)) ==>
      Apply(c, ReconfigureStep(r, u)) == Apply(c, ReconfigureStep(r, w))
  }

  /**
    A reconfiguration that passes the checks has one outcome if and only if, with its vote counted, no
    two configurations have the quorum in force.
   */
  lemma OneOutcomeIff(c: Chain, r: Reconfigure)
    requires ValidChain(c) && MayReconfigure(c, r)
    ensures OneOutcomeOf(c, r) <==>
      OneAtQuorum(PutVote(c.admin, ReconfigurationVote(c, r)), c.config.value.admins.voting.quorum)
  {
    var q, quorum := PutVote(c.admin, ReconfigurationVote(c, r)), c.config.value.admins.voting.quorum;
    hide Apply, Enabled, Valid, PutVote, MayReconfigure;
    if OneOutcomeOf(c, r) {
      forall a, b | a in q.votes && b in q.votes
        && quorum <= |Supporters(q, (), q.votes[a])| && quorum <= |Supporters(q, (), q.votes[b])|
        ensures q.votes[a] == q.votes[b]
      {
        LegalWinnersOf(q, quorum);
        OutcomeShowsWinner(c, r, Some(q.votes[a]), Some(q.votes[b]));
      }
    }
    if OneAtQuorum(q, quorum) {
      forall u, w | Enabled(c, ReconfigureStep(r, u)) && Enabled(c, ReconfigureStep(r, w))
        ensures u == w
      {
        OutcomeShowsWinner(c, r, u, w);
        SameWinner(q, quorum, u, w);
      }
    }
  }

  lemma SameWinner(q: Queue<(), Config>, quorum: nat, u: Option<Config>, w: Option<Config>)
    requires OneAtQuorum(q, quorum) && LegalWinner(q, (), quorum, u) && LegalWinner(q, (), quorum, w)
    ensures u == w
  {
    LegalWinnersOf(q, quorum);
    hide LegalWinner, Supporters;
  }

  /** A step is enabled exactly when its winner is legal, and different winners lead to different states. */
  lemma OutcomeShowsWinner(c: Chain, r: Reconfigure, u: Option<Config>, w: Option<Config>)
    requires ValidChain(c) && MayReconfigure(c, r)
    ensures var q, quorum := PutVote(c.admin, ReconfigurationVote(c, r)), c.config.value.admins.voting.quorum;
            && (Enabled(c, ReconfigureStep(r, u)) <==> LegalWinner(q, (), quorum, u))
            && (Enabled(c, ReconfigureStep(r, w)) <==> LegalWinner(q, (), quorum, w))
    ensures Enabled(c, ReconfigureStep(r, u)) && Enabled(c, ReconfigureStep(r, w)) && u.Some? && w.Some?
      && Apply(c, ReconfigureStep(r, u)) == Apply(c, ReconfigureStep(r, w))
      ==> u == w
  {
    var v := ReconfigurationVote(c, r);
    PutVoteKeepsValid(c.admin, v);
    var q, sec := PutVote(c.admin, v), Second(v.time);
    hide MayReconfigure, LegalWinner, Settle, PutVote, Valid;
    if u.Some? && w.Some? && Settle(q, (), sec, u, NoLimit()).0 == Settle(q, (), sec, w, NoLimit()).0 {
      WinnersShow(q, sec, u.value, w.value);
    }
  }

  /** Two histories with the same genesis and the same inputs go through the same states. */
  lemma {:induction false} ReplicasAgree(h: History, g: History, n: nat)
    requires IsHistory(h) && IsHistory(g)
    requires OracleQuorumNeverLowered(h) && AdminQuorumNeverLowered(h)
    requires |h.steps| == |g.steps| && h.states[0] == g.states[0]
    requires forall i :: 0 <= i < |h.steps| ==> SameInput(h.steps[i], g.steps[i])
    requires n < |h.states|
    ensures h.states[n] == g.states[n]
  {
    assert |h.states| == |h.steps| + 1 && |g.states| == |g.steps| + 1;
    hide IsHistory, OracleQuorumNeverLowered, AdminQuorumNeverLowered, SameInput;
    if n != 0 {
      ReplicasAgree(h, g, n - 1);
      assert SameInput(h.steps[n - 1], g.steps[n - 1]);
      StepIsShared(h, g, n - 1);
    }
  }

  lemma StepIsShared(h: History, g: History, n: nat)
    requires IsHistory(h) && IsHistory(g)
    requires OracleQuorumNeverLowered(h) && AdminQuorumNeverLowered(h)
    requires n < |h.steps| && n < |g.steps| && |h.states| == |h.steps| + 1 && |g.states| == |g.steps| + 1
    requires h.states[n] == g.states[n] && SameInput(h.steps[n], g.steps[n])
    ensures h.states[n + 1] == g.states[n + 1]
  {
    hide OracleQuorumNeverLowered, AdminQuorumNeverLowered, Apply, Enabled, BelowQuorum, SameInput, IsHistory, Scheduled;
    OraclesBelowQuorum(h, n);
    AdminsBelowQuorum(h, n);
    StepAt(h, n);
    StepAt(g, n);
    OneOutcome(h.states[n], h.steps[n], g.steps[n]);
  }
}
