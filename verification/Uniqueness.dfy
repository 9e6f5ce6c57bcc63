/**
  Exactly when the winner of a cast does not depend on the order of the tally: the conditions can be
  checked on the queue before the cast.
 */
module Uniqueness {
  import opened Basics
  import opened QueueLaws
  import opened QueueRuns
  import opened Times
  import opened VoteQueues

  // ---------- One cast ----------

  /** The votes for a value that a new vote of the party leaves in place. */
  ghost function OtherSupporters<K, V>(q: Queue<K, V>, key: K, value: V, party: string): set<VoteKey<K>> {
    set a | a in Supporters(q, key, value) && a.party != party
  }

  /** Whatever the tally reports after this vote, it is the value of the vote or nothing. */
  ghost predicate CastValueAloneWins<K, V(!new)>(q: Queue<K, V>, v: Vote<K, V>, quorum: nat) {
    forall w :: LegalWinner(PutVote(q, v), v.key, quorum, Some(w)) ==> w == v.value
  }

  lemma SupportAfterVote<K, V>(q: Queue<K, V>, v: Vote<K, V>, value: V)
    requires value != v.value
    ensures Supporters(PutVote(q, v), v.key, value) == OtherSupporters(q, v.key, value, v.party)
  {}

  /** Another value may win exactly when it has the quorum, and at least one vote, without the voter. */
  lemma OtherValueMayWinIff<K, V>(q: Queue<K, V>, v: Vote<K, V>, quorum: nat, value: V)
    requires value != v.value
    ensures LegalWinner(PutVote(q, v), v.key, quorum, Some(value))
      <==> Larger(1, quorum) <= |OtherSupporters(q, v.key, value, v.party)|
  {
    SupportAfterVote(q, v, value);
    var s := OtherSupporters(q, v.key, value, v.party);
    assert s != {} <==> 1 <= |s|;
  }

  /**
    The value just cast is the only possible winner if and only if no other value queued for the key
    has the quorum among the votes of other parties.
   */
  lemma CastValueAloneWinsIff<K, V(!new)>(q: Queue<K, V>, v: Vote<K, V>, quorum: nat)
    ensures CastValueAloneWins(q, v, quorum) <==>
      forall a :: a in q.votes && a.key == v.key && q.votes[a] != v.value ==>
        |OtherSupporters(q, v.key, q.votes[a], v.party)| < Larger(1, quorum)
  {
    forall w | w != v.value
      ensures LegalWinner(PutVote(q, v), v.key, quorum, Some(w))
        <==> Larger(1, quorum) <= |OtherSupporters(q, v.key, w, v.party)|
      ensures OtherSupporters(q, v.key, w, v.party) != {} ==>
        exists a :: a in q.votes && a.key == v.key && q.votes[a] == w
    {
      OtherValueMayWinIff(q, v, quorum, w);
      if a :| a in OtherSupporters(q, v.key, w, v.party) {
        assert a in q.votes && a.key == v.key && q.votes[a] == w;
      }
    }
    hide LegalWinner, OtherSupporters, PutVote;
  }

  // ---------- All casts for a key ----------

  ghost predicate NobodyAtQuorum<K, V>(q: Queue<K, V>, key: K, quorum: nat) {
    forall a :: a in q.votes && a.key == key ==> |Supporters(q, key, q.votes[a])| < Larger(1, quorum)
  }

  lemma {:induction false} SomeLongerName(names: set<string>) returns (name: string)
    ensures forall n :: n in names ==> |n| < |name|
  {
    if names == {} {
      name := "x";
    } else {
      var n :| n in names;
      name := SomeLongerName(names - {n});
      if |name| <= |n| {
        name := n + "x";
      }
    }
  }

  /** There is always a party that has not voted. */
  lemma FreshParty<K, V>(q: Queue<K, V>) returns (party: string)
    ensures forall a :: a in q.votes ==> a.party != party
  {
    party := SomeLongerName(set a | a in q.votes :: a.party);
    forall a | a in q.votes
      ensures a.party != party
    {
      assert a.party in (set b | b in q.votes :: b.party);
    }
  }

  lemma NobodyBelowIsEnough<K, V(!new)>(q: Queue<K, V>, v: Vote<K, V>, quorum: nat)
    requires NobodyAtQuorum(q, v.key, quorum)
    ensures CastValueAloneWins(q, v, quorum)
  {
    forall a | a in q.votes && a.key == v.key && q.votes[a] != v.value
      ensures |OtherSupporters(q, v.key, q.votes[a], v.party)| < Larger(1, quorum)
    {
      SubsetSize(OtherSupporters(q, v.key, q.votes[a], v.party), Supporters(q, v.key, q.votes[a]));
    }
    CastValueAloneWinsIff(q, v, quorum);
  }

  /** A value that waits with the quorum reached can win the cast of a newcomer for another value. */
  lemma WaitingValueCanWin<K, V>(q: Queue<K, V>, a: VoteKey<K>, quorum: nat, other: V, t: Time) returns (v: Vote<K, V>)
    requires a in q.votes && Larger(1, quorum) <= |Supporters(q, a.key, q.votes[a])| && other != q.votes[a]
    ensures v.key == a.key && v.time == t && v.value == other
    ensures LegalWinner(PutVote(q, v), a.key, quorum, Some(q.votes[a]))
  {
    var party := FreshParty(q);
    v := Vote(party, t, a.key, other);
    assert OtherSupporters(q, a.key, q.votes[a], party) == Supporters(q, a.key, q.votes[a]);
    OtherValueMayWinIff(q, v, quorum, q.votes[a]);
  }

  /**
    Every cast for a key leaves its own value as the only possible winner if and only if no value
    queued for the key has the quorum. (With a single value there is nothing to choose from.)
   */
  lemma WinnersAreUniqueIff<K(!new), V(!new)>(q: Queue<K, V>, key: K, quorum: nat, u: V, w: V)
    requires u != w
    ensures (forall v: Vote<K, V> :: v.key == key ==> CastValueAloneWins(q, v, quorum)) <==> NobodyAtQuorum(q, key, quorum)
  {
    if NobodyAtQuorum(q, key, quorum) {
      forall v: Vote<K, V> | v.key == key
        ensures CastValueAloneWins(q, v, quorum)
      {
        NobodyBelowIsEnough(q, v, quorum);
      }
    } else {
      var a :| a in q.votes && a.key == key && Larger(1, quorum) <= |Supporters(q, key, q.votes[a])|;
      var v := WaitingValueCanWin(q, a, quorum, if q.votes[a] == u then w else u, 0);
      assert !CastValueAloneWins(q, v, quorum);
    }
  }

  // ---------- Lowering the quorum ----------

  /** A run in which every cast was made under this quorum and decided nothing. */
  ghost predicate UndecidedRun<K, V>(qs: seq<Queue<K, V>>, es: seq<Event<K, V>>, quorum: nat) {
    && IsQueueRun(qs, es)
    && forall i :: 0 <= i < |es| ==> es[i].CastEvent? && es[i].quorum == quorum && es[i].winner == None
  }

  /** After the run, one more cast under another quorum may be won by either of two values. */
  ghost predicate TwoWinners<K, V>(qs: seq<Queue<K, V>>, v: Vote<K, V>, quorum: nat, u: V, w: V) {
    && u != w && qs != []
    && LegalWinner(PutVote(qs[|qs| - 1], v), v.key, quorum, Some(u))
    && LegalWinner(PutVote(qs[|qs| - 1], v), v.key, quorum, Some(w))
  }

  /** The queue in which each of the named parties has one vote, made at the same time. */
  ghost predicate Ballot<K, V>(q: Queue<K, V>, key: K, sec: Seconds, votes: map<string, V>) {
    && (forall p :: p in votes <==> VoteKey(key, p, sec) in q.votes)
    && (forall a :: a in q.votes ==> a.key == key && a.sec == sec && q.votes[a] == votes[a.party])
    && q.votes == q.voteIndex && q.pending == map[] == q.pendingIndex
  }

  /** How many parties vote for a value. */
  ghost function VotersFor<V>(votes: map<string, V>, value: V): set<string> {
    set p | p in votes && votes[p] == value
  }

  lemma {:induction false} SupportersAreVoters<K, V>(q: Queue<K, V>, key: K, sec: Seconds, votes: map<string, V>, value: V)
    requires Ballot(q, key, sec, votes)
    ensures |Supporters(q, key, value)| == |VotersFor(votes, value)|
  {
    var s := Supporters(q, key, value);
    forall p | p in VotersFor(votes, value)
      ensures p in set a | a in s :: a.party
    {
      assert VoteKey(key, p, sec) in s;
    }
    assert VotersFor(votes, value) == set a | a in s :: a.party;
    SameSize(s, VotersFor(votes, value));
  }

  lemma BallotGrows<K, V>(q: Queue<K, V>, key: K, t: Time, votes: map<string, V>, party: string, value: V)
    requires Ballot(q, key, Second(t), votes) && party !in votes
    ensures Ballot(PutVote(q, Vote(party, t, key, value)), key, Second(t), votes[party := value])
  {
    assert VotesOf(q, key, party) == {};
  }

  lemma VotersGrow<V>(votes: map<string, V>, party: string, value: V, other: V)
    requires party !in votes
    ensures |VotersFor(votes[party := value], other)| == |VotersFor(votes, other)| + if other == value then 1 else 0
  {
    if other == value {
      assert VotersFor(votes[party := value], other) == VotersFor(votes, other) + {party};
    } else {
      assert VotersFor(votes[party := value], other) == VotersFor(votes, other);
    }
  }

  /** A ballot in which no value has the quorum is undecided. */
  lemma BallotIsUndecided<K, V>(q: Queue<K, V>, key: K, sec: Seconds, votes: map<string, V>, quorum: nat)
    requires Ballot(q, key, sec, votes)
    requires forall p :: p in votes ==> |VotersFor(votes, votes[p])| < quorum
    ensures LegalWinner(q, key, quorum, None)
  {
    forall a | a in VotesFor(q, key)
      ensures |Supporters(q, key, q.votes[a])| < quorum
    {
      assert a == VoteKey(key, a.party, sec) && a.party in votes;
      SupportersAreVoters(q, key, sec, votes, q.votes[a]);
    }
  }

  lemma UndecidedRunGrows<K, V>(
      qs: seq<Queue<K, V>>, es: seq<Event<K, V>>, quorum: nat, v: Vote<K, V>, admits: AdmissionRule<K, V>)
    returns (rs: seq<Queue<K, V>>, fs: seq<Event<K, V>>)
    requires 0 <= v.time && UndecidedRun(qs, es, quorum) && |qs| == |es| + 1
    requires LegalWinner(PutVote(qs[|es|], v), v.key, quorum, None)
    ensures |rs| == |fs| + 1 && UndecidedRun(rs, fs, quorum) && rs[|fs|] == PutVote(qs[|es|], v)
  {
    hide LegalWinner, PutVote;
    var r := PutVote(qs[|es|], v);
    rs, fs := qs + [r], es + [CastEvent(v, quorum, None, admits)];
    assert After(qs[|es|], fs[|es|]) == r;
  }

  /** A run of undecided casts that leaves each of two values with a number of votes below the quorum. */
  lemma {:induction false} SplitBallot<K, V>(
      each: nat, n: nat, quorum: nat, key: K, t: Time, u: V, w: V, admits: AdmissionRule<K, V>)
    returns (qs: seq<Queue<K, V>>, es: seq<Event<K, V>>, votes: map<string, V>)
    requires u != w && 0 <= t && each < quorum && n <= 2 * each
    ensures |qs| == |es| + 1 && UndecidedRun(qs, es, quorum) && Ballot(qs[|es|], key, Second(t), votes)
    ensures forall p :: p in votes ==> |p| < n && (votes[p] == u || votes[p] == w)
    ensures |VotersFor(votes, u)| == (if n <= each then n else each)
    ensures |VotersFor(votes, w)| == (if n <= each then 0 else n - each)
  {
    hide Ballot, UndecidedRun, VotersFor;
    if n == 0 {
      qs, es, votes := [Empty<K, V>()], [], map[];
      NoVotes<K, V>(quorum, key, Second(t), u, w);
    } else {
      qs, es, votes := SplitBallot(each, n - 1, quorum, key, t, u, w, admits);
      var party := seq(n - 1, i => 'x');
      var value := if n <= each then u else w;
      VotersGrow(votes, party, value, u);
      VotersGrow(votes, party, value, w);
      BallotGrows(qs[|es|], key, t, votes, party, value);
      votes := votes[party := value];
      BallotIsUndecided(PutVote(qs[|es|], Vote(party, t, key, value)), key, Second(t), votes, quorum);
      qs, es := UndecidedRunGrows(qs, es, quorum, Vote(party, t, key, value), admits);
    }
  }

  lemma NoVotes<K, V>(quorum: nat, key: K, sec: Seconds, u: V, w: V)
    ensures UndecidedRun([Empty<K, V>()], [], quorum) && Ballot(Empty<K, V>(), key, sec, map[])
    ensures VotersFor<V>(map[], u) == VotersFor<V>(map[], w) == {}
  {}

  /** Two values with the lower quorum among the queued votes can both win the cast of a newcomer. */
  lemma BothMayWin<K, V>(q: Queue<K, V>, v: Vote<K, V>, quorum: nat, w: V)
    requires w != v.value && forall a :: a in q.votes ==> a.party != v.party
    requires Larger(1, quorum) <= |Supporters(q, v.key, v.value)|
    requires Larger(1, quorum) <= |Supporters(q, v.key, w)|
    ensures LegalWinner(PutVote(q, v), v.key, quorum, Some(v.value))
    ensures LegalWinner(PutVote(q, v), v.key, quorum, Some(w))
  {
    assert OtherSupporters(q, v.key, w, v.party) == Supporters(q, v.key, w);
    OtherValueMayWinIff(q, v, quorum, w);
    SubsetSize(Supporters(q, v.key, v.value), Supporters(PutVote(q, v), v.key, v.value));
  }

  ghost predicate LoweringCanSplit<K(!new), V(!new)>(high: nat, low: nat) {
    exists qs: seq<Queue<K, V>>, es: seq<Event<K, V>>, v: Vote<K, V>, u: V, w: V ::
      UndecidedRun(qs, es, high) && TwoWinners(qs, v, low, u, w)
  }

  /**
    A lowered quorum breaks uniqueness, whatever the two quorums and the two values: casts that were
    undecided under the higher quorum leave both values with the lower one, and after one more cast
    either of them may be reported.
   */
  lemma LoweredQuorumHasTwoWinners<K, V>(high: nat, low: nat, key: K, u: V, w: V, admits: AdmissionRule<K, V>)
    returns (qs: seq<Queue<K, V>>, es: seq<Event<K, V>>, v: Vote<K, V>)
    requires u != w && Larger(1, low) < high
    ensures UndecidedRun(qs, es, high)
    ensures v.key == key && TwoWinners(qs, v, low, u, w)
  {
    var each: nat := Larger(1, low);
    var votes;
    qs, es, votes := SplitBallot(each, 2 * each, high, key, 0, u, w, admits);
    var q := qs[|es|];
    SupportersAreVoters(q, key, Second(0), votes, u);
    SupportersAreVoters(q, key, Second(0), votes, w);
    var party := FreshParty(q);
    v := Vote(party, 0, key, u);
    BothMayWin(q, v, low, w);
  }

  lemma OneWinnerAfterRun<K, V>(qs: seq<Queue<K, V>>, es: seq<Event<K, V>>, high: nat, v: Vote<K, V>, low: nat, u: V, w: V)
    requires UndecidedRun(qs, es, high) && high <= Larger(1, low)
    ensures |qs| == |es| + 1 && !TwoWinners(qs, v, low, u, w)
  {
    NobodyWaitsAtQuorum(qs, es, |es|, high);
    BelowHigherQuorum(qs[|es|], high, Larger(1, low));
    if TwoWinners(qs, v, low, u, w) {
      OnlyTheCastValueWins(qs[|es|], v, low, Some(u));
      OnlyTheCastValueWins(qs[|es|], v, low, Some(w));
    }
  }

  /**
    After casts under one quorum, none of them deciding, a cast under another quorum can have two
    different winners if and only if the quorum was lowered (where a quorum of zero works like one).
   */
  lemma LoweringCanSplitIff<K(!new), V(!new)>(high: nat, low: nat, key: K, u: V, w: V, admits: AdmissionRule<K, V>)
    requires u != w
    ensures LoweringCanSplit<K, V>(high, low) <==> Larger(1, low) < high
  {
    hide UndecidedRun, TwoWinners;
    if Larger(1, low) < high {
      var qs, es, v := LoweredQuorumHasTwoWinners(high, low, key, u, w, admits);
    } else if LoweringCanSplit<K, V>(high, low) {
      var qs: seq<Queue<K, V>>, es: seq<Event<K, V>>, v: Vote<K, V>, x: V, y: V :|
        UndecidedRun(qs, es, high) && TwoWinners(qs, v, low, x, y);
      OneWinnerAfterRun(qs, es, high, v, low, x, y);
    }
  }
}
