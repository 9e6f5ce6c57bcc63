/** Laws of the vote queue over all queues, votes, winners and admission rules. */
module QueueLaws {
  import opened Basics
  import opened Times
  import opened VoteQueues

  // ---------- The representation invariant ----------

  /** With the invariant, expiry is a plain filter on both vote stores. */
  lemma ExpireIsFilter<K, V>(q: Queue<K, V>, now: Time, timeout: nat)
    requires Valid(q) && NonNegative(q)
    ensures Expire(q, now, timeout).votes == map a | a in q.votes && !Due(now, a.sec, timeout) :: q.votes[a]
    ensures Expire(q, now, timeout).voteIndex == map a | a in q.voteIndex && !Due(now, a.sec, timeout) :: q.voteIndex[a]
  {}

  lemma ExpireKeepsValid<K, V>(q: Queue<K, V>, now: Time, timeout: nat)
    requires Valid(q)
    ensures Valid(Expire(q, now, timeout))
    ensures NonNegative(q) ==> NonNegative(Expire(q, now, timeout))
  {}

  /** Promotion splits the pending changes by age; the returned keys are pairwise different. */
  lemma PromotePartitions<K, V>(q: Queue<K, V>, now: Time, delay: nat)
    requires Valid(q) && NonNegative(q)
    ensures RipeChanges(q, now, delay) == set p | p in q.pending && Due(now, p.sec, delay)
    ensures Promote(q, now, delay).pending == map p | p in q.pending && !Due(now, p.sec, delay) :: q.pending[p]
    ensures RipeChanges(q, now, delay) + Promote(q, now, delay).pending.Keys == q.pending.Keys
    ensures RipeChanges(q, now, delay) !! Promote(q, now, delay).pending.Keys
    ensures forall a, b ::
      a in RipeChanges(q, now, delay) && b in RipeChanges(q, now, delay) && a.key == b.key ==> a == b
  {}

  lemma PromoteKeepsValid<K, V>(q: Queue<K, V>, now: Time, delay: nat)
    requires Valid(q)
    ensures Valid(Promote(q, now, delay))
    ensures NonNegative(q) ==> NonNegative(Promote(q, now, delay))
  {}

  lemma PutVoteKeepsValid<K, V>(q: Queue<K, V>, v: Vote<K, V>)
    requires Valid(q)
    ensures Valid(PutVote(q, v))
    ensures NonNegative(q) && 0 <= v.time ==> NonNegative(PutVote(q, v))
  {}

  lemma ClearVotesKeepsValid<K, V>(q: Queue<K, V>, key: K)
    requires Valid(q)
    ensures Valid(ClearVotes(q, key))
    ensures NonNegative(q) ==> NonNegative(ClearVotes(q, key))
  {}

  lemma ClearPendingKeepsValid<K, V>(q: Queue<K, V>, key: K)
    requires Valid(q)
    ensures Valid(ClearPending(q, key))
    ensures NonNegative(q) ==> NonNegative(ClearPending(q, key))
    ensures forall p :: p in ClearPending(q, key).pending ==> p.key != key
  {}

  lemma PutPendingKeepsValid<K, V>(q: Queue<K, V>, key: K, sec: Seconds, value: V)
    requires Valid(q) && forall p :: p in q.pending ==> p.key != key
    ensures Valid(PutPending(q, key, sec, value))
    ensures NonNegative(q) && 0 <= sec ==> NonNegative(PutPending(q, key, sec, value))
  {}

  lemma SettleKeepsValid<K, V>(
      q: Queue<K, V>, key: K, sec: Seconds, winner: Option<V>, admits: AdmissionRule<K, V>)
    requires Valid(q)
    ensures Valid(Settle(q, key, sec, winner, admits).0)
    ensures NonNegative(q) && 0 <= sec ==> NonNegative(Settle(q, key, sec, winner, admits).0)
  {
    hide Valid, NonNegative, ClearVotes, ClearPending, PutPending, PendingAs, PendingKeys;
    if winner.Some? {
      ClearVotesKeepsValid(q, key);
      var q1 := ClearVotes(q, key);
      ClearPendingKeepsValid(q1, key);
      PutPendingKeepsValid(ClearPending(q1, key), key, sec, winner.value);
    }
  }

  /** Every cast keeps the invariant, whoever wins and whatever the admission rule answers. */
  lemma CastKeepsValid<K, V>(q: Queue<K, V>, v: Vote<K, V>, winner: Option<V>, admits: AdmissionRule<K, V>)
    requires Valid(q)
    ensures Valid(CastVote(q, v, winner, admits).0)
    ensures NonNegative(q) && 0 <= v.time ==> NonNegative(CastVote(q, v, winner, admits).0)
  {
    PutVoteKeepsValid(q, v);
    SettleKeepsValid(PutVote(q, v), v.key, Second(v.time), winner, admits);
  }

  /** The lookup of the pending change for a key never meets several. */
  lemma AtMostOnePending<K, V>(q: Queue<K, V>, key: K)
    requires Valid(q)
    ensures |PendingFor(q, key)| <= 1
  {
    var s := PendingFor(q, key);
    if p :| p in s {
      assert s == {p};
    }
  }

  // ---------- Winners ----------

  /** Parties that currently vote for a value. */
  ghost function Backers<K, V>(q: Queue<K, V>, key: K, value: V): set<string> {
    set a | a in Supporters(q, key, value) :: a.party
  }

  lemma {:induction false} SameSize<K>(s: set<VoteKey<K>>, parties: set<string>)
    requires forall a, b :: a in s && b in s && a.party == b.party ==> a == b
    requires parties == set a | a in s :: a.party
    ensures |s| == |parties|
  {
    if a :| a in s {
      assert parties - {a.party} == set b | b in s - {a} :: b.party;
      SameSize(s - {a}, parties - {a.party});
    }
  }

  /** Counting votes is counting distinct parties. */
  lemma VotesCountParties<K, V>(q: Queue<K, V>, key: K, value: V)
    requires Valid(q)
    ensures |Supporters(q, key, value)| == |Backers(q, key, value)|
  {
    SameSize(Supporters(q, key, value), Backers(q, key, value));
  }

  /** No value waits in the queue with a quorum already reached. */
  ghost predicate BelowQuorum<K, V>(q: Queue<K, V>, quorum: nat) {
    forall a :: a in q.votes ==> |Supporters(q, a.key, q.votes[a])| < Larger(1, quorum)
  }

  function Larger(a: int, b: int): int {
    if a < b then b else a
  }

  /** A new vote adds support to no other value. */
  lemma OthersGainNothing<K, V>(q: Queue<K, V>, v: Vote<K, V>, key: K, value: V)
    requires key != v.key || value != v.value
    ensures Supporters(PutVote(q, v), key, value) <= Supporters(q, key, value)
  {}

  /** Some winner is always legal. */
  lemma SomeWinnerIsLegal<K, V>(q: Queue<K, V>, key: K, quorum: nat) returns (winner: Option<V>)
    ensures LegalWinner(q, key, quorum, winner)
  {
    if a :| a in VotesFor(q, key) && quorum <= |Supporters(q, key, q.votes[a])| {
      winner := Some(q.votes[a]);
      assert a in Supporters(q, key, q.votes[a]);
    } else {
      winner := None;
    }
  }

  /** When no value had reached the quorum before a cast, no value but the one cast reaches it. */
  lemma OthersStayBelow<K, V>(q: Queue<K, V>, v: Vote<K, V>, quorum: nat, value: V)
    requires BelowQuorum(q, quorum) && value != v.value
    ensures |Supporters(PutVote(q, v), v.key, value)| < Larger(1, quorum)
  {
    OthersGainNothing(q, v, v.key, value);
    SubsetSize(Supporters(PutVote(q, v), v.key, value), Supporters(q, v.key, value));
    if b :| b in Supporters(q, v.key, value) {
      assert |Supporters(q, b.key, q.votes[b])| < Larger(1, quorum);
    }
  }

  /**
    So only the value just cast can win, and the order in which the tally is iterated does not
    matter.
   */
  lemma OnlyTheCastValueWins<K, V>(q: Queue<K, V>, v: Vote<K, V>, quorum: nat, winner: Option<V>)
    requires BelowQuorum(q, quorum)
    requires LegalWinner(PutVote(q, v), v.key, quorum, winner)
    ensures winner == if quorum <= |Supporters(PutVote(q, v), v.key, v.value)| then Some(v.value) else None
  {
    assert VoteKey(v.key, v.party, Second(v.time)) in VotesFor(PutVote(q, v), v.key);
    if winner.Some? && winner.value != v.value {
      OthersStayBelow(q, v, quorum, winner.value);
    }
  }

  /** Casting restores the condition under which winners are unique, at any quorum not lower. */
  lemma CastStaysBelowQuorum<K, V>(
      q: Queue<K, V>, v: Vote<K, V>, quorum: nat, winner: Option<V>, admits: AdmissionRule<K, V>)
    requires BelowQuorum(q, quorum)
    requires LegalWinner(PutVote(q, v), v.key, quorum, winner)
    ensures BelowQuorum(CastVote(q, v, winner, admits).0, quorum)
  {
    var q1 := CastVote(q, v, winner, admits).0;
    forall a | a in q1.votes
      ensures |Supporters(q1, a.key, q1.votes[a])| < Larger(1, quorum)
    {
      if winner.Some? || a.key != v.key {
        OtherKeysKeepSupport(q, v, winner, admits, a);
      } else {
        assert a in VotesFor(PutVote(q, v), v.key) && q1 == PutVote(q, v);
      }
    }
  }

  lemma OtherKeysKeepSupport<K, V>(
      q: Queue<K, V>, v: Vote<K, V>, winner: Option<V>, admits: AdmissionRule<K, V>, a: VoteKey<K>)
    requires a in CastVote(q, v, winner, admits).0.votes && (winner.Some? || a.key != v.key)
    ensures
      var q1 := CastVote(q, v, winner, admits).0;
      a in q.votes && q1.votes[a] == q.votes[a]
      && |Supporters(q1, a.key, q1.votes[a])| <= |Supporters(q, a.key, q1.votes[a])|
  {
    CastFrame(q, v, winner, admits);
    hide CastVote;
    var q1 := CastVote(q, v, winner, admits).0;
    SubsetSize(Supporters(q1, a.key, q1.votes[a]), Supporters(q, a.key, q1.votes[a]));
  }

  lemma ExpireStaysBelowQuorum<K, V>(q: Queue<K, V>, now: Time, timeout: nat, quorum: nat)
    requires BelowQuorum(q, quorum)
    ensures BelowQuorum(Expire(q, now, timeout), quorum)
  {
    var q1 := Expire(q, now, timeout);
    forall a | a in q1.votes
      ensures |Supporters(q1, a.key, q1.votes[a])| < Larger(1, quorum)
    {
      SubsetSize(Supporters(q1, a.key, q1.votes[a]), Supporters(q, a.key, q.votes[a]));
    }
  }

  // ---------- Properties of all entries ----------

  /** Every vote and every pending change has the property. */
  ghost predicate Entries<K, V>(q: Queue<K, V>, p: (K, V) -> bool) {
    && (forall a :: a in q.votes ==> p(a.key, q.votes[a]))
    && (forall c :: c in q.pending ==> p(c.key, q.pending[c]))
  }

  lemma SettleKeepsEntries<K, V>(
      q: Queue<K, V>, key: K, sec: Seconds, winner: Option<V>, admits: AdmissionRule<K, V>, p: (K, V) -> bool)
    requires Entries(q, p) && (winner.Some? ==> p(key, winner.value))
    ensures Entries(Settle(q, key, sec, winner, admits).0, p)
  {}

  lemma PutVoteKeepsEntries<K, V>(q: Queue<K, V>, v: Vote<K, V>, p: (K, V) -> bool)
    requires Entries(q, p) && p(v.key, v.value)
    ensures Entries(PutVote(q, v), p)
  {}

  /** Casting a value with the property keeps it: the winner is one of the votes. */
  lemma CastKeepsEntries<K, V>(
      q: Queue<K, V>, v: Vote<K, V>, quorum: nat, winner: Option<V>, admits: AdmissionRule<K, V>, p: (K, V) -> bool)
    requires Entries(q, p) && p(v.key, v.value)
    requires LegalWinner(PutVote(q, v), v.key, quorum, winner)
    ensures Entries(CastVote(q, v, winner, admits).0, p)
    ensures winner.Some? ==> p(v.key, winner.value)
  {
    var q0 := PutVote(q, v);
    PutVoteKeepsEntries(q, v, p);
    if winner.Some? {
      var a :| a in Supporters(q0, v.key, winner.value);
      assert p(a.key, q0.votes[a]);
    }
    SettleKeepsEntries(q0, v.key, Second(v.time), winner, admits, p);
  }

  /** A cast reports an error only when its winner does. */
  lemma CastSucceeds<K, V>(
      q: Queue<K, V>, v: Vote<K, V>, quorum: nat, winner: Option<V>, admits: AdmissionRule<K, V>, p: (K, V) -> bool)
    requires Entries(q, p) && p(v.key, v.value)
    requires LegalWinner(PutVote(q, v), v.key, quorum, winner)
    requires forall s, k, w :: p(k, w) ==> admits(s, k, w) != Admission.Fail
    ensures CastVote(q, v, winner, admits).1
  {
    CastKeepsEntries(q, v, quorum, winner, admits, p);
  }

  // ---------- What a cast leaves alone ----------

  ghost predicate SameElsewhere<K, V>(q: Queue<K, V>, r: Queue<K, V>, key: K) {
    && (forall a :: a in q.votes && a.key != key ==> a in r.votes && r.votes[a] == q.votes[a])
    && (forall a :: a in r.votes && a.key != key ==> a in q.votes)
    && (forall p :: p in q.pending && p.key != key ==> p in r.pending && r.pending[p] == q.pending[p])
    && (forall p :: p in r.pending && p.key != key ==> p in q.pending)
  }

  lemma ClearFrame<K, V>(q: Queue<K, V>, key: K)
    ensures SameElsewhere(q, ClearVotes(q, key), key) && ClearVotes(q, key).pending == q.pending
    ensures SameElsewhere(q, ClearPending(q, key), key) && ClearPending(q, key).votes == q.votes
    ensures forall a :: a in ClearVotes(q, key).votes ==> a.key != key
  {}

  lemma PutPendingFrame<K, V>(q: Queue<K, V>, key: K, sec: Seconds, value: V)
    ensures SameElsewhere(q, PutPending(q, key, sec, value), key) && PutPending(q, key, sec, value).votes == q.votes
  {}

  lemma SameElsewhereChain<K, V>(q: Queue<K, V>, r: Queue<K, V>, s: Queue<K, V>, key: K)
    requires SameElsewhere(q, r, key) && SameElsewhere(r, s, key)
    ensures SameElsewhere(q, s, key)
  {}

  lemma SameElsewhereItself<K, V>(q: Queue<K, V>, key: K)
    ensures SameElsewhere(q, q, key)
  {}

  lemma SettleFrame<K, V>(q: Queue<K, V>, key: K, sec: Seconds, winner: Option<V>, admits: AdmissionRule<K, V>)
    ensures SameElsewhere(q, Settle(q, key, sec, winner, admits).0, key)
    ensures winner.Some? ==> forall a :: a in Settle(q, key, sec, winner, admits).0.votes ==> a.key != key
  {
    hide ClearVotes, ClearPending, PutPending, PendingKeys, PendingAs, SameElsewhere;
    SameElsewhereItself(q, key);
    if winner.Some? {
      var q1 := ClearVotes(q, key);
      var q2 := ClearPending(q1, key);
      var q3 := PutPending(q2, key, sec, winner.value);
      ClearFrame(q, key);
      ClearFrame(q1, key);
      PutPendingFrame(q2, key, sec, winner.value);
      SameElsewhereChain(q, q1, q2, key);
      SameElsewhereChain(q, q2, q3, key);
    }
  }

  lemma PutVoteFrame<K, V>(q: Queue<K, V>, v: Vote<K, V>)
    ensures SameElsewhere(q, PutVote(q, v), v.key)
  {}

  /** Entries of other keys are untouched; the votes for the key are those cast, or all cleared. */
  lemma CastFrame<K, V>(q: Queue<K, V>, v: Vote<K, V>, winner: Option<V>, admits: AdmissionRule<K, V>)
    ensures
      var q1 := CastVote(q, v, winner, admits).0;
      && (forall a :: a in q.votes && a.key != v.key ==> a in q1.votes && q1.votes[a] == q.votes[a])
      && (forall a :: a in q1.votes && a.key != v.key ==> a in q.votes)
      && (forall p :: p in q.pending && p.key != v.key ==> p in q1.pending && q1.pending[p] == q.pending[p])
      && (forall p :: p in q1.pending && p.key != v.key ==> p in q.pending)
      && (winner.None? ==> q1 == PutVote(q, v))
      && (winner.Some? ==> forall a :: a in q1.votes ==> a.key != v.key)
  {
    hide PutVote;
    PutVoteFrame(q, v);
    SettleFrame(PutVote(q, v), v.key, Second(v.time), winner, admits);
  }

  /**
    What becomes of the pending change for the key of a cast: without a winner it stays; a winner
    that is pending already keeps its entry; any other winner displaces it, and becomes pending at
    the second of the cast exactly when it is admitted next to the changes for other keys.
   */
  lemma CastPending<K, V>(q: Queue<K, V>, v: Vote<K, V>, winner: Option<V>, admits: AdmissionRule<K, V>)
    requires Valid(q)
    ensures
      var q1 := CastVote(q, v, winner, admits).0;
      && (winner.None? ==> q1.pending == q.pending)
      && (winner.Some? && PendingAs(q, v.key, winner.value) ==> q1.pending == q.pending)
      && (winner.Some? && !PendingAs(q, v.key, winner.value) ==>
          && (forall p :: p in q1.pending && p.key == v.key ==>
              p.sec == Second(v.time) && q1.pending[p] == winner.value)
          && (v.key in PendingKeys(q1) <==> admits(PendingKeys(q) - {v.key}, v.key, winner.value) == Admit))
  {
    if winner.Some? && !PendingAs(q, v.key, winner.value) {
      var q2 := ClearPending(ClearVotes(PutVote(q, v), v.key), v.key);
      assert PendingKeys(q2) == PendingKeys(q) - {v.key};
      assert CastVote(q, v, winner, admits).0 ==
        if admits(PendingKeys(q2), v.key, winner.value) == Admit
        then PutPending(q2, v.key, Second(v.time), winner.value) else q2;
      assert PendingKey(v.key, Second(v.time)) in PutPending(q2, v.key, Second(v.time), winner.value).pending;
    }
  }
}
