/**
  The vote queue: votes, the index of votes by time, pending changes and the index of pending
  changes by time. The two index stores hold the same keys as the primary stores, in another
  order of components, so both are modelled by the same key datatypes; the module Keys proves
  that the textual and binary keys implement these maps.
 */
module VoteQueues {
  import opened Basics
  import opened Times

  datatype VoteKey<K> = VoteKey(key: K, party: string, sec: Seconds)

  datatype PendingKey<K> = PendingKey(key: K, sec: Seconds)

  datatype Vote<K, V> = Vote(party: string, time: Time, key: K, value: V)

  datatype Queue<K(==), V> = Queue(
    votes: map<VoteKey<K>, V>,
    voteIndex: map<VoteKey<K>, V>,
    pending: map<PendingKey<K>, V>,
    pendingIndex: map<PendingKey<K>, V>)

  /** What the subdomain limit check answers for a change that is about to become pending. */
  datatype Admission = Admit | Drop | Fail

  type AdmissionRule<!K, !V> = (set<K>, K, V) -> Admission

  ghost function Empty<K, V>(): Queue<K, V> {
    Queue(map[], map[], map[], map[])
  }

  /** The representation invariant of the four stores. */
  ghost predicate Valid<K, V>(q: Queue<K, V>) {
    && (forall a, b :: a in q.votes && b in q.votes && a.key == b.key && a.party == b.party ==> a == b)
    && (forall a :: a in q.votes ==> a in q.voteIndex && q.voteIndex[a] == q.votes[a])
    && (forall a, b :: a in q.pending && b in q.pending && a.key == b.key ==> a == b)
    && q.pending == q.pendingIndex
  }

  /** No entry of either index is dated before 1970. */
  ghost predicate NonNegative<K, V>(q: Queue<K, V>) {
    && (forall a :: a in q.voteIndex ==> 0 <= a.sec)
    && (forall a :: a in q.pendingIndex ==> 0 <= a.sec)
  }

  // ---------- The early-stopping scan of a time index ----------

  /** The second as the unsigned number whose eight big-endian bytes the index stores. */
  function Unsigned(sec: Seconds): int {
    if sec < 0 then sec + 0x1_0000_0000_0000_0000 else sec
  }

  /**
    The entries that a scan in index order reaches before the first one that is not yet due.
    Negative seconds sort after all others.
   */
  ghost function Reached<A>(keys: set<A>, sec: A -> Seconds, now: Time, limit: nat): set<A> {
    set a | a in keys && Due(now, sec(a), limit)
            && (0 <= sec(a) || forall b :: b in keys && 0 <= sec(b) ==> Due(now, sec(b), limit))
  }

  /** The plain filter that the scan is meant to compute. */
  ghost function DueKeys<A>(keys: set<A>, sec: A -> Seconds, now: Time, limit: nat): set<A> {
    set a | a in keys && Due(now, sec(a), limit)
  }

  /**
    The scan is the filter exactly when it is not the case that an entry dated before 1970 is due
    while a later one is not; in particular whenever no entry is dated before 1970.
   */
  lemma ScanIsFilterIff<A>(keys: set<A>, sec: A -> Seconds, now: Time, limit: nat)
    ensures Reached(keys, sec, now, limit) == DueKeys(keys, sec, now, limit)
      <==> !((exists a :: a in keys && sec(a) < 0 && Due(now, sec(a), limit))
             && (exists b :: b in keys && 0 <= sec(b) && !Due(now, sec(b), limit)))
  {
    if a :| a in keys && sec(a) < 0 && Due(now, sec(a), limit) {
      if b :| b in keys && 0 <= sec(b) && !Due(now, sec(b), limit) {
        assert a in DueKeys(keys, sec, now, limit) && a !in Reached(keys, sec, now, limit);
      }
    }
  }

  /** Lists an index in ascending byte order; ties in the second are broken by the rest of the key. */
  method IndexScan<A(==)>(keys: set<A>, sec: A -> Seconds) returns (r: seq<A>)
    ensures Lists(r, keys)
    ensures forall i, j :: 0 <= i < j < |r| ==> Unsigned(sec(r[i])) <= Unsigned(sec(r[j]))
  {
    r := [];
    var rest := keys;
    while rest != {}
      invariant rest <= keys
      invariant Lists(r, keys - rest)
      invariant forall i, j :: 0 <= i < j < |r| ==> Unsigned(sec(r[i])) <= Unsigned(sec(r[j]))
      invariant forall i, a :: 0 <= i < |r| && a in rest ==> Unsigned(sec(r[i])) <= Unsigned(sec(a))
    {
      var first :| first in rest;
      var todo := rest;
      while todo != {}
        invariant todo <= rest && first in rest
        invariant forall a :: a in rest - todo ==> Unsigned(sec(first)) <= Unsigned(sec(a))
      {
        var a :| a in todo;
        todo := todo - {a};
        if Unsigned(sec(a)) < Unsigned(sec(first)) {
          first := a;
        }
      }
      ghost var before := r;
      r := r + [first];
      rest := rest - {first};
      assert forall a :: a in keys - rest ==> a in before || a == first;
    }
  }

  /** Scans an index in order and collects entries until the first one that is not yet due. */
  method TakeDue<A(==)>(keys: set<A>, sec: A -> Seconds, now: Time, limit: nat) returns (due: seq<A>)
    ensures Lists(due, Reached(keys, sec, now, limit))
  {
    var r := IndexScan(keys, sec);
    var i := 0;
    while i < |r| && Due(now, sec(r[i]), limit)
      invariant 0 <= i <= |r|
      invariant forall j :: 0 <= j < i ==> Due(now, sec(r[j]), limit)
    {
      i := i + 1;
    }
    due := r[..i];
    forall j | 0 <= j < i
      ensures r[j] in Reached(keys, sec, now, limit)
    {
      forall b | b in keys && 0 <= sec(b) && sec(r[j]) < 0
        ensures Due(now, sec(b), limit)
      {
        var k :| 0 <= k < |r| && r[k] == b;
      }
    }
    forall a | a in Reached(keys, sec, now, limit)
      ensures a in due
    {
      var j :| 0 <= j < |r| && r[j] == a;
      if i <= j {
        if 0 <= sec(a) || sec(r[i]) < 0 {
          OlderIsDue(now, sec(r[i]), sec(a), limit);
        }
      }
    }
  }

  // ---------- Expiry and promotion ----------

  /** The votes that one run of the timeout removes from both stores. */
  ghost function ExpiredVotes<K, V>(q: Queue<K, V>, now: Time, timeout: nat): set<VoteKey<K>> {
    Reached(q.voteIndex.Keys, (a: VoteKey<K>) => a.sec, now, timeout)
  }

  ghost function Expire<K, V>(q: Queue<K, V>, now: Time, timeout: nat): Queue<K, V> {
    var gone := ExpiredVotes(q, now, timeout);
    q.(votes := q.votes - gone, voteIndex := q.voteIndex - gone)
  }

  /** The pending changes that one run of the promotion takes out. */
  ghost function RipeChanges<K, V>(q: Queue<K, V>, now: Time, delay: nat): set<PendingKey<K>> {
    Reached(q.pendingIndex.Keys, (a: PendingKey<K>) => a.sec, now, delay)
  }

  ghost function Promote<K, V>(q: Queue<K, V>, now: Time, delay: nat): Queue<K, V> {
    var gone := RipeChanges(q, now, delay);
    q.(pending := q.pending - gone, pendingIndex := q.pendingIndex - gone)
  }

  // ---------- Casting ----------

  ghost function VotesOf<K, V>(q: Queue<K, V>, key: K, party: string): set<VoteKey<K>> {
    set a | a in q.votes && a.key == key && a.party == party
  }

  ghost function VotesFor<K, V>(q: Queue<K, V>, key: K): set<VoteKey<K>> {
    set a | a in q.votes && a.key == key
  }

  ghost function Supporters<K, V>(q: Queue<K, V>, key: K, value: V): set<VoteKey<K>> {
    set a | a in q.votes && a.key == key && q.votes[a] == value
  }

  ghost function PendingFor<K, V>(q: Queue<K, V>, key: K): set<PendingKey<K>> {
    set p | p in q.pending && p.key == key
  }

  /** Steps 0 to 2 of a cast: replace the party's vote for this key and index the new one. */
  ghost function PutVote<K, V>(q: Queue<K, V>, v: Vote<K, V>): Queue<K, V> {
    var a := VoteKey(v.key, v.party, Second(v.time));
    q.(votes := (q.votes - VotesOf(q, v.key, v.party))[a := v.value],
       voteIndex := q.voteIndex[a := v.value])
  }

  /**
    A winner that the tally may report. Its hash map is iterated in an arbitrary order, so any
    value that was voted for and has reached the quorum may be reported; none, if there is none.
   */
  ghost predicate LegalWinner<K, V>(q: Queue<K, V>, key: K, quorum: nat, winner: Option<V>) {
    match winner
    case Some(w) => Supporters(q, key, w) != {} && quorum <= |Supporters(q, key, w)|
    case None => forall a :: a in VotesFor(q, key) ==> |Supporters(q, key, q.votes[a])| < quorum
  }

  ghost function ClearVotes<K, V>(q: Queue<K, V>, key: K): Queue<K, V> {
    var gone := VotesFor(q, key);
    q.(votes := q.votes - gone, voteIndex := q.voteIndex - gone)
  }

  ghost function ClearPending<K, V>(q: Queue<K, V>, key: K): Queue<K, V> {
    var gone := PendingFor(q, key);
    q.(pending := q.pending - gone, pendingIndex := q.pendingIndex - gone)
  }

  ghost function PutPending<K, V>(q: Queue<K, V>, key: K, sec: Seconds, value: V): Queue<K, V> {
    var p := PendingKey(key, sec);
    q.(pending := q.pending[p := value], pendingIndex := q.pendingIndex[p := value])
  }

  ghost function PendingKeys<K, V>(q: Queue<K, V>): set<K> {
    set p | p in q.pending :: p.key
  }

  ghost predicate PendingAs<K, V>(q: Queue<K, V>, key: K, value: V) {
    exists p :: p in q.pending && p.key == key && q.pending[p] == value
  }

  /** What a cast does once its winner is known; the flag is false when the cast reports an error. */
  ghost function Settle<K, V>(
      q: Queue<K, V>, key: K, sec: Seconds, winner: Option<V>, admits: AdmissionRule<K, V>)
    : (Queue<K, V>, bool)
  {
    match winner
    case None => (q, true)
    case Some(w) =>
      var q1 := ClearVotes(q, key);
      if PendingAs(q1, key, w) then (q1, true)
      else
        var q2 := ClearPending(q1, key);
        match admits(PendingKeys(q2), key, w)
        case Admit => (PutPending(q2, key, sec, w), true)
        case Drop => (q2, true)
        case Fail => (q2, false)
  }

  ghost function CastVote<K, V>(
      q: Queue<K, V>, v: Vote<K, V>, winner: Option<V>, admits: AdmissionRule<K, V>)
    : (Queue<K, V>, bool)
  {
    Settle(PutVote(q, v), v.key, Second(v.time), winner, admits)
  }

  /** The view on the stores through which votes are cast, expired and promoted. */
  class VoteQueue<K(==), V(==)> {
    var votes: map<VoteKey<K>, V>
    var voteIndex: map<VoteKey<K>, V>
    var pending: map<PendingKey<K>, V>
    var pendingIndex: map<PendingKey<K>, V>

    ghost function Model(): Queue<K, V>
      reads this
    {
      Queue(votes, voteIndex, pending, pendingIndex)
    }

    constructor ()
      ensures Model() == Empty()
    {
      votes, voteIndex, pending, pendingIndex := map[], map[], map[], map[];
    }

    /** A queue over given contents; it shares nothing with any other. */
    constructor Over(q: Queue<K, V>)
      ensures Model() == q
    {
      votes, voteIndex, pending, pendingIndex := q.votes, q.voteIndex, q.pending, q.pendingIndex;
    }

    method Contents() returns (q: Queue<K, V>)
      ensures q == Model()
    {
      return Queue(votes, voteIndex, pending, pendingIndex);
    }

    /** Removes votes from the primary store only. */
    method DeleteVotes(gone: set<VoteKey<K>>)
      modifies `votes
      ensures votes == old(votes) - gone
    {
      var todo := gone;
      while todo != {}
        invariant todo <= gone
        invariant votes == old(votes) - (gone - todo)
      {
        var a :| a in todo;
        votes := votes - {a};
        todo := todo - {a};
      }
    }

    /** Removes votes from the primary store and their entries from the index. */
    method DeleteIndexedVotes(gone: set<VoteKey<K>>)
      modifies `votes, `voteIndex
      ensures votes == old(votes) - gone
      ensures voteIndex == old(voteIndex) - gone
    {
      var todo := gone;
      while todo != {}
        invariant todo <= gone
        invariant votes == old(votes) - (gone - todo)
        invariant voteIndex == old(voteIndex) - (gone - todo)
      {
        var a :| a in todo;
        votes := votes - {a};
        voteIndex := voteIndex - {a};
        todo := todo - {a};
      }
    }

    /** Removes pending changes from both pending stores. */
    method DeletePending(gone: set<PendingKey<K>>)
      modifies `pending, `pendingIndex
      ensures pending == old(pending) - gone
      ensures pendingIndex == old(pendingIndex) - gone
    {
      var todo := gone;
      while todo != {}
        invariant todo <= gone
        invariant pending == old(pending) - (gone - todo)
        invariant pendingIndex == old(pendingIndex) - (gone - todo)
      {
        var p :| p in todo;
        pending := pending - {p};
        pendingIndex := pendingIndex - {p};
        todo := todo - {p};
      }
    }

    method TimeoutExpiredVotes(now: Time, timeout: nat)
      modifies this
      ensures Model() == Expire(old(Model()), now, timeout)
    {
      var oldVotes := TakeDue(voteIndex.Keys, (a: VoteKey<K>) => a.sec, now, timeout);
      assert (set a | a in oldVotes) == ExpiredVotes(Model(), now, timeout);
      DeleteIndexedVotes(set a | a in oldVotes);
    }

    method PromotePendingChanges(now: Time, delay: nat)
      returns (promoted: seq<(K, V)>, ghost order: seq<PendingKey<K>>)
      modifies this
      ensures Model() == Promote(old(Model()), now, delay)
      ensures Lists(order, RipeChanges(old(Model()), now, delay))
      ensures |promoted| == |order|
      ensures forall i :: 0 <= i < |order| ==>
        order[i] in old(pendingIndex) && promoted[i] == (order[i].key, old(pendingIndex)[order[i]])
    {
      var due := TakeDue(pendingIndex.Keys, (a: PendingKey<K>) => a.sec, now, delay);
      order := due;
      promoted := [];
      for i := 0 to |due|
        invariant |promoted| == i
        invariant forall j :: 0 <= j < i ==>
          due[j] in pendingIndex && promoted[j] == (due[j].key, pendingIndex[due[j]])
      {
        promoted := promoted + [(due[i].key, pendingIndex[due[i]])];
      }
      assert (set p | p in due) == RipeChanges(Model(), now, delay);
      DeletePending(set p | p in due);
    }

    method Cast(v: Vote<K, V>, quorum: nat, admits: AdmissionRule<K, V>)
      returns (ok: bool, ghost winner: Option<V>)
      modifies this
      ensures LegalWinner(PutVote(old(Model()), v), v.key, quorum, winner)
      ensures (Model(), ok) == CastVote(old(Model()), v, winner, admits)
    {
      var key, sec := v.key, Second(v.time);

      // Remove any earlier vote by this party for this key, from the primary store only.
      DeleteVotes(set a | a in votes && a.key == key && a.party == v.party);
      votes := votes[VoteKey(key, v.party, sec) := v.value];
      voteIndex := voteIndex[VoteKey(key, v.party, sec) := v.value];
      ghost var q0 := Model();
      assert q0 == PutVote(old(Model()), v);

      var found := TallyWinner(key, quorum);
      winner := found;
      if found.Some? {
        ok := Enqueue(key, sec, found.value, admits);
      } else {
        ok := true;
      }
    }

    /** Moves a winning value to the pending stores. */
    method Enqueue(key: K, sec: Seconds, w: V, admits: AdmissionRule<K, V>) returns (ok: bool)
      modifies this
      ensures (Model(), ok) == Settle(old(Model()), key, sec, Some(w), admits)
    {
      DeleteIndexedVotes(set a | a in votes && a.key == key);
      ghost var q1 := Model();
      assert q1 == ClearVotes(old(Model()), key);

      // The same value is already pending: keep its timer.
      var changes := set p | p in pending && p.key == key;
      if exists p :: p in changes && pending[p] == w {
        return true;
      }

      // Overwrite a different pending value.
      DeletePending(changes);
      assert Model() == ClearPending(q1, key);

      match admits(set p | p in pending :: p.key, key, w) {
        case Drop => return true;
        case Fail => return false;
        case Admit =>
          pending := pending[PendingKey(key, sec) := w];
          pendingIndex := pendingIndex[PendingKey(key, sec) := w];
          return true;
      }
    }

    /** Tallies the votes for a key and looks for a value that has reached the quorum. */
    method TallyWinner(key: K, quorum: nat) returns (winner: Option<V>)
      ensures LegalWinner(Model(), key, quorum, winner)
    {
      var tally := TallyVotes(key);
      var values := tally.Keys;
      while values != {}
        invariant values <= tally.Keys
        invariant forall value :: value in tally.Keys - values ==> tally[value] < quorum
      {
        var value :| value in values;
        values := values - {value};
        if tally[value] >= quorum {
          return Some(value);
        }
      }
      return None;
    }

    method TallyVotes(key: K) returns (tally: map<V, nat>)
      ensures forall a :: a in VotesFor(Model(), key) ==> votes[a] in tally
      ensures forall value :: value in tally ==>
        1 <= tally[value] && tally[value] == |Supporters(Model(), key, value)|
    {
      tally := map[];
      var todo := set a | a in votes && a.key == key;
      ghost var mine := todo;
      while todo != {}
        invariant todo <= mine
        invariant forall a :: a in mine - todo ==> votes[a] in tally
        invariant forall value :: value in tally ==>
          1 <= tally[value] && tally[value] == |Among(mine - todo, value)|
        invariant forall value :: value !in tally ==> Among(mine - todo, value) == {}
      {
        var a :| a in todo;
        var value := votes[a];
        AmongGrows(mine - todo, a);
        assert mine - (todo - {a}) == (mine - todo) + {a};
        todo := todo - {a};
        tally := tally[value := if value in tally then tally[value] + 1 else 1];
      }
      forall value | value in tally
        ensures Among(mine - todo, value) == Supporters(Model(), key, value)
      {}
    }

    ghost function Among(done: set<VoteKey<K>>, value: V): set<VoteKey<K>>
      requires done <= votes.Keys
      reads this
    {
      set a | a in done && votes[a] == value
    }

    /** Adding one vote adds one to the count of its value and leaves the other counts. */
    lemma AmongGrows(done: set<VoteKey<K>>, a: VoteKey<K>)
      requires done <= votes.Keys && a in votes && a !in done
      ensures |Among(done + {a}, votes[a])| == |Among(done, votes[a])| + 1
      ensures forall other :: other != votes[a] ==> Among(done + {a}, other) == Among(done, other)
    {
      assert Among(done + {a}, votes[a]) == Among(done, votes[a]) + {a};
    }

    /** The pending change for a key; an error if there were several. */
    method PendingForKey(key: K) returns (r: Result<Option<V>, ()>)
      ensures r.Err? <==> 1 < |PendingFor(Model(), key)|
      ensures r.Ok? ==> (r.value.None? <==> PendingFor(Model(), key) == {})
      ensures r.Ok? ==> forall p :: p in pending && p.key == key ==> r.value == Some(pending[p])
    {
      var found := set p | p in pending && p.key == key;
      assert found == PendingFor(Model(), key);
      assert forall p :: p in pending && p.key == key ==> p in found;
      if |found| > 1 {
        return Err(());
      } else if found == {} {
        return Ok(None);
      } else {
        var p :| p in found;
        SingletonOf(found, p);
        return Ok(Some(pending[p]));
      }
    }
  }
}
