/**
  Runs of one vote queue: where its votes and pending changes come from, how long they stay, and
  when the tally has a single possible outcome.
 */
module QueueRuns {
  import opened Basics
  import opened QueueLaws
  import opened Times
  import opened VoteQueues

  datatype Event<!K(==), !V> =
    | CastEvent(vote: Vote<K, V>, quorum: nat, winner: Option<V>, admits: AdmissionRule<K, V>)
    | ExpireEvent(now: Time, timeout: nat)
    | PromoteEvent(now: Time, delay: nat)
    | Quiet

  ghost function After<K, V>(q: Queue<K, V>, e: Event<K, V>): Queue<K, V> {
    match e
    case CastEvent(v, _, w, admits) => CastVote(q, v, w, admits).0
    case ExpireEvent(now, timeout) => Expire(q, now, timeout)
    case PromoteEvent(now, delay) => Promote(q, now, delay)
    case Quiet => q
  }

  /** The event can happen: its winner is one the tally may report, and its time is not before 1970. */
  ghost predicate Possible<K, V>(q: Queue<K, V>, e: Event<K, V>) {
    match e
    case CastEvent(v, quorum, w, _) => 0 <= v.time && LegalWinner(PutVote(q, v), v.key, quorum, w)
    case _ => true
  }

  ghost predicate IsQueueRun<K, V>(qs: seq<Queue<K, V>>, es: seq<Event<K, V>>) {
    && |qs| == |es| + 1
    && qs[0] == Empty<K, V>()
    && forall i :: 0 <= i < |es| ==> Possible(qs[i], es[i]) && qs[i + 1] == After(qs[i], es[i])
  }

  lemma {:induction false} RunIsValid<K, V>(qs: seq<Queue<K, V>>, es: seq<Event<K, V>>, n: nat)
    requires IsQueueRun(qs, es) && n < |qs|
    ensures Valid(qs[n]) && NonNegative(qs[n])
  {
    if n != 0 {
      RunIsValid(qs, es, n - 1);
      match es[n - 1] {
        case CastEvent(v, quorum, w, admits) => CastKeepsValid(qs[n - 1], v, w, admits);
        case ExpireEvent(now, timeout) => ExpireKeepsValid(qs[n - 1], now, timeout);
        case PromoteEvent(now, delay) => PromoteKeepsValid(qs[n - 1], now, delay);
        case Quiet =>
      }
    }
  }

  /** What is known of one event of a run. */
  lemma EventAt<K, V>(qs: seq<Queue<K, V>>, es: seq<Event<K, V>>, i: nat)
    requires IsQueueRun(qs, es) && i < |es|
    ensures |qs| == |es| + 1
    ensures Valid(qs[i]) && NonNegative(qs[i])
    ensures Possible(qs[i], es[i]) && qs[i + 1] == After(qs[i], es[i])
  {
    RunIsValid(qs, es, i);
  }

  lemma StartsEmpty<K, V>(qs: seq<Queue<K, V>>, es: seq<Event<K, V>>)
    requires IsQueueRun(qs, es)
    ensures |qs| == |es| + 1 && qs[0] == Empty<K, V>()
  {}

  // ---------- Where votes come from ----------

  /** The party cast this vote at this point. */
  ghost predicate CastAt<K, V>(es: seq<Event<K, V>>, m: nat, a: VoteKey<K>, value: V) {
    && m < |es| && es[m].CastEvent?
    && es[m].vote.key == a.key && es[m].vote.party == a.party
    && Second(es[m].vote.time) == a.sec && es[m].vote.value == value
  }

  /** Since then the party did not vote again for the key, no winner used up its votes, no timeout caught the vote. */
  ghost predicate Standing<K, V>(es: seq<Event<K, V>>, m: nat, n: nat, a: VoteKey<K>)
    requires n <= |es|
  {
    forall l :: m < l < n ==> Spares(es[l], a)
  }

  ghost predicate Spares<K, V>(e: Event<K, V>, a: VoteKey<K>) {
    match e
    case CastEvent(v, _, w, _) => v.key != a.key || (v.party != a.party && w.None?)
    case ExpireEvent(now, timeout) => !Due(now, a.sec, timeout)
    case _ => true
  }

  lemma StandingGrows<K, V>(es: seq<Event<K, V>>, m: nat, n: nat, a: VoteKey<K>)
    requires n < |es|
    ensures Standing(es, m, n, a) && Spares(es[n], a) ==> Standing(es, m, n + 1, a)
  {}

  lemma NothingSince<K, V>(es: seq<Event<K, V>>, m: nat, a: VoteKey<K>)
    requires m < |es|
    ensures Standing(es, m, m + 1, a)
  {}

  /**
    Each vote in the queue is the latest one of its party for its key, has not timed out, and was not
    used up by a winner.
   */
  lemma {:induction false} VotesAreStanding<K, V>(qs: seq<Queue<K, V>>, es: seq<Event<K, V>>, n: nat, a: VoteKey<K>)
    returns (m: nat)
    requires IsQueueRun(qs, es) && n < |qs| && a in qs[n].votes
    ensures m < n && CastAt(es, m, a, qs[n].votes[a]) && es[m].winner.None? && Standing(es, m, n, a)
  {
    hide IsQueueRun, After, Valid, NonNegative, Possible, Standing, Spares, CastAt;
    StartsEmpty(qs, es);
    if n != 0 {
      var e := es[n - 1];
      EventAt(qs, es, n - 1);
      if e.CastEvent? && a == VoteKey(e.vote.key, e.vote.party, Second(e.vote.time)) {
        NewVoteIsCast(qs[n - 1], e, a);
        m := n - 1;
        NothingSince(es, m, a);
      } else {
        VoteWasThere(qs[n - 1], e, a);
        m := VotesAreStanding(qs, es, n - 1, a);
        StandingGrows(es, m, n - 1, a);
      }
    }
  }

  lemma NewVoteIsCast<K, V>(q: Queue<K, V>, e: Event<K, V>, a: VoteKey<K>)
    requires e.CastEvent? && a == VoteKey(e.vote.key, e.vote.party, Second(e.vote.time))
    requires a in After(q, e).votes
    ensures After(q, e).votes[a] == e.vote.value && e.winner.None?
    ensures forall es: seq<Event<K, V>>, m: nat :: m < |es| && es[m] == e ==> CastAt(es, m, a, e.vote.value)
  {
    CastFrame(q, e.vote, e.winner, e.admits);
  }

  /** A vote that the last event did not cast was there before, and the event spared it. */
  lemma VoteWasThere<K, V>(q: Queue<K, V>, e: Event<K, V>, a: VoteKey<K>)
    requires Valid(q) && NonNegative(q) && a in After(q, e).votes
    requires e.CastEvent? ==> a != VoteKey(e.vote.key, e.vote.party, Second(e.vote.time))
    ensures a in q.votes && q.votes[a] == After(q, e).votes[a] && Spares(e, a)
  {
    match e {
      case CastEvent(v, _, w, admits) => CastFrame(q, v, w, admits);
      case ExpireEvent(now, timeout) => ExpireIsFilter(q, now, timeout);
      case _ =>
    }
  }

  /** A vote that the event spares stays in the queue. */
  lemma VoteStays<K, V>(q: Queue<K, V>, e: Event<K, V>, a: VoteKey<K>)
    requires Valid(q) && NonNegative(q) && a in q.votes && Spares(e, a)
    ensures a in After(q, e).votes && After(q, e).votes[a] == q.votes[a]
  {
    match e {
      case CastEvent(v, _, w, admits) => CastFrame(q, v, w, admits);
      case ExpireEvent(now, timeout) => ExpireIsFilter(q, now, timeout);
      case _ =>
    }
  }

  lemma UndecidedVoteIsQueued<K, V>(q: Queue<K, V>, e: Event<K, V>)
    requires e.CastEvent? && e.winner.None?
    ensures var a := VoteKey(e.vote.key, e.vote.party, Second(e.vote.time));
            a in After(q, e).votes && After(q, e).votes[a] == e.vote.value
  {}

  /** No vote is lost: one that was cast without deciding is queued as long as it stands. */
  lemma {:induction false} StandingVotesAreQueued<K, V>(
      qs: seq<Queue<K, V>>, es: seq<Event<K, V>>, m: nat, n: nat, a: VoteKey<K>, value: V)
    requires IsQueueRun(qs, es) && m < n < |qs|
    requires CastAt(es, m, a, value) && es[m].winner.None? && Standing(es, m, n, a)
    ensures a in qs[n].votes && qs[n].votes[a] == value
  {
    hide IsQueueRun, After, Valid, NonNegative, Possible, Spares;
    StartsEmpty(qs, es);
    EventAt(qs, es, n - 1);
    if m == n - 1 {
      UndecidedVoteIsQueued(qs[m], es[m]);
    } else {
      StandingVotesAreQueued(qs, es, m, n - 1, a, value);
      assert Spares(es[n - 1], a);
      VoteStays(qs[n - 1], es[n - 1], a);
    }
  }

  ghost predicate CastAndStanding<K, V>(es: seq<Event<K, V>>, m: nat, n: nat, a: VoteKey<K>, value: V)
    requires n <= |es|
  {
    m < n && CastAt(es, m, a, value) && es[m].winner.None? && Standing(es, m, n, a)
  }

  /** The queue holds exactly the votes that were cast without deciding and have been standing since. */
  lemma QueuedIffStanding<K, V>(qs: seq<Queue<K, V>>, es: seq<Event<K, V>>, n: nat, a: VoteKey<K>, value: V)
    requires IsQueueRun(qs, es) && n < |qs|
    ensures n <= |es|
    ensures a in qs[n].votes && qs[n].votes[a] == value <==> exists m: nat :: CastAndStanding(es, m, n, a, value)
  {
    hide IsQueueRun, Standing;
    StartsEmpty(qs, es);
    if a in qs[n].votes && qs[n].votes[a] == value {
      var m := VotesAreStanding(qs, es, n, a);
      assert CastAndStanding(es, m, n, a, value);
    }
    if m: nat :| CastAndStanding(es, m, n, a, value) {
      StandingVotesAreQueued(qs, es, m, n, a, value);
    }
  }

  // ---------- The index of votes ----------

  /** The event neither puts a vote at this place nor times out the entry. */
  ghost predicate KeepsEntry<K, V>(e: Event<K, V>, a: VoteKey<K>) {
    match e
    case CastEvent(v, _, _, _) => VoteKey(v.key, v.party, Second(v.time)) != a
    case ExpireEvent(now, timeout) => !Due(now, a.sec, timeout)
    case _ => true
  }

  /** A vote is taken out of the index by a winner only if it is in the primary store. */
  lemma SettledIndex<K, V>(
      q: Queue<K, V>, key: K, sec: Seconds, winner: Option<V>, admits: AdmissionRule<K, V>, a: VoteKey<K>)
    requires a !in q.votes && a in q.voteIndex
    ensures
      var r := Settle(q, key, sec, winner, admits).0;
      a !in r.votes && a in r.voteIndex && r.voteIndex[a] == q.voteIndex[a]
  {
    hide PendingAs, PendingKeys;
  }

  lemma PutVoteIndex<K, V>(q: Queue<K, V>, v: Vote<K, V>, a: VoteKey<K>)
    requires a in q.voteIndex && a != VoteKey(v.key, v.party, Second(v.time))
    ensures a in PutVote(q, v).voteIndex && PutVote(q, v).voteIndex[a] == q.voteIndex[a]
    ensures a !in q.votes || (a.key == v.key && a.party == v.party) ==> a !in PutVote(q, v).votes
  {}

  lemma ReplacedVoteStaysIndexed<K, V>(
      q: Queue<K, V>, v: Vote<K, V>, w: Option<V>, admits: AdmissionRule<K, V>, a: VoteKey<K>)
    requires Valid(q) && a in q.votes && a.key == v.key && a.party == v.party && a.sec != Second(v.time)
    ensures
      var r := CastVote(q, v, w, admits).0;
      a !in r.votes && a in r.voteIndex && r.voteIndex[a] == q.votes[a]
  {
    hide Settle, PutVote;
    PutVoteIndex(q, v, a);
    SettledIndex(PutVote(q, v), v.key, Second(v.time), w, admits, a);
  }

  lemma EntryStays<K, V>(q: Queue<K, V>, e: Event<K, V>, a: VoteKey<K>)
    requires Valid(q) && NonNegative(q) && KeepsEntry(e, a)
    requires a !in q.votes && a in q.voteIndex
    ensures a !in After(q, e).votes && a in After(q, e).voteIndex && After(q, e).voteIndex[a] == q.voteIndex[a]
  {
    hide Settle, PutVote, Expire;
    match e {
      case CastEvent(v, _, w, admits) =>
        PutVoteIndex(q, v, a);
        SettledIndex(PutVote(q, v), v.key, Second(v.time), w, admits, a);
      case ExpireEvent(now, timeout) => ExpireIsFilter(q, now, timeout);
      case _ =>
    }
  }

  /**
    Voting again takes the old vote out of the primary store only: its index entry stays, whatever else
    is cast and decided, until it times out or the party votes in the same second again.
   */
  lemma {:induction false} ReplacedVotesStayIndexed<K, V>(
      qs: seq<Queue<K, V>>, es: seq<Event<K, V>>, m: nat, n: nat, a: VoteKey<K>)
    requires IsQueueRun(qs, es) && m < n < |qs| && a in qs[m].votes
    requires CastBy(es[m], a.key, a.party) && Second(es[m].vote.time) != a.sec
    requires forall l :: m < l < n ==> KeepsEntry(es[l], a)
    ensures a !in qs[n].votes && a in qs[n].voteIndex && qs[n].voteIndex[a] == qs[m].votes[a]
  {
    hide IsQueueRun, CastVote, Valid, NonNegative, Possible, KeepsEntry;
    StartsEmpty(qs, es);
    EventAt(qs, es, n - 1);
    if m == n - 1 {
      ReplacedVoteStaysIndexed(qs[m], es[m].vote, es[m].winner, es[m].admits, a);
    } else {
      ReplacedVotesStayIndexed(qs, es, m, n - 1, a);
      EntryStays(qs[n - 1], es[n - 1], a);
    }
  }

  // ---------- Where pending changes come from ----------

  /** At this cast the value had the standing votes of a quorum of distinct parties. */
  ghost predicate Decided<K, V>(qs: seq<Queue<K, V>>, es: seq<Event<K, V>>, i: nat, key: K, w: V) {
    && i < |es| && |qs| == |es| + 1
    && es[i].CastEvent? && es[i].vote.key == key && es[i].winner == Some(w)
    && var parties := Backers(PutVote(qs[i], es[i].vote), key, w);
       && es[i].quorum <= |parties| && parties != {}
       && forall party :: party in parties ==> Backed(es, i, key, party, w)
  }

  /** The party's vote that stands at this cast, which may be the cast itself, is for the value. */
  ghost predicate Backed<K, V>(es: seq<Event<K, V>>, i: nat, key: K, party: string, w: V)
    requires i < |es|
  {
    exists m: nat :: BackedSince(es, m, i, key, party, w)
  }

  ghost predicate CastBy<K, V>(e: Event<K, V>, key: K, party: string) {
    e.CastEvent? && e.vote.key == key && e.vote.party == party
  }

  ghost predicate BackedSince<K, V>(es: seq<Event<K, V>>, m: nat, i: nat, key: K, party: string, w: V)
    requires i < |es|
  {
    && m <= i && es[m].CastEvent?
    && var a := VoteKey(key, party, Second(es[m].vote.time));
       && CastAt(es, m, a, w) && Standing(es, m, i, a)
       && (m < i ==> es[m].winner.None? && !CastBy(es[i], key, party))
  }

  /** The parties that back a value at a cast are those whose votes for it stand, the new vote included. */
  lemma BackersAreBacked<K, V>(qs: seq<Queue<K, V>>, es: seq<Event<K, V>>, i: nat, party: string, w: V)
    requires IsQueueRun(qs, es) && i < |es| && es[i].CastEvent?
    ensures party in Backers(PutVote(qs[i], es[i].vote), es[i].vote.key, w) <==> Backed(es, i, es[i].vote.key, party, w)
  {
    hide IsQueueRun;
    StartsEmpty(qs, es);
    if party in Backers(PutVote(qs[i], es[i].vote), es[i].vote.key, w) {
      BackerIsBacked(qs, es, i, party, w);
    }
    if m: nat :| BackedSince(es, m, i, es[i].vote.key, party, w) {
      BackedIsBacker(qs, es, m, i, party, w);
    }
  }

  lemma BackerIsBacked<K, V>(qs: seq<Queue<K, V>>, es: seq<Event<K, V>>, i: nat, party: string, w: V)
    requires IsQueueRun(qs, es) && i < |es| && es[i].CastEvent?
    requires party in Backers(PutVote(qs[i], es[i].vote), es[i].vote.key, w)
    ensures Backed(es, i, es[i].vote.key, party, w)
  {
    hide IsQueueRun;
    StartsEmpty(qs, es);
    var v := es[i].vote;
    var a :| a in Supporters(PutVote(qs[i], v), v.key, w) && a.party == party;
    if a == VoteKey(v.key, v.party, Second(v.time)) {
      assert BackedSince(es, i, i, v.key, party, w);
    } else {
      var m := VotesAreStanding(qs, es, i, a);
      assert BackedSince(es, m, i, v.key, party, w);
    }
  }

  lemma BackedIsBacker<K, V>(qs: seq<Queue<K, V>>, es: seq<Event<K, V>>, m: nat, i: nat, party: string, w: V)
    requires IsQueueRun(qs, es) && i < |es| && es[i].CastEvent?
    requires BackedSince(es, m, i, es[i].vote.key, party, w)
    ensures party in Backers(PutVote(qs[i], es[i].vote), es[i].vote.key, w)
  {
    hide IsQueueRun, Standing;
    StartsEmpty(qs, es);
    var v := es[i].vote;
    var a := VoteKey(v.key, party, Second(es[m].vote.time));
    if m < i {
      StandingVotesAreQueued(qs, es, m, i, a, w);
    }
    assert a in Supporters(PutVote(qs[i], v), v.key, w);
  }

  lemma WinnersAreDecided<K, V>(qs: seq<Queue<K, V>>, es: seq<Event<K, V>>, i: nat)
    requires IsQueueRun(qs, es) && i < |es| && es[i].CastEvent? && es[i].winner.Some?
    ensures Decided(qs, es, i, es[i].vote.key, es[i].winner.value)
  {
    var v, w := es[i].vote, es[i].winner.value;
    var q0 := PutVote(qs[i], v);
    EventAt(qs, es, i);
    PutVoteKeepsValid(qs[i], v);
    VotesCountParties(q0, v.key, w);
    forall party | party in Backers(q0, v.key, w)
      ensures Backed(es, i, v.key, party, w)
    {
      BackersAreBacked(qs, es, i, party, w);
    }
    var b :| b in Supporters(q0, v.key, w);
    assert b.party in Backers(q0, v.key, w);
  }

  /** At this cast the parties are backers of the value and make up a quorum, which is at least one. */
  ghost predicate QuorumBacks<K, V>(es: seq<Event<K, V>>, i: nat, w: V, parties: set<string>)
    requires i < |es| && es[i].CastEvent?
  {
    && Larger(1, es[i].quorum) <= |parties|
    && forall party :: party in parties ==> Backed(es, i, es[i].vote.key, party, w)
  }

  /** A quorum decides: the cast has a winner, and the value with the quorum is one it may have. */
  lemma QuorumDecides<K, V>(qs: seq<Queue<K, V>>, es: seq<Event<K, V>>, i: nat, w: V, parties: set<string>)
    requires IsQueueRun(qs, es) && i < |es| && es[i].CastEvent? && QuorumBacks(es, i, w, parties)
    ensures es[i].winner.Some?
    ensures LegalWinner(PutVote(qs[i], es[i].vote), es[i].vote.key, es[i].quorum, Some(w))
  {
    hide IsQueueRun, Backed, PutVote;
    StartsEmpty(qs, es);
    var v := es[i].vote;
    var q0 := PutVote(qs[i], v);
    EventAt(qs, es, i);
    PutVoteKeepsValid(qs[i], v);
    forall party | party in parties
      ensures party in Backers(q0, v.key, w)
    {
      BackersAreBacked(qs, es, i, party, w);
    }
    SubsetSize(parties, Backers(q0, v.key, w));
    VotesCountParties(q0, v.key, w);
    var a :| a in Supporters(q0, v.key, w);
    assert a in VotesFor(q0, v.key) && q0.votes[a] == w;
  }

  /** So a cast has a winner if and only if some value has the standing votes of a quorum of parties. */
  lemma DecidesIffQuorum<K, V(!new)>(qs: seq<Queue<K, V>>, es: seq<Event<K, V>>, i: nat)
    requires IsQueueRun(qs, es) && i < |es| && es[i].CastEvent?
    ensures es[i].winner.Some? <==> exists w, parties :: QuorumBacks(es, i, w, parties)
  {
    hide IsQueueRun, Backed;
    StartsEmpty(qs, es);
    if es[i].winner.Some? {
      WinnersAreDecided(qs, es, i);
      var w := es[i].winner.value;
      assert QuorumBacks(es, i, w, Backers(PutVote(qs[i], es[i].vote), es[i].vote.key, w));
    }
    if w, parties :| QuorumBacks(es, i, w, parties) {
      QuorumDecides(qs, es, i, w, parties);
    }
  }

  /** The entry has been pending, with the same value, in every state after the cast up to here. */
  ghost predicate PendingThroughout<K, V>(qs: seq<Queue<K, V>>, i: nat, n: nat, p: PendingKey<K>, w: V)
    requires n < |qs|
  {
    forall l :: i < l <= n ==> p in qs[l].pending && qs[l].pending[p] == w
  }

  /** Each pending change was decided by a quorum at its timestamp and has stayed since. */
  lemma {:induction false} PendingWasDecided<K, V>(
      qs: seq<Queue<K, V>>, es: seq<Event<K, V>>, n: nat, p: PendingKey<K>)
    returns (i: nat)
    requires IsQueueRun(qs, es) && n < |qs| && p in qs[n].pending
    ensures i < n && Decided(qs, es, i, p.key, qs[n].pending[p])
    ensures es[i].CastEvent? && Second(es[i].vote.time) == p.sec
    ensures PendingThroughout(qs, i, n, p, qs[n].pending[p])
  {
    hide IsQueueRun, After, Valid, NonNegative, Possible, Decided;
    StartsEmpty(qs, es);
    if n != 0 {
      var e := es[n - 1];
      EventAt(qs, es, n - 1);
      if p in qs[n - 1].pending && qs[n - 1].pending[p] == qs[n].pending[p] {
        i := PendingWasDecided(qs, es, n - 1, p);
      } else {
        i := n - 1;
        PendingIsNew(qs[n - 1], e, p);
        WinnersAreDecided(qs, es, i);
      }
    }
  }

  /** A pending entry appears only when its value wins a cast for its key at its time. */
  lemma PendingIsNew<K, V>(q: Queue<K, V>, e: Event<K, V>, p: PendingKey<K>)
    requires Valid(q) && p in After(q, e).pending
    requires p !in q.pending || q.pending[p] != After(q, e).pending[p]
    ensures e.CastEvent? && e.vote.key == p.key && Second(e.vote.time) == p.sec
    ensures e.winner == Some(After(q, e).pending[p])
  {
    if e.CastEvent? {
      CastFrame(q, e.vote, e.winner, e.admits);
      CastPending(q, e.vote, e.winner, e.admits);
    }
  }

  // ---------- How long pending changes stay ----------

  /** The event is not a win of another value for the key, nor a promotion that finds it ripe. */
  ghost predicate LeavesPending<K, V>(e: Event<K, V>, p: PendingKey<K>, w: V) {
    match e
    case CastEvent(v, _, winner, _) => v.key != p.key || winner.None? || winner == Some(w)
    case PromoteEvent(now, delay) => !Due(now, p.sec, delay)
    case _ => true
  }

  lemma EventLeavesPending<K, V>(q: Queue<K, V>, e: Event<K, V>, p: PendingKey<K>)
    requires Valid(q) && NonNegative(q) && p in q.pending && LeavesPending(e, p, q.pending[p])
    ensures p in After(q, e).pending && After(q, e).pending[p] == q.pending[p]
  {
    match e {
      case CastEvent(v, _, w, admits) =>
        CastFrame(q, v, w, admits);
        CastPending(q, v, w, admits);
      case PromoteEvent(now, delay) => PromotePartitions(q, now, delay);
      case _ =>
    }
  }

  /**
    Further wins of the same value do not reset the timer: the entry keeps its timestamp until
    another value wins or a promotion finds it ripe.
   */
  lemma {:induction false} PendingStays<K, V>(
      qs: seq<Queue<K, V>>, es: seq<Event<K, V>>, i: nat, n: nat, p: PendingKey<K>, w: V)
    requires IsQueueRun(qs, es) && i <= n < |qs|
    requires p in qs[i].pending && qs[i].pending[p] == w
    requires forall l :: i <= l < n ==> LeavesPending(es[l], p, w)
    ensures p in qs[n].pending && qs[n].pending[p] == w
  {
    hide Valid, NonNegative, After, Possible, LeavesPending;
    if i < n {
      PendingStays(qs, es, i, n - 1, p, w);
      EventAt(qs, es, n - 1);
      EventLeavesPending(qs[n - 1], es[n - 1], p);
    }
  }

  // ---------- When the tally has one outcome ----------

  /** The quorum of every cast so far is at most this. */
  ghost predicate QuorumsUpTo<K, V>(es: seq<Event<K, V>>, n: nat, quorum: nat)
    requires n <= |es|
  {
    forall l :: 0 <= l < n && es[l].CastEvent? ==> es[l].quorum <= quorum
  }

  lemma BelowHigherQuorum<K, V>(q: Queue<K, V>, low: nat, high: nat)
    requires low <= high && BelowQuorum(q, low)
    ensures BelowQuorum(q, high)
  {}

  /** Between casts no value waits with the quorum reached, as long as the quorum was not lowered. */
  lemma {:induction false} NobodyWaitsAtQuorum<K, V>(qs: seq<Queue<K, V>>, es: seq<Event<K, V>>, n: nat, quorum: nat)
    requires IsQueueRun(qs, es) && n < |qs|
    requires forall i, j :: 0 <= i < j < n && es[i].CastEvent? && es[j].CastEvent? ==> es[i].quorum <= es[j].quorum
    requires QuorumsUpTo(es, n, quorum)
    ensures BelowQuorum(qs[n], quorum)
  {
    if n != 0 {
      var q, e := qs[n - 1], es[n - 1];
      assert qs[n] == After(q, e) && Possible(q, e);
      match e {
        case CastEvent(v, own, w, admits) =>
          NobodyWaitsAtQuorum(qs, es, n - 1, own);
          CastStaysBelowQuorum(q, v, own, w, admits);
          BelowHigherQuorum(qs[n], own, quorum);
        case ExpireEvent(now, timeout) =>
          NobodyWaitsAtQuorum(qs, es, n - 1, quorum);
          ExpireStaysBelowQuorum(q, now, timeout, quorum);
        case PromoteEvent(_, _) =>
          NobodyWaitsAtQuorum(qs, es, n - 1, quorum);
          SameVotesBelowQuorum(q, qs[n], quorum);
        case Quiet =>
          NobodyWaitsAtQuorum(qs, es, n - 1, quorum);
      }
    }
  }

  lemma SameVotesBelowQuorum<K, V>(q: Queue<K, V>, r: Queue<K, V>, quorum: nat)
    requires BelowQuorum(q, quorum) && q.votes == r.votes
    ensures BelowQuorum(r, quorum)
  {
    forall a | a in r.votes
      ensures |Supporters(r, a.key, r.votes[a])| < Larger(1, quorum)
    {
      assert Supporters(r, a.key, r.votes[a]) == Supporters(q, a.key, q.votes[a]);
    }
  }
}
