/**
  The keys of the four stores of a vote queue. The primary stores have textual keys and the two time
  indexes binary ones; this module proves that they implement the maps of module VoteQueues.
  A queue is given by its prefix without the final slash.
 */
module Keys {
  import opened Basics
  import opened Digits
  import opened DomainText
  import opened Domains
  import opened Rfc3339
  import opened Text
  import opened Times
  import opened VoteQueues

  const ORACLE_QUEUE: string := "oracle_voting"
  const ADMIN_QUEUE: string := "admin_voting"

  const VOTES: string := "votes_by_key"
  const PENDING: string := "pending_by_key"
  const VOTE_INDEX: string := "votes_by_timestamp"
  const PENDING_INDEX: string := "pending_by_timestamp"

  predicate SlashFree(s: string) {
    Free(s, '/')
  }

  /** The common beginning of all keys of one store of a queue. */
  function StorePrefix(queue: string, store: string): string {
    queue + "/" + (store + "/")
  }

  /** The prefix of a scan over one key, up to the separator or open-ended. */
  function KeyPrefix(queue: string, store: string, key: string, exact: bool): string {
    StorePrefix(queue, store) + (key + if exact then "/" else "")
  }

  function VoteText(queue: string, a: VoteKey<string>): string {
    StorePrefix(queue, VOTES) + (a.key + "/" + (a.party + "/" + Rfc3339.Show(a.sec)))
  }

  function PendingText(queue: string, p: PendingKey<string>): string {
    StorePrefix(queue, PENDING) + (p.key + "/" + Rfc3339.Show(p.sec))
  }

  function StripPrefix(s: string, prefix: string): Option<string> {
    if prefix <= s then Some(s[|prefix|..]) else None
  }

  function ParseVote(queue: string, s: string): Option<VoteKey<string>> {
    match StripPrefix(s, StorePrefix(queue, VOTES))
    case None => None
    case Some(rest) =>
      var parts := Split(rest, '/');
      if |parts| != 3 then None
      else
        match Rfc3339.Parse(parts[2])
        case None => None
        case Some(sec) => Some(VoteKey(parts[0], parts[1], sec))
  }

  /** The place of the last separator. */
  function LastSlash(s: string): (i: Option<nat>)
    ensures i.Some? ==> i.value < |s| && s[i.value] == '/'
  {
    if s == "" then None
    else if s[|s| - 1] == '/' then Some(|s| - 1)
    else LastSlash(s[..|s| - 1])
  }

  function ParsePending(queue: string, s: string): Option<PendingKey<string>> {
    match StripPrefix(s, StorePrefix(queue, PENDING))
    case None => None
    case Some(rest) =>
      match LastSlash(rest)
      case None => None
      case Some(i) =>
        match Rfc3339.Parse(rest[i + 1..])
        case None => None
        case Some(sec) => Some(PendingKey(rest[..i], sec))
  }

  // ---------- Round trips ----------

  lemma StripsPrefix(prefix: string, rest: string)
    ensures StripPrefix(prefix + rest, prefix) == Some(rest)
  {}

  /** A vote's key reads back as the vote's key, party and second. */
  lemma VoteRoundTrip(queue: string, a: VoteKey<string>)
    requires SlashFree(a.key) && SlashFree(a.party)
    ensures ParseVote(queue, VoteText(queue, a)) == Some(a)
  {
    var time := Rfc3339.Show(a.sec);
    StripsPrefix(StorePrefix(queue, VOTES), a.key + "/" + (a.party + "/" + time));
    SplitFirst(a.key, a.party + "/" + time, '/');
    SplitFirst(a.party, time, '/');
    Rfc3339.HasNoSlash(a.sec);
    SplitFree(time, '/');
    Rfc3339.RoundTrip(a.sec);
  }

  lemma {:induction false} LastSlashBeforeFree(s: string, t: string)
    requires SlashFree(t)
    ensures LastSlash(s + "/" + t) == Some(|s|)
  {
    var all := s + "/" + t;
    if t == "" {
      assert all[|all| - 1] == '/';
    } else {
      assert t[|t| - 1] in t;
      assert all[..|all| - 1] == s + "/" + t[..|t| - 1];
      LastSlashBeforeFree(s, t[..|t| - 1]);
    }
  }

  /** A pending change's key reads back, whatever the key contains: the time is what follows the last separator. */
  lemma PendingRoundTrip(queue: string, p: PendingKey<string>)
    ensures ParsePending(queue, PendingText(queue, p)) == Some(p)
  {
    var time := Rfc3339.Show(p.sec);
    var rest := p.key + "/" + time;
    StripsPrefix(StorePrefix(queue, PENDING), rest);
    Rfc3339.HasNoSlash(p.sec);
    LastSlashBeforeFree(p.key, time);
    assert rest[|p.key| + 1..] == time && rest[..|p.key|] == p.key;
    Rfc3339.RoundTrip(p.sec);
  }

  lemma VoteTextInjective(queue: string, a: VoteKey<string>, b: VoteKey<string>)
    requires SlashFree(a.key) && SlashFree(a.party) && SlashFree(b.key) && SlashFree(b.party)
    requires VoteText(queue, a) == VoteText(queue, b)
    ensures a == b
  {
    VoteRoundTrip(queue, a);
    VoteRoundTrip(queue, b);
  }

  // ---------- Prefix scans ----------

  /** An exact scan over a key finds the votes for that key and no others. */
  lemma VoteScan(queue: string, key: string, a: VoteKey<string>)
    requires SlashFree(key) && SlashFree(a.key)
    ensures KeyPrefix(queue, VOTES, key, true) <= VoteText(queue, a) <==> a.key == key
  {
    var rest := a.party + "/" + Rfc3339.Show(a.sec);
    PrefixAfter(StorePrefix(queue, VOTES), key + "/", a.key + "/" + rest);
    SameFirstField(key, a.key, "", rest, '/');
    assert key + "/" + "" == key + "/";
  }

  function PartyPrefix(queue: string, key: string, party: string): string {
    StorePrefix(queue, VOTES) + (key + "/" + (party + "/"))
  }

  /** An exact scan over a key and a party finds that party's votes for that key and no others. */
  lemma PartyScan(queue: string, key: string, party: string, a: VoteKey<string>)
    requires SlashFree(key) && SlashFree(party) && SlashFree(a.key) && SlashFree(a.party)
    ensures PartyPrefix(queue, key, party) <= VoteText(queue, a) <==> a.key == key && a.party == party
  {
    var time := Rfc3339.Show(a.sec);
    PrefixAfter(StorePrefix(queue, VOTES), key + "/" + (party + "/"), a.key + "/" + (a.party + "/" + time));
    SameFirstField(key, a.key, party + "/", a.party + "/" + time, '/');
    SameFirstField(party, a.party, "", time, '/');
    assert party + "/" + "" == party + "/";
  }

  lemma PendingScan(queue: string, key: string, p: PendingKey<string>)
    requires SlashFree(key) && SlashFree(p.key)
    ensures KeyPrefix(queue, PENDING, key, true) <= PendingText(queue, p) <==> p.key == key
  {
    var time := Rfc3339.Show(p.sec);
    PrefixAfter(StorePrefix(queue, PENDING), key + "/", p.key + "/" + time);
    SameFirstField(key, p.key, "", time, '/');
    assert key + "/" + "" == key + "/";
  }

  /**
    The open-ended scan for the changes below a registered domain, whose stored form is given a dot,
    finds the pending changes of its strict subdomains and no others.
   */
  lemma PendingScanBelow(queue: string, r: Domain, e: Domain, sec: Seconds)
    requires GoodName(r) && GoodName(e) && r != []
    ensures KeyPrefix(queue, PENDING, DomainText.Show(r) + ".", false) <= PendingText(queue, PendingKey(DomainText.Show(e), sec))
      <==> StrictlyUnder(e, r)
  {
    var form, key, time := DomainText.Show(r) + ".", DomainText.Show(e), Rfc3339.Show(sec);
    assert form + "" == form;
    PrefixAfter(StorePrefix(queue, PENDING), form, key + "/" + time);
    ShowHasNoSlash(r);
    FreeConcat(DomainText.Show(r), ".", '/');
    FreePrefix(form, key, time, '/');
    ScanFindsStrictSubdomains(r, e);
  }

  /** No key of one store lies in another, of the same or of the other queue. */
  lemma StoresAreDisjoint(queue: string, store: string, queue2: string, store2: string, rest: string)
    requires SlashFree(queue) && SlashFree(queue2) && SlashFree(store) && SlashFree(store2)
    requires queue != queue2 || store != store2
    ensures !(StorePrefix(queue, store) <= StorePrefix(queue2, store2) + rest)
  {
    assert StorePrefix(queue2, store2) + rest == queue2 + "/" + (store2 + "/" + rest);
    SameFirstField(queue, queue2, store + "/", store2 + "/" + rest, '/');
    SameFirstField(store, store2, "", rest, '/');
    assert store + "/" + "" == store + "/";
  }

  /** In particular the queues of the oracles and of the admins, and the four stores of each, are disjoint. */
  lemma QueuesAreDisjoint(store: string, store2: string, rest: string)
    requires store in {VOTES, PENDING, VOTE_INDEX, PENDING_INDEX}
    requires store2 in {VOTES, PENDING, VOTE_INDEX, PENDING_INDEX}
    ensures !(StorePrefix(ORACLE_QUEUE, store) <= StorePrefix(ADMIN_QUEUE, store2) + rest)
    ensures !(StorePrefix(ADMIN_QUEUE, store) <= StorePrefix(ORACLE_QUEUE, store2) + rest)
    ensures store != store2 ==> !(StorePrefix(ORACLE_QUEUE, store) <= StorePrefix(ORACLE_QUEUE, store2) + rest)
    ensures store != store2 ==> !(StorePrefix(ADMIN_QUEUE, store) <= StorePrefix(ADMIN_QUEUE, store2) + rest)
  {
    hide StorePrefix;
    StoresAreDisjoint(ORACLE_QUEUE, store, ADMIN_QUEUE, store2, rest);
    StoresAreDisjoint(ADMIN_QUEUE, store, ORACLE_QUEUE, store2, rest);
    if store != store2 {
      StoresAreDisjoint(ORACLE_QUEUE, store, ORACLE_QUEUE, store2, rest);
      StoresAreDisjoint(ADMIN_QUEUE, store, ADMIN_QUEUE, store2, rest);
    }
  }

  const INTERNAL: string := "internal"
  const CANONICAL: string := "canonical"

  /** The key of an entry of one substore in the one store below both. */
  function InSubstore(substore: string, key: string): string {
    substore + "/" + key
  }

  /** A key read without the prefix of its substore is the key that was written; it is in no other substore. */
  lemma SubstoresAreDisjoint(substore: string, other: string, key: string, rest: string)
    requires (substore == INTERNAL && other == CANONICAL) || (substore == CANONICAL && other == INTERNAL)
    ensures StripPrefix(InSubstore(substore, key), substore + "/") == Some(key)
    ensures StripPrefix(InSubstore(substore, key), other + "/") == None
    ensures substore + "/" + rest <= InSubstore(substore, key) <==> rest <= key
  {
    assert InSubstore(substore, key)[0] == substore[0] && (other + "/")[0] == other[0];
    PrefixAfter(substore + "/", rest, key);
    StripsPrefix(substore + "/", key);
  }

  // ---------- The time indexes ----------

  function TimeBytes(sec: Seconds): (bytes: seq<nat>)
    ensures |bytes| == 8
  {
    Digits.Digits(256, 8, Unsigned(sec))
  }

  function VoteIndexBytes(queue: string, a: VoteKey<string>): seq<nat> {
    AsciiBytes(StorePrefix(queue, VOTE_INDEX)) + (TimeBytes(a.sec) + AsciiBytes("/" + (a.key + "/" + a.party)))
  }

  function PendingIndexBytes(queue: string, p: PendingKey<string>): seq<nat> {
    AsciiBytes(StorePrefix(queue, PENDING_INDEX)) + (TimeBytes(p.sec) + AsciiBytes("/" + p.key))
  }

  lemma EightBytesHoldSeconds(sec: Seconds)
    ensures Unsigned(sec) < Power(256, 8)
  {
    assert Power(256, 2) == 65_536;
    assert Power(256, 4) == 0x1_0000_0000;
    assert Power(256, 6) == 0x1_0000_0000_0000;
  }

  /** Index keys are listed in the order of their unsigned seconds: the key that follows only breaks ties. */
  lemma IndexOrderIsTimeOrder(prefix: seq<nat>, s: Seconds, t: Seconds, x: seq<nat>, y: seq<nat>)
    requires LexLess(prefix + (TimeBytes(s) + x), prefix + (TimeBytes(t) + y))
    ensures Unsigned(s) <= Unsigned(t)
    ensures 0 <= s && 0 <= t ==> s <= t
  {
    LexLessAfterPrefix(prefix, TimeBytes(s) + x, TimeBytes(t) + y);
    LexLessByParts(TimeBytes(s), TimeBytes(t), x, y);
    EightBytesHoldSeconds(s);
    EightBytesHoldSeconds(t);
    DigitsInOrder(256, 8, Unsigned(s), Unsigned(t));
    ValueOfDigits(256, 8, Unsigned(s));
    ValueOfDigits(256, 8, Unsigned(t));
  }

  function SignedSecond(u: nat): int {
    if 0x8000_0000_0000_0000 <= u then u - 0x1_0000_0000_0000_0000 else u
  }

  /** What follows the prefix in an index key: eight bytes of time, a separator, and text. */
  function ParseIndex(prefix: seq<nat>, bytes: seq<nat>): Option<(int, seq<nat>)> {
    if |bytes| < |prefix| + 9 || !(prefix <= bytes) then None
    else
      Some((SignedSecond(Value(256, bytes[|prefix|..|prefix| + 8])), bytes[|prefix| + 9..]))
  }

  /** An index key reads back as its second and the text after it. */
  lemma IndexRoundTrip(prefix: seq<nat>, sec: Seconds, text: string)
    ensures ParseIndex(prefix, prefix + (TimeBytes(sec) + AsciiBytes("/" + text))) == Some((sec, AsciiBytes(text)))
  {
    var bytes := prefix + (TimeBytes(sec) + AsciiBytes("/" + text));
    assert bytes[|prefix|..|prefix| + 8] == TimeBytes(sec);
    AsciiBytesConcat("/", text);
    assert bytes[|prefix| + 9..] == AsciiBytes(text);
    EightBytesHoldSeconds(sec);
    ValueOfDigits(256, 8, Unsigned(sec));
  }

  /** Different votes have different index keys, and so have different pending changes. */
  lemma IndexBytesInjective(queue: string, a: VoteKey<string>, b: VoteKey<string>)
    requires SlashFree(a.key) && SlashFree(b.key) && SlashFree(a.party) && SlashFree(b.party)
    requires VoteIndexBytes(queue, a) == VoteIndexBytes(queue, b)
    ensures a == b
  {
    var prefix := AsciiBytes(StorePrefix(queue, VOTE_INDEX));
    IndexRoundTrip(prefix, a.sec, a.key + "/" + a.party);
    IndexRoundTrip(prefix, b.sec, b.key + "/" + b.party);
    AsciiBytesInjective(a.key + "/" + a.party, b.key + "/" + b.party);
    SplitFirst(a.key, a.party, '/');
    SplitFirst(b.key, b.party, '/');
    SplitFree(a.party, '/');
    SplitFree(b.party, '/');
    assert Split(a.key + "/" + a.party, '/') == [a.key, a.party];
    assert Split(b.key + "/" + b.party, '/') == [b.key, b.party];
  }

  lemma PendingIndexBytesInjective(queue: string, p: PendingKey<string>, r: PendingKey<string>)
    requires PendingIndexBytes(queue, p) == PendingIndexBytes(queue, r)
    ensures p == r
  {
    var prefix := AsciiBytes(StorePrefix(queue, PENDING_INDEX));
    IndexRoundTrip(prefix, p.sec, p.key);
    IndexRoundTrip(prefix, r.sec, r.key);
    AsciiBytesInjective(p.key, r.key);
  }

  // ---------- The stores implement the maps ----------

  /** The entries of a store that belong to one of the maps, recognized by their prefix, are those of the map. */
  ghost predicate Implements<A, T, V>(store: map<T, V>, m: map<A, V>, text: A -> T, mine: T -> bool) {
    && (forall a :: a in m ==> text(a) in store && mine(text(a)) && store[text(a)] == m[a])
    && (forall s :: s in store && mine(s) ==> exists a :: a in m && text(a) == s)
  }

  /** Putting an entry under its key implements updating the map, when keys tell entries apart. */
  lemma PutImplements<A, T, V>(store: map<T, V>, m: map<A, V>, text: A -> T, mine: T -> bool, a: A, value: V)
    requires Implements(store, m, text, mine) && mine(text(a))
    requires forall b :: b in m && text(b) == text(a) ==> b == a
    ensures Implements(store[text(a) := value], m[a := value], text, mine)
  {
    var after, more := store[text(a) := value], m[a := value];
    forall s | s in after && mine(s)
      ensures exists b :: b in more && text(b) == s
    {
      if s == text(a) {
        assert a in more;
      } else {
        var b :| b in m && text(b) == s;
        assert b in more;
      }
    }
  }

  /** Deleting the key of an entry implements removing it from the map. */
  lemma DeleteImplements<A, T, V>(store: map<T, V>, m: map<A, V>, text: A -> T, mine: T -> bool, a: A)
    requires Implements(store, m, text, mine)
    requires forall b :: b in m && text(b) == text(a) ==> b == a
    ensures Implements(store - {text(a)}, m - {a}, text, mine)
  {
    forall s | s in store - {text(a)} && mine(s)
      ensures exists b :: b in m - {a} && text(b) == s
    {
      var b :| b in m && text(b) == s;
      assert b in m - {a};
    }
  }

  /** Writing outside the prefix of a store leaves its map alone. */
  lemma OtherKeysDoNotMatter<A, T, V>(store: map<T, V>, m: map<A, V>, text: A -> T, mine: T -> bool, s: T, value: V)
    requires Implements(store, m, text, mine) && !mine(s)
    ensures Implements(store[s := value], m, text, mine)
    ensures Implements(store - {s}, m, text, mine)
  {}

  /** A scan by a longer prefix returns the keys of exactly the entries that the prefix selects. */
  lemma ScanImplements<A, T, V>(
      store: map<T, V>, m: map<A, V>, text: A -> T, mine: T -> bool, scanned: T -> bool, selected: A -> bool)
    requires Implements(store, m, text, mine)
    requires forall s :: s in store && scanned(s) ==> mine(s)
    requires forall a :: a in m ==> (scanned(text(a)) <==> selected(a))
    ensures forall s :: s in store && scanned(s) ==> exists a :: a in m && selected(a) && text(a) == s
    ensures forall a :: a in m && selected(a) ==> text(a) in store && scanned(text(a)) && store[text(a)] == m[a]
  {
    forall s | s in store && scanned(s)
      ensures exists a :: a in m && selected(a) && text(a) == s
    {
      var a :| a in m && text(a) == s;
    }
  }

  function VoteTexts(queue: string): VoteKey<string> -> string {
    (a: VoteKey<string>) => VoteText(queue, a)
  }

  function Starting(prefix: string): string -> bool {
    (s: string) => prefix <= s
  }

  ghost predicate SlashFreeVotes<V>(votes: map<VoteKey<string>, V>) {
    forall a :: a in votes ==> SlashFree(a.key) && SlashFree(a.party)
  }

  lemma VoteTextsDiffer<V>(queue: string, votes: map<VoteKey<string>, V>, a: VoteKey<string>)
    requires SlashFreeVotes(votes) && SlashFree(a.key) && SlashFree(a.party)
    ensures forall b :: b in votes && VoteText(queue, b) == VoteText(queue, a) ==> b == a
  {
    hide VoteText, SlashFree;
    forall b | b in votes && VoteText(queue, b) == VoteText(queue, a)
      ensures b == a
    {
      VoteTextInjective(queue, a, b);
    }
  }

  /** The textual store implements the map of votes under the two writes that a cast and an expiry make. */
  lemma VoteStoreImplements<V>(
      store: map<string, V>, queue: string, votes: map<VoteKey<string>, V>, a: VoteKey<string>, value: V)
    requires SlashFreeVotes(votes) && SlashFree(a.key) && SlashFree(a.party)
    requires Implements(store, votes, VoteTexts(queue), Starting(StorePrefix(queue, VOTES)))
    ensures Implements(store[VoteText(queue, a) := value], votes[a := value],
                       VoteTexts(queue), Starting(StorePrefix(queue, VOTES)))
    ensures Implements(store - {VoteText(queue, a)}, votes - {a},
                       VoteTexts(queue), Starting(StorePrefix(queue, VOTES)))
  {
    hide VoteText, StorePrefix, Implements, SlashFree, SlashFreeVotes;
    VoteTextsDiffer(queue, votes, a);
    VoteTextIsVote(queue, a);
    PutImplements(store, votes, VoteTexts(queue), Starting(StorePrefix(queue, VOTES)), a, value);
    DeleteImplements(store, votes, VoteTexts(queue), Starting(StorePrefix(queue, VOTES)), a);
  }

  lemma VoteTextIsVote(queue: string, a: VoteKey<string>)
    ensures StorePrefix(queue, VOTES) <= VoteText(queue, a)
  {}

  lemma KeyPrefixIsLonger(queue: string, store: string, key: string)
    ensures StorePrefix(queue, store) <= KeyPrefix(queue, store, key, true)
  {}

  /** Scanning the store for a key returns exactly the votes for it, with their values. */
  lemma VoteStoreScan<V>(store: map<string, V>, queue: string, votes: map<VoteKey<string>, V>, key: string)
    requires SlashFreeVotes(votes) && SlashFree(key)
    requires Implements(store, votes, VoteTexts(queue), Starting(StorePrefix(queue, VOTES)))
    ensures forall s :: s in store && KeyPrefix(queue, VOTES, key, true) <= s ==>
      exists a :: a in votes && a.key == key && VoteText(queue, a) == s
    ensures forall a :: a in votes && a.key == key ==>
      && VoteText(queue, a) in store && KeyPrefix(queue, VOTES, key, true) <= VoteText(queue, a)
      && store[VoteText(queue, a)] == votes[a]
  {
    hide VoteText, StorePrefix, KeyPrefix, SlashFree;
    forall a | a in votes
      ensures KeyPrefix(queue, VOTES, key, true) <= VoteText(queue, a) <==> a.key == key
    {
      VoteScan(queue, key, a);
    }
    KeyPrefixIsLonger(queue, VOTES, key);
    hide SlashFreeVotes;
    ScanImplements(store, votes, VoteTexts(queue), Starting(StorePrefix(queue, VOTES)),
                   Starting(KeyPrefix(queue, VOTES, key, true)), (a: VoteKey<string>) => a.key == key);
  }

  // ---------- The other three stores ----------

  function PendingTexts(queue: string): PendingKey<string> -> string {
    (p: PendingKey<string>) => PendingText(queue, p)
  }

  function VoteIndexKeys(queue: string): VoteKey<string> -> seq<nat> {
    (a: VoteKey<string>) => VoteIndexBytes(queue, a)
  }

  function PendingIndexKeys(queue: string): PendingKey<string> -> seq<nat> {
    (p: PendingKey<string>) => PendingIndexBytes(queue, p)
  }

  function StartingBytes(prefix: seq<nat>): seq<nat> -> bool {
    (s: seq<nat>) => prefix <= s
  }

  lemma PendingTextIsPending(queue: string, p: PendingKey<string>)
    ensures StorePrefix(queue, PENDING) <= PendingText(queue, p)
  {}

  lemma PendingStoreImplements<V>(
      store: map<string, V>, queue: string, pending: map<PendingKey<string>, V>, p: PendingKey<string>, value: V)
    requires Implements(store, pending, PendingTexts(queue), Starting(StorePrefix(queue, PENDING)))
    ensures Implements(store[PendingText(queue, p) := value], pending[p := value],
                       PendingTexts(queue), Starting(StorePrefix(queue, PENDING)))
    ensures Implements(store - {PendingText(queue, p)}, pending - {p},
                       PendingTexts(queue), Starting(StorePrefix(queue, PENDING)))
  {
    hide PendingText, StorePrefix, Implements, ParsePending;
    forall r | r in pending && PendingText(queue, r) == PendingText(queue, p)
      ensures r == p
    {
      PendingRoundTrip(queue, p);
      PendingRoundTrip(queue, r);
    }
    PendingTextIsPending(queue, p);
    PutImplements(store, pending, PendingTexts(queue), Starting(StorePrefix(queue, PENDING)), p, value);
    DeleteImplements(store, pending, PendingTexts(queue), Starting(StorePrefix(queue, PENDING)), p);
  }

  /** The lookup of a pending change scans for its key and finds the changes for it, with their values. */
  lemma PendingStoreScan<V>(store: map<string, V>, queue: string, pending: map<PendingKey<string>, V>, key: string)
    requires SlashFree(key) && forall p :: p in pending ==> SlashFree(p.key)
    requires Implements(store, pending, PendingTexts(queue), Starting(StorePrefix(queue, PENDING)))
    ensures forall s :: s in store && KeyPrefix(queue, PENDING, key, true) <= s ==>
      exists p :: p in pending && p.key == key && PendingText(queue, p) == s
    ensures forall p :: p in pending && p.key == key ==>
      && PendingText(queue, p) in store && KeyPrefix(queue, PENDING, key, true) <= PendingText(queue, p)
      && store[PendingText(queue, p)] == pending[p]
  {
    hide PendingText, StorePrefix, KeyPrefix, SlashFree;
    forall p | p in pending
      ensures KeyPrefix(queue, PENDING, key, true) <= PendingText(queue, p) <==> p.key == key
    {
      PendingScan(queue, key, p);
    }
    KeyPrefixIsLonger(queue, PENDING, key);
    ScanImplements(store, pending, PendingTexts(queue), Starting(StorePrefix(queue, PENDING)),
                   Starting(KeyPrefix(queue, PENDING, key, true)), (p: PendingKey<string>) => p.key == key);
  }

  lemma VoteIndexImplements<V>(
      store: map<seq<nat>, V>, queue: string, index: map<VoteKey<string>, V>, a: VoteKey<string>, value: V)
    requires SlashFreeVotes(index) && SlashFree(a.key) && SlashFree(a.party)
    requires Implements(store, index, VoteIndexKeys(queue), StartingBytes(AsciiBytes(StorePrefix(queue, VOTE_INDEX))))
    ensures Implements(store[VoteIndexBytes(queue, a) := value], index[a := value],
                       VoteIndexKeys(queue), StartingBytes(AsciiBytes(StorePrefix(queue, VOTE_INDEX))))
    ensures Implements(store - {VoteIndexBytes(queue, a)}, index - {a},
                       VoteIndexKeys(queue), StartingBytes(AsciiBytes(StorePrefix(queue, VOTE_INDEX))))
  {
    assert AsciiBytes(StorePrefix(queue, VOTE_INDEX)) <= VoteIndexBytes(queue, a);
    hide VoteIndexBytes, StorePrefix, Implements, SlashFree, AsciiBytes;
    forall b | b in index && VoteIndexBytes(queue, b) == VoteIndexBytes(queue, a)
      ensures b == a
    {
      IndexBytesInjective(queue, a, b);
    }
    var mine := StartingBytes(AsciiBytes(StorePrefix(queue, VOTE_INDEX)));
    PutImplements(store, index, VoteIndexKeys(queue), mine, a, value);
    DeleteImplements(store, index, VoteIndexKeys(queue), mine, a);
  }

  lemma PendingIndexImplements<V>(
      store: map<seq<nat>, V>, queue: string, index: map<PendingKey<string>, V>, p: PendingKey<string>, value: V)
    requires Implements(store, index, PendingIndexKeys(queue), StartingBytes(AsciiBytes(StorePrefix(queue, PENDING_INDEX))))
    ensures Implements(store[PendingIndexBytes(queue, p) := value], index[p := value],
                       PendingIndexKeys(queue), StartingBytes(AsciiBytes(StorePrefix(queue, PENDING_INDEX))))
    ensures Implements(store - {PendingIndexBytes(queue, p)}, index - {p},
                       PendingIndexKeys(queue), StartingBytes(AsciiBytes(StorePrefix(queue, PENDING_INDEX))))
  {
    assert AsciiBytes(StorePrefix(queue, PENDING_INDEX)) <= PendingIndexBytes(queue, p);
    hide PendingIndexBytes, StorePrefix, Implements, AsciiBytes;
    forall r | r in index && PendingIndexBytes(queue, r) == PendingIndexBytes(queue, p)
      ensures r == p
    {
      PendingIndexBytesInjective(queue, p, r);
    }
    var mine := StartingBytes(AsciiBytes(StorePrefix(queue, PENDING_INDEX)));
    PutImplements(store, index, PendingIndexKeys(queue), mine, p, value);
    DeleteImplements(store, index, PendingIndexKeys(queue), mine, p);
  }

  // ---------- Building and reading index keys ----------

  /** Appends the parts of a vote's index key to a buffer of bytes. */
  method BuildVoteIndexKey(queue: string, a: VoteKey<string>) returns (fullKey: seq<nat>)
    ensures fullKey == VoteIndexBytes(queue, a)
    ensures SlashFree(a.key) && SlashFree(a.party) ==> ReadsBack(queue, fullKey, a)
  {
    fullKey := AsciiBytes(StorePrefix(queue, VOTE_INDEX));
    fullKey := fullKey + TimeBytes(a.sec);
    fullKey := fullKey + AsciiBytes("/");
    fullKey := fullKey + AsciiBytes(a.key);
    fullKey := fullKey + AsciiBytes("/");
    fullKey := fullKey + AsciiBytes(a.party);
    hide VoteIndexBytes, ReadsBack;
    VoteIndexParts(queue, a);
    if SlashFree(a.key) && SlashFree(a.party) {
      VoteIndexRoundTrip(queue, a);
    }
  }

  lemma VoteIndexParts(queue: string, a: VoteKey<string>)
    ensures VoteIndexBytes(queue, a) ==
      AsciiBytes(StorePrefix(queue, VOTE_INDEX)) + TimeBytes(a.sec)
      + AsciiBytes("/") + AsciiBytes(a.key) + AsciiBytes("/") + AsciiBytes(a.party)
  {
    hide TimeBytes, StorePrefix, AsciiBytes;
    AsciiBytesConcat("/", a.party);
    AsciiBytesConcat(a.key, "/" + a.party);
    AsciiBytesConcat("/", a.key + ("/" + a.party));
    SixParts(AsciiBytes(StorePrefix(queue, VOTE_INDEX)), TimeBytes(a.sec),
             AsciiBytes("/"), AsciiBytes(a.key), AsciiBytes("/"), AsciiBytes(a.party));
  }

  lemma SixParts(a: seq<nat>, b: seq<nat>, c: seq<nat>, d: seq<nat>, e: seq<nat>, f: seq<nat>)
    ensures a + (b + (c + (d + (e + f)))) == a + b + c + d + e + f
  {}

  /** The key is read as the second of a vote and a text whose fields are its key and party. */
  ghost predicate ReadsBack(queue: string, bytes: seq<nat>, a: VoteKey<string>) {
    var text := a.key + "/" + a.party;
    && ParseIndex(AsciiBytes(StorePrefix(queue, VOTE_INDEX)), bytes) == Some((a.sec as int, AsciiBytes(text)))
    && Split(text, '/') == [a.key, a.party]
  }

  lemma VoteIndexRoundTrip(queue: string, a: VoteKey<string>)
    requires SlashFree(a.key) && SlashFree(a.party)
    ensures ReadsBack(queue, VoteIndexBytes(queue, a), a)
  {
    hide ParseIndex, Split, TimeBytes, StorePrefix, AsciiBytes;
    var text := a.key + "/" + a.party;
    IndexRoundTrip(AsciiBytes(StorePrefix(queue, VOTE_INDEX)), a.sec, text);
    SplitFirst(a.key, a.party, '/');
    SplitFree(a.party, '/');
    assert text == a.key + ("/" + a.party);
    assert Split(text, '/') == [a.key] + [a.party];
  }
}
