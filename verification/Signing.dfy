/**
  Signing, verifying and stripping a message by traversing it. Signatures bind the whole message:
  each one is made over a hash of the message with all signatures removed.
 */
module Signing {
  import opened Basics
  import opened Hex
  import opened Traversal

  datatype SignError = MissingKeypair | AlreadySigned

  /** The hash of an encoded message, and the check of a signature against a public key and a hash. */
  datatype Scheme<!C> = Scheme(digest: Tree<C> -> Bytes, check: (Bytes, Bytes, Bytes) -> bool)

  /** What a signer gives for a public key and a hash: nothing, when it has no such key. */
  type Signer = (Bytes, Bytes) -> Option<Bytes>

  const SIGNATURE_LENGTH: nat := 64

  /** A signature of another length is invalid whatever the key. */
  predicate Verify<C>(s: Scheme<C>, sig: Signature, hash: Bytes) {
    |sig.signature| == SIGNATURE_LENGTH && s.check(sig.publicKey, sig.signature, hash)
  }

  function Hash<C>(s: Scheme<C>, t: Tree<C>): Bytes {
    s.digest(Unsigned(t))
  }

  ghost predicate Injective<C(!new)>(s: Scheme<C>) {
    forall t, u :: s.digest(t) == s.digest(u) ==> t == u
  }

  /** Every signature that the signer makes is valid for its key and hash. */
  ghost predicate Correct<C>(s: Scheme<C>, signer: Signer) {
    forall key, hash ::
      signer(key, hash).Some? ==> Verify(s, Signature(key, signer(key, hash).value), hash)
  }

  // ---------- Signing as functions of the message ----------

  /** What signing does to one slot: a blank one is filled, if the signer has its key. */
  function Filled(signer: Signer, hash: Bytes): Signature -> Signature {
    (s: Signature) =>
      if s.signature == [] && signer(s.publicKey, hash).Some?
      then s.(signature := signer(s.publicKey, hash).value)
      else s
  }

  function Objection(s: Signature, signer: Signer, hash: Bytes): Option<SignError> {
    if s.signature != [] then Some(AlreadySigned)
    else if signer(s.publicKey, hash).None? then Some(MissingKeypair)
    else None
  }

  /** Every slot is blank and belongs to a key of the signer. */
  ghost predicate Signable(slots: seq<Signature>, signer: Signer, hash: Bytes) {
    forall i :: 0 <= i < |slots| ==> slots[i].signature == [] && signer(slots[i].publicKey, hash).Some?
  }

  function Later(later: Option<SignError>, earlier: Option<SignError>): Option<SignError> {
    if later.Some? then later else earlier
  }

  /** The error left by visiting the slots in order: a later error replaces an earlier one. */
  function Objections(slots: seq<Signature>, signer: Signer, hash: Bytes): Option<SignError> {
    if slots == [] then None
    else
      Later(Objection(slots[|slots| - 1], signer, hash), Objections(slots[..|slots| - 1], signer, hash))
  }

  function SignAll<C>(s: Scheme<C>, t: Tree<C>, signer: Signer): Result<Tree<C>, SignError> {
    var hash := Hash(s, t);
    var objection := Objections(Slots(t), signer, hash);
    if objection.Some? then Err(objection.value) else Ok(Refilled(t, Filled(signer, hash)))
  }

  predicate AllVerify<C>(s: Scheme<C>, slots: seq<Signature>, hash: Bytes) {
    forall i :: 0 <= i < |slots| ==> Verify(s, slots[i], hash)
  }

  function Authenticate<C>(s: Scheme<C>, t: Tree<C>): Option<Tree<C>> {
    if AllVerify(s, Slots(t), Hash(s, t)) then Some(Unsigned(t)) else None
  }

  // ---------- Laws ----------

  lemma {:induction false} ObjectionsConcat(a: seq<Signature>, b: seq<Signature>, signer: Signer, hash: Bytes)
    ensures Objections(a + b, signer, hash) ==
            Later(Objections(b, signer, hash), Objections(a, signer, hash))
  {
    if b == [] {
      assert a + b == a;
    } else {
      var ab := a + b;
      assert ab[|ab| - 1] == b[|b| - 1];
      assert ab[..|ab| - 1] == a + b[..|b| - 1];
      ObjectionsConcat(a, b[..|b| - 1], signer, hash);
    }
  }

  /** The slot is blank and its key is one of the signer's. */
  predicate CanFill(s: Signature, signer: Signer, hash: Bytes) {
    |s.signature| == 0 && signer(s.publicKey, hash).Some?
  }

  /** The slot at `i` is the last that cannot be filled; the error says whether it was filled already. */
  ghost predicate LastObjectionAt(slots: seq<Signature>, signer: Signer, hash: Bytes, i: nat, e: SignError) {
    && i < |slots|
    && !CanFill(slots[i], signer, hash)
    && e == (if |slots[i].signature| > 0 then AlreadySigned else MissingKeypair)
    && forall j :: i < j < |slots| ==> CanFill(slots[j], signer, hash)
  }

  lemma ObjectionIff(s: Signature, signer: Signer, hash: Bytes)
    ensures CanFill(s, signer, hash) <==> Objection(s, signer, hash).None?
    ensures !CanFill(s, signer, hash) ==>
      Objection(s, signer, hash) == Some(if |s.signature| > 0 then AlreadySigned else MissingKeypair)
  {}

  /**
    Signing fails exactly when some slot is already filled or belongs to a key the signer does not
    have, and reports the last such slot of the traversal.
   */
  lemma {:induction false} SigningFailsAtLastObjection(slots: seq<Signature>, signer: Signer, hash: Bytes)
    ensures Objections(slots, signer, hash).None? <==> Signable(slots, signer, hash)
    ensures forall e ::
      Objections(slots, signer, hash) == Some(e) <==> exists i: nat :: LastObjectionAt(slots, signer, hash, i, e)
  {
    forall e
      ensures Objections(slots, signer, hash) == Some(e) <==> exists i: nat :: LastObjectionAt(slots, signer, hash, i, e)
    {
      LastObjectionWins(slots, signer, hash, e);
    }
    NoObjectionIffSignable(slots, signer, hash);
  }

  lemma {:induction false} NoObjectionIffSignable(slots: seq<Signature>, signer: Signer, hash: Bytes)
    ensures Objections(slots, signer, hash).None? <==> Signable(slots, signer, hash)
  {
    if slots != [] {
      var before := slots[..|slots| - 1];
      NoObjectionIffSignable(before, signer, hash);
      assert slots == before + [slots[|slots| - 1]];
    }
  }

  lemma {:induction false} LastObjectionWins(slots: seq<Signature>, signer: Signer, hash: Bytes, e: SignError)
    ensures Objections(slots, signer, hash) == Some(e) <==> exists i: nat :: LastObjectionAt(slots, signer, hash, i, e)
  {
    hide Objection, CanFill;
    if slots != [] {
      var n := |slots| - 1;
      ObjectionIff(slots[n], signer, hash);
      if Objection(slots[n], signer, hash).None? {
        var before := slots[..n];
        LastObjectionWins(before, signer, hash, e);
        if i: nat :| LastObjectionAt(before, signer, hash, i, e) {
          assert LastObjectionAt(slots, signer, hash, i, e);
        }
        if i: nat :| LastObjectionAt(slots, signer, hash, i, e) {
          assert LastObjectionAt(before, signer, hash, i, e);
        }
      } else if Objection(slots[n], signer, hash) == Some(e) {
        assert LastObjectionAt(slots, signer, hash, n, e);
      }
    }
  }

  /** The hash does not depend on the bytes of any signature, and on nothing less. */
  lemma HashIgnoresJustSignatures<C(!new)>(s: Scheme<C>, t: Tree<C>, u: Tree<C>)
    ensures Alike(t, u) ==> Hash(s, t) == Hash(s, u)
    ensures Injective(s) ==> (Hash(s, t) == Hash(s, u) <==> Alike(t, u))
  {
    UnsignedIffAlike(t, u);
  }

  lemma HashOfFilled<C>(s: Scheme<C>, t: Tree<C>, signer: Signer, hash: Bytes)
    ensures Unsigned(Refilled(t, Filled(signer, hash))) == Unsigned(t)
    ensures Hash(s, Refilled(t, Filled(signer, hash))) == Hash(s, t)
  {
    RefilledTwice(t, Filled(signer, hash), Stripped, Stripped);
  }

  /** Whatever signing accepts, authentication accepts, and gives back the message that was signed. */
  lemma SignThenAuthenticate<C>(s: Scheme<C>, t: Tree<C>, signer: Signer)
    requires Correct(s, signer)
    ensures SignAll(s, t, signer).Ok? ==> Authenticate(s, SignAll(s, t, signer).value) == Some(t)
    ensures SignAll(s, t, signer).Ok? <==> Signable(Slots(t), signer, Hash(s, t))
  {
    var hash := Hash(s, t);
    var slots := Slots(t);
    SigningFailsAtLastObjection(slots, signer, hash);
    if Objections(slots, signer, hash).None? {
      var signed := Refilled(t, Filled(signer, hash));
      HashOfFilled(s, t, signer, hash);
      SlotsOfRefilled(t, Filled(signer, hash));
      forall i | 0 <= i < |Slots(signed)|
        ensures Verify(s, Slots(signed)[i], hash)
      {
        assert Slots(signed)[i] == Filled(signer, hash)(slots[i]);
      }
      assert forall x :: x in slots ==> x.signature == [] && Stripped(x) == x;
      RefilledSame(t, Stripped);
    }
  }

  /** A message can be authenticated again after its signatures were stripped only if it has no slot. */
  lemma StrippedMessagesDoNotAuthenticate<C>(s: Scheme<C>, t: Tree<C>)
    ensures Authenticate(s, Unsigned(t)).Some? <==> Slots(t) == []
  {
    SlotsOfRefilled(t, Stripped);
    if Slots(t) != [] {
      assert Slots(Unsigned(t))[0].signature == [];
    }
  }

  // ---------- The traversals, updating slots in place ----------

  /** A signature of a message in memory. */
  class SignatureSlot {
    const publicKey: Bytes
    var signature: Bytes

    constructor (publicKey: Bytes, signature: Bytes)
      ensures this.publicKey == publicKey && this.signature == signature
    {
      this.publicKey := publicKey;
      this.signature := signature;
    }
  }

  /** A message in memory: it owns its slots, so no two parts of it share one. */
  datatype Message<C> = Plain(content: C) | Signed(slot: SignatureSlot) | Parts(parts: seq<Message<C>>)

  ghost function Repr<C>(m: Message<C>): set<SignatureSlot> {
    match m
    case Plain(_) => {}
    case Signed(slot) => {slot}
    case Parts(parts) => set i, slot | 0 <= i < |parts| && slot in Repr(parts[i]) :: slot
  }

  ghost predicate Owned<C>(m: Message<C>) {
    m.Parts? ==>
      && (forall i :: 0 <= i < |m.parts| ==> Owned(m.parts[i]))
      && (forall i, j :: 0 <= i < j < |m.parts| ==> Repr(m.parts[i]) !! Repr(m.parts[j]))
  }

  /** The message as a value. */
  function Value<C>(m: Message<C>): Tree<C>
    reads Repr(m)
  {
    match m
    case Plain(c) => Leaf(c)
    case Signed(slot) => Slot(Signature(slot.publicKey, slot.signature))
    case Parts(parts) => Group(seq(|parts|, i requires 0 <= i < |parts| reads Repr(m) => Value(parts[i])))
  }

  /** The slots of a message exist: writing to newer or to other slots leaves it as it is. */
  lemma {:induction false} SlotsExist<C>(m: Message<C>)
    ensures forall slot :: slot in Repr(m) ==> allocated(slot)
  {
    if m.Parts? {
      forall i | 0 <= i < |m.parts|
        ensures forall slot :: slot in Repr(m.parts[i]) ==> allocated(slot)
      {
        SlotsExist(m.parts[i]);
      }
    }
  }

  lemma AllSlotsExist<C>(ms: seq<Message<C>>)
    ensures forall i, slot :: 0 <= i < |ms| && slot in Repr(ms[i]) ==> allocated(slot)
  {
    forall i | 0 <= i < |ms|
      ensures forall slot :: slot in Repr(ms[i]) ==> allocated(slot)
    {
      SlotsExist(ms[i]);
    }
  }

  method UnsignAll<C>(m: Message<C>)
    requires Owned(m)
    modifies Repr(m)
    ensures Value(m) == Unsigned(old(Value(m)))
  {
    SlotsExist(m);
    match m
    case Plain(_) =>
    case Signed(slot) => slot.signature := [];
    case Parts(parts) =>
      for i := 0 to |parts|
        invariant forall j :: 0 <= j < i ==> Value(parts[j]) == Unsigned(old(Value(parts[j])))
        invariant forall j :: i <= j < |parts| ==> Value(parts[j]) == old(Value(parts[j]))
      {
        AllSlotsExist(parts);
        UnsignAll(parts[i]);
      }
  }

  method Clone<C>(m: Message<C>) returns (c: Message<C>)
    ensures Owned(c) && fresh(Repr(c))
    ensures Value(c) == Value(m)
  {
    SlotsExist(m);
    match m
    case Plain(content) => c := Plain(content);
    case Signed(slot) =>
      var copy := new SignatureSlot(slot.publicKey, slot.signature);
      c := Signed(copy);
    case Parts(parts) =>
      var copies: seq<Message<C>> := [];
      for i := 0 to |parts|
        invariant |copies| == i
        invariant forall j :: 0 <= j < i ==> Owned(copies[j]) && fresh(Repr(copies[j]))
        invariant Value(m) == old(Value(m))
        invariant forall j :: 0 <= j < i ==> Value(copies[j]) == old(Value(parts[j]))
        invariant forall j, k :: 0 <= j < k < i ==> Repr(copies[j]) !! Repr(copies[k])
      {
        SlotsExist(m);
        AllSlotsExist(copies);
        assert Value(parts[i]) == Value(m).kids[i];
        var copy := Clone(parts[i]);
        copies := copies + [copy];
      }
      c := Parts(copies);
  }

  /** The hash is taken of a stripped copy; the message itself does not change. */
  method HashOf<C>(s: Scheme<C>, m: Message<C>) returns (hash: Bytes)
    ensures hash == Hash(s, Value(m))
  {
    SlotsExist(m);
    var unbound := Clone(m);
    UnsignAll(unbound);
    hash := s.digest(Value(unbound));
  }

  function Content(slot: SignatureSlot): Signature
    reads slot
  {
    Signature(slot.publicKey, slot.signature)
  }

  /** Fills a slot or leaves it; `error` is the variable that an objection overwrites. */
  method FillSlot(slot: SignatureSlot, signer: Signer, hash: Bytes, error: Option<SignError>)
    returns (r: Option<SignError>)
    modifies slot
    ensures Content(slot) == Filled(signer, hash)(old(Content(slot)))
    ensures r == Later(Objection(old(Content(slot)), signer, hash), error)
  {
    r := error;
    if slot.signature == [] {
      var sig := signer(slot.publicKey, hash);
      if sig.Some? {
        slot.signature := sig.value;
      } else {
        r := Some(MissingKeypair);
      }
    } else {
      r := Some(AlreadySigned);
    }
  }

  lemma ObjectionsOfOne(s: Signature, signer: Signer, hash: Bytes)
    ensures Objections([s], signer, hash) == Objection(s, signer, hash)
  {
    assert [s][..0] == [];
  }

  /** Visits every slot to fill it. */
  method SignSlots<C>(m: Message<C>, signer: Signer, hash: Bytes, error: Option<SignError>)
    returns (r: Option<SignError>)
    requires Owned(m)
    modifies Repr(m)
    ensures Value(m) == Refilled(old(Value(m)), Filled(signer, hash))
    ensures r == Later(Objections(Slots(old(Value(m))), signer, hash), error)
    decreases m, 1
  {
    hide Filled, Objection, Objections, Refilled;
    RefilledSingle<C>(Filled(signer, hash));
    match m
    case Plain(_) =>
      r := error;
      NoObjections(signer, hash);
    case Signed(slot) =>
      ObjectionsOfOne(Content(slot), signer, hash);
      r := FillSlot(slot, signer, hash, error);
    case Parts(parts) =>
      r := SignParts(parts, signer, hash, error);
  }

  /** Visits the parts of a message in order; the error is handed on from one to the next. */
  method SignParts<C>(parts: seq<Message<C>>, signer: Signer, hash: Bytes, error: Option<SignError>)
    returns (r: Option<SignError>)
    requires Owned(Parts(parts))
    modifies Repr(Parts(parts))
    ensures Value(Parts(parts)) == Refilled(old(Value(Parts(parts))), Filled(signer, hash))
    ensures r == Later(Objections(Slots(old(Value(Parts(parts)))), signer, hash), error)
    decreases Parts(parts), 0
  {
    hide Filled, Objection, Objections, Refilled;
    ghost var was := Value(Parts(parts)).kids;
    r := error;
    NoObjections(signer, hash);
    for i := 0 to |parts|
      invariant forall j :: 0 <= j < i ==> Value(parts[j]) == Refilled(was[j], Filled(signer, hash))
      invariant forall j :: i <= j < |parts| ==> Value(parts[j]) == was[j]
      invariant r == Later(Objections(AllSlots(was[..i]), signer, hash), error)
    {
      AllSlotsExist(parts);
      r := SignSlots(parts[i], signer, hash, r);
      OneMoreSlots(was, i);
      ObjectionsConcat(AllSlots(was[..i]), Slots(was[i]), signer, hash);
    }
    assert was[..|parts|] == was;
    RefilledGroup(was, Filled(signer, hash), Value(Parts(parts)).kids);
  }

  lemma NoObjections(signer: Signer, hash: Bytes)
    ensures Objections([], signer, hash) == None
  {}

  lemma OneMoreSlots<C>(kids: seq<Tree<C>>, i: nat)
    requires i < |kids|
    ensures AllSlots(kids[..i + 1]) == AllSlots(kids[..i]) + Slots(kids[i])
  {
    assert kids[..i + 1][..i] == kids[..i];
  }

  /** Fills every blank slot with a signature over the hash of the message. */
  method SignInPlace<C>(s: Scheme<C>, m: Message<C>, signer: Signer) returns (r: Result<(), SignError>)
    requires Owned(m)
    modifies Repr(m)
    ensures r.Ok? ==> SignAll(s, old(Value(m)), signer) == Ok(Value(m))
    ensures r.Err? ==> SignAll(s, old(Value(m)), signer) == Err(r.error)
  {
    SlotsExist(m);
    var hash := HashOf(s, m);
    assert Value(m) == old(Value(m));
    var error := SignSlots(m, signer, hash, None);
    r := if error.Some? then Err(error.value) else Ok(());
  }

  method VerifySlots<C>(s: Scheme<C>, m: Message<C>, hash: Bytes) returns (ok: bool)
    ensures ok <==> AllVerify(s, Slots(Value(m)), hash)
  {
    SlotsExist(m);
    ok := true;
    match m
    case Plain(_) =>
    case Signed(slot) =>
      ok := Verify(s, Signature(slot.publicKey, slot.signature), hash);
      assert Slots(Value(m))[0] == Signature(slot.publicKey, slot.signature);
    case Parts(parts) =>
      ghost var values := Value(m).kids;
      for i := 0 to |parts|
        invariant Value(m) == Group(values)
        invariant ok <==> AllVerify(s, AllSlots(values[..i]), hash)
      {
        SlotsExist(m);
        assert Value(parts[i]) == Value(m).kids[i];
        var valid := VerifySlots(s, parts[i], hash);
        ok := ok && valid;
        OneMoreSlots(values, i);
        AllVerifyConcat(s, AllSlots(values[..i]), Slots(values[i]), hash);
      }
      assert values[..|parts|] == values;
  }

  lemma AllVerifyConcat<C>(s: Scheme<C>, a: seq<Signature>, b: seq<Signature>, hash: Bytes)
    ensures AllVerify(s, a + b, hash) <==> AllVerify(s, a, hash) && AllVerify(s, b, hash)
  {
    if AllVerify(s, a + b, hash) {
      forall i | 0 <= i < |a|
        ensures Verify(s, a[i], hash)
      {
        assert (a + b)[i] == a[i];
      }
      forall i | 0 <= i < |b|
        ensures Verify(s, b[i], hash)
      {
        assert (a + b)[|a| + i] == b[i];
      }
    }
  }

  /** Verifies every signature over the hash of the message, then strips them all. */
  method AuthenticateInPlace<C>(s: Scheme<C>, m: Message<C>) returns (ok: bool)
    requires Owned(m)
    modifies Repr(m)
    ensures ok <==> Authenticate(s, old(Value(m))).Some?
    ensures Value(m) == if ok then Authenticate(s, old(Value(m))).value else old(Value(m))
  {
    SlotsExist(m);
    var hash := HashOf(s, m);
    assert Value(m) == old(Value(m));
    ok := VerifySlots(s, m, hash);
    if ok {
      UnsignAll(m);
    }
  }
}
