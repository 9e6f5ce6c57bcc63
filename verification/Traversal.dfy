/**
  Message trees as a traversal sees them. A message is a leaf, a signature slot, or a group of
  messages: the fields of a struct or of an enum variant, the elements of a vector, the content of
  a box or of an option (none, when it is absent). Only signature slots concern signing.
 */
module Traversal {
  import opened Hex

  datatype Signature = Signature(publicKey: Bytes, signature: Bytes)

  datatype Tree<+C> = Leaf(content: C) | Slot(signature: Signature) | Group(kids: seq<Tree<C>>)

  /** The signatures of a message in the order in which a traversal visits them. */
  function Slots<C>(t: Tree<C>): seq<Signature> {
    match t
    case Leaf(_) => []
    case Slot(s) => [s]
    case Group(kids) => AllSlots(kids)
  }

  function AllSlots<C>(kids: seq<Tree<C>>): seq<Signature> {
    if kids == [] then [] else AllSlots(kids[..|kids| - 1]) + Slots(kids[|kids| - 1])
  }

  /** The message with `f` applied to every signature. */
  function Refilled<C>(t: Tree<C>, f: Signature -> Signature): Tree<C> {
    match t
    case Leaf(_) => t
    case Slot(s) => Slot(f(s))
    case Group(kids) => Group(seq(|kids|, i requires 0 <= i < |kids| => Refilled(kids[i], f)))
  }

  function Stripped(s: Signature): Signature {
    s.(signature := [])
  }

  function Unsigned<C>(t: Tree<C>): Tree<C> {
    Refilled(t, Stripped)
  }

  /** The messages have the same form and content, up to the bytes of signatures anywhere in them. */
  ghost predicate Alike<C>(t: Tree<C>, u: Tree<C>) {
    match t
    case Leaf(c) => u == Leaf(c)
    case Slot(s) => u.Slot? && u.signature.publicKey == s.publicKey
    case Group(kids) =>
      && u.Group?
      && |u.kids| == |kids|
      && forall i :: 0 <= i < |kids| ==> Alike(kids[i], u.kids[i])
  }

  function Mapped(slots: seq<Signature>, f: Signature -> Signature): (r: seq<Signature>)
    ensures |r| == |slots|
    ensures forall i :: 0 <= i < |slots| ==> r[i] == f(slots[i])
  {
    seq(|slots|, i requires 0 <= i < |slots| => f(slots[i]))
  }

  lemma RefilledGroup<C>(kids: seq<Tree<C>>, f: Signature -> Signature, refilled: seq<Tree<C>>)
    requires |refilled| == |kids|
    requires forall i :: 0 <= i < |kids| ==> refilled[i] == Refilled(kids[i], f)
    ensures Refilled(Group(kids), f) == Group(refilled)
  {
    assert Refilled(Group(kids), f).kids == refilled;
  }

  lemma RefilledSingle<C>(f: Signature -> Signature)
    ensures forall c: C :: Refilled(Leaf(c), f) == Leaf(c)
    ensures forall s: Signature :: Refilled(Tree<C>.Slot(s), f) == Tree<C>.Slot(f(s))
  {}

  /** Refilling changes the visited signatures one for one. */
  lemma {:induction false} SlotsOfRefilled<C>(t: Tree<C>, f: Signature -> Signature)
    ensures Slots(Refilled(t, f)) == Mapped(Slots(t), f)
  {
    if t.Group? {
      AllSlotsOfRefilled(t.kids, f);
    }
  }

  lemma {:induction false} AllSlotsOfRefilled<C>(kids: seq<Tree<C>>, f: Signature -> Signature)
    ensures AllSlots(seq(|kids|, i requires 0 <= i < |kids| => Refilled(kids[i], f))) == Mapped(AllSlots(kids), f)
  {
    if kids != [] {
      var n := |kids| - 1;
      var refilled := seq(|kids|, i requires 0 <= i < |kids| => Refilled(kids[i], f));
      assert refilled[..n] == seq(n, i requires 0 <= i < n => Refilled(kids[..n][i], f));
      AllSlotsOfRefilled(kids[..n], f);
      SlotsOfRefilled(kids[n], f);
    }
  }

  /** Refilling twice with functions that agree, on every slot, with refilling once. */
  lemma {:induction false} RefilledTwice<C>(
    t: Tree<C>, f: Signature -> Signature, g: Signature -> Signature, h: Signature -> Signature)
    requires forall s :: s in Slots(t) ==> g(f(s)) == h(s)
    ensures Refilled(Refilled(t, f), g) == Refilled(t, h)
  {
    if t.Group? {
      forall i | 0 <= i < |t.kids|
        ensures Refilled(Refilled(t.kids[i], f), g) == Refilled(t.kids[i], h)
      {
        KidSlots(t.kids, i);
        RefilledTwice(t.kids[i], f, g, h);
      }
    }
  }

  lemma {:induction false} RefilledSame<C>(t: Tree<C>, f: Signature -> Signature)
    requires forall s :: s in Slots(t) ==> f(s) == s
    ensures Refilled(t, f) == t
  {
    if t.Group? {
      forall i | 0 <= i < |t.kids|
        ensures Refilled(t.kids[i], f) == t.kids[i]
      {
        KidSlots(t.kids, i);
        RefilledSame(t.kids[i], f);
      }
    }
  }

  lemma {:induction false} KidSlots<C>(kids: seq<Tree<C>>, i: nat)
    requires i < |kids|
    ensures forall s :: s in Slots(kids[i]) ==> s in AllSlots(kids)
  {
    if i < |kids| - 1 {
      KidSlots(kids[..|kids| - 1], i);
    }
  }

  /** Stripping forgets just the signature bytes. */
  lemma {:induction false} UnsignedIffAlike<C>(t: Tree<C>, u: Tree<C>)
    ensures Unsigned(t) == Unsigned(u) <==> Alike(t, u)
  {
    if t.Group? && u.Group? && |t.kids| == |u.kids| {
      forall i | 0 <= i < |t.kids|
        ensures Unsigned(t.kids[i]) == Unsigned(u.kids[i]) <==> Alike(t.kids[i], u.kids[i])
      {
        UnsignedIffAlike(t.kids[i], u.kids[i]);
      }
      if Unsigned(t) == Unsigned(u) {
        forall i | 0 <= i < |t.kids|
          ensures Alike(t.kids[i], u.kids[i])
        {
          assert Unsigned(t).kids[i] == Unsigned(t.kids[i]) && Unsigned(u).kids[i] == Unsigned(u.kids[i]);
        }
      }
    } else if t.Group? && u.Group? {
      assert |Unsigned(t).kids| == |t.kids| && |Unsigned(u).kids| == |u.kids|;
    }
  }
}
