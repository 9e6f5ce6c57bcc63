/**
  Signed transactions. A transaction message is a message tree with one signature slot in each
  action; signing and authenticating it are the traversals of module Signing on that tree.
 */
module Authentication {
  import opened Basics
  import opened ChainModel
  import opened Hex
  import opened Messages
  import opened Signing
  import opened Traversal

  /** The parts of a transaction message that hold no signature. */
  datatype Content =
    | ChainPart(chainId: string)
    | ConfigPart(config: Option<ConfigMessage>)
    | TimePart(time: Option<Timestamp>)
    | ObservationPart(observation: Option<ObservationMessage>)

  function SignatureTree(signature: Option<Signature>): Tree<Content> {
    if signature.None? then Group([]) else Group([Slot(signature.value)])
  }

  function ActionTree(a: ActionMessage): Tree<Content> {
    match a
    case NoAction => Group([])
    case ReconfigureMessage(signature, config, notBefore, notAfter) =>
      Group([SignatureTree(signature), Leaf(ConfigPart(config)), Leaf(TimePart(notBefore)), Leaf(TimePart(notAfter))])
    case ObserveMessage(signature, observation) =>
      Group([SignatureTree(signature), Leaf(ObservationPart(observation))])
  }

  function ActionTrees(actions: seq<ActionMessage>): (trees: seq<Tree<Content>>)
    ensures |trees| == |actions|
    ensures forall i :: 0 <= i < |actions| ==> trees[i] == ActionTree(actions[i])
  {
    seq(|actions|, i requires 0 <= i < |actions| => ActionTree(actions[i]))
  }

  function TreeOf(m: TransactionMessage): Tree<Content> {
    Group([Leaf(ChainPart(m.chainId)), Group(ActionTrees(m.actions))])
  }

  function SignatureOf(a: ActionMessage): Option<Signature> {
    if a.NoAction? then None else a.signature
  }

  /** The signatures of actions, in order; actions without one are passed over. */
  function Signatures(actions: seq<ActionMessage>): seq<Signature> {
    if actions == [] then []
    else
      var last := SignatureOf(actions[|actions| - 1]);
      Signatures(actions[..|actions| - 1]) + if last.Some? then [last.value] else []
  }

  function WithSignature(a: ActionMessage, f: Signature -> Signature): ActionMessage {
    match a
    case ReconfigureMessage(Some(s), config, notBefore, notAfter) =>
      ReconfigureMessage(Some(f(s)), config, notBefore, notAfter)
    case ObserveMessage(Some(s), observation) => ObserveMessage(Some(f(s)), observation)
    case _ => a
  }

  function WithSignatures(m: TransactionMessage, f: Signature -> Signature): TransactionMessage {
    m.(actions := seq(|m.actions|, i requires 0 <= i < |m.actions| => WithSignature(m.actions[i], f)))
  }

  function Identity(a: Action): Bytes {
    match a
    case ReconfigureAction(r) => r.admin
    case ObserveAction(o) => o.oracle
  }

  // ---------- Signing and authenticating transactions ----------

  function MessageHash(s: Scheme<Content>, m: TransactionMessage): Bytes {
    Signing.Hash(s, TreeOf(m))
  }

  function SignTransaction(s: Scheme<Content>, tx: Transaction, signer: Signer): Result<TransactionMessage, SignError>
    requires WellFormed(tx)
  {
    var m := ShowTransaction(tx);
    var objection := Objections(Slots(TreeOf(m)), signer, MessageHash(s, m));
    if objection.Some? then Err(objection.value)
    else Ok(WithSignatures(m, Filled(signer, MessageHash(s, m))))
  }

  function AuthenticateTransaction(s: Scheme<Content>, m: TransactionMessage): Option<Transaction> {
    if AllVerify(s, Slots(TreeOf(m)), MessageHash(s, m)) then ParseTransaction(WithSignatures(m, Stripped)) else None
  }

  // ---------- The tree of a transaction message ----------

  lemma SlotsOfPair<C>(a: Tree<C>, b: Tree<C>)
    ensures Slots(Group([a, b])) == Slots(a) + Slots(b)
  {
    SlotsOfOne(a);
    assert [a] + [b] == [a, b];
    LastSlots([a], b);
  }

  lemma SlotsOfOne<C>(a: Tree<C>)
    ensures AllSlots([a]) == Slots(a)
  {
    assert [a] == [] + [a];
    LastSlots([], a);
  }

  lemma LastSlots<C>(kids: seq<Tree<C>>, last: Tree<C>)
    ensures AllSlots(kids + [last]) == AllSlots(kids) + Slots(last)
  {
    assert (kids + [last])[..|kids|] == kids;
  }

  lemma SlotsOfOption(signature: Option<Signature>)
    ensures Slots(SignatureTree(signature)) == if signature.Some? then [signature.value] else []
  {
    if signature.Some? {
      SlotsOfOne(Tree<Content>.Slot(signature.value));
    }
  }

  lemma SlotsOfAction(a: ActionMessage)
    ensures Slots(ActionTree(a)) == if SignatureOf(a).Some? then [SignatureOf(a).value] else []
  {
    match a
    case NoAction =>
    case ReconfigureMessage(signature, config, notBefore, notAfter) =>
      SlotsOfOption(signature);
      var x, y := SignatureTree(signature), Leaf(ConfigPart(config));
      var z, w := Leaf(TimePart(notBefore)), Leaf(TimePart(notAfter));
      SlotsOfPair(x, y);
      assert [x, y] + [z] == [x, y, z] && [x, y, z] + [w] == [x, y, z, w];
      LastSlots([x, y], z);
      LastSlots([x, y, z], w);
      assert Slots(y) == Slots(z) == Slots(w) == [];
    case ObserveMessage(signature, observation) =>
      SlotsOfOption(signature);
      SlotsOfPair(SignatureTree(signature), Leaf(ObservationPart(observation)));
  }

  lemma {:induction false} SlotsOfActions(actions: seq<ActionMessage>)
    ensures AllSlots(ActionTrees(actions)) == Signatures(actions)
  {
    if actions != [] {
      var n := |actions| - 1;
      assert ActionTrees(actions)[..n] == ActionTrees(actions[..n]);
      SlotsOfActions(actions[..n]);
      SlotsOfAction(actions[n]);
    }
  }

  /** A traversal visits the signatures of the actions, in order, and no others. */
  lemma SlotsAreSignatures(m: TransactionMessage)
    ensures Slots(TreeOf(m)) == Signatures(m.actions)
  {
    var kids := TreeOf(m).kids;
    assert kids == [kids[0], kids[1]];
    SlotsOfPair(kids[0], kids[1]);
    SlotsOfActions(m.actions);
    assert Slots(kids[0]) == [] && Slots(kids[1]) == Signatures(m.actions);
  }

  lemma RefilledAction(a: ActionMessage, f: Signature -> Signature)
    ensures Refilled(ActionTree(a), f) == ActionTree(WithSignature(a, f))
  {
    if SignatureOf(a).Some? {
      var s := SignatureOf(a).value;
      RefilledGroup([Tree<Content>.Slot(s)], f, [Tree<Content>.Slot(f(s))]);
    }
    RefilledGroup(ActionTree(a).kids, f, ActionTree(WithSignature(a, f)).kids);
  }

  /** Changing the signatures of the message is refilling its tree. */
  lemma RefilledMessage(m: TransactionMessage, f: Signature -> Signature)
    ensures Refilled(TreeOf(m), f) == TreeOf(WithSignatures(m, f))
  {
    var kids, refilled := TreeOf(m).kids, TreeOf(WithSignatures(m, f)).kids;
    forall i | 0 <= i < |m.actions|
      ensures refilled[1].kids[i] == Refilled(kids[1].kids[i], f)
    {
      RefilledAction(m.actions[i], f);
    }
    RefilledGroup(kids[1].kids, f, refilled[1].kids);
    RefilledGroup(kids, f, refilled);
  }

  lemma {:induction false} SignatureListed(actions: seq<ActionMessage>, i: nat)
    requires i < |actions| && SignatureOf(actions[i]).Some?
    ensures SignatureOf(actions[i]).value in Signatures(actions)
  {
    if i < |actions| - 1 {
      SignatureListed(actions[..|actions| - 1], i);
    }
  }

  lemma {:induction false} ListedSignature(actions: seq<ActionMessage>, s: Signature) returns (i: nat)
    requires s in Signatures(actions)
    ensures i < |actions| && SignatureOf(actions[i]) == Some(s)
  {
    var n := |actions| - 1;
    if s in Signatures(actions[..n]) {
      i := ListedSignature(actions[..n], s);
    } else {
      i := n;
    }
  }

  // ---------- Main results ----------

  ghost predicate HasKeys(s: Scheme<Content>, tx: Transaction, signer: Signer)
    requires WellFormed(tx)
  {
    forall i :: 0 <= i < |tx.actions| ==>
      signer(Identity(tx.actions[i]), MessageHash(s, ShowTransaction(tx))).Some?
  }

  /** The slots of a converted transaction are blank ones for the identities of its actions. */
  lemma ShownSlots(tx: Transaction)
    requires WellFormed(tx)
    ensures var slots := Slots(TreeOf(ShowTransaction(tx)));
            && (forall s :: s in slots ==> exists j :: 0 <= j < |tx.actions| && s == Blank(Identity(tx.actions[j])))
            && (forall j :: 0 <= j < |tx.actions| ==> Blank(Identity(tx.actions[j])) in slots)
  {
    var m := ShowTransaction(tx);
    SlotsAreSignatures(m);
    forall j | 0 <= j < |tx.actions|
      ensures SignatureOf(m.actions[j]) == Some(Blank(Identity(tx.actions[j])))
      ensures Blank(Identity(tx.actions[j])) in Signatures(m.actions)
    {
      assert m.actions[j] == ShowAction(tx.actions[j]);
      SignatureListed(m.actions, j);
    }
    hide ShowTransaction, TreeOf, Signatures, SignatureOf;
    forall s | s in Signatures(m.actions)
      ensures exists j :: 0 <= j < |tx.actions| && s == Blank(Identity(tx.actions[j]))
    {
      var j := ListedSignature(m.actions, s);
    }
  }

  /** Signing a transaction fails only for lack of a key: the slots it makes are all blank. */
  lemma SigningNeedsJustTheKeys(s: Scheme<Content>, tx: Transaction, signer: Signer)
    requires WellFormed(tx)
    ensures SignTransaction(s, tx, signer).Ok? <==> HasKeys(s, tx, signer)
    ensures SignTransaction(s, tx, signer).Err? ==> SignTransaction(s, tx, signer).error == MissingKeypair
  {
    hide ShowTransaction, TreeOf, MessageHash, Objections, Slots;
    var m := ShowTransaction(tx);
    var hash := MessageHash(s, m);
    var slots := Slots(TreeOf(m));
    ShownSlots(tx);
    SigningFailsAtLastObjection(slots, signer, hash);
    if HasKeys(s, tx, signer) {
      forall i | 0 <= i < |slots|
        ensures slots[i].signature == [] && signer(slots[i].publicKey, hash).Some?
      {
        assert slots[i] in slots;
        var j :| 0 <= j < |tx.actions| && slots[i] == Blank(Identity(tx.actions[j]));
      }
    }
    var objection := Objections(slots, signer, hash);
    if objection.Some? {
      var i: nat :| LastObjectionAt(slots, signer, hash, i, objection.value);
      assert slots[i] in slots;
    }
  }

  /** Signing and authenticating a transaction are the traversals of its tree. */
  lemma TransactionsAreSignedByTraversal(s: Scheme<Content>, tx: Transaction, signer: Signer, m: TransactionMessage)
    requires WellFormed(tx)
    ensures SignAll(s, TreeOf(ShowTransaction(tx)), signer) ==
            match SignTransaction(s, tx, signer)
            case Ok(signed) => Ok(TreeOf(signed))
            case Err(e) => Err(e)
    ensures Authenticate(s, TreeOf(m)).Some? ==> Authenticate(s, TreeOf(m)).value == TreeOf(WithSignatures(m, Stripped))
    ensures AuthenticateTransaction(s, m).Some? ==> Authenticate(s, TreeOf(m)).Some?
  {
    var shown := ShowTransaction(tx);
    RefilledMessage(shown, Filled(signer, MessageHash(s, shown)));
    RefilledMessage(m, Stripped);
  }

  lemma StrippedShown(tx: Transaction)
    requires WellFormed(tx)
    ensures WithSignatures(ShowTransaction(tx), Stripped) == ShowTransaction(tx)
  {
    var m := ShowTransaction(tx);
    forall i | 0 <= i < |m.actions|
      ensures WithSignature(m.actions[i], Stripped) == m.actions[i]
    {
      assert m.actions[i] == ShowAction(tx.actions[i]);
    }
  }

  /**
    A transaction that was signed with all its keys authenticates, and comes back as it was if and
    only if its configurations are representable in messages.
   */
  lemma SignedTransactionsAuthenticate(s: Scheme<Content>, tx: Transaction, signer: Signer)
    requires WellFormed(tx) && Correct(s, signer) && HasKeys(s, tx, signer)
    ensures SignTransaction(s, tx, signer).Ok?
    ensures AuthenticateTransaction(s, SignTransaction(s, tx, signer).value).Some?
    ensures AuthenticateTransaction(s, SignTransaction(s, tx, signer).value) == Some(tx) <==> Faithful(tx)
  {
    SigningNeedsJustTheKeys(s, tx, signer);
    var m := ShowTransaction(tx);
    var hash := MessageHash(s, m);
    var fill := Filled(signer, hash);
    var signed := SignTransaction(s, tx, signer).value;
    RefilledMessage(m, fill);
    SignThenAuthenticate(s, TreeOf(m), signer);
    HashOfFilled(s, TreeOf(m), signer, hash);
    assert AllVerify(s, Slots(TreeOf(signed)), MessageHash(s, signed));
    assert WithSignatures(signed, Stripped) == WithSignatures(m, Stripped);
    StrippedShown(tx);
    TransactionRoundTrip(tx);
  }

  /**
    Every action of an authenticated transaction carries the identity of a key whose signature over
    the hash of the whole message was verified. An action without a signature slot, which the
    verifying traversal passes over, is refused by the conversion.
   */
  lemma AuthenticatedActionsAreSigned(s: Scheme<Content>, m: TransactionMessage)
    requires AuthenticateTransaction(s, m).Some?
    ensures var tx := AuthenticateTransaction(s, m).value;
            && tx.chainId == m.chainId
            && |tx.actions| == |m.actions|
            && forall i :: 0 <= i < |tx.actions| ==>
                 && SignatureOf(m.actions[i]).Some?
                 && SignatureOf(m.actions[i]).value.publicKey == Identity(tx.actions[i])
                 && Verify(s, SignatureOf(m.actions[i]).value, MessageHash(s, m))
  {
    var tx := AuthenticateTransaction(s, m).value;
    var stripped := WithSignatures(m, Stripped);
    SlotsAreSignatures(m);
    forall i | 0 <= i < |tx.actions|
      ensures SignatureOf(m.actions[i]).Some?
      ensures SignatureOf(m.actions[i]).value.publicKey == Identity(tx.actions[i])
      ensures Verify(s, SignatureOf(m.actions[i]).value, MessageHash(s, m))
    {
      assert ParseAction(stripped.actions[i]) == Some(tx.actions[i]);
      assert stripped.actions[i] == WithSignature(m.actions[i], Stripped);
      SignatureListed(m.actions, i);
    }
  }

  /** Reading a message does not look at the bytes of its signatures. */
  lemma StrippedParsesAlike(m: TransactionMessage)
    ensures ParseTransaction(WithSignatures(m, Stripped)) == ParseTransaction(m)
  {
    var stripped := WithSignatures(m, Stripped);
    forall i | 0 <= i < |m.actions|
      ensures ParseAction(stripped.actions[i]) == ParseAction(m.actions[i])
    {
      assert stripped.actions[i] == WithSignature(m.actions[i], Stripped);
    }
    var parsed, plain := Collect(stripped.actions, ParseAction), Collect(m.actions, ParseAction);
    if plain.Some? {
      assert forall i :: 0 <= i < |m.actions| ==> ParseAction(m.actions[i]).Some?;
      assert forall i :: 0 <= i < |plain.value| ==> Some(parsed.value[i]) == Some(plain.value[i]);
      assert parsed.value == plain.value;
    }
  }

  /** The action carries 64 bytes that the scheme accepts for its key and the hash of the message. */
  ghost predicate IsSigned(s: Scheme<Content>, m: TransactionMessage, i: nat)
    requires i < |m.actions|
  {
    var sig := SignatureOf(m.actions[i]);
    sig.Some? && |sig.value.signature| == 64 && s.check(sig.value.publicKey, sig.value.signature, MessageHash(s, m))
  }

  /** A message authenticates as a transaction if and only if it reads as this one and all its actions are signed. */
  lemma AuthenticatesIff(s: Scheme<Content>, m: TransactionMessage, tx: Transaction)
    ensures AuthenticateTransaction(s, m) == Some(tx) <==>
            ParseTransaction(m) == Some(tx) && forall i :: 0 <= i < |m.actions| ==> IsSigned(s, m, i)
  {
    hide MessageHash;
    StrippedParsesAlike(m);
    SlotsAreSignatures(m);
    if ParseTransaction(m) == Some(tx) {
      ParsedAreSigned(m);
      forall i | 0 <= i < |m.actions|
        ensures SignatureOf(m.actions[i]).Some? && SignatureOf(m.actions[i]).value in Signatures(m.actions)
      {
        SignatureListed(m.actions, i);
      }
      if forall i :: 0 <= i < |m.actions| ==> IsSigned(s, m, i) {
        forall j | 0 <= j < |Signatures(m.actions)|
          ensures Verify(s, Signatures(m.actions)[j], MessageHash(s, m))
        {
          var i := ListedSignature(m.actions, Signatures(m.actions)[j]);
          assert IsSigned(s, m, i);
        }
      }
    }
  }

  lemma ParsedAreSigned(m: TransactionMessage)
    requires ParseTransaction(m).Some?
    ensures forall i :: 0 <= i < |m.actions| ==> SignatureOf(m.actions[i]).Some?
  {
    forall i | 0 <= i < |m.actions|
      ensures SignatureOf(m.actions[i]).Some?
    {
      assert ParseAction(m.actions[i]).Some?;
    }
  }

  lemma TreeInjective(m: TransactionMessage, n: TransactionMessage)
    requires TreeOf(m) == TreeOf(n)
    ensures m == n
  {
    assert TreeOf(m).kids[0] == TreeOf(n).kids[0];
    var x, y := TreeOf(m).kids[1].kids, TreeOf(n).kids[1].kids;
    assert x == y && |x| == |m.actions| == |n.actions|;
    forall i | 0 <= i < |x|
      ensures m.actions[i] == n.actions[i]
    {
      assert ActionTree(m.actions[i]) == x[i] == ActionTree(n.actions[i]);
      ActionTreeInjective(m.actions[i], n.actions[i]);
    }
    assert m.actions == n.actions;
  }

  lemma ActionTreeInjective(a: ActionMessage, b: ActionMessage)
    requires ActionTree(a) == ActionTree(b)
    ensures a == b
  {
    var x, y := ActionTree(a).kids, ActionTree(b).kids;
    assert |x| == |y|;
    if |x| > 0 {
      assert x[0] == y[0] && x[1] == y[1];
      assert SignatureTree(a.signature).kids == SignatureTree(b.signature).kids;
      if a.signature.Some? {
        assert SignatureTree(a.signature).kids[0] == SignatureTree(b.signature).kids[0];
      }
      if |x| > 2 {
        assert x[2] == y[2] && x[3] == y[3];
      }
    }
  }

  /**
    No malleability: messages that hash alike and are both authenticated stand for one transaction,
    whatever bytes their signatures have; and the hash leaves out nothing else.
   */
  lemma HashDeterminesTransaction(s: Scheme<Content>, m: TransactionMessage, n: TransactionMessage)
    requires Injective(s) && MessageHash(s, m) == MessageHash(s, n)
    ensures WithSignatures(m, Stripped) == WithSignatures(n, Stripped)
    ensures AuthenticateTransaction(s, m).Some? && AuthenticateTransaction(s, n).Some? ==>
              AuthenticateTransaction(s, m) == AuthenticateTransaction(s, n)
  {
    RefilledMessage(m, Stripped);
    RefilledMessage(n, Stripped);
    TreeInjective(WithSignatures(m, Stripped), WithSignatures(n, Stripped));
  }
}
