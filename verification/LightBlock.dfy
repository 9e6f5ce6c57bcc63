/**
  Verification of a light block: the commit fits the header, every signature for the block is
  valid, and the validators that signed hold more than two thirds of the voting power.
 */
module LightBlocks {
  import opened Basics
  import opened Hex
  import opened Times

  const MAX_INT64: int := 0x7fff_ffff_ffff_ffff

  type Int64 = i: int | -MAX_INT64 - 1 <= i <= MAX_INT64

  datatype Validator = Validator(publicKey: Bytes, power: nat)

  datatype Header = Header(height: nat, hash: Bytes)

  datatype CommitSig = Absent | ForNil | ForBlock(timestamp: Time, signature: Option<Bytes>)

  datatype Commit = Commit(height: nat, round: nat, blockHash: Bytes, partsHash: Bytes, signatures: seq<CommitSig>)

  /** The content of a precommit vote that is signed. */
  datatype Vote = Vote(chainId: string, height: nat, round: nat, blockHash: Bytes, partsHash: Bytes, timestamp: Time)

  /** The encoding of votes, which fails for a malformed chain id, and the validators' signature scheme. */
  datatype Scheme = Scheme(encode: Vote -> Option<Bytes>, check: (Bytes, Bytes, Bytes) -> bool)

  datatype LightBlockError =
    | WrongSignatureCount
    | WrongHeight
    | WrongHash
    | MissingSignature(index: nat)
    | Unsignable(index: nat)
    | InvalidSignature(index: nat)
    | InsufficientPower(power: nat)

  // ---------- Voting power ----------

  /** The power of the validators whose positions are in the set. */
  function Power(validators: seq<Validator>, slots: set<nat>): (p: nat) {
    if validators == [] then 0
    else
      var n := |validators| - 1;
      Power(validators[..n], slots) + if n in slots then validators[n].power else 0
  }

  function Total(validators: seq<Validator>): nat {
    if validators == [] then 0
    else Total(validators[..|validators| - 1]) + validators[|validators| - 1].power
  }

  /** Two's complement at 64 bits. */
  function Wrap(i: int): Int64 {
    var r := i % 0x1_0000_0000_0000_0000;
    if r <= MAX_INT64 then r else r - 0x1_0000_0000_0000_0000
  }

  /** Division rounding towards zero. */
  function Quotient(a: int, b: nat): int
    requires b > 0
  {
    if a >= 0 then a / b else -(-a / b)
  }

  /** `(total * 2) / 3` in 64-bit arithmetic. */
  function Needed(total: Int64): Int64 {
    Quotient(Wrap(total * 2), 3)
  }

  // ---------- Commits ----------

  function Signers(c: Commit): (slots: set<nat>)
    ensures forall i: nat :: i in slots <==> i < |c.signatures| && c.signatures[i].ForBlock?
  {
    set i: nat | i < |c.signatures| && c.signatures[i].ForBlock?
  }

  function VoteOf(c: Commit, chainId: string, timestamp: Time): Vote {
    Vote(chainId, c.height, c.round, c.blockHash, c.partsHash, timestamp)
  }

  /** The validator at the given position signed the block of the commit, and its signature is valid. */
  predicate Signed(s: Scheme, v: Validator, c: Commit, chainId: string, sig: CommitSig) {
    && sig.ForBlock?
    && sig.signature.Some?
    && var bytes := s.encode(VoteOf(c, chainId, sig.timestamp));
    && bytes.Some?
    && s.check(v.publicKey, bytes.value, sig.signature.value)
  }

  ghost predicate WellFormed(s: Scheme, h: Header, c: Commit, validators: seq<Validator>, chainId: string) {
    && |validators| == |c.signatures|
    && h.height == c.height
    && h.hash == c.blockHash
    && forall i :: i in Signers(c) ==> Signed(s, validators[i], c, chainId, c.signatures[i])
  }

  ghost predicate Accepted(s: Scheme, h: Header, c: Commit, validators: seq<Validator>, chainId: string)
    requires Total(validators) <= MAX_INT64
  {
    && WellFormed(s, h, c, validators, chainId)
    && Power(validators, Signers(c)) > Needed(Total(validators))
  }

  lemma {:induction false} PowerOfPrefix(validators: seq<Validator>, slots: set<nat>, i: nat)
    requires i <= |validators|
    ensures Power(validators[..i], slots) <= Power(validators, slots) <= Total(validators)
  {
    if i < |validators| {
      var n := |validators| - 1;
      PowerOfPrefix(validators[..n], slots, i);
      assert validators[..n][..i] == validators[..i];
    } else {
      assert validators[..i] == validators;
      if i > 0 {
        PowerOfPrefix(validators[..i - 1], slots, i - 1);
      }
    }
  }

  /** The tally, which stops at the first signature for the block that is missing or invalid. */
  method VerifyLightBlock(s: Scheme, h: Header, c: Commit, validators: seq<Validator>, chainId: string)
    returns (r: Result<(), LightBlockError>)
    requires Total(validators) <= MAX_INT64
    ensures r.Ok? <==> Accepted(s, h, c, validators, chainId)
    ensures r.Err? && r.error.InsufficientPower? ==>
      WellFormed(s, h, c, validators, chainId) && r.error.power == Power(validators, Signers(c))
    ensures r.Err? && (r.error.MissingSignature? || r.error.Unsignable? || r.error.InvalidSignature?) ==>
      && |validators| == |c.signatures|
      && r.error.index in Signers(c)
      && !Signed(s, validators[r.error.index], c, chainId, c.signatures[r.error.index])
      && forall j :: j in Signers(c) && j < r.error.index ==> Signed(s, validators[j], c, chainId, c.signatures[j])
  {
    if |validators| != |c.signatures| {
      return Err(WrongSignatureCount);
    }
    if h.height != c.height {
      return Err(WrongHeight);
    }
    if h.hash != c.blockHash {
      return Err(WrongHash);
    }
    var total := ComputeTotal(validators);
    var needed := Needed(total);
    var tallied: Int64 := 0;
    for i := 0 to |c.signatures|
      invariant tallied == Power(validators[..i], Signers(c))
      invariant forall j :: j in Signers(c) && j < i ==> Signed(s, validators[j], c, chainId, c.signatures[j])
    {
      assert validators[..i + 1][..i] == validators[..i];
      PowerOfPrefix(validators, Signers(c), i + 1);
      match c.signatures[i]
      case Absent =>
      case ForNil =>
      case ForBlock(timestamp, signature) =>
        if signature.None? {
          return Err(MissingSignature(i));
        }
        var bytes := s.encode(VoteOf(c, chainId, timestamp));
        if bytes.None? {
          return Err(Unsignable(i));
        }
        if !s.check(validators[i].publicKey, bytes.value, signature.value) {
          return Err(InvalidSignature(i));
        }
        tallied := tallied + validators[i].power;
    }
    assert validators[..|c.signatures|] == validators;
    if tallied <= needed {
      return Err(InsufficientPower(tallied));
    }
    return Ok(());
  }

  method ComputeTotal(validators: seq<Validator>) returns (total: nat)
    ensures total == Total(validators)
  {
    total := 0;
    for i := 0 to |validators|
      invariant total == Total(validators[..i])
    {
      assert validators[..i + 1][..i] == validators[..i];
      total := total + validators[i].power;
    }
    assert validators[..|validators|] == validators;
  }

  // ---------- The threshold ----------

  /** The threshold stands for more than two thirds as long as twice the total does not overflow. */
  lemma ThresholdIsTwoThirds(total: nat, tallied: nat)
    requires 2 * total <= MAX_INT64
    ensures tallied > Needed(total) <==> 3 * tallied > 2 * total
  {
    assert Wrap(total * 2) == total * 2;
  }

  /**
    Floor division and 64-bit arithmetic make the threshold exact if and only if twice the total
    voting power fits 63 bits, which the Tendermint bound on it, an eighth of that range, implies.
   */
  lemma ThresholdExactIffNoOverflow(total: nat)
    requires total <= MAX_INT64
    ensures (forall tallied: nat :: tallied > Needed(total) <==> 3 * tallied > 2 * total) <==> 2 * total <= MAX_INT64
  {
    if 2 * total <= MAX_INT64 {
      forall tallied: nat
        ensures tallied > Needed(total) <==> 3 * tallied > 2 * total
      {
        ThresholdIsTwoThirds(total, tallied);
      }
    } else {
      assert Wrap(total * 2) == total * 2 - 0x1_0000_0000_0000_0000 < 0;
      var one: nat := 1;
      assert one > Needed(total) && !(3 * one > 2 * total);
    }
  }

  /** The validator signed, at that position and time, a vote of this chain for the block of the header. */
  ghost predicate SignedForHeader(s: Scheme, h: Header, c: Commit, chainId: string, v: Validator, sig: CommitSig)
    requires sig.ForBlock?
  {
    && sig.signature.Some?
    && exists bytes ::
      && s.encode(Vote(chainId, h.height, c.round, h.hash, c.partsHash, sig.timestamp)) == Some(bytes)
      && s.check(v.publicKey, bytes, sig.signature.value)
  }

  /**
    A commit is accepted if and only if it has a signature slot for every validator, every signature in
    it is valid for a vote for exactly the block of the header, and three times the power of those who
    signed exceeds twice the total.
   */
  lemma {:induction false} AcceptedIffTwoThirds(s: Scheme, h: Header, c: Commit, validators: seq<Validator>, chainId: string)
    requires 2 * Total(validators) <= MAX_INT64
    ensures Accepted(s, h, c, validators, chainId) <==>
            WellFormed(s, h, c, validators, chainId) && 3 * Power(validators, Signers(c)) > 2 * Total(validators)
    ensures WellFormed(s, h, c, validators, chainId) <==>
      && |validators| == |c.signatures|
      && c.height == h.height && c.blockHash == h.hash
      && forall i :: 0 <= i < |c.signatures| && c.signatures[i].ForBlock? ==>
           SignedForHeader(s, h, c, chainId, validators[i], c.signatures[i])
  {
    ThresholdIsTwoThirds(Total(validators), Power(validators, Signers(c)));
    if |validators| == |c.signatures| && c.height == h.height && c.blockHash == h.hash {
      forall i | 0 <= i < |c.signatures| && c.signatures[i].ForBlock?
        ensures Signed(s, validators[i], c, chainId, c.signatures[i])
          <==> SignedForHeader(s, h, c, chainId, validators[i], c.signatures[i])
      {}
    }
    hide Needed, Power, Total, Signed, SignedForHeader;
  }

  /** The power of a set of positions is the sum of the powers at them. */
  lemma PowerIsSum(validators: seq<Validator>, slots: set<nat>, i: nat)
    requires i < |validators| && i !in slots
    ensures Power(validators, {}) == 0
    ensures Power(validators, slots + {i}) == Power(validators, slots) + validators[i].power
  {
    PowerOfNone(validators);
    PowerOfOne(validators, i);
    PowerOfUnion(validators, slots, {i});
    assert slots * {i} == {};
  }

  lemma {:induction false} PowerOfNone(validators: seq<Validator>)
    ensures Power(validators, {}) == 0
  {
    if validators != [] {
      PowerOfNone(validators[..|validators| - 1]);
    }
  }

  lemma {:induction false} PowerOfOne(validators: seq<Validator>, i: nat)
    requires i < |validators|
    ensures Power(validators, {i}) == validators[i].power
  {
    var n := |validators| - 1;
    if i == n {
      PowerBelow(validators[..n], {i});
    } else {
      PowerOfOne(validators[..n], i);
    }
  }

  /** Positions beyond the validators have no power. */
  lemma {:induction false} PowerBelow(validators: seq<Validator>, slots: set<nat>)
    requires forall i :: i in slots ==> |validators| <= i
    ensures Power(validators, slots) == 0
  {
    if validators != [] {
      PowerBelow(validators[..|validators| - 1], slots);
    }
  }

  /** The total is the power of all positions. */
  lemma {:induction false} PowerOfAll(validators: seq<Validator>, slots: set<nat>)
    requires forall i: nat :: i < |validators| ==> i in slots
    ensures Power(validators, slots) == Total(validators)
  {
    if validators != [] {
      PowerOfAll(validators[..|validators| - 1], slots);
    }
  }

  // ---------- Quorums intersect ----------

  lemma {:induction false} PowerOfUnion(validators: seq<Validator>, a: set<nat>, b: set<nat>)
    ensures Power(validators, a) + Power(validators, b) == Power(validators, a + b) + Power(validators, a * b)
  {
    if validators != [] {
      PowerOfUnion(validators[..|validators| - 1], a, b);
    }
  }

  /**
    Two commits accepted against the same validators share signers with more than a third of the
    power, and each of these made a valid signature for both. When the commits are of one height and
    round but of different blocks, they all signed two different votes.
   */
  lemma QuorumsIntersect(
    s: Scheme, validators: seq<Validator>, chainId: string, h1: Header, c1: Commit, h2: Header, c2: Commit)
    requires 2 * Total(validators) <= MAX_INT64
    requires Accepted(s, h1, c1, validators, chainId) && Accepted(s, h2, c2, validators, chainId)
    ensures 3 * Power(validators, Signers(c1) * Signers(c2)) > Total(validators)
    ensures forall i :: i in Signers(c1) * Signers(c2) ==>
      && Signed(s, validators[i], c1, chainId, c1.signatures[i])
      && Signed(s, validators[i], c2, chainId, c2.signatures[i])
      && (h1.hash != h2.hash ==>
            VoteOf(c1, chainId, c1.signatures[i].timestamp) != VoteOf(c2, chainId, c2.signatures[i].timestamp))
  {
    var a, b := Signers(c1), Signers(c2);
    AcceptedIffTwoThirds(s, h1, c1, validators, chainId);
    AcceptedIffTwoThirds(s, h2, c2, validators, chainId);
    PowerOfUnion(validators, a, b);
    PowerOfPrefix(validators, a + b, 0);
  }
}
