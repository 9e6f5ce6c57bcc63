/** Lower-case hexadecimal text, used to name voting parties by their public key. */
module Hex {
  const DIGITS: string := "0123456789abcdef"

  type Bytes = seq<bv8>

  function Digit(b: bv4): (c: char)
    ensures c in DIGITS
  {
    DIGITS[b as int]
  }

  function Encode(bytes: Bytes): (s: string)
    ensures |s| == 2 * |bytes|
    ensures forall i :: 0 <= i < |s| ==> s[i] in DIGITS
  {
    if bytes == [] then ""
    else [Digit((bytes[0] >> 4) as bv4), Digit((bytes[0] & 15) as bv4)] + Encode(bytes[1..])
  }

  lemma NibblesDetermineByte(x: bv8, y: bv8)
    requires (x >> 4) as bv4 == (y >> 4) as bv4 && (x & 15) as bv4 == (y & 15) as bv4
    ensures x == y
  {}

  lemma DigitInjective(a: bv4, b: bv4)
    requires Digit(a) == Digit(b)
    ensures a == b
  {}

  /** Different keys have different names. */
  lemma {:induction false} EncodeInjective(a: Bytes, b: Bytes)
    requires Encode(a) == Encode(b)
    ensures a == b
  {
    if a != [] && b != [] {
      var x, y := Encode(a), Encode(b);
      assert x[0] == y[0] && x[1] == y[1];
      DigitInjective((a[0] >> 4) as bv4, (b[0] >> 4) as bv4);
      DigitInjective((a[0] & 15) as bv4, (b[0] & 15) as bv4);
      NibblesDetermineByte(a[0], b[0]);
      assert x[2..] == Encode(a[1..]) && y[2..] == Encode(b[1..]);
      EncodeInjective(a[1..], b[1..]);
    }
  }

  /** A name never contains the separator of store keys. */
  lemma EncodeHasNoSlash(a: Bytes)
    ensures '/' !in Encode(a)
  {}
}
