/**
  Fully qualified domain names. A name is the list of its labels, leaf first, as
  `sub.example.com.` lists them; the empty list is the root.
 */
module Domains {
  import opened Basics

  type Domain = seq<string>

  /** `is_subdomain_of`: equal to `r` or below it. */
  predicate Under(d: Domain, r: Domain) {
    |r| <= |d| && d[|d| - |r|..] == r
  }

  /** A strict subdomain in the sense of section 3.1 of RFC 1034. */
  predicate StrictlyUnder(d: Domain, r: Domain) {
    Under(d, r) && d != r
  }

  /** The name itself and its ancestors below the root, nearest first. */
  function Hierarchy(d: Domain): (h: seq<Domain>)
    ensures |h| == |d|
    ensures forall i :: 0 <= i < |h| ==> h[i] == d[i..]
  {
    if d == [] then [] else [d] + Hierarchy(d[1..])
  }

  /**
    The registered domain of a name in a zone: the ancestor with one more label than the zone,
    looked up by its place in the hierarchy. Nothing, when the depths do not allow it.
   */
  function RegisteredDomain(d: Domain, zone: Domain): (r: Option<Domain>)
    ensures r.Some? <==> |zone| < |d|
    ensures r.Some? ==> |r.value| == |zone| + 1 && Under(d, r.value)
  {
    var h := Hierarchy(d);
    if |d| <= |zone| then None else Some(h[|d| - |zone| - 1])
  }

  lemma UnderTransitive(a: Domain, b: Domain, c: Domain)
    requires Under(a, b) && Under(b, c)
    ensures Under(a, c)
  {
    assert a[|a| - |c|..] == a[|a| - |b|..][|b| - |c|..];
  }

  /** Two ancestors of one name are comparable, and equal when they have as many labels. */
  lemma AncestorsCompare(d: Domain, r: Domain, s: Domain)
    requires Under(d, r) && Under(d, s) && |r| <= |s|
    ensures Under(s, r) && (|r| == |s| ==> r == s)
  {
    assert s[|s| - |r|..] == d[|d| - |s|..][|s| - |r|..] == d[|d| - |r|..];
  }

  /** A strict subdomain of a zone has a registered domain, directly below the zone. */
  lemma RegisteredIsBelowZone(d: Domain, zone: Domain)
    requires StrictlyUnder(d, zone)
    ensures |zone| < |d|
    ensures RegisteredDomain(d, zone).Some?
    ensures RegisteredDomain(d, zone).value[1..] == zone
    ensures StrictlyUnder(RegisteredDomain(d, zone).value, zone)
  {
    var r := RegisteredDomain(d, zone).value;
    assert r == d[|d| - |zone| - 1..];
    assert r[1..] == d[|d| - |zone|..];
    AncestorsCompare(d, zone, r);
  }
}
