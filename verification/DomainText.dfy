/**
  Domain names as stored: labels in reversed order, each after a dot, so that the names below a
  registered domain share a prefix.
 */
module DomainText {
  import opened Basics
  import opened Domains
  import opened Text

  /** A label has at least one character, and neither a dot nor the separator of store keys. */
  predicate GoodLabel(l: string) {
    l != "" && Free(l, '.') && Free(l, '/')
  }

  predicate GoodName(d: Domain) {
    forall i :: 0 <= i < |d| ==> GoodLabel(d[i])
  }

  function Reversed(labels: seq<string>): (r: seq<string>)
    ensures |r| == |labels|
    ensures forall i :: 0 <= i < |labels| ==> r[i] == labels[|labels| - 1 - i]
  {
    seq(|labels|, i requires 0 <= i < |labels| => labels[|labels| - 1 - i])
  }

  lemma ReversedTwice(labels: seq<string>)
    ensures Reversed(Reversed(labels)) == labels
  {}

  /** The stored form of a name; the root is a single dot. */
  function Show(d: Domain): string {
    "." + Join(Reversed(d), '.')
  }

  function TrimDots(s: string): string {
    if s != "" && s[0] == '.' then TrimDots(s[1..]) else s
  }

  /** The parts between dots; a final dot ends the last one. */
  function Labels(s: string): seq<string> {
    if s != "" && s[|s| - 1] == '.' then Split(s[..|s| - 1], '.') else Split(s, '.')
  }

  /** Reads a name in ordinary order with its final dot; nothing, when a label is not good. */
  function ParseName(s: string): Option<Domain> {
    if s == "." then Some([])
    else if GoodName(Labels(s)) then Some(Labels(s))
    else None
  }

  /** A name in ordinary order with its final dot. */
  function ShowName(d: Domain): string {
    if d == [] then "." else Join(d, '.') + "."
  }

  /** Reads a stored form: the labels are put back into ordinary order and parsed as a name. */
  function Parse(s: string): Option<Domain> {
    ParseName(Join(Reversed(Split(TrimDots(s), '.')), '.') + ".")
  }

  lemma {:induction false} JoinStartsWithLabel(labels: seq<string>)
    requires labels != [] && GoodName(labels)
    ensures Join(labels, '.') != "" && Join(labels, '.')[0] == labels[0][0]
    ensures Join(labels, '.') != "."
  {
    if |labels| > 1 {
      assert labels[0][0] in labels[0];
    } else {
      assert labels[0][0] in labels[0];
    }
  }

  /** Whatever is read as a name has good labels. */
  lemma ParsedNamesAreGood(s: string)
    requires ParseName(s).Some?
    ensures GoodName(ParseName(s).value)
  {}

  /** Reading the ordinary form gives back the name. */
  lemma NameRoundTrip(d: Domain)
    requires GoodName(d)
    ensures ParseName(ShowName(d)) == Some(d)
  {
    if d != [] {
      JoinStartsWithLabel(d);
      var name := Join(d, '.') + ".";
      assert name[..|name| - 1] == Join(d, '.');
      SplitJoin(d, '.');
    }
  }

  /** Reading the stored form gives back the name, also for the root. */
  lemma RoundTrip(d: Domain)
    requires GoodName(d)
    ensures Parse(Show(d)) == Some(d)
  {
    var r := Reversed(d);
    if d == [] {
      assert Show(d) == ".";
      assert TrimDots(".") == "" by { assert "."[1..] == ""; }
      assert Reversed([""]) == [""];
    } else {
      assert GoodName(r);
      JoinStartsWithLabel(r);
      var j := Join(r, '.');
      assert r[0][0] in r[0];
      assert Show(d)[1..] == j;
      assert TrimDots(Show(d)) == j;
      SplitJoin(r, '.');
      ReversedTwice(d);
      NameRoundTrip(d);
    }
  }

  /** Different names have different stored forms. */
  lemma ShowInjective(d: Domain, e: Domain)
    requires GoodName(d) && GoodName(e) && Show(d) == Show(e)
    ensures d == e
  {
    RoundTrip(d);
    RoundTrip(e);
  }

  /** The labels each after a dot. */
  function Dotted(labels: seq<string>): string {
    if labels == [] then "" else "." + labels[0] + Dotted(labels[1..])
  }

  lemma {:induction false} DottedIsJoin(labels: seq<string>)
    requires labels != []
    ensures Dotted(labels) == "." + Join(labels, '.')
  {
    if |labels| == 1 {
      assert labels[1..] == [];
    } else {
      DottedIsJoin(labels[1..]);
    }
  }

  lemma DottedOfNone(r: seq<string>, e: seq<string>)
    requires r == [] || e == []
    ensures Dotted(r) + "." <= Dotted(e) <==> r < e
  {
    if e == [] {
      assert Dotted(e) == "" && |Dotted(r) + "."| > 0;
    } else {
      assert Dotted(r) + "." == "." && Dotted(e)[0] == '.';
    }
  }

  lemma ContinuesLabelwise(r: seq<string>, e: seq<string>)
    requires r != [] && e != []
    ensures r < e <==> r[0] == e[0] && r[1..] < e[1..]
  {
    assert r == [r[0]] + r[1..] && e == [e[0]] + e[1..];
  }

  /** A dotted list with one more dot is a prefix of another exactly when the other continues it. */
  lemma {:induction false} DottedPrefix(r: seq<string>, e: seq<string>)
    requires GoodName(r) && GoodName(e)
    ensures Dotted(r) + "." <= Dotted(e) <==> r < e
  {
    if e == [] || r == [] {
      DottedOfNone(r, e);
    } else {
      hide Dotted, GoodLabel;
      DottedPrefix(r[1..], e[1..]);
      DottedTail(r, e);
      ContinuesLabelwise(r, e);
    }
  }

  lemma DottedCons(labels: seq<string>)
    requires labels != []
    ensures Dotted(labels) == "." + (labels[0] + Dotted(labels[1..]))
    ensures Dotted(labels[1..]) == "" || Dotted(labels[1..])[0] == '.'
    ensures (Dotted(labels[1..]) + ".")[0] == '.'
  {}

  lemma AppendInside(a: string, b: string, c: string, d: string)
    ensures a + (b + c) + d == a + (b + (c + d))
  {}

  /** The first labels are compared as fields that end at a dot. */
  lemma DottedTail(r: seq<string>, e: seq<string>)
    requires GoodName(r) && GoodName(e) && r != [] && e != []
    ensures Dotted(r) + "." <= Dotted(e) <==> r[0] == e[0] && Dotted(r[1..]) + "." <= Dotted(e[1..])
  {
    var x, y := Dotted(r[1..]) + ".", Dotted(e[1..]);
    assert Free(r[0], '.') && Free(e[0], '.');
    hide Dotted, GoodName, GoodLabel, Free;
    DottedCons(r);
    DottedCons(e);
    FieldBeforeRest(r[0], e[0], x, y, '.');
    PrefixAfter(".", r[0] + x, e[0] + y);
    assert Dotted(r) + "." == "." + (r[0] + x) by {
      AppendInside(".", r[0], Dotted(r[1..]), ".");
    }
  }

  lemma StrictlyUnderReversed(e: Domain, r: Domain)
    ensures StrictlyUnder(e, r) <==> Reversed(r) < Reversed(e)
  {
    var x, y := Reversed(r), Reversed(e);
    if x < y {
      forall i | 0 <= i < |r|
        ensures e[|e| - |r| + i] == r[i]
      {
        assert x[|r| - 1 - i] == y[|r| - 1 - i];
      }
      assert e[|e| - |r|..] == r;
    }
    if StrictlyUnder(e, r) {
      forall i | 0 <= i < |x|
        ensures x[i] == y[i]
      {
        assert r[|r| - 1 - i] == e[|e| - |r|..][|r| - 1 - i];
      }
    }
  }

  /**
    For a name other than the root, a stored form begins with its own form and a dot exactly when it
    names a strict subdomain: scanning by that prefix finds just the strict subdomains.
   */
  lemma ScanFindsStrictSubdomains(r: Domain, e: Domain)
    requires GoodName(r) && GoodName(e) && r != []
    ensures Show(r) + "." <= Show(e) <==> StrictlyUnder(e, r)
  {
    StrictlyUnderReversed(e, r);
    DottedIsJoin(Reversed(r));
    if e == [] {
      assert |Show(r) + "."| > |Show(e)|;
    } else {
      DottedIsJoin(Reversed(e));
      DottedPrefix(Reversed(r), Reversed(e));
    }
  }

  /**
    At the root the two listings differ: the form with a second dot is the prefix of no stored name,
    while the bare dot, which the listing of hashes uses instead, is the prefix of every one.
   */
  lemma ScanAtRoot(e: Domain)
    requires GoodName(e)
    ensures !(Show([]) + "." <= Show(e))
    ensures Show([]) <= Show(e)
  {
    if e != [] {
      JoinStartsWithLabel(Reversed(e));
      assert Reversed(e)[0][0] in Reversed(e)[0];
      assert Show(e)[1] != '.';
    }
  }

  lemma {:induction false} JoinHasNoSlash(labels: seq<string>)
    requires GoodName(labels)
    ensures Free(Join(labels, '.'), '/')
  {
    if |labels| > 1 {
      JoinHasNoSlash(labels[1..]);
    }
  }

  lemma ShowHasNoSlash(d: Domain)
    requires GoodName(d)
    ensures Free(Show(d), '/')
  {
    JoinHasNoSlash(Reversed(d));
  }
}
