/** Splitting, joining and prefixes of text around a separator. `a <= b` says that a is a prefix of b. */
module Text {
  /** The fields between separators; one more than there are separators. */
  function Split(s: string, sep: char): (fields: seq<string>)
    ensures fields != []
  {
    if s == "" then [""]
    else
      var rest := Split(s[1..], sep);
      if s[0] == sep then [""] + rest
      else [[s[0]] + rest[0]] + rest[1..]
  }

  function Join(fields: seq<string>, sep: char): string {
    if fields == [] then ""
    else if |fields| == 1 then fields[0]
    else fields[0] + [sep] + Join(fields[1..], sep)
  }

  predicate Free(s: string, sep: char) {
    sep !in s
  }

  lemma {:induction false} SplitFree(s: string, sep: char)
    requires Free(s, sep)
    ensures Split(s, sep) == [s]
  {
    if s != "" {
      SplitFree(s[1..], sep);
      assert [s[0]] + s[1..] == s;
    }
  }

  /** The first field ends at the first separator. */
  lemma {:induction false} SplitFirst(a: string, rest: string, sep: char)
    requires Free(a, sep)
    ensures Split(a + [sep] + rest, sep) == [a] + Split(rest, sep)
  {
    var s := a + [sep] + rest;
    if a == "" {
      assert s[1..] == rest;
    } else {
      SplitFirst(a[1..], rest, sep);
      assert s[1..] == a[1..] + [sep] + rest;
      assert [a[0]] + a[1..] == a;
    }
  }

  /** Splitting undoes joining. */
  lemma {:induction false} SplitJoin(fields: seq<string>, sep: char)
    requires fields != [] && forall i :: 0 <= i < |fields| ==> Free(fields[i], sep)
    ensures Split(Join(fields, sep), sep) == fields
  {
    if |fields| == 1 {
      SplitFree(fields[0], sep);
    } else {
      SplitJoin(fields[1..], sep);
      SplitFirst(fields[0], Join(fields[1..], sep), sep);
      assert [fields[0]] + fields[1..] == fields;
    }
  }

  /** Two texts that agree up to their first separators have the same first field. */
  lemma {:induction false} SameFirstField(a: string, b: string, x: string, y: string, sep: char)
    requires Free(a, sep) && Free(b, sep)
    ensures a + [sep] + x <= b + [sep] + y <==> a == b && x <= y
  {
    if a == b {
      PrefixAfter(a + [sep], x, y);
    } else if a == "" {
      assert (a + [sep] + x)[0] == sep && (b + [sep] + y)[0] == b[0] && b[0] in b;
    } else if b == "" {
      assert (a + [sep] + x)[0] == a[0] && a[0] in a && (b + [sep] + y)[0] == sep;
    } else {
      SameFirstField(a[1..], b[1..], x, y, sep);
      PrefixCons(a + [sep] + x, b + [sep] + y);
      assert (a + [sep] + x)[1..] == a[1..] + [sep] + x;
      assert (b + [sep] + y)[1..] == b[1..] + [sep] + y;
      assert a == [a[0]] + a[1..] && b == [b[0]] + b[1..];
    }
  }

  /** The same where the second text may end with its first field. */
  lemma FieldBeforeRest(a: string, b: string, x: string, y: string, sep: char)
    requires Free(a, sep) && Free(b, sep)
    requires x != "" && x[0] == sep && (y == "" || y[0] == sep)
    ensures a + x <= b + y <==> a == b && x <= y
  {
    assert x == [sep] + x[1..] && a + x == a + [sep] + x[1..];
    if y == "" {
      assert b + y == b;
      assert (a + x)[|a|] == sep;
      if |a| < |b| {
        assert b[|a|] in b;
      }
    } else {
      assert y == [sep] + y[1..] && b + y == b + [sep] + y[1..];
      SameFirstField(a, b, x[1..], y[1..], sep);
      PrefixCons(x, y);
    }
  }

  lemma PrefixCons(s: string, t: string)
    requires s != "" && t != ""
    ensures s <= t <==> s[0] == t[0] && s[1..] <= t[1..]
  {
    if s[0] == t[0] && s[1..] <= t[1..] {
      assert t[1..][..|s| - 1] == s[1..];
      assert forall i :: 0 <= i < |s| ==> s[i] == t[i] by {
        forall i | 0 < i < |s|
          ensures s[i] == t[i]
        {
          assert s[1..][i - 1] == t[1..][i - 1];
        }
      }
    }
  }

  /** A common beginning can be cut off. */
  lemma PrefixAfter(p: string, x: string, y: string)
    ensures p + x <= p + y <==> x <= y
  {
    if p + x <= p + y {
      forall i | 0 <= i < |x|
        ensures x[i] == y[i]
      {
        assert (p + x)[|p| + i] == (p + y)[|p| + i];
      }
    }
  }

  /** A text without the separator is a prefix of what precedes the separator, or of nothing. */
  lemma FreePrefix(p: string, s: string, rest: string, sep: char)
    requires Free(p, sep)
    ensures p <= s + [sep] + rest <==> p <= s
  {
    var t := s + [sep] + rest;
    if |s| < |p| {
      assert t[|s|] == sep && p[|s|] in p;
    }
  }

  lemma FreeConcat(s: string, t: string, sep: char)
    ensures Free(s + t, sep) <==> Free(s, sep) && Free(t, sep)
  {}
}
