/** Small shared datatypes and facts about finite sets. */
module Basics {
  datatype Option<+T> = None | Some(value: T)

  datatype Result<+T, +E> = Ok(value: T) | Err(error: E)

  /** A sequence that lists every element of a set exactly once. */
  ghost predicate Lists<A>(r: seq<A>, s: set<A>) {
    && (forall i :: 0 <= i < |r| ==> r[i] in s)
    && (forall a :: a in s ==> a in r)
    && (forall i, j :: 0 <= i < j < |r| ==> r[i] != r[j])
  }

  lemma {:induction false} SubsetSize<A>(a: set<A>, b: set<A>)
    requires a <= b
    ensures |a| <= |b|
  {
    if a != {} {
      var x :| x in a;
      SubsetSize(a - {x}, b - {x});
    }
  }

  lemma SubsetOfSameSize<A>(a: set<A>, b: set<A>)
    requires a <= b && |b| <= |a|
    ensures a == b
  {
    if x :| x in b && x !in a {
      SubsetSize(a + {x}, b);
    }
  }

  lemma SingletonOf<A>(s: set<A>, a: A)
    requires a in s && |s| <= 1
    ensures s == {a}
  {
    SubsetOfSameSize({a}, s);
  }
}
