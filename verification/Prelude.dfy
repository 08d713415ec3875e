/** Small datatypes and sequence facts shared by the other modules. */
module Prelude {
  datatype Option<+T> = None | Some(value: T)

  function Min(a: int, b: int): int { if a <= b then a else b }

  function Max(a: int, b: int): int { if a >= b then a else b }

  lemma ConcatAssoc<T>(a: seq<T>, b: seq<T>, c: seq<T>)
    ensures a + b + c == a + (b + c)
  {
  }

  /** The first element and the rest of a concatenation. */
  lemma ConcatCons<T>(a: seq<T>, b: seq<T>)
    requires a != []
    ensures (a + b)[0] == a[0] && (a + b)[1..] == a[1..] + b
  {
  }

  /** Distinct members of a set, taken out of it. */
  lemma {:induction false} DistinctCount<T>(xs: seq<T>, s: set<T>)
    requires forall i, j :: 0 <= i < j < |xs| ==> xs[i] != xs[j]
    requires forall i :: 0 <= i < |xs| ==> xs[i] in s
    ensures |s - (set x | x in xs)| == |s| - |xs|
    decreases |xs|
  {
    var members := set x | x in xs;
    if xs == [] {
      assert s - members == s;
    } else {
      var n := |xs| - 1;
      var rest := set x | x in xs[..n];
      assert xs == xs[..n] + [xs[n]];
      assert members == rest + {xs[n]};
      DistinctCount(xs[..n], s);
      assert s - members == (s - rest) - {xs[n]};
    }
  }

  /** A set whose members all occur in a sequence is no larger than it. */
  lemma {:induction false} SubsetFits<T>(s: set<T>, xs: seq<T>)
    requires forall x :: x in s ==> x in xs
    ensures |s| <= |xs|
    decreases |xs|
  {
    if xs == [] {
      assert s == {};
    } else {
      var n := |xs| - 1;
      assert xs == xs[..n] + [xs[n]];
      SubsetFits(s - {xs[n]}, xs[..n]);
    }
  }
}
