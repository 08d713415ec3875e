/** The order of strings, and sorted lists of them without repetitions. */
module Ordering {
  /** Strings by their first difference. */
  predicate Less(a: string, b: string) {
    b != [] && (a == [] || a[0] < b[0] || (a[0] == b[0] && Less(a[1..], b[1..])))
  }

  lemma {:induction false} LessTransitive(a: string, b: string, c: string)
    requires Less(a, b) && Less(b, c)
    ensures Less(a, c)
  {
    if a != [] && a[0] == b[0] && b[0] == c[0] {
      LessTransitive(a[1..], b[1..], c[1..]);
    }
  }

  lemma {:induction false} LessTotal(a: string, b: string)
    ensures a == b || Less(a, b) || Less(b, a)
  {
    if a != [] && b != [] && a[0] == b[0] {
      LessTotal(a[1..], b[1..]);
      assert a == [a[0]] + a[1..] && b == [b[0]] + b[1..];
    }
  }

  lemma {:induction false} LessIrreflexive(a: string)
    ensures !Less(a, a)
  {
    if a != [] {
      LessIrreflexive(a[1..]);
    }
  }

  predicate Sorted(keys: seq<string>) {
    forall i, j :: 0 <= i < j < |keys| ==> Less(keys[i], keys[j])
  }

  /** One more key in a sorted list without repetitions. */
  method Insert(keys: seq<string>, key: string) returns (out: seq<string>)
    requires Sorted(keys)
    ensures Sorted(out) && forall k :: k in out <==> k in keys || k == key
  {
    var i := 0;
    while i < |keys| && Less(keys[i], key)
      invariant 0 <= i <= |keys| && forall j :: 0 <= j < i ==> Less(keys[j], key)
    {
      i := i + 1;
    }
    if i < |keys| && keys[i] == key {
      return keys;
    }
    out := keys[..i] + [key] + keys[i..];
    if i < |keys| {
      LessTotal(keys[i], key);
      forall j | i <= j < |keys|
        ensures Less(key, keys[j])
      {
        if i < j {
          LessTransitive(key, keys[i], keys[j]);
        }
      }
    }
    forall k
      ensures k in out <==> k in keys || k == key
    {
      assert keys == keys[..i] + keys[i..];
    }
  }

  /** The same as a function. */
  function Inserted(keys: seq<string>, key: string): seq<string> {
    if keys == [] then [key]
    else if keys[0] == key then keys
    else if Less(keys[0], key) then [keys[0]] + Inserted(keys[1..], key)
    else [key] + keys
  }

  lemma {:induction false} InsertedIs(keys: seq<string>, key: string)
    requires Sorted(keys)
    ensures Sorted(Inserted(keys, key))
    ensures forall k :: k in Inserted(keys, key) <==> k in keys || k == key
  {
    if keys != [] {
      assert keys == [keys[0]] + keys[1..];
      if keys[0] != key && Less(keys[0], key) {
        InsertedIs(keys[1..], key);
        var rest := Inserted(keys[1..], key);
        assert forall i :: 0 <= i < |rest| ==> rest[i] in rest;
      } else if keys[0] != key {
        LessTotal(keys[0], key);
        forall i | 0 <= i < |keys|
          ensures Less(key, keys[i])
        {
          if i > 0 {
            LessTransitive(key, keys[0], keys[i]);
          }
        }
      }
    }
  }

  /** A sorted list is determined by its members. */
  lemma {:induction false} SortedIsUnique(a: seq<string>, b: seq<string>)
    requires Sorted(a) && Sorted(b) && forall k :: k in a <==> k in b
    ensures a == b
    decreases |a|
  {
    if a == [] {
      assert forall i :: 0 <= i < |b| ==> b[i] in b;
    } else {
      assert a[0] in a && a[0] in b;
      FirstIsLeast(a, b);
      SortedTail(a);
      SortedTail(b);
      SortedIsUnique(a[1..], b[1..]);
      assert a == [a[0]] + a[1..] && b == [b[0]] + b[1..];
    }
  }

  lemma SortedTail(a: seq<string>)
    requires Sorted(a) && a != []
    ensures Sorted(a[1..]) && forall k :: k in a[1..] <==> k in a && k != a[0]
  {
    LessIrreflexive(a[0]);
    assert a == [a[0]] + a[1..];
    assert forall i :: 0 <= i < |a| - 1 ==> a[1..][i] == a[i + 1];
  }

  lemma FirstIsLeast(a: seq<string>, b: seq<string>)
    requires Sorted(a) && Sorted(b) && a != [] && forall k :: k in a <==> k in b
    ensures b != [] && a[0] == b[0]
  {
    assert a[0] in a && a[0] in b;
    assert b[0] in b && b[0] in a;
    var i :| 0 <= i < |b| && b[i] == a[0];
    var j :| 0 <= j < |a| && a[j] == b[0];
    if i > 0 && j > 0 {
      LessTransitive(a[0], b[0], a[0]);
      LessIrreflexive(a[0]);
    }
  }
}
