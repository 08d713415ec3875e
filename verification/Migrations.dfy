/**
 Discovery of migration files, and the order it gives them.
 */
module Migrations {
  import opened Ordering

  // ----- discovery ------------------------------------------------------------------------------

  /** A directory entry, as the two name patterns classify it. */
  datatype Entry = Up(version: string, name: string) | Down(version: string, name: string) | Other

  datatype Migration = Migration(version: string, name: string, hasDown: bool)

  function KeyOf(version: string, name: string): string {
    version + "_" + name
  }

  /** Version numbers are digits, so the first underscore of a key ends them. */
  predicate Digits(s: string) {
    forall i :: 0 <= i < |s| ==> '0' <= s[i] <= '9'
  }

  function UntilUnderscore(key: string): string {
    if key == [] || key[0] == '_' then [] else [key[0]] + UntilUnderscore(key[1..])
  }

  lemma {:induction false} KeySplits(version: string, name: string)
    requires Digits(version)
    ensures UntilUnderscore(KeyOf(version, name)) == version
    ensures KeyOf(version, name)[|version| + 1..] == name
  {
    if version == [] {
      assert KeyOf(version, name) == ['_'] + name;
    } else {
      KeySplits(version[1..], name);
      assert KeyOf(version, name)[1..] == KeyOf(version[1..], name);
    }
  }

  predicate Named(entries: seq<Entry>) {
    forall i :: 0 <= i < |entries| && !entries[i].Other? ==> Digits(entries[i].version)
  }

  ghost predicate KeysOf(entries: seq<Entry>, ups: set<string>, downs: set<string>) {
    && (forall k :: k in ups <==> exists j :: 0 <= j < |entries| && entries[j].Up? && KeyOf(entries[j].version, entries[j].name) == k)
    && (forall k :: k in downs <==> exists j :: 0 <= j < |entries| && entries[j].Down? && KeyOf(entries[j].version, entries[j].name) == k)
  }

  /** `discover_migrations`: one migration per key with an up file, in key order, rollbackable when
      the down file is there too. */
  method Discover(entries: seq<Entry>) returns (out: seq<Migration>)
    requires Named(entries)
    ensures InKeyOrder(out)
    ensures forall v, n :: Up(v, n) in entries <==> exists m :: m in out && m.version == v && m.name == n
    ensures forall m :: m in out ==> (m.hasDown <==> Down(m.version, m.name) in entries)
  {
    var keys: seq<string> := [];
    var ups: set<string>, downs: set<string> := {}, {};
    for i := 0 to |entries|
      invariant Sorted(keys)
      invariant forall k :: k in keys <==> k in ups || k in downs
      invariant KeysOf(entries[..i], ups, downs)
    {
      ghost var ups', downs' := ups, downs;
      if !entries[i].Other? {
        var key := KeyOf(entries[i].version, entries[i].name);
        keys := Insert(keys, key);
        if entries[i].Up? {
          ups := ups + {key};
        } else {
          downs := downs + {key};
        }
      }
      OneMoreEntry(entries, i, ups', downs', ups, downs);
    }
    assert entries[..|entries|] == entries;
    forall k | k in keys
      ensures SplitsBack(k)
    {
      KeysSplit(entries, ups, downs, k);
    }
    out := Collect(keys, ups, downs);
    EntriesOf(entries, ups, downs, out);
  }

  lemma OneMoreEntry(entries: seq<Entry>, i: nat, ups: set<string>, downs: set<string>, ups': set<string>, downs': set<string>)
    requires i < |entries| && KeysOf(entries[..i], ups, downs)
    requires var e := entries[i];
      && ups' == (if e.Up? then ups + {KeyOf(e.version, e.name)} else ups)
      && downs' == (if e.Down? then downs + {KeyOf(e.version, e.name)} else downs)
    ensures KeysOf(entries[..i + 1], ups', downs')
  {
    var a, b := entries[..i], entries[..i + 1];
    assert b[i] == entries[i] && forall j :: 0 <= j < i ==> b[j] == a[j];
  }

  function VersionOf(key: string): string { UntilUnderscore(key) }

  function NameOf(key: string): string {
    if |UntilUnderscore(key)| < |key| then key[|UntilUnderscore(key)| + 1..] else []
  }

  /** `key.split("_", 1)` recovers the two parts. */
  predicate SplitsBack(key: string) {
    Digits(VersionOf(key)) && KeyOf(VersionOf(key), NameOf(key)) == key
  }

  lemma KeysSplit(entries: seq<Entry>, ups: set<string>, downs: set<string>, k: string)
    requires Named(entries) && KeysOf(entries, ups, downs) && (k in ups || k in downs)
    ensures SplitsBack(k)
  {
    var j :| 0 <= j < |entries| && !entries[j].Other? && KeyOf(entries[j].version, entries[j].name) == k;
    KeySplits(entries[j].version, entries[j].name);
  }

  predicate InKeyOrder(ms: seq<Migration>) {
    forall i, j :: 0 <= i < j < |ms| ==> Less(KeyOf(ms[i].version, ms[i].name), KeyOf(ms[j].version, ms[j].name))
  }

  ghost predicate Collected(keys: seq<string>, ups: set<string>, downs: set<string>, out: seq<Migration>) {
    && (forall m :: m in out ==> KeyOf(m.version, m.name) in keys && KeyOf(m.version, m.name) in ups && Digits(m.version))
    && (forall m :: m in out ==> (m.hasDown <==> KeyOf(m.version, m.name) in downs))
    && (forall k :: k in keys && k in ups ==> exists m :: m in out && KeyOf(m.version, m.name) == k)
  }

  lemma CollectsOne(keys: seq<string>, ups: set<string>, downs: set<string>, out: seq<Migration>, m: Migration)
    requires Collected(keys, ups, downs, out) && Digits(m.version)
    requires var key := KeyOf(m.version, m.name); key in ups && (m.hasDown <==> key in downs)
    ensures Collected(keys + [KeyOf(m.version, m.name)], ups, downs, out + [m])
  {
    var key := KeyOf(m.version, m.name);
    assert m in out + [m];
    forall k | k in keys + [key] && k in ups
      ensures exists x :: x in out + [m] && KeyOf(x.version, x.name) == k
    {
      if k in keys {
        var x :| x in out && KeyOf(x.version, x.name) == k;
        assert x in out + [m];
      }
    }
  }

  lemma OrderedOne(keys: seq<string>, ups: set<string>, downs: set<string>, out: seq<Migration>, m: Migration)
    requires Sorted(keys + [KeyOf(m.version, m.name)]) && InKeyOrder(out) && Collected(keys, ups, downs, out)
    ensures InKeyOrder(out + [m])
  {
    var key := KeyOf(m.version, m.name);
    forall j | 0 <= j < |out|
      ensures Less(KeyOf(out[j].version, out[j].name), key)
    {
      assert out[j] in out;
      var i :| 0 <= i < |keys| && keys[i] == KeyOf(out[j].version, out[j].name);
      assert (keys + [key])[i] == keys[i] && (keys + [key])[|keys|] == key;
    }
  }

  /** The second loop: keys with an up file become migrations. */
  method Collect(keys: seq<string>, ups: set<string>, downs: set<string>) returns (out: seq<Migration>)
    requires Sorted(keys) && forall i :: 0 <= i < |keys| ==> SplitsBack(keys[i])
    ensures InKeyOrder(out) && Collected(keys, ups, downs, out)
  {
    out := [];
    for i := 0 to |keys|
      invariant InKeyOrder(out) && Collected(keys[..i], ups, downs, out)
    {
      var key := keys[i];
      assert SplitsBack(key) && keys[..i + 1] == keys[..i] + [key];
      if key in ups {
        var m := Migration(VersionOf(key), NameOf(key), key in downs);
        CollectsOne(keys[..i], ups, downs, out, m);
        OrderedOne(keys[..i], ups, downs, out, m);
        out := out + [m];
      }
    }
    assert keys[..|keys|] == keys;
  }

  lemma EntriesOf(entries: seq<Entry>, ups: set<string>, downs: set<string>, out: seq<Migration>)
    requires Named(entries) && KeysOf(entries, ups, downs)
    requires forall m :: m in out ==> KeyOf(m.version, m.name) in ups && Digits(m.version)
    requires forall m :: m in out ==> (m.hasDown <==> KeyOf(m.version, m.name) in downs)
    requires forall k :: k in ups ==> exists m :: m in out && KeyOf(m.version, m.name) == k
    ensures forall v, n :: Up(v, n) in entries <==> exists m :: m in out && m.version == v && m.name == n
    ensures forall m :: m in out ==> (m.hasDown <==> Down(m.version, m.name) in entries)
  {
    forall v, n
      ensures Up(v, n) in entries <==> exists m :: m in out && m.version == v && m.name == n
    {
      if Up(v, n) in entries {
        var j :| 0 <= j < |entries| && entries[j] == Up(v, n);
        assert entries[j].Up? && KeyOf(entries[j].version, entries[j].name) == KeyOf(v, n);
        assert KeyOf(v, n) in ups;
        var m :| m in out && KeyOf(m.version, m.name) == KeyOf(v, n);
        KeySplits(v, n);
        KeySplits(m.version, m.name);
      }
      if m :| m in out && m.version == v && m.name == n {
        FoundUp(entries, ups, downs, v, n);
      }
    }
    forall m | m in out
      ensures m.hasDown <==> Down(m.version, m.name) in entries
    {
      FoundDown(entries, ups, downs, m.version, m.name);
    }
  }

  lemma FoundUp(entries: seq<Entry>, ups: set<string>, downs: set<string>, v: string, n: string)
    requires Named(entries) && KeysOf(entries, ups, downs) && Digits(v) && KeyOf(v, n) in ups
    ensures Up(v, n) in entries
  {
    var j :| 0 <= j < |entries| && entries[j].Up? && KeyOf(entries[j].version, entries[j].name) == KeyOf(v, n);
    KeySplits(v, n);
    KeySplits(entries[j].version, entries[j].name);
    assert entries[j] == Up(v, n);
  }

  lemma FoundDown(entries: seq<Entry>, ups: set<string>, downs: set<string>, v: string, n: string)
    requires Named(entries) && KeysOf(entries, ups, downs) && Digits(v)
    ensures KeyOf(v, n) in downs <==> Down(v, n) in entries
  {
    if KeyOf(v, n) in downs {
      var j :| 0 <= j < |entries| && entries[j].Down? && KeyOf(entries[j].version, entries[j].name) == KeyOf(v, n);
      KeySplits(v, n);
      KeySplits(entries[j].version, entries[j].name);
      assert entries[j] == Down(v, n);
    }
  }

  // ----- key order and version numbers ------------------------------------------------------------------

  function Number(s: string): int
    requires Digits(s)
  {
    if s == [] then 0 else 10 * Number(s[..|s| - 1]) + (s[|s| - 1] as int - '0' as int)
  }

  lemma {:induction false} LessAtTheEnd(a: string, b: string)
    requires |a| == |b| > 0
    ensures var n := |a| - 1; Less(a, b) <==> Less(a[..n], b[..n]) || (a[..n] == b[..n] && a[n] < b[n])
  {
    var n := |a| - 1;
    if n == 0 {
      assert !Less(a[1..], b[1..]);
    } else {
      LessAtTheEnd(a[1..], b[1..]);
      assert a[1..][..n - 1] == a[..n][1..] && b[1..][..n - 1] == b[..n][1..];
      assert a[..n] == [a[0]] + a[..n][1..] && b[..n] == [b[0]] + b[..n][1..];
      LessIrreflexive(a[..n]);
    }
  }

  /** Versions of one width sort by their number. */
  lemma {:induction false} WidthOrder(a: string, b: string)
    requires Digits(a) && Digits(b) && |a| == |b|
    ensures Less(a, b) <==> Number(a) < Number(b)
    ensures a == b <==> Number(a) == Number(b)
  {
    if a != [] {
      var n := |a| - 1;
      WidthOrder(a[..n], b[..n]);
      LessAtTheEnd(a, b);
      assert a == a[..n] + [a[n]] && b == b[..n] + [b[n]];
    }
  }

  lemma {:induction false} KeyOrder(a: string, b: string, x: string, y: string)
    requires |a| == |b| && a != b
    ensures Less(KeyOf(a, x), KeyOf(b, y)) <==> Less(a, b)
  {
    if a != [] {
      assert a == [a[0]] + a[1..] && b == [b[0]] + b[1..];
      assert KeyOf(a, x)[1..] == KeyOf(a[1..], x) && KeyOf(b, y)[1..] == KeyOf(b[1..], y);
      assert KeyOf(a, x)[0] == a[0] && KeyOf(b, y)[0] == b[0];
      if a[0] == b[0] {
        KeyOrder(a[1..], b[1..], x, y);
      }
    }
  }

  /** Among versions of the two widths, key order is the order of the numbers. */
  ghost predicate InNumberOrder(w: nat, v: nat) {
    forall a, b, x, y :: |a| == w && |b| == v && Digits(a) && Digits(b) && Number(a) != Number(b) ==>
      (Less(KeyOf(a, x), KeyOf(b, y)) <==> Number(a) < Number(b))
  }

  function Nines(w: nat): (s: string)
    ensures |s| == w && Digits(s)
  {
    seq(w, i => '9')
  }

  function OneAndZeros(w: nat): (s: string)
    ensures |s| == w && Digits(s)
  {
    seq(w, i => if i == 0 then '1' else '0')
  }

  function PowerOfTen(n: nat): int {
    if n == 0 then 1 else 10 * PowerOfTen(n - 1)
  }

  lemma {:induction false} PowersGrow(n: nat, m: nat)
    requires n <= m
    ensures 1 <= PowerOfTen(n) <= PowerOfTen(m)
    decreases m
  {
    if m > 0 {
      PowersGrow(if n < m then n else n - 1, m - 1);
    }
  }

  lemma {:induction false} NumberOfNines(w: nat)
    ensures Number(Nines(w)) == PowerOfTen(w) - 1
  {
    if w > 0 {
      NumberOfNines(w - 1);
      assert Nines(w)[..w - 1] == Nines(w - 1);
    }
  }

  lemma {:induction false} NumberOfOneAndZeros(w: nat)
    requires w > 0
    ensures Number(OneAndZeros(w)) == PowerOfTen(w - 1)
  {
    if w == 1 {
      assert OneAndZeros(1)[..0] == [];
    } else {
      NumberOfOneAndZeros(w - 1);
      assert OneAndZeros(w)[..w - 1] == OneAndZeros(w - 1);
    }
  }

  /** The widest number of one width against the least of a wider one: the smaller sorts last. */
  lemma WiderVersionsRunEarly(w: nat, v: nat, x: string, y: string)
    requires 0 < w < v
    ensures Number(Nines(w)) < Number(OneAndZeros(v))
    ensures Less(KeyOf(OneAndZeros(v), x), KeyOf(Nines(w), y)) && !Less(KeyOf(Nines(w), y), KeyOf(OneAndZeros(v), x))
  {
    NumberOfNines(w);
    NumberOfOneAndZeros(v);
    PowersGrow(w, v - 1);
    assert KeyOf(OneAndZeros(v), x)[0] == '1' && KeyOf(Nines(w), y)[0] == '9';
  }

  /** Migrations run in the order of their version numbers if and only if those have one width; the
      pattern admits any width from three on. */
  lemma VersionOrderIff(w: nat, v: nat)
    requires 0 < w && 0 < v
    ensures InNumberOrder(w, v) <==> w == v
  {
    if w == v {
      forall a, b, x, y | |a| == w && |b| == v && Digits(a) && Digits(b) && Number(a) != Number(b)
        ensures Less(KeyOf(a, x), KeyOf(b, y)) <==> Number(a) < Number(b)
      {
        KeyOrder(a, b, x, y);
        WidthOrder(a, b);
      }
    } else if w < v {
      WiderVersionsRunEarly(w, v, "", "");
      assert !(Less(KeyOf(Nines(w), ""), KeyOf(OneAndZeros(v), "")) <==> Number(Nines(w)) < Number(OneAndZeros(v)));
    } else {
      WiderVersionsRunEarly(v, w, "", "");
      assert !(Less(KeyOf(OneAndZeros(w), ""), KeyOf(Nines(v), "")) <==> Number(OneAndZeros(w)) < Number(Nines(v)));
    }
  }
}
