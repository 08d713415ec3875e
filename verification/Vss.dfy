/**
 The signal vocabulary as a tree and as dotted strings: flattening the VSS tree
 (`fetch_vss_v6.0.py`) and deciding on the strings whether a signal lies in a PII branch
 (`governance.py`).
 */
module Vss {
  // ----- dotted names ------------------------------------------------------------------------

  /** Components of a dotted name; never empty, and total on arbitrary strings. */
  function Split(s: string): (parts: seq<string>)
    ensures |parts| >= 1
  {
    if s == "" then [""]
    else if s[0] == '.' then [""] + Split(s[1..])
    else var rest := Split(s[1..]); [[s[0]] + rest[0]] + rest[1..]
  }

  predicate DotFree(s: string) { '.' !in s }

  /** The test the validator runs on strings: the branch itself, or the branch and a dot as a prefix. */
  predicate Covers(branch: string, s: string) {
    s == branch || branch + "." <= s
  }

  /** The string test is the tree test: a branch covers a name exactly when its components are a
      prefix of the name's components. Holds for all strings. */
  lemma {:induction false} CoversIsComponentPrefix(branch: string, s: string)
    ensures Covers(branch, s) <==> Split(branch) <= Split(s)
    decreases |branch|
  {
    if branch == "" {
      assert branch + "." == ".";
      if s != "" { assert "." <= s <==> s[0] == '.'; }
    } else if s == "" || branch[0] != s[0] {
      assert (branch + ".")[0] == branch[0];
      assert branch[0] == '.' ==> |Split(branch)| >= 2 && Split(branch)[0] == "";
      assert branch[0] != '.' ==> Split(branch)[0][0] == branch[0];
      assert s != "" ==> if s[0] == '.' then Split(s)[0] == "" else Split(s)[0][0] == s[0];
      assert s == "" ==> Split(s) == [""];
      assert s != "" ==> Split(branch)[0] != Split(s)[0];
    } else {
      var b', s' := branch[1..], s[1..];
      CoversIsComponentPrefix(b', s');
      ConsCovers(branch, s);
      if branch[0] == '.' {
        assert Split(branch)[1..] == Split(b') && Split(s)[1..] == Split(s');
      } else {
        var x, y := Split(b'), Split(s');
        assert Split(branch) == [[branch[0]] + x[0]] + x[1..] && Split(s) == [[s[0]] + y[0]] + y[1..];
        HeadPrefix(branch[0], x, y);
      }
    }
  }

  lemma ConsCovers(branch: string, s: string)
    requires branch != "" && s != "" && branch[0] == s[0]
    ensures Covers(branch, s) <==> Covers(branch[1..], s[1..])
  {
    assert branch == [branch[0]] + branch[1..] && s == [s[0]] + s[1..];
    assert branch + "." == [branch[0]] + (branch[1..] + ".");
    if branch[1..] + "." <= s[1..] {
      forall i | 0 <= i < |branch + "."| ensures i < |s| && (branch + ".")[i] == s[i] {
        if i > 0 { assert (branch[1..] + ".")[i - 1] == s[1..][i - 1]; }
      }
    }
    if branch + "." <= s {
      forall i | 0 <= i < |branch[1..] + "."| ensures i < |s[1..]| && (branch[1..] + ".")[i] == s[1..][i] {
        assert (branch + ".")[i + 1] == s[i + 1];
      }
    }
  }

  lemma HeadPrefix(c: char, x: seq<string>, y: seq<string>)
    requires |x| >= 1 && |y| >= 1
    ensures x <= y <==> [[c] + x[0]] + x[1..] <= [[c] + y[0]] + y[1..]
  {
    var x', y' := [[c] + x[0]] + x[1..], [[c] + y[0]] + y[1..];
    assert x[0] == ([c] + x[0])[1..] && y[0] == ([c] + y[0])[1..];
    if x <= y {
      forall i | 0 <= i < |x'| ensures i < |y'| && x'[i] == y'[i] {
        assert x[i] == y[i];
      }
    }
    if x' <= y' {
      assert x'[0] == y'[0];
      forall i | 0 <= i < |x| ensures i < |y| && x[i] == y[i] {
        assert x'[i] == y'[i];
      }
    }
  }

  // ----- governance ----------------------------------------------------------------------------

  ghost predicate IsPii(branches: seq<string>, prefixMatch: bool, signal: string) {
    signal in branches || (prefixMatch && exists b :: b in branches && Split(b) <= Split(signal))
  }

  /** `DataGovernanceChecker.is_pii`: exact names first, then the prefix loop. */
  method CheckPii(branches: seq<string>, prefixMatch: bool, signal: string) returns (pii: bool)
    ensures pii <==> IsPii(branches, prefixMatch, signal)
  {
    if signal in branches {
      return true;
    }
    if prefixMatch {
      for i := 0 to |branches|
        invariant forall j :: 0 <= j < i ==> !(Split(branches[j]) <= Split(signal))
      {
        CoversIsComponentPrefix(branches[i], signal);
        if branches[i] + "." <= signal {
          assert branches[i] in branches;
          return true;
        }
      }
    }
    return false;
  }

  // ----- the tree --------------------------------------------------------------------------------

  datatype Node = Node(kind: string, info: string, children: seq<(string, Node)>)
  datatype Entry = Entry(path: string, kind: string, info: string)

  const LEAF_KINDS := {"sensor", "actuator", "attribute"}

  function Child(path: string, name: string): string {
    if path != "" then path + "." + name else name
  }

  /** What the walk records, in its order. */
  function Leaves(n: Node, path: string): seq<Entry>
    decreases n, 1
  {
    (if n.kind in LEAF_KINDS then [Entry(path, n.kind, n.info)] else []) + LeavesOf(n, n.children, path)
  }

  function LeavesOf(n: Node, children: seq<(string, Node)>, path: string): seq<Entry>
    requires forall c :: c in children ==> c.1 < n
    decreases n, 0, |children|
  {
    if children == [] then []
    else Leaves(children[0].1, Child(path, children[0].0)) + LeavesOf(n, children[1..], path)
  }

  /** Number of nodes of a leaf kind, inner ones included, counted on the tree. */
  function LeafCount(n: Node): nat
    decreases n, 1
  {
    (if n.kind in LEAF_KINDS then 1 else 0) + LeafCountOf(n, n.children)
  }

  function LeafCountOf(n: Node, children: seq<(string, Node)>): nat
    requires forall c :: c in children ==> c.1 < n
    decreases n, 0, |children|
  {
    if children == [] then 0 else LeafCount(children[0].1) + LeafCountOf(n, children[1..])
  }

  lemma {:induction false} LeavesCount(n: Node, path: string)
    ensures |Leaves(n, path)| == LeafCount(n)
    decreases n, 1
  {
    LeavesCountOf(n, n.children, path);
  }

  lemma {:induction false} LeavesCountOf(n: Node, children: seq<(string, Node)>, path: string)
    requires forall c :: c in children ==> c.1 < n
    ensures |LeavesOf(n, children, path)| == LeafCountOf(n, children)
    decreases n, 0, |children|
  {
    if children != [] {
      LeavesCount(children[0].1, Child(path, children[0].0));
      LeavesCountOf(n, children[1..], path);
    }
  }

  /** Object keys are distinct; names carry no dot. */
  ghost predicate WellNamed(n: Node)
    decreases n
  {
    && (forall i :: 0 <= i < |n.children| ==> DotFree(n.children[i].0))
    && (forall i, j :: 0 <= i < j < |n.children| ==> n.children[i].0 != n.children[j].0)
    && (forall c :: c in n.children ==> WellNamed(c.1))
  }

  ghost predicate DistinctPaths(es: seq<Entry>) {
    forall i, j :: 0 <= i < j < |es| ==> es[i].path != es[j].path
  }

  lemma {:induction false} SplitDotFree(s: string)
    requires DotFree(s)
    ensures Split(s) == [s]
  {
    if s != "" {
      SplitDotFree(s[1..]);
      assert [s[0]] + s[1..] == s;
    }
  }

  lemma {:induction false} SplitJoin(a: string, b: string)
    ensures Split(a + "." + b) == Split(a) + Split(b)
  {
    if a == "" {
      assert (a + "." + b)[1..] == b;
    } else {
      assert (a + "." + b)[1..] == a[1..] + "." + b;
      SplitJoin(a[1..], b);
    }
  }

  /** A dot-free child adds exactly one component. */
  lemma SplitChild(path: string, name: string)
    requires path != "" && DotFree(name)
    ensures Split(Child(path, name)) == Split(path) + [name]
  {
    SplitJoin(path, name);
    SplitDotFree(name);
  }

  /** Everything recorded below a node lies under the node's path, and two siblings record
      disjoint paths. */
  lemma {:induction false} LeavesDistinct(n: Node, path: string)
    requires path != "" && WellNamed(n)
    ensures DistinctPaths(Leaves(n, path))
    ensures forall e :: e in Leaves(n, path) ==> Split(path) <= Split(e.path)
    decreases n, 1
  {
    LeavesOfDistinct(n, n.children, path);
    var below := LeavesOf(n, n.children, path);
    forall e | e in below
      ensures e.path != path && Split(path) <= Split(e.path)
    {
      var c :| c in n.children && Split(Child(path, c.0)) <= Split(e.path);
      SplitChild(path, c.0);
      assert |Split(e.path)| > |Split(path)|;
      assert Split(path) == Split(Child(path, c.0))[..|Split(path)|] == Split(e.path)[..|Split(path)|];
    }
  }

  lemma {:induction false} LeavesOfDistinct(n: Node, children: seq<(string, Node)>, path: string)
    requires path != "" && (forall c :: c in children ==> c.1 < n && WellNamed(c.1) && DotFree(c.0))
    requires forall i, j :: 0 <= i < j < |children| ==> children[i].0 != children[j].0
    ensures DistinctPaths(LeavesOf(n, children, path))
    ensures forall e :: e in LeavesOf(n, children, path) ==>
      exists c :: c in children && Split(Child(path, c.0)) <= Split(e.path)
    decreases n, 0, |children|
  {
    if children != [] {
      var first := children[0];
      var l, r := Leaves(first.1, Child(path, first.0)), LeavesOf(n, children[1..], path);
      LeavesDistinct(first.1, Child(path, first.0));
      LeavesOfDistinct(n, children[1..], path);
      SplitChild(path, first.0);
      forall i, j | 0 <= i < |l| && 0 <= j < |r|
        ensures l[i].path != r[j].path
      {
        assert l[i] in l && r[j] in r;
        var c :| c in children[1..] && Split(Child(path, c.0)) <= Split(r[j].path);
        SplitChild(path, c.0);
        var k := |Split(path)|;
        assert Split(l[i].path)[k] == first.0 && Split(r[j].path)[k] == c.0;
      }
    }
  }

  /** The `out` dictionary the walk fills. */
  class SignalTable {
    var signals: map<string, Entry>

    constructor ()
      ensures signals == map[]
    {
      signals := map[];
    }
  }

  function Overlay(m: map<string, Entry>, es: seq<Entry>): map<string, Entry>
    decreases |es|
  {
    if es == [] then m else Overlay(m[es[0].path := es[0]], es[1..])
  }

  lemma {:induction false} OverlayConcat(m: map<string, Entry>, a: seq<Entry>, b: seq<Entry>)
    ensures Overlay(m, a + b) == Overlay(Overlay(m, a), b)
    decreases |a|
  {
    if a == [] {
      assert a + b == b;
    } else {
      assert (a + b)[1..] == a[1..] + b;
      OverlayConcat(m[a[0].path := a[0]], a[1..], b);
    }
  }

  lemma OverlayChild(m: map<string, Entry>, n: Node, i: nat, path: string)
    requires i < |n.children|
    ensures n.children[i].1 < n
    ensures var c := n.children[i];
      Overlay(m, LeavesOf(n, n.children[i..], path))
      == Overlay(Overlay(m, Leaves(c.1, Child(path, c.0))), LeavesOf(n, n.children[i + 1..], path))
  {
    var c, rest := n.children[i], n.children[i..];
    assert c in n.children && rest[0] == c && rest[1..] == n.children[i + 1..];
    OverlayConcat(m, Leaves(c.1, Child(path, c.0)), LeavesOf(n, rest[1..], path));
  }

  /** `_walk_signals`: record the node, then recurse into the children in order. */
  method Walk(n: Node, path: string, out: SignalTable)
    modifies out
    ensures out.signals == Overlay(old(out.signals), Leaves(n, path))
    decreases n
  {
    var m0 := out.signals;
    var own := if n.kind in LEAF_KINDS then [Entry(path, n.kind, n.info)] else [];
    if n.kind in LEAF_KINDS {
      out.signals := out.signals[path := Entry(path, n.kind, n.info)];
    }
    assert out.signals == Overlay(m0, own) by { assert own != [] ==> own[1..] == []; }
    OverlayConcat(m0, own, LeavesOf(n, n.children, path));
    assert n.children[0..] == n.children;
    var i := 0;
    while i < |n.children|
      invariant 0 <= i <= |n.children|
      invariant Overlay(out.signals, LeavesOf(n, n.children[i..], path)) == Overlay(m0, Leaves(n, path))
    {
      var c := n.children[i];
      OverlayChild(out.signals, n, i, path);
      Walk(c.1, Child(path, c.0), out);
      i := i + 1;
    }
  }

  lemma {:induction false} OverlayDistinct(m: map<string, Entry>, es: seq<Entry>)
    requires DistinctPaths(es) && forall e :: e in es ==> e.path !in m
    ensures |Overlay(m, es)| == |m| + |es|
    ensures forall e :: e in es ==> e.path in Overlay(m, es) && Overlay(m, es)[e.path] == e
    ensures forall p :: p in m ==> p in Overlay(m, es) && Overlay(m, es)[p] == m[p]
    decreases |es|
  {
    if es != [] {
      var m' := m[es[0].path := es[0]];
      forall e | e in es[1..]
        ensures e.path !in m'
      {
        var i :| 0 <= i < |es[1..]| && es[1..][i] == e;
        assert es[i + 1] == e;
      }
      assert m'.Keys == m.Keys + {es[0].path};
      OverlayDistinct(m', es[1..]);
    }
  }

  /** Flattening loses nothing: the dictionary has one entry per leaf-kind node, and each entry
      is that node's own. */
  lemma FlattenIsLossless(root: Node, path: string)
    requires path != "" && WellNamed(root)
    ensures var out := Overlay(map[], Leaves(root, path));
      |out| == LeafCount(root) && forall e :: e in Leaves(root, path) ==> e.path in out && out[e.path] == e
  {
    LeavesDistinct(root, path);
    LeavesCount(root, path);
    OverlayDistinct(map[], Leaves(root, path));
  }

  /** Without dot-free names it can: two different nodes, one path. */
  lemma DottedNamesCollide(leaf: Node, inner: Node, root: Node)
    requires leaf == Node("sensor", "", []) && inner == Node("branch", "", [("b", leaf)])
    requires root == Node("branch", "", [("a.b", leaf), ("a", inner)])
    ensures LeafCount(root) == 2 && |Overlay(map[], Leaves(root, "V"))| == 1
  {
    var e := Entry("V.a.b", "sensor", "");
    BranchIsNoLeaf();
    assert Child("V", "a") == "V.a" && Child("V", "a.b") == "V.a.b" == Child("V.a", "b");
    assert Leaves(leaf, "V.a.b") == [e] + LeavesOf(leaf, [], "V.a.b") == [e];
    assert inner.children[1..] == [];
    assert LeavesOf(inner, inner.children, "V.a") == [e] + LeavesOf(inner, [], "V.a") == [e];
    assert Leaves(inner, "V.a") == [] + [e] == [e];
    assert root.children[1..] == [("a", inner)] && root.children[1..][1..] == [];
    assert LeavesOf(root, root.children[1..], "V") == [e] + LeavesOf(root, [], "V") == [e];
    assert Leaves(root, "V") == [] + ([e] + [e]) == [e, e];
    LeavesCount(root, "V");
    OverlayTwice(e);
  }

  lemma BranchIsNoLeaf()
    ensures "branch" !in LEAF_KINDS
  {
    assert |"branch"| == 6 && "branch"[0] == 'b';
  }

  lemma OverlayTwice(e: Entry)
    ensures Overlay(map[], [e, e]) == map[e.path := e]
  {
    var m: map<string, Entry> := map[];
    assert [e, e][1..] == [e] && [e][1..] == [];
    assert Overlay(m[e.path := e], [e]) == Overlay(m[e.path := e][e.path := e], []);
    assert m[e.path := e][e.path := e] == map[e.path := e];
  }

  // ----- the string test against ancestry in the tree --------------------------------------------

  ghost predicate AllDotFree(names: seq<string>) {
    forall i :: 0 <= i < |names| ==> DotFree(names[i])
  }

  /** The path of the node reached from `path` by following `address`. */
  function PathOf(path: string, address: seq<string>): string
    decreases |address|
  {
    if address == [] then path else PathOf(Child(path, address[0]), address[1..])
  }

  lemma ConsAssoc(x: seq<string>, address: seq<string>)
    requires address != []
    ensures (x + [address[0]]) + address[1..] == x + address
  {
  }

  lemma {:induction false} SplitPathOf(path: string, address: seq<string>)
    requires path != "" && AllDotFree(address)
    ensures Split(PathOf(path, address)) == Split(path) + address
    decreases |address|
  {
    if address != [] {
      SplitChild(path, address[0]);
      SplitPathOf(Child(path, address[0]), address[1..]);
      ConsAssoc(Split(path), address);
    }
  }

  /** On tree paths the string test is ancestry: a branch node covers exactly itself and its
      descendants. */
  lemma CoversIsAncestry(path: string, branch: seq<string>, node: seq<string>)
    requires path != "" && AllDotFree(branch) && AllDotFree(node)
    ensures Covers(PathOf(path, branch), PathOf(path, node)) <==> branch <= node
  {
    CoversIsComponentPrefix(PathOf(path, branch), PathOf(path, node));
    SplitPathOf(path, branch);
    SplitPathOf(path, node);
    PrefixUnder(Split(path), branch, node);
  }

  lemma PrefixUnder<T>(p: seq<T>, a: seq<T>, b: seq<T>)
    ensures p + a <= p + b <==> a <= b
  {
    if p + a <= p + b {
      forall i | 0 <= i < |a|
        ensures i < |b| && a[i] == b[i]
      {
        assert (p + a)[|p| + i] == (p + b)[|p| + i];
      }
    }
  }

  /** When the configured branches are tree nodes, a node is personal exactly when one of them is
      the node itself or an ancestor of it. */
  lemma PiiIsAncestry(path: string, addresses: seq<seq<string>>, branches: seq<string>, node: seq<string>)
    requires path != "" && AllDotFree(node) && forall a :: a in addresses ==> AllDotFree(a)
    requires |branches| == |addresses|
    requires forall i :: 0 <= i < |addresses| ==> branches[i] == PathOf(path, addresses[i])
    ensures IsPii(branches, true, PathOf(path, node)) <==> exists a :: a in addresses && a <= node
  {
    var s := PathOf(path, node);
    forall i | 0 <= i < |addresses|
      ensures Covers(branches[i], s) <==> addresses[i] <= node
      ensures Covers(branches[i], s) <==> Split(branches[i]) <= Split(s)
    {
      assert addresses[i] in addresses;
      CoversIsAncestry(path, addresses[i], node);
      CoversIsComponentPrefix(branches[i], s);
    }
    if IsPii(branches, true, s) {
      var b := s;
      if s !in branches { b :| b in branches && Split(b) <= Split(s); }
      var i :| 0 <= i < |branches| && branches[i] == b;
      assert addresses[i] in addresses && addresses[i] <= node;
    }
    if a :| a in addresses && a <= node {
      var i :| 0 <= i < |addresses| && addresses[i] == a;
      assert branches[i] in branches && Split(branches[i]) <= Split(s);
    }
  }

  /** Everything below a personal node is personal, whatever the names. */
  lemma {:induction false} PiiIsInherited(branches: seq<string>, path: string, below: seq<string>)
    requires path != "" && IsPii(branches, true, path)
    ensures IsPii(branches, true, PathOf(path, below))
    decreases |below|
  {
    if below != [] {
      SplitJoin(path, below[0]);
      PiiDown(branches, path, Child(path, below[0]));
      PiiIsInherited(branches, Child(path, below[0]), below[1..]);
    }
  }

  lemma PiiDown(branches: seq<string>, s: string, s': string)
    requires IsPii(branches, true, s) && Split(s) <= Split(s')
    ensures IsPii(branches, true, s')
  {
    var b := s;
    if s !in branches {
      b :| b in branches && Split(b) <= Split(s);
    }
    assert Split(b) <= Split(s');
  }
}
