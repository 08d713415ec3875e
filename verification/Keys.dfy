/**
 Redis keys: the hot store keeps every tenant's signals in one flat namespace.
 */
module Keys {
  import opened Prelude
  import L = RateLimit

  datatype Slot = Slot(tenant: string, vehicle: string, signal: string)

  /** `_hot_store_key`. */
  function HotKey(s: Slot): string {
    s.tenant + ":" + s.vehicle + ":" + s.signal
  }

  function Colons(s: string): nat {
    if s == [] then 0 else (if s[0] == ':' then 1 else 0) + Colons(s[1..])
  }

  /** Tenant and vehicle ids without a colon. */
  predicate Plain(s: Slot) {
    Colons(s.tenant) == 0 && Colons(s.vehicle) == 0
  }

  lemma {:induction false} ColonsAppend(a: string, b: string)
    ensures Colons(a + b) == Colons(a) + Colons(b)
  {
    if a == [] {
      assert a + b == b;
    } else {
      assert (a + b)[1..] == a[1..] + b;
      ColonsAppend(a[1..], b);
    }
  }

  lemma {:induction false} FirstColon(a: string, x: string, b: string, y: string)
    requires Colons(a) == 0 && Colons(b) == 0 && a + ":" + x == b + ":" + y
    ensures a == b && x == y
  {
    var left, right := a + ":" + x, b + ":" + y;
    if a == [] || b == [] {
      assert left[0] == ':' && right[0] == ':';
      assert a == [] && b == [];
      assert left[1..] == x && right[1..] == y;
    } else {
      assert left[0] == a[0] && right[0] == b[0];
      assert left[1..] == a[1..] + ":" + x && right[1..] == b[1..] + ":" + y;
      FirstColon(a[1..], x, b[1..], y);
    }
  }

  /** For plain ids the key determines tenant, vehicle and signal, whatever the signal's name. */
  lemma HotKeyInjective(s: Slot, r: Slot)
    requires Plain(s) && Plain(r) && HotKey(s) == HotKey(r)
    ensures s == r
  {
    assert HotKey(s) == s.tenant + ":" + (s.vehicle + ":" + s.signal);
    assert HotKey(r) == r.tenant + ":" + (r.vehicle + ":" + r.signal);
    FirstColon(s.tenant, s.vehicle + ":" + s.signal, r.tenant, r.vehicle + ":" + r.signal);
    FirstColon(s.vehicle, s.signal, r.vehicle, r.signal);
  }

  lemma KeyColons(s: Slot)
    ensures Colons(HotKey(s)) == Colons(s.tenant) + Colons(s.vehicle) + Colons(s.signal) + 2
  {
    ColonsAppend(s.tenant, ":");
    ColonsAppend(s.tenant + ":", s.vehicle);
    ColonsAppend(s.tenant + ":" + s.vehicle, ":");
    ColonsAppend(s.tenant + ":" + s.vehicle + ":", s.signal);
    assert Colons(":") == 1;
  }

  lemma {:induction false} SplitAtColon(s: string) returns (a: string, b: string)
    requires Colons(s) > 0
    ensures s == a + ":" + b
  {
    if s[0] == ':' {
      a, b := [], s[1..];
    } else {
      a, b := SplitAtColon(s[1..]);
      a := [s[0]] + a;
    }
  }

  /** Over all ids the exact condition is that there is no colon anywhere: any further colon gives
      another slot the same key. */
  lemma KeyIsUnambiguousIff(s: Slot)
    ensures (forall r :: HotKey(r) == HotKey(s) ==> r == s) <==> Colons(s.tenant) + Colons(s.vehicle) + Colons(s.signal) == 0
  {
    KeyColons(s);
    if Colons(s.tenant) + Colons(s.vehicle) + Colons(s.signal) == 0 {
      forall r | HotKey(r) == HotKey(s)
        ensures r == s
      {
        KeyColons(r);
        HotKeyInjective(r, s);
      }
    } else {
      var r := OtherSlot(s);
      assert HotKey(r) == HotKey(s) && r != s;
    }
  }

  lemma OtherSlot(s: Slot) returns (r: Slot)
    requires Colons(s.tenant) + Colons(s.vehicle) + Colons(s.signal) > 0
    ensures HotKey(r) == HotKey(s) && r != s
  {
    if Colons(s.tenant) > 0 {
      var a, b := SplitAtColon(s.tenant);
      r := Slot(a, b, s.vehicle + ":" + s.signal);
      assert HotKey(r) == HotKey(s);
      assert |r.tenant| < |s.tenant|;
    } else if Colons(s.vehicle) > 0 {
      var a, b := SplitAtColon(s.vehicle);
      r := Slot(s.tenant, a, b + ":" + s.signal);
      assert HotKey(r) == HotKey(s);
      assert |r.vehicle| < |s.vehicle|;
    } else {
      var a, b := SplitAtColon(s.signal);
      r := Slot(s.tenant + ":" + s.vehicle, a, b);
      assert HotKey(r) == HotKey(s);
      assert |r.tenant| > |s.tenant|;
    }
  }

  // ----- the hot store ----------------------------------------------------------------------------------

  const HOT_TTL: nat := 86400

  /** A value and the last instant it can be read. */
  datatype Cell = Cell(value: string, until: int)

  type Signals = map<(string, string), Cell>

  function Read(cells: map<string, Cell>, key: string, now: int): Option<string> {
    if key in cells && now <= cells[key].until then Some(cells[key].value) else None
  }

  /** Each tenant's own map, as the flat one shows it. */
  ghost predicate Shows(cells: map<string, Cell>, tenants: map<string, Signals>) {
    && (forall s: Slot :: Plain(s) ==>
          (HotKey(s) in cells <==> s.tenant in tenants && (s.vehicle, s.signal) in tenants[s.tenant]))
    && (forall s: Slot :: Plain(s) && HotKey(s) in cells ==> cells[HotKey(s)] == tenants[s.tenant][(s.vehicle, s.signal)])
  }

  function Put(tenants: map<string, Signals>, s: Slot, cell: Cell): map<string, Signals> {
    var mine := if s.tenant in tenants then tenants[s.tenant] else map[];
    tenants[s.tenant := mine[(s.vehicle, s.signal) := cell]]
  }

  lemma PutShows(cells: map<string, Cell>, tenants: map<string, Signals>, s: Slot, cell: Cell)
    requires Plain(s) && Shows(cells, tenants)
    ensures Shows(cells[HotKey(s) := cell], Put(tenants, s, cell))
  {
    var cells', tenants' := cells[HotKey(s) := cell], Put(tenants, s, cell);
    forall r: Slot | Plain(r)
      ensures HotKey(r) in cells' <==> r.tenant in tenants' && (r.vehicle, r.signal) in tenants'[r.tenant]
      ensures HotKey(r) in cells' ==> cells'[HotKey(r)] == tenants'[r.tenant][(r.vehicle, r.signal)]
    {
      if HotKey(r) == HotKey(s) {
        HotKeyInjective(r, s);
      }
    }
  }

  class HotStore {
    var cells: map<string, Cell>

    constructor ()
      ensures Shows(cells, map[])
    {
      cells := map[];
    }

    /** `put_signal_for_tenant`: seen through the tenants' own maps, one cell of one tenant changes. */
    method PutSignal(s: Slot, value: string, now: int)
      modifies this
      ensures cells == old(cells)[HotKey(s) := Cell(value, now + HOT_TTL)]
      ensures forall tenants :: Plain(s) && Shows(old(cells), tenants) ==> Shows(cells, Put(tenants, s, Cell(value, now + HOT_TTL)))
    {
      forall tenants | Plain(s) && Shows(cells, tenants)
        ensures Shows(cells[HotKey(s) := Cell(value, now + HOT_TTL)], Put(tenants, s, Cell(value, now + HOT_TTL)))
      {
        PutShows(cells, tenants, s, Cell(value, now + HOT_TTL));
      }
      cells := cells[HotKey(s) := Cell(value, now + HOT_TTL)];
    }

    /** `get_signal_for_tenant`. */
    method GetSignal(s: Slot, now: int) returns (r: Option<string>)
      ensures r == Read(cells, HotKey(s), now)
      ensures forall tenants :: Plain(s) && Shows(cells, tenants) ==> r == OwnRead(tenants, s, now)
    {
      var key := HotKey(s);
      if key in cells && now <= cells[key].until {
        return Some(cells[key].value);
      }
      return None;
    }
  }

  // ----- whole sequences of puts and gets ------------------------------------------------------------------

  datatype Op = Puts(slot: Slot, value: string, now: int) | Gets(slot: Slot, now: int)

  /** What the reads return from the flat map, and from the tenants' own maps. */
  function FlatReads(cells: map<string, Cell>, ops: seq<Op>): seq<Option<string>>
    decreases |ops|
  {
    if ops == [] then []
    else match ops[0]
      case Puts(s, value, now) => FlatReads(cells[HotKey(s) := Cell(value, now + HOT_TTL)], ops[1..])
      case Gets(s, now) => [Read(cells, HotKey(s), now)] + FlatReads(cells, ops[1..])
  }

  function OwnRead(tenants: map<string, Signals>, s: Slot, now: int): Option<string> {
    if s.tenant in tenants && (s.vehicle, s.signal) in tenants[s.tenant] && now <= tenants[s.tenant][(s.vehicle, s.signal)].until
    then Some(tenants[s.tenant][(s.vehicle, s.signal)].value) else None
  }

  function OwnReads(tenants: map<string, Signals>, ops: seq<Op>): seq<Option<string>>
    decreases |ops|
  {
    if ops == [] then []
    else match ops[0]
      case Puts(s, value, now) => OwnReads(Put(tenants, s, Cell(value, now + HOT_TTL)), ops[1..])
      case Gets(s, now) => [OwnRead(tenants, s, now)] + OwnReads(tenants, ops[1..])
  }

  /** Isolation by key: over plain ids the one flat map is indistinguishable from a map per tenant. */
  lemma {:induction false} FlatMapIsPerTenant(cells: map<string, Cell>, tenants: map<string, Signals>, ops: seq<Op>)
    requires Shows(cells, tenants) && forall i :: 0 <= i < |ops| ==> Plain(ops[i].slot)
    ensures FlatReads(cells, ops) == OwnReads(tenants, ops)
    decreases |ops|
  {
    if ops != [] {
      var s := ops[0].slot;
      assert Plain(s);
      match ops[0]
      case Puts(_, value, now) =>
        PutShows(cells, tenants, s, Cell(value, now + HOT_TTL));
        FlatMapIsPerTenant(cells[HotKey(s) := Cell(value, now + HOT_TTL)], Put(tenants, s, Cell(value, now + HOT_TTL)), ops[1..]);
      case Gets(_, _) =>
        FlatMapIsPerTenant(cells, tenants, ops[1..]);
    }
  }

  // ----- rate-limit buckets -----------------------------------------------------------------------------------

  function BucketName(kind: L.BucketKind): string {
    match kind
    case Inbound => "inbound"
    case Query => "query"
  }

  function BucketKey(tenant: string, kind: L.BucketKind): string {
    "ratelimit:" + tenant + ":" + BucketName(kind)
  }

  /** Bucket keys separate tenants and buckets with no condition on the tenant's name. */
  lemma BucketKeysInjective(t: string, a: L.BucketKind, u: string, b: L.BucketKind)
    requires BucketKey(t, a) == BucketKey(u, b)
    ensures t == u && a == b
  {
    var x, y := BucketKey(t, a), BucketKey(u, b);
    assert x[|x| - 1] == (if a.Inbound? then 'd' else 'y');
    assert y[|y| - 1] == (if b.Inbound? then 'd' else 'y');
    assert x[10..|x| - |BucketName(a)| - 1] == t;
    assert y[10..|y| - |BucketName(b)| - 1] == u;
  }
}
