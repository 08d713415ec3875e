/**
 The in-process cache of tenant rate-limit configuration.
 */
module TenantConfig {
  import opened Prelude
  import C = AuthorityCache

  datatype RateLimitBucket = RateLimitBucket(sustainedRps: int, burst: int)

  datatype Config = Config(tenant: string, inbound: RateLimitBucket, query: RateLimitBucket, isDefault: bool)

  /** A row of `tenant_config`. */
  datatype Row = Row(inbound: RateLimitBucket, query: RateLimitBucket)

  function DefaultConfig(tenant: string): Config {
    Config(tenant, RateLimitBucket(2000, 4000), RateLimitBucket(200, 400), true)
  }

  /** The effective configuration: the row, or the defaults. */
  function Effective(table: map<string, Row>, tenant: string): Config {
    if tenant in table then Config(tenant, table[tenant].inbound, table[tenant].query, false) else DefaultConfig(tenant)
  }

  datatype Entry = Entry(key: string, expires: int, config: Config)

  // ----- the dictionary, in its iteration order -----------------------------------------------------

  /** Keys occur once. */
  ghost predicate Dict(data: seq<Entry>) {
    forall i, j :: 0 <= i < j < |data| ==> data[i].key != data[j].key
  }

  /** Position of a key, or the length. */
  function Position(data: seq<Entry>, key: string): (at: nat)
    ensures at <= |data| && (at < |data| ==> data[at].key == key)
    ensures forall i :: 0 <= i < at ==> data[i].key != key
  {
    if data == [] || data[0].key == key then 0 else 1 + Position(data[1..], key)
  }

  predicate Has(data: seq<Entry>, key: string) {
    Position(data, key) < |data|
  }

  /** `min` over the dictionary by expiry: the first entry with the least one. */
  function OldestAt(data: seq<Entry>): (at: nat)
    requires data != []
    ensures at < |data|
    ensures forall i :: 0 <= i < |data| ==> data[at].expires <= data[i].expires
    ensures forall i :: 0 <= i < at ==> data[at].expires < data[i].expires
  {
    var n := |data| - 1;
    if n == 0 then 0
    else
      var at := OldestAt(data[..n]);
      if data[n].expires < data[at].expires then n else at
  }

  function Drop(data: seq<Entry>, at: nat): seq<Entry>
    requires at < |data|
  {
    data[..at] + data[at + 1..]
  }

  function Without(data: seq<Entry>, key: string): seq<Entry> {
    if Has(data, key) then Drop(data, Position(data, key)) else data
  }

  /** Assignment to a key: in place if it is there, at the end if not. */
  function Assign(data: seq<Entry>, e: Entry): seq<Entry> {
    if Has(data, e.key) then data[Position(data, e.key) := e] else data + [e]
  }

  /** `put`: at capacity the entry of least expiry goes first, even if the key is already there. */
  function Evict(data: seq<Entry>, capacity: int): seq<Entry>
    requires 0 < capacity
  {
    if |data| >= capacity then Drop(data, OldestAt(data)) else data
  }

  function Stored(data: seq<Entry>, capacity: int, e: Entry): seq<Entry>
    requires 0 < capacity
  {
    Assign(Evict(data, capacity), e)
  }

  lemma DropFacts(data: seq<Entry>, at: nat)
    requires Dict(data) && at < |data|
    ensures Dict(Drop(data, at))
    ensures forall e :: e in Drop(data, at) <==> e in data && e.key != data[at].key
  {
    var out := Drop(data, at);
    forall e
      ensures e in out <==> e in data && e.key != data[at].key
    {
      if e in data && e.key != data[at].key {
        var i :| 0 <= i < |data| && data[i] == e;
        assert out[if i < at then i else i - 1] == e;
      }
    }
  }

  lemma AssignFacts(data: seq<Entry>, e: Entry)
    requires Dict(data)
    ensures Dict(Assign(data, e))
    ensures forall x :: x in Assign(data, e) <==> x == e || (x in data && x.key != e.key)
    ensures |Assign(data, e)| == if Has(data, e.key) then |data| else |data| + 1
  {
    var out, at := Assign(data, e), Position(data, e.key);
    forall x
      ensures x in out <==> x == e || (x in data && x.key != e.key)
    {
      assert out[at] == e;
      if x in data && x.key != e.key {
        var i :| 0 <= i < |data| && data[i] == x;
        assert out[i] == x;
      }
    }
  }

  lemma WithoutFacts(data: seq<Entry>, key: string)
    requires Dict(data)
    ensures Dict(Without(data, key)) && !Has(Without(data, key), key) && |Without(data, key)| <= |data|
    ensures forall e :: e in Without(data, key) <==> e in data && e.key != key
  {
    if Has(data, key) {
      DropFacts(data, Position(data, key));
    }
    var out := Without(data, key);
    assert forall i :: 0 <= i < |out| ==> out[i] in out;
    forall e | e in data
      ensures e in out <==> e.key != key
    {
      var i :| 0 <= i < |data| && data[i] == e;
    }
  }

  /** What a put leaves: the new entry, and of the others all but an evicted one. */
  lemma PutFacts(data: seq<Entry>, capacity: int, e: Entry)
    requires 0 < capacity && Dict(data)
    ensures Dict(Stored(data, capacity, e))
    ensures |data| <= capacity ==> |Stored(data, capacity, e)| <= capacity
    ensures forall x :: x in Stored(data, capacity, e) <==>
      x == e || (x in data && x.key != e.key && !(|data| >= capacity && x.key == data[OldestAt(data)].key))
  {
    if |data| >= capacity {
      DropFacts(data, OldestAt(data));
    }
    AssignFacts(Evict(data, capacity), e);
  }

  // ----- who is evicted ------------------------------------------------------------------------------------

  /** A put with its clock reading, or a removal by invalidation or expiry. */
  datatype Op = Puts(key: string, now: int, config: Config) | Removes(key: string)

  function After(ops: seq<Op>, ttl: nat, capacity: int): seq<Entry>
    requires 0 < capacity
  {
    if ops == [] then []
    else Do(After(ops[..|ops| - 1], ttl, capacity), ttl, capacity, ops[|ops| - 1])
  }

  /** Index of the last put of a key, or -1. */
  function LastPut(ops: seq<Op>, key: string): (n: int)
    ensures -1 <= n < |ops|
    ensures 0 <= n ==> ops[n].Puts? && ops[n].key == key
  {
    if ops == [] then -1
    else if ops[|ops| - 1].Puts? && ops[|ops| - 1].key == key then |ops| - 1
    else LastPut(ops[..|ops| - 1], key)
  }

  /** An entry is what its key's last put made it. */
  ghost predicate Follows(ops: seq<Op>, ttl: nat, e: Entry) {
    var n := LastPut(ops, e.key);
    0 <= n && e.expires == ops[n].now + ttl && e.config == ops[n].config
  }

  lemma StillFollows(ops: seq<Op>, ttl: nat, e: Entry)
    requires ops != [] && Follows(ops[..|ops| - 1], ttl, e)
    requires ops[|ops| - 1].Puts? ==> ops[|ops| - 1].key != e.key
    ensures Follows(ops, ttl, e)
  {
  }

  ghost predicate AllFollow(ops: seq<Op>, ttl: nat, data: seq<Entry>) {
    forall e :: e in data ==> Follows(ops, ttl, e)
  }

  function Do(data: seq<Entry>, ttl: nat, capacity: int, op: Op): seq<Entry>
    requires 0 < capacity
  {
    match op
    case Puts(key, now, config) => Stored(data, capacity, Entry(key, now + ttl, config))
    case Removes(key) => Without(data, key)
  }

  /** What a step leaves are entries that were there, and the one it puts. */
  ghost predicate Leaves(before: seq<Entry>, op: Op, ttl: nat, after: seq<Entry>) {
    forall e :: e in after ==>
      if op.Puts? && op.key == e.key then e == Entry(op.key, op.now + ttl, op.config) else e in before
  }

  lemma StepLeaves(data: seq<Entry>, ttl: nat, capacity: int, op: Op)
    requires 0 < capacity && Dict(data) && |data| <= capacity
    ensures Dict(Do(data, ttl, capacity, op)) && |Do(data, ttl, capacity, op)| <= capacity
    ensures Leaves(data, op, ttl, Do(data, ttl, capacity, op))
  {
    match op
    case Puts(key, now, config) =>
      var e := Entry(key, now + ttl, config);
      PutFacts(data, capacity, e);
      assert Do(data, ttl, capacity, op) == Stored(data, capacity, e);
    case Removes(key) =>
      WithoutFacts(data, key);
      assert Do(data, ttl, capacity, op) == Without(data, key);
  }

  lemma StepFollows(before: seq<Entry>, after: seq<Entry>, ops: seq<Op>, ttl: nat)
    requires ops != [] && AllFollow(ops[..|ops| - 1], ttl, before) && Leaves(before, ops[|ops| - 1], ttl, after)
    ensures AllFollow(ops, ttl, after)
  {
    var op := ops[|ops| - 1];
    forall e | e in after
      ensures Follows(ops, ttl, e)
    {
      if !(op.Puts? && op.key == e.key) {
        StillFollows(ops, ttl, e);
      }
    }
  }

  /** Every entry is its key's last put; the size never exceeds the capacity. */
  lemma {:induction false} EntriesFollowPuts(ops: seq<Op>, ttl: nat, capacity: int)
    requires 0 < capacity
    ensures Dict(After(ops, ttl, capacity)) && |After(ops, ttl, capacity)| <= capacity
    ensures AllFollow(ops, ttl, After(ops, ttl, capacity))
  {
    if ops != [] {
      var before := After(ops[..|ops| - 1], ttl, capacity);
      EntriesFollowPuts(ops[..|ops| - 1], ttl, capacity);
      StepLeaves(before, ttl, capacity, ops[|ops| - 1]);
      StepFollows(before, After(ops, ttl, capacity), ops, ttl);
    }
  }

  /** The clock never goes back between puts. */
  ghost predicate Monotone(ops: seq<Op>) {
    forall i, j :: 0 <= i < j < |ops| && ops[i].Puts? && ops[j].Puts? ==> ops[i].now <= ops[j].now
  }

  /** The entry has been put before the given put, at the same reading of the clock. */
  predicate PutEarlierAtSameReading(ops: seq<Op>, e: Entry, put: int)
    requires 0 <= put < |ops| && ops[put].Puts?
  {
    var n := LastPut(ops, e.key);
    0 <= n < put && ops[n].now == ops[put].now
  }

  lemma VictimReading(ops: seq<Op>, ttl: nat, capacity: int, e: Entry)
    requires 0 < capacity && e in After(ops, ttl, capacity)
    ensures var data := After(ops, ttl, capacity);
      var victim, other := LastPut(ops, data[OldestAt(data)].key), LastPut(ops, e.key);
      0 <= victim && 0 <= other && ops[victim].now <= ops[other].now
  {
    var data := After(ops, ttl, capacity);
    EntriesFollowPuts(ops, ttl, capacity);
    var i :| 0 <= i < |data| && data[i] == e;
    assert data[OldestAt(data)] in data;
    assert data[OldestAt(data)].expires <= e.expires;
  }

  /** The entry that the next put at capacity evicts was put at the earliest clock reading of all. It is
      the least recently put one if and only if no live entry was put before it at that same reading. */
  lemma VictimIsLeastRecentIff(ops: seq<Op>, ttl: nat, capacity: int)
    requires 0 < capacity && Monotone(ops) && After(ops, ttl, capacity) != []
    ensures var data := After(ops, ttl, capacity);
      var victim := LastPut(ops, data[OldestAt(data)].key);
      && 0 <= victim
      && (forall e :: e in data ==> 0 <= LastPut(ops, e.key) && ops[victim].now <= ops[LastPut(ops, e.key)].now)
      && ((forall e :: e in data ==> victim <= LastPut(ops, e.key))
          <==> !(exists e :: e in data && PutEarlierAtSameReading(ops, e, victim)))
  {
    var data := After(ops, ttl, capacity);
    var victim := LastPut(ops, data[OldestAt(data)].key);
    VictimReading(ops, ttl, capacity, data[OldestAt(data)]);
    forall e | e in data
      ensures 0 <= LastPut(ops, e.key) && ops[victim].now <= ops[LastPut(ops, e.key)].now
      ensures victim <= LastPut(ops, e.key) <==> !PutEarlierAtSameReading(ops, e, victim)
    {
      VictimReading(ops, ttl, capacity, e);
    }
  }

  /** With equal readings it need not be: a key that is put again after another keeps its place in the
      dictionary, and goes first. */
  lemma TieEvictsTheRecent(a: string, b: string, config: Config)
    requires a != b
    ensures var ops := [Puts(a, 0, config), Puts(b, 0, config), Puts(a, 0, config)];
      var data := After(ops, 5000, 3);
      && data == [Entry(a, 5000, config), Entry(b, 5000, config)]
      && data[OldestAt(data)].key == a && LastPut(ops, b) < LastPut(ops, a)
  {
    var ea, eb := Entry(a, 5000, config), Entry(b, 5000, config);
    var pa, pb := Puts(a, 0, config), Puts(b, 0, config);
    var ops := [pa, pb, pa];
    assert ops[..2] == [pa, pb] && [pa, pb][..1] == [pa] && [pa][..0] == [];
    TwoPuts(a, b, config);
    assert [ea, eb][0 := ea] == [ea, eb];
  }

  lemma TwoPuts(a: string, b: string, config: Config)
    requires a != b
    ensures var pa, pb := Puts(a, 0, config), Puts(b, 0, config);
      After([pa, pb], 5000, 3) == [Entry(a, 5000, config), Entry(b, 5000, config)] && LastPut([pa, pb], b) == 1
  {
    var pa, pb := Puts(a, 0, config), Puts(b, 0, config);
    var ea := Entry(a, 5000, config);
    assert [pa, pb][..1] == [pa] && [pa][..0] == [];
    assert After([pa], 5000, 3) == [ea];
    assert [ea][1..] == [] && Position([ea], b) == 1;
  }

  // ----- the cache ------------------------------------------------------------------------------------------------

  class TtlCache {
    const ttl: nat
    const capacity: int
    var data: seq<Entry>

    constructor (ttl: nat, capacity: int)
      ensures this.ttl == ttl && this.capacity == capacity && data == []
    {
      this.ttl, this.capacity, data := ttl, capacity, [];
    }

    /** Keys are unique, entries are filed under their own tenant, and a positive capacity is never
        exceeded. */
    ghost predicate Valid()
      reads this
    {
      && Dict(data)
      && (forall e :: e in data ==> e.config.tenant == e.key)
      && |data| <= Max(0, capacity)
    }

    /** A hit up to and including the entry's expiry; an expired entry is dropped on the way. */
    method Get(tenant: string, now: int) returns (r: Option<Config>)
      requires Valid()
      modifies this
      ensures Valid()
      ensures r.Some? ==> r.value.tenant == tenant && data == old(data)
      ensures r.Some? <==> exists e :: e in old(data) && e.key == tenant && now <= e.expires
      ensures r.Some? ==> exists e :: e in data && e.key == tenant && now <= e.expires && e.config == r.value
      ensures r.None? ==> data == Without(old(data), tenant)
    {
      WithoutFacts(data, tenant);
      var at := Position(data, tenant);
      if at == |data| {
        return None;
      }
      assert data[at] in data;
      if now > data[at].expires {
        data := Drop(data, at);
        return None;
      }
      return Some(data[at].config);
    }

    /** Raises exactly when there is nothing to evict, which takes a capacity of zero or less. */
    method Put(tenant: string, config: Config, now: int) returns (raised: bool)
      requires Valid() && config.tenant == tenant
      modifies this
      ensures Valid()
      ensures raised <==> capacity <= 0
      ensures data == if raised then old(data) else Stored(old(data), capacity, Entry(tenant, now + ttl, config))
    {
      if |data| >= capacity {
        if |data| == 0 {
          return true;
        }
        PutFacts(data, capacity, Entry(tenant, now + ttl, config));
        data := Assign(Drop(data, OldestAt(data)), Entry(tenant, now + ttl, config));
        return false;
      }
      PutFacts(data, capacity, Entry(tenant, now + ttl, config));
      data := Assign(data, Entry(tenant, now + ttl, config));
      return false;
    }

    method Invalidate(tenant: string)
      requires Valid()
      modifies this
      ensures Valid() && data == Without(old(data), tenant)
    {
      WithoutFacts(data, tenant);
      data := Without(data, tenant);
    }
  }

  /** Entries agree with the table. */
  ghost predicate UpToDate(data: seq<Entry>, table: map<string, Row>) {
    forall e :: e in data ==> e.config == Effective(table, e.key)
  }

  /** `get_for_tenant`: cache first, then the row or the defaults. `None` when the read or the put
      raised. The answer is always the asking tenant's own, and current if the cache is. */
  method GetForTenant(cache: TtlCache, table: map<string, Row>, tenant: string, now: int, later: int, selectFails: bool)
    returns (r: Option<Config>)
    requires cache.Valid()
    modifies cache
    ensures cache.Valid()
    ensures r.None? ==> selectFails || cache.capacity <= 0
    ensures r.Some? ==> r.value.tenant == tenant
    ensures UpToDate(old(cache.data), table) ==> UpToDate(cache.data, table) && (r.Some? ==> r.value == Effective(table, tenant))
    ensures r.Some? ==>
      || (exists e :: e in old(cache.data) && e.key == tenant && now <= e.expires && e.config == r.value)
      || (r.value == Effective(table, tenant) && 0 < cache.capacity
          && cache.data == Stored(Without(old(cache.data), tenant), cache.capacity, Entry(tenant, later + cache.ttl, r.value)))
  {
    var cached := cache.Get(tenant, now);
    if cached.Some? {
      return cached;
    }
    ghost var data := old(cache.data);
    WithoutFacts(data, tenant);
    if selectFails {
      return None;
    }
    var config := if tenant in table then Config(tenant, table[tenant].inbound, table[tenant].query, false) else DefaultConfig(tenant);
    var raised := cache.Put(tenant, config, later);
    if raised {
      return None;
    }
    PutFacts(Without(data, tenant), cache.capacity, Entry(tenant, later + cache.ttl, config));
    return Some(config);
  }

  // ----- staleness ---------------------------------------------------------------------------------------------------

  /** Five seconds, in milliseconds; the answer "no row" is cached as the defaults. */
  const POLICY := C.Policy(5000, true)

  function OfRow(tenant: string, row: Option<Row>): Config {
    match row
    case Some(row) => Config(tenant, row.inbound, row.query, false)
    case None => DefaultConfig(tenant)
  }

  /** In every interleaving of reads, changes, evictions and invalidations that are lost or badly
      timed, a configuration served from the cache was in force at some instant within the last five
      seconds plus the longest read. The bound rests on the expiry alone. */
  lemma ConfigIsRecent(states: seq<C.State<Row>>, actions: seq<C.Action<Row>>, n: nat, delay: nat, i: nat, tenant: string)
    requires C.IsRun(POLICY, states, actions) && C.Prompt(states, actions, delay) && n < |actions|
    requires actions[n] == C.Gets(i, tenant) && C.IsHit(states[n], tenant)
    ensures i in states[n + 1].lookups && states[n + 1].lookups[i].Answered?
    ensures exists j :: (&& 0 <= j <= n && states[n].clock - 5000 - delay <= states[j].clock
                         && OfRow(tenant, states[n + 1].lookups[i].answer) == Effective(states[j].table, tenant))
  {
    C.HitIsRecent(POLICY, states, actions, n, delay, i, tenant);
    var answer := states[n + 1].lookups[i].answer;
    var j :| 0 <= j <= n && states[n].clock - 5000 - delay <= states[j].clock && C.Answer(states[j].table, tenant) == answer;
    assert OfRow(tenant, answer) == Effective(states[j].table, tenant);
  }

  // ----- each read is a run of the cache protocol ----------------------------------------------------------------------

  function RowIn(config: Config): Option<Row> {
    if config.isDefault then None else Some(Row(config.inbound, config.query))
  }

  /** The dictionary as the protocol sees it. */
  ghost predicate Shows(data: seq<Entry>, cache: map<string, C.Entry<Row>>) {
    && (forall e :: e in data ==> e.key in cache && cache[e.key] == C.Entry(RowIn(e.config), e.expires))
    && (forall k :: k in cache ==> exists e :: e in data && e.key == k)
  }

  lemma FewerShow(data: seq<Entry>, cache: map<string, C.Entry<Row>>, key: string, data': seq<Entry>)
    requires Shows(data, cache) && forall e :: e in data' <==> e in data && e.key != key
    ensures Shows(data', cache - {key})
  {
    forall k | k in cache - {key}
      ensures exists e :: e in data' && e.key == k
    {
      var e :| e in data && e.key == k;
      assert e in data';
    }
  }

  lemma WithoutShows(data: seq<Entry>, cache: map<string, C.Entry<Row>>, key: string)
    requires Dict(data) && Shows(data, cache)
    ensures Shows(Without(data, key), cache - {key})
  {
    WithoutFacts(data, key);
    FewerShow(data, cache, key, Without(data, key));
  }

  lemma EvictShows(data: seq<Entry>, cache: map<string, C.Entry<Row>>, capacity: int)
    requires 0 < capacity && Dict(data) && Shows(data, cache) && |data| >= capacity
    ensures Shows(Evict(data, capacity), cache - {data[OldestAt(data)].key}) && Dict(Evict(data, capacity))
  {
    var at := OldestAt(data);
    DropFacts(data, at);
    FewerShow(data, cache, data[at].key, Drop(data, at));
  }

  lemma AssignShows(data: seq<Entry>, cache: map<string, C.Entry<Row>>, e: Entry)
    requires Dict(data) && Shows(data, cache)
    ensures Shows(Assign(data, e), cache[e.key := C.Entry(RowIn(e.config), e.expires)])
  {
    AssignFacts(data, e);
    var data', cache' := Assign(data, e), cache[e.key := C.Entry(RowIn(e.config), e.expires)];
    forall k | k in cache'
      ensures exists x :: x in data' && x.key == k
    {
      if k == e.key {
        assert e in data';
      } else {
        var x :| x in data && x.key == k;
        assert x in data';
      }
    }
  }

  /** A read that misses takes these steps of the protocol: the expired entry goes, the row is selected,
      time passes, an entry is evicted where the cache is full, and the answer is put. */
  function MissSteps(tenant: string, i: nat, wait: nat, victim: string): seq<C.Action<Row>> {
    [C.Gets(i, tenant)] + ([C.Loses(tenant)] + ([C.Selects(i)] + ([C.Waits(wait)] + ([C.Loses(victim)] + ([C.Sets(i)] + [])))))
  }

  /** What `GetForTenant` leaves in the dictionary on a miss is what those steps leave in the protocol's
      cache (see `MissedState`), for some choice of the entry that is lost. */
  lemma PutShows(data: seq<Entry>, cache: map<string, C.Entry<Row>>, capacity: int, tenant: string, e: Entry, row: Option<Row>)
    returns (victim: string)
    requires 0 < capacity && Dict(data) && Shows(data, cache) && e.key == tenant && row == RowIn(e.config)
    ensures Shows(Stored(Without(data, tenant), capacity, e), (cache - {tenant} - {victim})[tenant := C.Entry(row, e.expires)])
  {
    var dropped := Without(data, tenant);
    WithoutFacts(data, tenant);
    WithoutShows(data, cache, tenant);
    if |dropped| >= capacity {
      victim := dropped[OldestAt(dropped)].key;
      EvictShows(dropped, cache - {tenant}, capacity);
    } else {
      victim := tenant;
      assert cache - {tenant} - {tenant} == cache - {tenant};
    }
    AssignShows(Evict(dropped, capacity), cache - {tenant} - {victim}, e);
  }

  /** The state after all six steps. */
  function MissedState(s: C.State<Row>, tenant: string, i: nat, wait: nat, victim: string): C.State<Row> {
    var answer := C.Answer(s.table, tenant);
    C.State(s.clock + wait, s.table, (s.cache - {tenant} - {victim})[tenant := C.Entry(answer, s.clock + wait + POLICY.ttl)],
            s.lookups[i := C.Answered(tenant, answer)])
  }

  /** A miss is a run of the protocol, so `ConfigIsRecent` bounds what later reads are served. */
  lemma MissIsARun(s: C.State<Row>, tenant: string, i: nat, wait: nat, victim: string)
    requires i !in s.lookups && !C.IsHit(s, tenant)
    ensures C.Takes(POLICY, s, MissSteps(tenant, i, wait, victim), MissedState(s, tenant, i, wait, victim))
  {
    var s' := MissedState(s, tenant, i, wait, victim);
    var s1 := s.(lookups := s.lookups[i := C.Missed(tenant, true)]);
    var s2 := s1.(cache := s.cache - {tenant});
    var l := C.Selected(tenant, true, C.Answer(s.table, tenant), s.clock);
    var s3 := s2.(lookups := s.lookups[i := l]);
    C.GetMisses(POLICY, s, i, tenant);
    C.SelectAnswers(POLICY, s2, s.lookups, i, tenant, true);
    SetTakes(s, s3, l, tenant, i, wait, victim);
    C.TakesCons(POLICY, s2, C.Selects(i), s3, [C.Waits(wait)] + ([C.Loses(victim)] + ([C.Sets(i)] + [])), s');
    C.TakesCons(POLICY, s1, C.Loses(tenant), s2, [C.Selects(i)] + ([C.Waits(wait)] + ([C.Loses(victim)] + ([C.Sets(i)] + []))), s');
    C.TakesCons(POLICY, s, C.Gets(i, tenant), s1,
                [C.Loses(tenant)] + ([C.Selects(i)] + ([C.Waits(wait)] + ([C.Loses(victim)] + ([C.Sets(i)] + [])))), s');
  }

  lemma SetTakes(s: C.State<Row>, s3: C.State<Row>, l: C.Lookup<Row>, tenant: string, i: nat, wait: nat, victim: string)
    requires l == C.Selected(tenant, true, C.Answer(s.table, tenant), s.clock)
    requires s3 == C.State(s.clock, s.table, s.cache - {tenant}, s.lookups[i := l])
    ensures C.Takes(POLICY, s3, [C.Waits(wait)] + ([C.Loses(victim)] + ([C.Sets(i)] + [])), MissedState(s, tenant, i, wait, victim))
  {
    var s' := MissedState(s, tenant, i, wait, victim);
    var s4 := s3.(clock := s.clock + wait);
    var s5 := s4.(cache := s.cache - {tenant} - {victim});
    C.SetAnswers(POLICY, s5, s.lookups, i, l);
    C.TakesCons(POLICY, s5, C.Sets(i), s', [], s');
    C.TakesCons(POLICY, s4, C.Loses(victim), s5, [C.Sets(i)] + [], s');
    C.TakesCons(POLICY, s3, C.Waits(wait), s4, [C.Loses(victim)] + ([C.Sets(i)] + []), s');
  }

  /** A hit is one step, and serves the entry's configuration. */
  lemma HitIsARun(s: C.State<Row>, data: seq<Entry>, e: Entry, i: nat)
    requires Shows(data, s.cache) && e in data && e.config.tenant == e.key && s.clock <= e.expires && i !in s.lookups
    requires e.config.isDefault ==> e.config == DefaultConfig(e.key)
    ensures C.IsHit(s, e.key)
    ensures C.Next(POLICY, s, C.Gets(i, e.key), s.(lookups := s.lookups[i := C.Answered(e.key, RowIn(e.config))]))
    ensures OfRow(e.key, RowIn(e.config)) == e.config
  {
  }
}
