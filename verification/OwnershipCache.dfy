/**
 The vehicle ownership cache, and the scope check that gates every deployment on it.
 */
module OwnershipCache {
  import opened Prelude
  import opened Registry
  import C = AuthorityCache
  import R = Runtime

  const TTL: nat := 3_600_000    // one hour, in milliseconds

  /** An unknown owner is not cached. */
  const POLICY := C.Policy(TTL, false)

  type Entries = map<string, C.Entry<string>>

  /** One lookup with nobody else in between: the answer and the entries it leaves. */
  function LookUp(now: int, owners: map<string, string>, entries: Entries, vehicle: string, getFails: bool, setFails: bool)
    : (Option<string>, Entries)
  {
    if !getFails && vehicle in entries && now <= entries[vehicle].expires then (entries[vehicle].answer, entries)
    else
      var owner := C.Answer(owners, vehicle);
      (owner, if getFails || owner.None? || setFails then entries else entries[vehicle := C.Entry(owner, now + TTL)])
  }

  /** The steps that lookup takes in the protocol. */
  function Steps(now: int, entries: Entries, vehicle: string, i: nat, getFails: bool, setFails: bool): seq<C.Action<string>> {
    if !getFails && vehicle in entries && now <= entries[vehicle].expires then [C.Gets(i, vehicle)]
    else [if getFails then C.GetFails(i, vehicle) else C.Gets(i, vehicle), C.Selects(i), if setFails then C.SetFails(i) else C.Sets(i)]
  }

  /** Every lookup is a run of the protocol, so what holds of all interleavings holds of it. */
  lemma LookUpIsARun(s: C.State<string>, vehicle: string, i: nat, getFails: bool, setFails: bool)
    requires i !in s.lookups
    ensures var (owner, entries) := LookUp(s.clock, s.table, s.cache, vehicle, getFails, setFails);
      C.Takes(POLICY, s, Steps(s.clock, s.cache, vehicle, i, getFails, setFails),
              s.(cache := entries, lookups := s.lookups[i := C.Answered(vehicle, owner)]))
  {
    if !getFails && C.IsHit(s, vehicle) {
      var get: C.Action<string> := C.Gets(i, vehicle);
      assert [get][1..] == [] && C.Takes(POLICY, C.Step(POLICY, s, get), [], C.Step(POLICY, s, get));
    } else {
      MissIsARun(s, vehicle, i, getFails, setFails);
    }
  }

  lemma MissIsARun(s: C.State<string>, vehicle: string, i: nat, getFails: bool, setFails: bool)
    requires i !in s.lookups && (getFails || !C.IsHit(s, vehicle))
    ensures var (owner, entries) := LookUp(s.clock, s.table, s.cache, vehicle, getFails, setFails);
      C.Takes(POLICY, s, Steps(s.clock, s.cache, vehicle, i, getFails, setFails),
              s.(cache := entries, lookups := s.lookups[i := C.Answered(vehicle, owner)]))
  {
    var a: C.Action<string> := if getFails then C.GetFails(i, vehicle) else C.Gets(i, vehicle);
    var c: C.Action<string> := if setFails then C.SetFails(i) else C.Sets(i);
    var (owner, entries) := LookUp(s.clock, s.table, s.cache, vehicle, getFails, setFails);
    var s1 := s.(lookups := s.lookups[i := C.Missed(vehicle, !getFails)]);
    var s2 := s.(lookups := s.lookups[i := C.Selected(vehicle, !getFails, owner, s.clock)]);
    var s3 := s.(cache := entries, lookups := s.lookups[i := C.Answered(vehicle, owner)]);
    if !getFails {
      C.GetMisses(POLICY, s, i, vehicle);
    }
    C.SelectAnswers(POLICY, s1, s.lookups, i, vehicle, !getFails);
    C.SetAnswers(POLICY, s2, s.lookups, i, s2.lookups[i]);
    assert C.Takes(POLICY, s3, [], s3);
    C.TakesCons(POLICY, s2, c, s3, [], s3);
    C.TakesCons(POLICY, s1, C.Selects(i), s2, [c] + [], s3);
    C.TakesCons(POLICY, s, a, s1, [C.Selects(i)] + ([c] + []), s3);
    assert [a] + ([C.Selects(i)] + ([c] + [])) == [a, C.Selects(i), c];
  }

  /** Bounded staleness of ownership: in every interleaving of lookups, assignments, lost or late
      invalidations and Redis faults, an owner served on a hit owned the vehicle within the last hour
      plus the longest delay between a SELECT and its SET. */
  lemma OwnerIsRecent(states: seq<C.State<string>>, actions: seq<C.Action<string>>, n: nat, delay: nat, i: nat, vehicle: string)
    requires C.IsRun(POLICY, states, actions) && C.Prompt(states, actions, delay) && n < |actions|
    requires actions[n] == C.Gets(i, vehicle) && C.IsHit(states[n], vehicle)
    ensures i in states[n + 1].lookups && states[n + 1].lookups[i].Answered? && states[n + 1].lookups[i].answer.Some?
    ensures exists j :: (&& 0 <= j <= n && states[n].clock - 3_600_000 - delay <= states[j].clock
                         && vehicle in states[j].table && Some(states[j].table[vehicle]) == states[n + 1].lookups[i].answer)
  {
    C.HitIsRecent(POLICY, states, actions, n, delay, i, vehicle);
    C.AbsenceIsNotCached(POLICY, states, actions, n, vehicle);
    assert C.Next(POLICY, states[n], actions[n], states[n + 1]);
  }

  // ----- sequential refinement ---------------------------------------------------------------------

  datatype Op =
    | Wait(time: nat)
    | Ask(vehicle: string, getFails: bool, setFails: bool)
    | Assign(vehicle: string, tenant: string)
    | Invalidate(vehicle: string, fails: bool)

  datatype System = System(now: int, owners: map<string, string>, entries: Entries)

  function Do(s: System, op: Op): System {
    match op
    case Wait(time) => s.(now := s.now + time)
    case Ask(v, getFails, setFails) => s.(entries := LookUp(s.now, s.owners, s.entries, v, getFails, setFails).1)
    case Assign(v, tenant) => s.(owners := s.owners[v := tenant])
    case Invalidate(v, fails) => if fails then s else s.(entries := s.entries - {v})
  }

  /** What the cache answers, and what the table would. */
  function Served(s: System, ops: seq<Op>): seq<Option<string>>
    decreases |ops|
  {
    if ops == [] then []
    else
      (if ops[0].Ask? then [LookUp(s.now, s.owners, s.entries, ops[0].vehicle, ops[0].getFails, ops[0].setFails).0] else [])
      + Served(Do(s, ops[0]), ops[1..])
  }

  function Truth(owners: map<string, string>, ops: seq<Op>): seq<Option<string>>
    decreases |ops|
  {
    if ops == [] then []
    else
      (if ops[0].Ask? then [C.Answer(owners, ops[0].vehicle)] else [])
      + Truth(if ops[0].Assign? then owners[ops[0].vehicle := ops[0].tenant] else owners, ops[1..])
  }

  /** No vehicle is asked for between an assignment of it and the next successful invalidation. */
  predicate Settled(ops: seq<Op>, open: set<string>) {
    ops == [] ||
    match ops[0]
    case Ask(v, _, _) => v !in open && Settled(ops[1..], open)
    case Assign(v, _) => Settled(ops[1..], open + {v})
    case Invalidate(v, fails) => Settled(ops[1..], if fails then open else open - {v})
    case Wait(_) => Settled(ops[1..], open)
  }

  ghost predicate Agrees(owners: map<string, string>, entries: Entries, open: set<string>) {
    forall v :: v in entries && v !in open ==> entries[v].answer == C.Answer(owners, v)
  }

  /** Sequential refinement: under that condition the cache is invisible, for every sequence of
      operations and every pattern of GET and SET failures. */
  lemma {:induction false} CacheIsInvisible(s: System, ops: seq<Op>, open: set<string>)
    requires Settled(ops, open) && Agrees(s.owners, s.entries, open)
    ensures Served(s, ops) == Truth(s.owners, ops)
    decreases |ops|
  {
    if ops != [] {
      var open' := match ops[0]
        case Assign(v, _) => open + {v}
        case Invalidate(v, fails) => if fails then open else open - {v}
        case _ => open;
      CacheIsInvisible(Do(s, ops[0]), ops[1..], open');
    }
  }

  /** Without the invalidation the old owner is served until the entry expires, and no longer. */
  lemma UninvalidatedAssignment(v: string, a: string, b: string, wait: nat)
    requires a != b
    ensures Served(System(0, map[v := a], map[]), [Ask(v, false, false), Assign(v, b), Wait(wait), Ask(v, false, false)])
         == [Some(a), if wait <= TTL then Some(a) else Some(b)]
  {
    var ops := [Ask(v, false, false), Assign(v, b), Wait(wait), Ask(v, false, false)];
    var s0 := System(0, map[v := a], map[]);
    var entries: Entries := map[v := C.Entry(Some(a), TTL)];
    var s1 := System(0, map[v := a], entries);
    var s2 := System(0, map[v := b], entries);
    var s3 := System(wait, map[v := b], entries);
    assert Do(s0, ops[0]) == s1 && Do(s1, ops[1]) == s2 && Do(s2, ops[2]) == s3;
    var last := if wait <= TTL then Some(a) else Some(b);
    assert ops[3..] == [ops[3]] && ops[3..][1..] == [];
    assert Served(s3, ops[3..]) == [last];
    assert ops[2..][1..] == ops[3..];
    assert Served(s2, ops[2..]) == [last];
    assert ops[1..][1..] == ops[2..];
    assert Served(s1, ops[1..]) == [last];
  }

  // ----- the objects -----------------------------------------------------------------------------------

  class Redis {
    var now: int
    var entries: Entries

    constructor (start: int)
      ensures now == start && entries == map[]
    {
      now, entries := start, map[];
    }

    method Get(key: string) returns (value: Option<string>)
      ensures value == if key in entries && now <= entries[key].expires then entries[key].answer else None
    {
      if key in entries && now <= entries[key].expires {
        return entries[key].answer;
      }
      return None;
    }

    method Set(key: string, value: string, ttl: nat)
      modifies this`entries
      ensures entries == old(entries)[key := C.Entry(Some(value), now + ttl)]
    {
      entries := entries[key := C.Entry(Some(value), now + ttl)];
    }

    method Delete(key: string)
      modifies this`entries
      ensures entries == old(entries) - {key}
    {
      entries := entries - {key};
    }
  }

  class Repository {
    var owners: map<string, string>

    constructor ()
      ensures owners == map[]
    {
      owners := map[];
    }

    method GetOwner(vehicle: string) returns (owner: Option<string>)
      ensures owner == C.Answer(owners, vehicle)
    {
      if vehicle in owners {
        return Some(owners[vehicle]);
      }
      return None;
    }

    method Assign(vehicle: string, tenant: string)
      modifies this
      ensures owners == old(owners)[vehicle := tenant]
    {
      owners := owners[vehicle := tenant];
    }
  }

  /** Which of the calls of one lookup raise. */
  datatype Faults = Faults(get: bool, select: bool, set_: bool)

  /** No absent owner is in Redis. */
  ghost predicate OnlyOwners(entries: Entries) {
    forall v :: v in entries ==> entries[v].answer.Some?
  }

  /** `OwnershipCache.get_owner`; `None` when the repository raised. */
  method GetOwner(redis: Redis, repo: Repository, vehicle: string, f: Faults) returns (r: Option<Option<string>>)
    requires OnlyOwners(redis.entries)
    modifies redis`entries
    ensures r.Some? ==>
      (r.value, redis.entries) == LookUp(redis.now, repo.owners, old(redis.entries), vehicle, f.get, f.set_)
    ensures r.None? ==> f.select && redis.entries == old(redis.entries)
    ensures OnlyOwners(redis.entries)
  {
    if f.get {
      if f.select {
        return None;
      }
      var owner := repo.GetOwner(vehicle);
      return Some(owner);
    }
    var cached := redis.Get(vehicle);
    if cached.Some? {
      return Some(cached);
    }
    if f.select {
      return None;
    }
    var owner := repo.GetOwner(vehicle);
    if owner.Some? && !f.set_ {
      redis.Set(vehicle, owner.value, TTL);
    }
    return Some(owner);
  }

  /** `OwnershipCache.invalidate`: whatever the table now says, the cache no longer contradicts it. */
  method Invalidate(redis: Redis, vehicle: string)
    modifies redis`entries
    ensures redis.entries == old(redis.entries) - {vehicle}
    ensures forall owners, open :: Agrees(owners, old(redis.entries), open + {vehicle}) ==> Agrees(owners, redis.entries, open)
  {
    redis.Delete(vehicle);
  }

  // ----- the scope check ----------------------------------------------------------------------------------

  datatype Check = Passed | Mismatch(at: nat, owner: Option<string>) | LookupRaised

  /** `validate_tenant_scope`: vehicles in order, up to the first that is not the tenant's. */
  method ValidateTenantScope(redis: Redis, repo: Repository, declared: string, scope: seq<string>, faults: nat -> Faults)
    returns (r: Check)
    requires OnlyOwners(redis.entries)
    modifies redis`entries
    ensures OnlyOwners(redis.entries)
    ensures r.Mismatch? ==> r.at < |scope|
    ensures r.LookupRaised? ==> exists i :: 0 <= i < |scope| && faults(i).select
    ensures Agrees(repo.owners, old(redis.entries), {}) ==>
      && Agrees(repo.owners, redis.entries, {})
      && (r.Passed? ==> forall i :: 0 <= i < |scope| ==> C.Answer(repo.owners, scope[i]) == Some(declared))
      && (r.Mismatch? ==>
            && r.owner == C.Answer(repo.owners, scope[r.at]) && r.owner != Some(declared)
            && forall i :: 0 <= i < r.at ==> C.Answer(repo.owners, scope[i]) == Some(declared))
  {
    for k := 0 to |scope|
      invariant OnlyOwners(redis.entries)
      invariant Agrees(repo.owners, old(redis.entries), {}) ==>
        && Agrees(repo.owners, redis.entries, {})
        && forall i :: 0 <= i < k ==> C.Answer(repo.owners, scope[i]) == Some(declared)
    {
      var owner := GetOwner(redis, repo, scope[k], faults(k));
      if owner.None? {
        return LookupRaised;
      }
      if owner.value != Some(declared) {
        return Mismatch(k, owner.value);
      }
    }
    return Passed;
  }

  datatype Call = Call(tenant: string, policyId: string, version: string, scope: seq<string>)

  class Collector {
    var calls: seq<Call>

    constructor ()
      ensures calls == []
    {
      calls := [];
    }

    method Deploy(call: Call)
      modifies this
      ensures calls == old(calls) + [call]
    {
      calls := calls + [call];
    }
  }

  function RejectionRow(tenant: string, declared: string, call: Call, vehicle: string, owner: Option<string>): AuditRow {
    AuditRow(tenant, tenant,
      JObj(map[
        "policy_ref" := JObj(map["policy_id" := JStr(call.policyId), "version" := JStr(call.version)]),
        "target_vehicle_id" := JStr(vehicle),
        "policy_declared_tenant_id" := JStr(declared),
        "vehicle_owning_tenant_id" := if owner.Some? then JStr(owner.value) else JNull]),
      None, None, None)
  }

  datatype Deployment = Deployed | Refused(vehicle: string, owner: Option<string>) | Raised

  /** `deploy_with_tenant_scope_check`. With a coherent cache the collector is called only if every
      vehicle in scope belongs to the declared tenant, and otherwise the first foreign vehicle is
      reported and audited. */
  method DeployChecked(redis: Redis, repo: Repository, collector: Collector, db: R.Database, declared: string, correlation: string,
                       call: Call, faults: nat -> Faults, auditFails: bool)
    returns (r: Deployment)
    requires OnlyOwners(redis.entries)
    modifies redis`entries, collector, db
    ensures OnlyOwners(redis.entries)
    ensures collector.calls == if r.Deployed? then old(collector.calls) + [call] else old(collector.calls)
    ensures r.Refused? ==>
      db.View() == WriteAudit(old(db.View()), correlation, KDeploymentRejected,
                              RejectionRow(call.tenant, declared, call, r.vehicle, r.owner))
    ensures !r.Refused? ==> db.View() == old(db.View())
    ensures Agrees(repo.owners, old(redis.entries), {}) ==>
      && Agrees(repo.owners, redis.entries, {})
      && (r.Deployed? ==> forall v :: v in call.scope ==> v in repo.owners && repo.owners[v] == declared)
      && (r.Refused? ==> r.vehicle in call.scope && C.Answer(repo.owners, r.vehicle) == r.owner != Some(declared))
    ensures !auditFails && (forall i :: !faults(i).select) && !Clash(db.View(), call.tenant, correlation, KDeploymentRejected) ==>
      !r.Raised?
  {
    var check := ValidateTenantScope(redis, repo, declared, call.scope, faults);
    match check
    case LookupRaised => return Raised;
    case Mismatch(at, owner) =>
      if auditFails {
        return Raised;
      }
      var ok := db.Audit(correlation, KDeploymentRejected, RejectionRow(call.tenant, declared, call, call.scope[at], owner));
      if !ok {
        return Raised;
      }
      return Refused(call.scope[at], owner);
    case Passed =>
      collector.Deploy(call);
      return Deployed;
  }
}
