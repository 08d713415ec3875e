/**
 Right-to-erasure: the laws of the three statements, and the dispatcher that issues them.
 */
module Erasure {
  import opened Prelude
  import opened Registry
  import opened Pipeline
  import opened Runtime
  import E = Evaluator

  // ----- what is left of one scope ------------------------------------------------------------------

  /** Order is kept: what is left of a scope is what is left of its parts, in their order. */
  lemma {:induction false} WithoutAppend(a: seq<string>, b: seq<string>, vehicle: string)
    ensures Without(a + b, vehicle) == Without(a, vehicle) + Without(b, vehicle)
  {
    if a == [] {
      assert a + b == b;
    } else {
      assert (a + b)[1..] == a[1..] + b;
      WithoutAppend(a[1..], b, vehicle);
    }
  }

  /** Other vehicles keep their multiplicity. */
  lemma {:induction false} WithoutCounts(scope: seq<string>, vehicle: string)
    ensures multiset(Without(scope, vehicle)) == multiset(scope)[vehicle := 0]
  {
    if scope != [] {
      WithoutCounts(scope[1..], vehicle);
      assert scope == [scope[0]] + scope[1..];
    }
  }

  lemma WithoutMembers(scope: seq<string>, vehicle: string)
    ensures forall u :: u in Without(scope, vehicle) <==> u in scope && u != vehicle
  {
    WithoutCounts(scope, vehicle);
    forall u
      ensures u in Without(scope, vehicle) <==> u in scope && u != vehicle
    {
      assert u in Without(scope, vehicle) <==> u in multiset(Without(scope, vehicle));
      assert u in scope <==> u in multiset(scope);
    }
  }

  lemma {:induction false} WithoutAbsent(scope: seq<string>, vehicle: string)
    requires vehicle !in scope
    ensures Without(scope, vehicle) == scope
  {
    if scope != [] {
      WithoutAbsent(scope[1..], vehicle);
      assert scope == [scope[0]] + scope[1..];
    }
  }

  lemma {:induction false} WithoutCommutes(scope: seq<string>, v: string, u: string)
    ensures Without(Without(scope, v), u) == Without(Without(scope, u), v)
  {
    if scope != [] {
      WithoutCommutes(scope[1..], v, u);
      Unfold(scope, v, u);
      Unfold(scope, u, v);
    }
  }

  lemma Unfold(scope: seq<string>, v: string, u: string)
    requires scope != []
    ensures Without(Without(scope, v), u)
         == (if scope[0] == v || scope[0] == u then [] else [scope[0]]) + Without(Without(scope[1..], v), u)
  {
    if scope[0] != v {
      assert Without(scope, v)[1..] == Without(scope[1..], v);
    } else {
      assert Without(scope, v) == Without(scope[1..], v);
    }
  }

  // ----- the registry statement --------------------------------------------------------------------------

  /** The statement goes through exactly when every policy of the tenant that names the vehicle also
      names another one; a single lone mention fails it for all of them. */
  lemma EraseSucceedsIff(t: Tables, tenant: string, vehicle: string)
    ensures EraseRegistry(t, tenant, vehicle).Some? <==>
      forall k :: k in t.policies && Names(k, t.policies[k], tenant, vehicle) ==>
        exists u :: u in t.policies[k].scope && u != vehicle
  {
    forall k | k in t.policies && Names(k, t.policies[k], tenant, vehicle)
      ensures Without(t.policies[k].scope, vehicle) != [] <==> exists u :: u in t.policies[k].scope && u != vehicle
    {
      var scope := t.policies[k].scope;
      WithoutMembers(scope, vehicle);
      if Without(scope, vehicle) != [] {
        assert Without(scope, vehicle)[0] in Without(scope, vehicle);
      }
    }
  }

  /** The condition is not met by every registry: next to a policy collecting from one vehicle
      alone, a second policy keeps naming that vehicle too. */
  lemma LoneMentionBlocksErasure(tenant: string, row: PolicyRow)
    ensures var lone, shared := row.(scope := ["v1"]), row.(scope := ["v1", "v2"]);
      var t := EMPTY.(policies := map[PolicyKey(tenant, "p1", "1") := lone, PolicyKey(tenant, "p2", "1") := shared]);
      EraseRegistry(t, tenant, "v1").None?
  {
    var lone, shared := row.(scope := ["v1"]), row.(scope := ["v1", "v2"]);
    var k1 := PolicyKey(tenant, "p1", "1");
    var t := EMPTY.(policies := map[k1 := lone, PolicyKey(tenant, "p2", "1") := shared]);
    assert ["v1"][1..] == [];
    assert Without(["v1"], "v1") == [];
    assert k1 in t.policies && Names(k1, t.policies[k1], tenant, "v1");
  }

  /** What a successful erasure leaves: the same policies, none of the tenant's naming the vehicle,
      every other vehicle as often as before, nothing else changed, and other tenants untouched. */
  lemma ErasureLeaves(t: Tables, tenant: string, vehicle: string)
    requires EraseRegistry(t, tenant, vehicle).Some?
    ensures var t' := EraseRegistry(t, tenant, vehicle).value;
      && t' == t.(policies := t'.policies) && t'.policies.Keys == t.policies.Keys
      && (forall k :: k in t.policies ==> t'.policies[k] == t.policies[k].(scope := t'.policies[k].scope))
      && (forall k :: k in t.policies && k.tenant == tenant ==>
            multiset(t'.policies[k].scope) == multiset(t.policies[k].scope)[vehicle := 0])
      && (forall k :: k in t.policies && k.tenant == tenant ==> vehicle !in t'.policies[k].scope)
      && (forall k :: k in t.policies && k.tenant != tenant ==> t'.policies[k] == t.policies[k])
      && (forall k :: k in t.policies && t.policies[k].scope != [] ==> t'.policies[k].scope != [])
  {
    forall k | k in t.policies && k.tenant == tenant
      ensures multiset(ErasedRow(k, t.policies[k], tenant, vehicle).scope) == multiset(t.policies[k].scope)[vehicle := 0]
      ensures vehicle !in ErasedRow(k, t.policies[k], tenant, vehicle).scope
    {
      ErasedRowCounts(k, t.policies[k], tenant, vehicle);
    }
  }

  lemma ErasedRowCounts(k: PolicyKey, row: PolicyRow, tenant: string, vehicle: string)
    requires k.tenant == tenant
    ensures ErasedRow(k, row, tenant, vehicle).scope == Without(row.scope, vehicle)
    ensures multiset(ErasedRow(k, row, tenant, vehicle).scope) == multiset(row.scope)[vehicle := 0]
    ensures vehicle !in ErasedRow(k, row, tenant, vehicle).scope
  {
    WithoutCounts(row.scope, vehicle);
    WithoutMembers(row.scope, vehicle);
    if vehicle !in row.scope {
      WithoutAbsent(row.scope, vehicle);
    }
  }

  lemma NothingToErase(t: Tables, tenant: string, vehicle: string)
    requires forall k :: k in t.policies && k.tenant == tenant ==> vehicle !in t.policies[k].scope
    ensures EraseRegistry(t, tenant, vehicle) == Some(t)
  {
    var erased := map k | k in t.policies :: ErasedRow(k, t.policies[k], tenant, vehicle);
    assert erased == t.policies;
  }

  /** Erasing once more changes nothing. */
  lemma ErasureIsIdempotent(t: Tables, tenant: string, vehicle: string)
    requires EraseRegistry(t, tenant, vehicle).Some?
    ensures var t' := EraseRegistry(t, tenant, vehicle).value; EraseRegistry(t', tenant, vehicle) == Some(t')
  {
    ErasureLeaves(t, tenant, vehicle);
    NothingToErase(EraseRegistry(t, tenant, vehicle).value, tenant, vehicle);
  }

  /** Two erasures, the second only after the first went through. */
  function Both(t: Tables, a: string, v: string, b: string, u: string): Option<Tables> {
    match EraseRegistry(t, a, v)
    case Some(t') => EraseRegistry(t', b, u)
    case None => None
  }

  /** A policy survives both erasures in either order alike. */
  predicate Survives(k: PolicyKey, row: PolicyRow, a: string, v: string, b: string, u: string) {
    var kept := ErasedRow(k, ErasedRow(k, row, a, v), b, u).scope;
    row.scope == [] || kept != []
  }

  lemma RowCommutes(k: PolicyKey, row: PolicyRow, a: string, v: string, b: string, u: string)
    ensures ErasedRow(k, ErasedRow(k, row, a, v), b, u) == ErasedRow(k, ErasedRow(k, row, b, u), a, v)
  {
    if k.tenant == a && k.tenant == b {
      ErasedRowCounts(k, row, a, v);
      ErasedRowCounts(k, row, b, u);
      ErasedRowCounts(k, ErasedRow(k, row, a, v), b, u);
      ErasedRowCounts(k, ErasedRow(k, row, b, u), a, v);
      WithoutCommutes(row.scope, v, u);
    }
  }

  /** `None` exactly when some scope would lose its last vehicle. */
  lemma BlocksRow(k: PolicyKey, row: PolicyRow, tenant: string, vehicle: string)
    ensures Names(k, row, tenant, vehicle) && Without(row.scope, vehicle) == [] <==>
      row.scope != [] && ErasedRow(k, row, tenant, vehicle).scope == []
  {
    if k.tenant == tenant && vehicle !in row.scope {
      WithoutAbsent(row.scope, vehicle);
    }
  }

  lemma BothIs(t: Tables, a: string, v: string, b: string, u: string)
    ensures Both(t, a, v, b, u) ==
      if forall k :: k in t.policies ==> Survives(k, t.policies[k], a, v, b, u)
      then Some(t.(policies := map k | k in t.policies :: ErasedRow(k, ErasedRow(k, t.policies[k], a, v), b, u)))
      else None
  {
    forall k | k in t.policies
      ensures Names(k, t.policies[k], a, v) && Without(t.policies[k].scope, v) == [] ==> !Survives(k, t.policies[k], a, v, b, u)
    {
      BlocksRow(k, t.policies[k], a, v);
    }
    if EraseRegistry(t, a, v).Some? {
      var t1 := EraseRegistry(t, a, v).value;
      forall k | k in t.policies
        ensures Names(k, t1.policies[k], b, u) && Without(t1.policies[k].scope, u) == [] <==> !Survives(k, t.policies[k], a, v, b, u)
      {
        BlocksRow(k, t.policies[k], a, v);
        BlocksRow(k, t1.policies[k], b, u);
      }
      SecondErasure(t, t1, a, v, b, u);
    } else {
      var k :| k in t.policies && Names(k, t.policies[k], a, v) && Without(t.policies[k].scope, v) == [];
      assert !Survives(k, t.policies[k], a, v, b, u);
    }
  }

  lemma SecondErasure(t: Tables, t1: Tables, a: string, v: string, b: string, u: string)
    requires EraseRegistry(t, a, v) == Some(t1)
    requires forall k :: k in t.policies ==>
      (Names(k, t1.policies[k], b, u) && Without(t1.policies[k].scope, u) == [] <==> !Survives(k, t.policies[k], a, v, b, u))
    ensures EraseRegistry(t1, b, u) ==
      if forall k :: k in t.policies ==> Survives(k, t.policies[k], a, v, b, u)
      then Some(t.(policies := map k | k in t.policies :: ErasedRow(k, ErasedRow(k, t.policies[k], a, v), b, u)))
      else None
  {
    if k :| k in t.policies && !Survives(k, t.policies[k], a, v, b, u) {
      assert k in t1.policies;
    } else {
      assert (map k | k in t1.policies :: ErasedRow(k, t1.policies[k], b, u))
          == (map k | k in t.policies :: ErasedRow(k, ErasedRow(k, t.policies[k], a, v), b, u));
    }
  }

  /** Erasures commute, of any two vehicles and any two tenants: either order goes through exactly
      when the other does, with the same tables. */
  lemma ErasuresCommute(t: Tables, a: string, v: string, b: string, u: string)
    ensures Both(t, a, v, b, u) == Both(t, b, u, a, v)
  {
    BothIs(t, a, v, b, u);
    BothIs(t, b, u, a, v);
    forall k | k in t.policies
      ensures ErasedRow(k, ErasedRow(k, t.policies[k], a, v), b, u) == ErasedRow(k, ErasedRow(k, t.policies[k], b, u), a, v)
    {
      RowCommutes(k, t.policies[k], a, v, b, u);
    }
    assert (map k | k in t.policies :: ErasedRow(k, ErasedRow(k, t.policies[k], a, v), b, u))
        == (map k | k in t.policies :: ErasedRow(k, ErasedRow(k, t.policies[k], b, u), a, v));
  }

  // ----- telemetry and audit -------------------------------------------------------------------------------

  lemma {:induction false} TelemetryCounts(rows: seq<Observation>, tenant: string, vehicle: string)
    ensures forall o :: multiset(WithoutVehicle(rows, tenant, vehicle))[o]
                     == if Hit(o, tenant, vehicle) then 0 else multiset(rows)[o]
  {
    if rows != [] {
      TelemetryCounts(rows[1..], tenant, vehicle);
      assert rows == [rows[0]] + rows[1..];
    }
  }

  lemma {:induction false} TelemetryAbsent(rows: seq<Observation>, tenant: string, vehicle: string)
    requires forall i :: 0 <= i < |rows| ==> !(rows[i].key.tenant == tenant && rows[i].vehicle == vehicle)
    ensures WithoutVehicle(rows, tenant, vehicle) == rows
  {
    if rows != [] {
      TelemetryAbsent(rows[1..], tenant, vehicle);
      assert rows == [rows[0]] + rows[1..];
    }
  }

  lemma {:induction false} TelemetryCommutes(rows: seq<Observation>, a: string, v: string, b: string, u: string)
    ensures WithoutVehicle(WithoutVehicle(rows, a, v), b, u) == WithoutVehicle(WithoutVehicle(rows, b, u), a, v)
  {
    if rows != [] {
      TelemetryCommutes(rows[1..], a, v, b, u);
      UnfoldRows(rows, a, v, b, u);
      UnfoldRows(rows, b, u, a, v);
    }
  }

  predicate Hit(o: Observation, tenant: string, vehicle: string) {
    o.key.tenant == tenant && o.vehicle == vehicle
  }

  lemma UnfoldRows(rows: seq<Observation>, a: string, v: string, b: string, u: string)
    requires rows != []
    ensures WithoutVehicle(WithoutVehicle(rows, a, v), b, u)
         == (if Hit(rows[0], a, v) || Hit(rows[0], b, u) then [] else [rows[0]])
            + WithoutVehicle(WithoutVehicle(rows[1..], a, v), b, u)
  {
    if Hit(rows[0], a, v) {
      assert WithoutVehicle(rows, a, v) == WithoutVehicle(rows[1..], a, v);
    } else {
      assert WithoutVehicle(rows, a, v)[1..] == WithoutVehicle(rows[1..], a, v);
    }
  }

  /** The telemetry statement: none of the tenant's observations of the vehicle is left, every other
      one as often as before; it is idempotent and commutes. */
  lemma TelemetryErasureLaws(t: Tables, a: string, v: string, b: string, u: string)
    ensures var t' := EraseTelemetry(t, a, v);
      && (forall o :: multiset(t'.telemetry)[o] == if Hit(o, a, v) then 0 else multiset(t.telemetry)[o])
      && EraseTelemetry(t', a, v) == t'
    ensures EraseTelemetry(EraseTelemetry(t, a, v), b, u) == EraseTelemetry(EraseTelemetry(t, b, u), a, v)
  {
    TelemetryCounts(t.telemetry, a, v);
    WithoutVehicleFrom(t.telemetry, a, v);
    TelemetryAbsent(WithoutVehicle(t.telemetry, a, v), a, v);
    TelemetryCommutes(t.telemetry, a, v, b, u);
  }

  /** Redaction is idempotent, keeps every row and its references, and marks each row that concerned
      the subject, unless its document is a list or a string. */
  lemma RedactionLaws(t: Tables, tenant: string, subject: string)
    ensures var t' := RedactAudit(t, tenant, subject);
      && t'.audit.Keys == t.audit.Keys
      && RedactAudit(t', tenant, subject) == t'
      && (forall k :: k in t.audit ==> t'.audit[k] == t.audit[k].(finding := t'.audit[k].finding))
      && (forall k :: k in t.audit && !Concerns(t.audit[k], tenant, subject) ==> t'.audit[k] == t.audit[k])
      && (forall k :: k in t.audit && Concerns(t.audit[k], tenant, subject) ==>
            Marked(t'.audit[k].finding, subject) || t.audit[k].finding.JStr? || t.audit[k].finding.JArr?)
  {
    var t' := RedactAudit(t, tenant, subject);
    forall k | k in t'.audit
      ensures RedactAudit(t', tenant, subject).audit[k] == t'.audit[k]
    {
      RedactedTwice(t.audit[k].finding, subject);
    }
    assert RedactAudit(t', tenant, subject).audit == t'.audit;
  }

  predicate Marked(finding: Json, subject: string) {
    finding.JObj? && "redacted_subject" in finding.fields && finding.fields["redacted_subject"] == JStr(subject)
  }

  lemma RedactedTwice(finding: Json, subject: string)
    ensures Redacted(Redacted(finding, subject), subject) == Redacted(finding, subject)
  {
    if finding.JObj? {
      var once := finding.fields["redacted_subject" := JStr(subject)];
      assert once["redacted_subject" := JStr(subject)] == once;
    }
  }

  // ----- the active policy of a vehicle ------------------------------------------------------------------------

  predicate ActiveFor(t: Tables, k: PolicyKey, tenant: string, vehicle: string) {
    && k in t.policies && Names(k, t.policies[k], tenant, vehicle)
    && exists d :: d in t.deployments && t.deployments[d].key == k && t.deployments[d].status == Accepted
  }

  /** An admissible answer of `find_active_for_vehicle`: a newest active policy, or none if there is
      none. */
  ghost predicate ActiveAnswer(t: Tables, tenant: string, vehicle: string, r: Option<PolicyKey>) {
    match r
    case None => forall k :: !ActiveFor(t, k, tenant, vehicle)
    case Some(k) =>
      ActiveFor(t, k, tenant, vehicle) &&
      forall k' :: ActiveFor(t, k', tenant, vehicle) ==> t.policies[k'].createdAt <= t.policies[k].createdAt
  }

  /** Scopes only lose vehicles. */
  ghost predicate ScopesShrink(t: Tables, t': Tables) {
    forall k, v :: k in t.policies && k in t'.policies && v in t'.policies[k].scope ==> v in t.policies[k].scope
  }

  lemma StepShrinks(s: State, a: Action, s': State)
    requires Next(s, a, s')
    ensures ScopesShrink(s.tables, s'.tables)
  {
    match a
    case TaskDoes(i, e) => TaskShrinks(s.tables, s.tasks[i], e);
    case WorkerDoes(j, w) => WorkerTables(s.tables, s.workers[j], w);
    case ErasesRegistry(tenant, vehicle) =>
      if EraseRegistry(s.tables, tenant, vehicle).Some? {
        forall k | k in s.tables.policies
          ensures forall v :: v in s'.tables.policies[k].scope ==> v in s.tables.policies[k].scope
        {
          WithoutMembers(s.tables.policies[k].scope, vehicle);
        }
      }
    case _ =>
  }

  lemma TaskShrinks(t: Tables, k: Task, e: Event)
    requires Enabled(k, e)
    ensures forall key :: key in t.policies && key in StepTask(t, k, e).0.policies ==>
      StepTask(t, k, e).0.policies[key] == t.policies[key]
  {
  }

  lemma {:induction false} RunShrinks(states: seq<State>, actions: seq<Action>, m: nat, n: nat)
    requires IsRun(states, actions) && m <= n < |states|
    ensures ScopesShrink(states[m].tables, states[n].tables)
    decreases n - m
  {
    if m < n {
      RunShrinks(states, actions, m, n - 1);
      PoliciesStay(states, actions, m, n - 1);
      StepShrinks(states[n - 1], actions[n - 1], states[n]);
      ShrinkTransitive(states[m].tables, states[n - 1].tables, states[n].tables);
    }
  }

  lemma PoliciesStay(states: seq<State>, actions: seq<Action>, m: nat, n: nat)
    requires IsRun(states, actions) && m <= n < |states|
    ensures states[m].tables.policies.Keys <= states[n].tables.policies.Keys
  {
    NothingIsTakenBack(states, actions, m, n);
  }

  lemma ShrinkTransitive(a: Tables, b: Tables, c: Tables)
    requires ScopesShrink(a, b) && ScopesShrink(b, c) && a.policies.Keys <= b.policies.Keys
    ensures ScopesShrink(a, c)
  {
  }

  /** Once erased, a vehicle stays erased in every run: from then on only a policy inserted later can
      be its active policy. */
  lemma ErasedStaysErased(states: seq<State>, actions: seq<Action>, m: nat, n: nat, tenant: string, vehicle: string, r: Option<PolicyKey>)
    requires IsRun(states, actions) && m < n < |states|
    requires actions[m] == ErasesRegistry(tenant, vehicle) && EraseRegistry(states[m].tables, tenant, vehicle).Some?
    requires ActiveAnswer(states[n].tables, tenant, vehicle, r)
    ensures r.Some? ==> r.value !in states[m].tables.policies
    ensures n == m + 1 ==> r == None
  {
    ErasureLeaves(states[m].tables, tenant, vehicle);
    RunShrinks(states, actions, m + 1, n);
    assert Next(states[m], actions[m], states[m + 1]);
    PoliciesStay(states, actions, m + 1, n);
  }

  // ----- erased telemetry can return -------------------------------------------------------------------------

  ghost predicate Observed(t: Tables, tenant: string, vehicle: string) {
    exists o :: o in t.telemetry && Hit(o, tenant, vehicle)
  }

  /** A session of the tenant that has yet to insert telemetry of the vehicle. */
  predicate AboutToObserve(k: Task, tenant: string, vehicle: string) {
    && Chosen(k) && k.pc == DeployedWritten && k.tenant == tenant && k.directive != E.Starve
    && vehicle in k.run.value.policy.spec.scope
  }

  /** The step inserts telemetry of the vehicle. */
  predicate Inserts(s: State, a: Action, tenant: string, vehicle: string) {
    a.TaskDoes? && a.event.Proceeds? && a.task in s.tasks && AboutToObserve(s.tasks[a.task], tenant, vehicle)
  }

  lemma OnlySessionsObserve(s: State, a: Action, s': State, tenant: string, vehicle: string)
    requires Next(s, a, s') && !Observed(s.tables, tenant, vehicle) && Observed(s'.tables, tenant, vehicle)
    ensures Inserts(s, a, tenant, vehicle)
  {
    var o :| o in s'.tables.telemetry && Hit(o, tenant, vehicle);
    assert o !in s.tables.telemetry;
    match a
    case TaskDoes(i, e) => SessionObserves(s.tables, s.tasks[i], e, o);
    case WorkerDoes(j, w) => WorkerTables(s.tables, s.workers[j], w);
    case ErasesTelemetry(t, v) => WithoutVehicleFrom(s.tables.telemetry, t, v);
    case _ =>
  }

  lemma SessionObserves(t: Tables, k: Task, e: Event, o: Observation)
    requires Enabled(k, e) && o !in t.telemetry && o in StepTask(t, k, e).0.telemetry
    ensures e.Proceeds? && AboutToObserve(k, o.key.tenant, o.vehicle)
  {
    assert e.Proceeds? && k.pc == DeployedWritten;
    assert o in e.rows;
  }

  lemma SessionCanObserve(s: State, i: nat, tenant: string, vehicle: string) returns (a: Action, s': State)
    requires i in s.tasks && AboutToObserve(s.tasks[i], tenant, vehicle)
    ensures Next(s, a, s') && Observed(s'.tables, tenant, vehicle)
  {
    var k := s.tasks[i];
    var rows := SomeRows(k);
    a := TaskDoes(i, Proceeds(0, rows));
    s' := s.(tables := AddTelemetry(s.tables, rows), tasks := s.tasks[i := k.(pc := Done)]);
    assert Mentions(rows, Key(k), vehicle);
    var o :| o in rows && o.key == Key(k) && o.vehicle == vehicle;
    assert o in s'.tables.telemetry && Hit(o, tenant, vehicle);
  }

  /** Telemetry erasure lasts at least one more step of every actor if and only if no session of the
      tenant stands before its telemetry insert with the vehicle in scope. */
  lemma ErasureLastsIff(s: State, tenant: string, vehicle: string)
    requires !Observed(s.tables, tenant, vehicle)
    ensures (forall a, s' :: Next(s, a, s') ==> !Observed(s'.tables, tenant, vehicle))
       <==> (forall i :: i in s.tasks ==> !AboutToObserve(s.tasks[i], tenant, vehicle))
  {
    forall a, s' | Next(s, a, s') && Observed(s'.tables, tenant, vehicle)
      ensures exists i :: i in s.tasks && AboutToObserve(s.tasks[i], tenant, vehicle)
    {
      OnlySessionsObserve(s, a, s', tenant, vehicle);
    }
    if i :| i in s.tasks && AboutToObserve(s.tasks[i], tenant, vehicle) {
      var a, s' := SessionCanObserve(s, i, tenant, vehicle);
    }
  }

  /** In every run, observations of a vehicle after its erasure come from a session that inserted them
      after it. */
  lemma {:induction false} ReturnsOnlyBySession(states: seq<State>, actions: seq<Action>, m: nat, n: nat, tenant: string, vehicle: string)
    returns (l: nat)
    requires IsRun(states, actions) && m < n < |states| && actions[m] == ErasesTelemetry(tenant, vehicle)
    requires Observed(states[n].tables, tenant, vehicle)
    ensures m < l < n && Inserts(states[l], actions[l], tenant, vehicle)
    decreases n
  {
    assert Next(states[n - 1], actions[n - 1], states[n]);
    if m < n - 1 && Observed(states[n - 1].tables, tenant, vehicle) {
      l := ReturnsOnlyBySession(states, actions, m, n - 1, tenant, vehicle);
    } else {
      WithoutVehicleFrom(states[m].tables.telemetry, tenant, vehicle);
      OnlySessionsObserve(states[n - 1], actions[n - 1], states[n], tenant, vehicle);
      l := n - 1;
    }
  }

  lemma InsertObserves(s: State, a: Action, s': State, tenant: string, vehicle: string)
    requires Next(s, a, s') && Inserts(s, a, tenant, vehicle)
    ensures Observed(s'.tables, tenant, vehicle)
  {
    var k := s.tasks[a.task];
    assert Mentions(a.event.rows, Key(k), vehicle);
    var o :| o in a.event.rows && o.key == Key(k) && o.vehicle == vehicle;
    assert o in s'.tables.telemetry && Hit(o, tenant, vehicle);
  }

  /** Over a whole run: from its telemetry erasure on, the vehicle is never observed again if and only if
      no session inserts telemetry with the vehicle in scope after it. */
  lemma ErasedForTheRunIff(states: seq<State>, actions: seq<Action>, m: nat, n: nat, tenant: string, vehicle: string)
    requires IsRun(states, actions) && m < n < |states| && actions[m] == ErasesTelemetry(tenant, vehicle)
    ensures (forall l :: m < l <= n ==> !Observed(states[l].tables, tenant, vehicle))
       <==> (forall l :: m < l < n ==> !Inserts(states[l], actions[l], tenant, vehicle))
  {
    if l :| m < l <= n && Observed(states[l].tables, tenant, vehicle) {
      var i := ReturnsOnlyBySession(states, actions, m, l, tenant, vehicle);
    }
    if l :| m < l < n && Inserts(states[l], actions[l], tenant, vehicle) {
      assert Next(states[l], actions[l], states[l + 1]);
      InsertObserves(states[l], actions[l], states[l + 1], tenant, vehicle);
    }
  }

  // ----- the dispatcher ----------------------------------------------------------------------------------------------

  datatype SubjectKind = Vehicle | Finding | Principal

  datatype Mode = Erased | RedactedMode

  datatype StoreStatus = StoreErased | StoreRedacted | StoreFailed

  datatype Report = Report(registry: StoreStatus, telemetry: StoreStatus, audit: StoreStatus, completed: bool)

  /** None of the tenant's policies or observations names the vehicle, so it has no active policy. */
  ghost predicate Gone(t: Tables, tenant: string, vehicle: string) {
    && (forall k :: k in t.policies && k.tenant == tenant ==> vehicle !in t.policies[k].scope)
    && (forall o :: o in t.telemetry ==> !Hit(o, tenant, vehicle))
    && ActiveAnswer(t, tenant, vehicle, None)
  }

  /** `_erase_registry`: whether it went through. */
  method EraseRegistryStore(db: Database, tenant: string, subject: string, kind: SubjectKind) returns (ok: bool)
    modifies db`policies
    ensures ok <==> kind != Vehicle || EraseRegistry(old(db.View()), tenant, subject).Some?
    ensures db.policies == if kind == Vehicle && ok then EraseRegistry(old(db.View()), tenant, subject).value.policies
                           else old(db.policies)
  {
    if kind != Vehicle {
      return true;
    }
    if exists k :: k in db.policies && Names(k, db.policies[k], tenant, subject) && Without(db.policies[k].scope, subject) == [] {
      return false;
    }
    db.policies := map k | k in db.policies :: ErasedRow(k, db.policies[k], tenant, subject);
    return true;
  }

  /** `_erase_telemetry`. */
  method EraseTelemetryStore(db: Database, tenant: string, subject: string, kind: SubjectKind)
    modifies db`telemetry
    ensures db.telemetry == if kind == Vehicle then EraseTelemetry(old(db.View()), tenant, subject).telemetry
                            else old(db.telemetry)
  {
    if kind == Vehicle {
      db.telemetry := WithoutVehicle(db.telemetry, tenant, subject);
    }
  }

  /** `_redact_audit`. */
  method RedactAuditStore(db: Database, tenant: string, subject: string)
    modifies db`audit
    ensures db.audit == RedactAudit(old(db.View()), tenant, subject).audit
  {
    db.audit := map k | k in db.audit ::
      if Concerns(db.audit[k], tenant, subject)
      then db.audit[k].(finding := Redacted(db.audit[k].finding, subject)) else db.audit[k];
  }

  /** The three stores in turn; each is attempted whatever happened to the others. */
  method EraseStores(db: Database, tenant: string, subject: string, kind: SubjectKind, mode: Mode, fault: nat -> bool)
    returns (registry: StoreStatus, telemetry: StoreStatus, audit: StoreStatus)
    modifies db
    ensures db.policies == if kind == Vehicle && !fault(0) && EraseRegistry(old(db.View()), tenant, subject).Some?
                           then EraseRegistry(old(db.View()), tenant, subject).value.policies else old(db.policies)
    ensures db.telemetry == if kind == Vehicle && !fault(1) then EraseTelemetry(old(db.View()), tenant, subject).telemetry
                            else old(db.telemetry)
    ensures db.audit == if fault(2) then old(db.audit) else RedactAudit(old(db.View()), tenant, subject).audit
    ensures db.deployments == old(db.deployments) && db.outcomes == old(db.outcomes)
    ensures registry == if fault(0) || (kind == Vehicle && EraseRegistry(old(db.View()), tenant, subject).None?)
                        then StoreFailed else if mode == Erased then StoreErased else StoreRedacted
    ensures telemetry == (if fault(1) then StoreFailed else StoreErased)
    ensures audit == (if fault(2) then StoreFailed else StoreRedacted)
  {
    registry, telemetry, audit := StoreFailed, StoreFailed, StoreFailed;
    if !fault(0) {
      var ok := EraseRegistryStore(db, tenant, subject, kind);
      if ok {
        registry := if mode == Erased then StoreErased else StoreRedacted;
      }
    }
    if !fault(1) {
      EraseTelemetryStore(db, tenant, subject, kind);
      telemetry := StoreErased;
    }
    if !fault(2) {
      RedactAuditStore(db, tenant, subject);
      audit := StoreRedacted;
    }
  }

  /** `_dispatch`. `fault(i)` makes the i-th statement raise; the last one records the report. */
  method Dispatch(db: Database, tenant: string, subject: string, kind: SubjectKind, mode: Mode, fault: nat -> bool)
    returns (report: Option<Report>)
    modifies db
    // what each store holds afterwards
    ensures db.policies == if kind == Vehicle && !fault(0) && EraseRegistry(old(db.View()), tenant, subject).Some?
                           then EraseRegistry(old(db.View()), tenant, subject).value.policies else old(db.policies)
    ensures db.telemetry == if kind == Vehicle && !fault(1) then EraseTelemetry(old(db.View()), tenant, subject).telemetry
                            else old(db.telemetry)
    ensures db.audit == if fault(2) then old(db.audit) else RedactAudit(old(db.View()), tenant, subject).audit
    ensures db.deployments == old(db.deployments) && db.outcomes == old(db.outcomes)
    // what is reported; a subject that is no vehicle has its first two stores reported erased untouched
    ensures report.Some? <==> !fault(3)
    ensures report.Some? ==>
      && report.value.registry == (if fault(0) || (kind == Vehicle && EraseRegistry(old(db.View()), tenant, subject).None?)
                                   then StoreFailed else if mode == Erased then StoreErased else StoreRedacted)
      && report.value.telemetry == (if fault(1) then StoreFailed else StoreErased)
      && report.value.audit == (if fault(2) then StoreFailed else StoreRedacted)
      && (report.value.completed <==> StoreFailed !in {report.value.registry, report.value.telemetry, report.value.audit})
    // a completed report keeps its promise to a vehicle
    ensures report.Some? && report.value.completed && kind == Vehicle ==> Gone(db.View(), tenant, subject)
  {
    ghost var t := db.View();
    var registry, telemetry, audit := EraseStores(db, tenant, subject, kind, mode, fault);
    if kind == Vehicle && registry != StoreFailed && telemetry != StoreFailed {
      BothErased(t, db.View(), tenant, subject);
    }
    if fault(3) {
      return None;
    }
    var completed := registry != StoreFailed && telemetry != StoreFailed && audit != StoreFailed;
    return Some(Report(registry, telemetry, audit, completed));
  }

  lemma BothErased(t: Tables, t': Tables, tenant: string, vehicle: string)
    requires EraseRegistry(t, tenant, vehicle).Some? && t'.policies == EraseRegistry(t, tenant, vehicle).value.policies
    requires t'.telemetry == EraseTelemetry(t, tenant, vehicle).telemetry
    ensures Gone(t', tenant, vehicle)
  {
    ErasureLeaves(t, tenant, vehicle);
    WithoutVehicleFrom(t.telemetry, tenant, vehicle);
  }
}
