/**
 Tenants share the tables. What one tenant's requests see and leave behind does not depend on the
 requests of the others, as long as no row identifier or correlation id is used by two tenants.
 */
module NonInterference {
  import opened Prelude
  import opened Registry

  /** The reads; `ORDER BY ... LIMIT` picks from the rows given here. */
  datatype Query =
    | PolicyVersions(policyId: string)
    | PolicyVersion(policyId: string, version: string)
    | PolicyOfFinding(findingId: string)
    | ActivePolicyOf(vehicle: string)
    | OutcomeOfFinding(outcomeFinding: string)
    | AuditChain(correlation: string)
    | DueDeployments(asOf: int)

  datatype Op =
    | PutPolicy(tenant: string, policy: PolicySpec, now: int)
    | PutDeployment(tenant: string, id: string, deployment: DeploymentRow)
    | PutOutcome(tenant: string, id: string, outcome: OutcomeRow)
    | PutAudit(tenant: string, correlation: string, kind: Kind, event: AuditRow)
    | PutTelemetry(tenant: string, rows: seq<Observation>)
    | Erase(tenant: string, vehicle: string)
    | EraseRows(tenant: string, vehicle: string)
    | Redact(tenant: string, subject: string)
    | Expire(tenant: string, id: string)
    | Ask(tenant: string, query: Query)

  /** Every statement writes its own tenant's id into the row; the feedback worker expires under the scan
      tenant. */
  predicate Proper(op: Op) {
    match op
    case PutDeployment(tenant, _, row) => row.key.tenant == tenant
    case PutOutcome(tenant, _, row) => row.key.tenant == tenant
    case PutAudit(tenant, _, _, row) => row.tenant == tenant
    case PutTelemetry(tenant, rows) => forall i :: 0 <= i < |rows| ==> rows[i].key.tenant == tenant
    case Expire(tenant, _) => tenant == SCAN_TENANT
    case _ => true
  }

  datatype Rows =
    | Policies(policies: map<PolicyKey, PolicyRow>)
    | Deployments(deployments: map<string, DeploymentRow>)
    | Outcomes(outcomes: map<string, OutcomeRow>)
    | Events(events: map<(string, Kind), AuditRow>)

  datatype Result = Wrote(ok: bool) | Read(rows: Rows)

  function Answer(t: Tables, tenant: string, q: Query): Rows {
    match q
    case PolicyVersions(p) => Policies(map k | k in t.policies && k.tenant == tenant && k.policyId == p :: t.policies[k])
    case PolicyVersion(p, v) =>
      Policies(map k | k in t.policies && k.tenant == tenant && k.policyId == p && k.version == v :: t.policies[k])
    case PolicyOfFinding(f) =>
      Policies(map k | k in t.policies && k.tenant == tenant && t.policies[k].findingId == f :: t.policies[k])
    case ActivePolicyOf(v) =>
      Policies(map k | k in t.policies && k.tenant == tenant && v in t.policies[k].scope && HasAccepted(t.deployments, k)
                 :: t.policies[k])
    case OutcomeOfFinding(f) =>
      Outcomes(map o | o in t.outcomes && t.outcomes[o].key.tenant == tenant && t.outcomes[o].findingId == f :: t.outcomes[o])
    case AuditChain(c) =>
      Events(map a | a in t.audit && t.audit[a].tenant == tenant && a.0 == c :: t.audit[a])
    case DueDeployments(now) =>
      Deployments(map d | d in t.deployments && t.deployments[d].key.tenant == tenant && Due(t.deployments[d], now)
                    :: t.deployments[d])
  }

  predicate HasAccepted(deployments: map<string, DeploymentRow>, k: PolicyKey) {
    exists d :: d in deployments && deployments[d].key == k && deployments[d].status == Accepted
  }

  function Committed(t: Tables, r: Option<Tables>): (Tables, Result) {
    match r
    case Some(t') => (t', Wrote(true))
    case None => (t, Wrote(false))
  }

  /** One statement and its result. */
  function Step(t: Tables, op: Op): (Tables, Result) {
    match op
    case PutPolicy(tenant, p, now) => Committed(t, InsertPolicy(t, tenant, p, now))
    case PutDeployment(_, id, row) => Committed(t, InsertDeployment(t, id, row))
    case PutOutcome(_, id, row) => Committed(t, InsertOutcome(t, id, row))
    case PutAudit(tenant, c, kind, row) => (WriteAudit(t, c, kind, row), Wrote(!Clash(t, tenant, c, kind)))
    case PutTelemetry(_, rows) => (AddTelemetry(t, rows), Wrote(true))
    case Erase(tenant, v) => Committed(t, EraseRegistry(t, tenant, v))
    case EraseRows(tenant, v) => (EraseTelemetry(t, tenant, v), Wrote(true))
    case Redact(tenant, subject) => (RedactAudit(t, tenant, subject), Wrote(true))
    case Expire(_, id) => (MarkExpired(t, id), Wrote(true))
    case Ask(tenant, q) => (t, Read(Answer(t, tenant, q)))
  }

  function Run(t: Tables, ops: seq<Op>): Tables
    decreases |ops|
  {
    if ops == [] then t else Run(Step(t, ops[0]).0, ops[1..])
  }

  /** The results of one tenant's statements, in order. */
  function Seen(t: Tables, ops: seq<Op>, tenant: string): seq<Result>
    decreases |ops|
  {
    if ops == [] then []
    else
      var (t', r) := Step(t, ops[0]);
      (if ops[0].tenant == tenant then [r] else []) + Seen(t', ops[1..], tenant)
  }

  /** The run with everyone else's statements removed. */
  function Own(ops: seq<Op>, tenant: string): seq<Op> {
    if ops == [] then []
    else (if ops[0].tenant == tenant then [ops[0]] else []) + Own(ops[1..], tenant)
  }

  // ----- projections ----------------------------------------------------------------------------------

  function OwnRows(rows: seq<Observation>, tenant: string): seq<Observation> {
    if rows == [] then []
    else (if rows[0].key.tenant == tenant then [rows[0]] else []) + OwnRows(rows[1..], tenant)
  }

  function OwnPolicies(m: map<PolicyKey, PolicyRow>, tenant: string): map<PolicyKey, PolicyRow> {
    map k | k in m && k.tenant == tenant :: m[k]
  }

  function OwnDeployments(m: map<string, DeploymentRow>, tenant: string): map<string, DeploymentRow> {
    map d | d in m && m[d].key.tenant == tenant :: m[d]
  }

  function OwnOutcomes(m: map<string, OutcomeRow>, tenant: string): map<string, OutcomeRow> {
    map o | o in m && m[o].key.tenant == tenant :: m[o]
  }

  function OwnEvents(m: map<(string, Kind), AuditRow>, tenant: string): map<(string, Kind), AuditRow> {
    map a | a in m && m[a].tenant == tenant :: m[a]
  }

  /** The rows of one tenant. */
  function Project(t: Tables, tenant: string): Tables {
    Tables(OwnPolicies(t.policies, tenant), OwnDeployments(t.deployments, tenant), OwnOutcomes(t.outcomes, tenant),
           OwnEvents(t.audit, tenant), OwnRows(t.telemetry, tenant))
  }

  /** The shared identifiers a statement may take. */
  datatype Slot = DeploymentSlot(id: string) | OutcomeSlot(id: string) | AuditSlot(correlation: string, kind: Kind)

  function Slots(op: Op): set<Slot> {
    match op
    case PutDeployment(_, id, _) => {DeploymentSlot(id)}
    case PutOutcome(_, id, _) => {OutcomeSlot(id)}
    case PutAudit(_, c, kind, _) => {AuditSlot(c, kind)}
    case _ => {}
  }

  /** No identifier is used by the tenant and by somebody else. */
  ghost predicate Unshared(ops: seq<Op>, tenant: string) {
    forall i, j :: 0 <= i < |ops| && 0 <= j < |ops| && ops[i].tenant == tenant && ops[j].tenant != tenant ==>
      Slots(ops[i]) !! Slots(ops[j])
  }

  /** The given identifiers are free or the tenant's own. */
  ghost predicate Free(t: Tables, tenant: string, slots: set<Slot>) {
    && (forall id :: DeploymentSlot(id) in slots && id in t.deployments ==> t.deployments[id].key.tenant == tenant)
    && (forall id :: OutcomeSlot(id) in slots && id in t.outcomes ==> t.outcomes[id].key.tenant == tenant)
    && (forall c, kind :: AuditSlot(c, kind) in slots && (c, kind) in t.audit ==> t.audit[(c, kind)].tenant == tenant)
  }

  // ----- reads ---------------------------------------------------------------------------------------------

  lemma AcceptedIsLocal(deployments: map<string, DeploymentRow>, k: PolicyKey)
    ensures HasAccepted(deployments, k) <==> HasAccepted(OwnDeployments(deployments, k.tenant), k)
  {
    if d :| d in deployments && deployments[d].key == k && deployments[d].status == Accepted {
      assert d in OwnDeployments(deployments, k.tenant);
    }
  }

  lemma ActiveIsLocal(t: Tables, tenant: string, q: Query)
    requires q.ActivePolicyOf?
    ensures Answer(t, tenant, q) == Answer(Project(t, tenant), tenant, q)
  {
    forall k | k in t.policies && k.tenant == tenant
      ensures HasAccepted(t.deployments, k) <==> HasAccepted(OwnDeployments(t.deployments, tenant), k)
    {
      AcceptedIsLocal(t.deployments, k);
    }
    assert Answer(t, tenant, q).policies == Answer(Project(t, tenant), tenant, q).policies;
  }

  lemma PoliciesAreLocal(t: Tables, tenant: string, q: Query)
    requires q.PolicyVersions? || q.PolicyVersion? || q.PolicyOfFinding?
    ensures Answer(t, tenant, q) == Answer(Project(t, tenant), tenant, q)
  {
    assert Answer(t, tenant, q).policies == Answer(Project(t, tenant), tenant, q).policies;
  }

  /** A tenant's reads depend on its own rows alone, the join with deployments included. */
  lemma ReadsAreLocal(t: Tables, tenant: string, q: Query)
    ensures Answer(t, tenant, q) == Answer(Project(t, tenant), tenant, q)
  {
    match q
    case ActivePolicyOf(_) => ActiveIsLocal(t, tenant, q);
    case OutcomeOfFinding(_) => assert Answer(t, tenant, q).outcomes == Answer(Project(t, tenant), tenant, q).outcomes;
    case AuditChain(_) => assert Answer(t, tenant, q).events == Answer(Project(t, tenant), tenant, q).events;
    case DueDeployments(_) => assert Answer(t, tenant, q).deployments == Answer(Project(t, tenant), tenant, q).deployments;
    case _ => PoliciesAreLocal(t, tenant, q);
  }

  // ----- telemetry ---------------------------------------------------------------------------------------------

  lemma {:induction false} OwnRowsAppend(a: seq<Observation>, b: seq<Observation>, tenant: string)
    ensures OwnRows(a + b, tenant) == OwnRows(a, tenant) + OwnRows(b, tenant)
  {
    if a == [] {
      assert a + b == b;
    } else {
      var head := if a[0].key.tenant == tenant then [a[0]] else [];
      OwnRowsAppend(a[1..], b, tenant);
      ConcatCons(a, b);
      ConcatAssoc(head, OwnRows(a[1..], tenant), OwnRows(b, tenant));
    }
  }

  lemma {:induction false} OwnRowsAll(rows: seq<Observation>, owner: string, tenant: string)
    requires forall i :: 0 <= i < |rows| ==> rows[i].key.tenant == owner
    ensures OwnRows(rows, tenant) == if owner == tenant then rows else []
  {
    if rows != [] {
      OwnRowsAll(rows[1..], owner, tenant);
      assert rows == [rows[0]] + rows[1..];
    }
  }

  lemma OwnRowsCons(head: Observation, rest: seq<Observation>, tenant: string)
    ensures OwnRows([head] + rest, tenant) == if head.key.tenant == tenant then [head] + OwnRows(rest, tenant) else OwnRows(rest, tenant)
  {
    assert ([head] + rest)[1..] == rest;
  }

  lemma WithoutCons(head: Observation, rest: seq<Observation>, owner: string, vehicle: string)
    ensures WithoutVehicle([head] + rest, owner, vehicle)
         == if head.key.tenant == owner && head.vehicle == vehicle then WithoutVehicle(rest, owner, vehicle)
            else [head] + WithoutVehicle(rest, owner, vehicle)
  {
    assert ([head] + rest)[1..] == rest;
  }

  lemma {:induction false} OwnRowsWithout(rows: seq<Observation>, owner: string, vehicle: string, tenant: string)
    ensures OwnRows(WithoutVehicle(rows, owner, vehicle), tenant)
         == if owner == tenant then WithoutVehicle(OwnRows(rows, tenant), owner, vehicle) else OwnRows(rows, tenant)
  {
    if rows != [] {
      var head, rest := rows[0], rows[1..];
      assert rows == [head] + rest;
      OwnRowsWithout(rest, owner, vehicle, tenant);
      WithoutCons(head, rest, owner, vehicle);
      OwnRowsCons(head, rest, tenant);
      OwnRowsCons(head, WithoutVehicle(rest, owner, vehicle), tenant);
      WithoutCons(head, OwnRows(rest, tenant), owner, vehicle);
    }
  }

  // ----- one new row ---------------------------------------------------------------------------------------------

  lemma NewPolicy(m: map<PolicyKey, PolicyRow>, k: PolicyKey, row: PolicyRow, tenant: string)
    ensures OwnPolicies(m[k := row], tenant)
         == if k.tenant == tenant then OwnPolicies(m, tenant)[k := row] else OwnPolicies(m, tenant)
  {
  }

  lemma NewDeployment(m: map<string, DeploymentRow>, id: string, row: DeploymentRow, tenant: string)
    requires id !in m
    ensures OwnDeployments(m[id := row], tenant)
         == if row.key.tenant == tenant then OwnDeployments(m, tenant)[id := row] else OwnDeployments(m, tenant)
  {
  }

  lemma NewOutcome(m: map<string, OutcomeRow>, id: string, row: OutcomeRow, tenant: string)
    requires id !in m
    ensures OwnOutcomes(m[id := row], tenant)
         == if row.key.tenant == tenant then OwnOutcomes(m, tenant)[id := row] else OwnOutcomes(m, tenant)
  {
  }

  lemma NewEvent(m: map<(string, Kind), AuditRow>, a: (string, Kind), row: AuditRow, tenant: string)
    requires a !in m
    ensures OwnEvents(m[a := row], tenant)
         == if row.tenant == tenant then OwnEvents(m, tenant)[a := row] else OwnEvents(m, tenant)
  {
  }

  // ----- other tenants' statements leave the projection alone ----------------------------------------------------

  lemma OtherStep(t: Tables, op: Op, tenant: string)
    requires Proper(op) && op.tenant != tenant
    ensures Project(Step(t, op).0, tenant) == Project(t, tenant)
  {
    var t' := Step(t, op).0;
    match op
    case PutPolicy(_, p, now) =>
      if t' != t { NewPolicy(t.policies, KeyOf(op.tenant, p), t'.policies[KeyOf(op.tenant, p)], tenant); }
    case PutDeployment(_, id, row) => if t' != t { NewDeployment(t.deployments, id, row, tenant); }
    case PutOutcome(_, id, row) => if t' != t { NewOutcome(t.outcomes, id, row, tenant); }
    case PutAudit(_, c, kind, row) => if t' != t { NewEvent(t.audit, (c, kind), row, tenant); }
    case PutTelemetry(owner, rows) =>
      OwnRowsAppend(t.telemetry, rows, tenant);
      OwnRowsAll(rows, owner, tenant);
    case Erase(owner, v) => if EraseRegistry(t, owner, v).Some? { OtherErase(t, owner, v, tenant); }
    case EraseRows(owner, v) => OwnRowsWithout(t.telemetry, owner, v, tenant);
    case Redact(owner, subject) => OtherRedact(t, owner, subject, tenant);
    case Expire(_, id) => OtherExpire(t, id, tenant);
    case Ask(_, _) =>
  }

  lemma OtherErase(t: Tables, owner: string, vehicle: string, tenant: string)
    requires owner != tenant && EraseRegistry(t, owner, vehicle).Some?
    ensures OwnPolicies(EraseRegistry(t, owner, vehicle).value.policies, tenant) == OwnPolicies(t.policies, tenant)
  {
  }

  lemma OtherRedact(t: Tables, owner: string, subject: string, tenant: string)
    requires owner != tenant
    ensures OwnEvents(RedactAudit(t, owner, subject).audit, tenant) == OwnEvents(t.audit, tenant)
  {
  }

  lemma OtherExpire(t: Tables, id: string, tenant: string)
    requires tenant != SCAN_TENANT
    ensures OwnDeployments(MarkExpired(t, id).deployments, tenant) == OwnDeployments(t.deployments, tenant)
  {
  }

  lemma StaysFree(t: Tables, op: Op, tenant: string, slots: set<Slot>)
    requires Proper(op) && Free(t, tenant, slots)
    requires op.tenant == tenant || Slots(op) !! slots
    ensures Free(Step(t, op).0, tenant, slots)
  {
  }

  // ----- a tenant's own statements act on its projection -------------------------------------------------------------

  /** A statement of the tenant does to the shared tables what it does to the tenant's rows alone,
      and answers the same. */
  lemma OwnStep(t: Tables, op: Op)
    requires Proper(op) && Free(t, op.tenant, Slots(op))
    ensures var (t', r) := Step(t, op); Step(Project(t, op.tenant), op) == (Project(t', op.tenant), r)
  {
    match op
    case PutPolicy(tenant, p, now) => OwnPolicy(t, tenant, p, now);
    case PutDeployment(tenant, id, row) => OwnDeployment(t, tenant, id, row);
    case PutOutcome(tenant, id, row) => OwnOutcome(t, tenant, id, row);
    case PutAudit(tenant, c, kind, row) => OwnAudit(t, tenant, c, kind, row);
    case PutTelemetry(tenant, rows) =>
      OwnRowsAppend(t.telemetry, rows, tenant);
      OwnRowsAll(rows, tenant, tenant);
    case Erase(tenant, v) => OwnErase(t, tenant, v);
    case EraseRows(tenant, v) => OwnRowsWithout(t.telemetry, tenant, v, tenant);
    case Redact(tenant, subject) => OwnRedact(t, tenant, subject);
    case Expire(tenant, id) => OwnExpire(t, id);
    case Ask(tenant, q) => ReadsAreLocal(t, tenant, q);
  }

  lemma OwnPolicy(t: Tables, tenant: string, p: PolicySpec, now: int)
    ensures InsertPolicy(Project(t, tenant), tenant, p, now)
         == match InsertPolicy(t, tenant, p, now) case Some(t') => Some(Project(t', tenant)) case None => None
  {
    if InsertPolicy(t, tenant, p, now).Some? {
      var k := KeyOf(tenant, p);
      NewPolicy(t.policies, k, InsertPolicy(t, tenant, p, now).value.policies[k], tenant);
    }
  }

  lemma OwnDeployment(t: Tables, tenant: string, id: string, row: DeploymentRow)
    requires row.key.tenant == tenant && (id in t.deployments ==> t.deployments[id].key.tenant == tenant)
    ensures InsertDeployment(Project(t, tenant), id, row)
         == match InsertDeployment(t, id, row) case Some(t') => Some(Project(t', tenant)) case None => None
  {
    if id !in t.deployments {
      NewDeployment(t.deployments, id, row, tenant);
    }
  }

  lemma OwnOutcome(t: Tables, tenant: string, id: string, row: OutcomeRow)
    requires row.key.tenant == tenant && (id in t.outcomes ==> t.outcomes[id].key.tenant == tenant)
    ensures InsertOutcome(Project(t, tenant), id, row)
         == match InsertOutcome(t, id, row) case Some(t') => Some(Project(t', tenant)) case None => None
  {
    if id !in t.outcomes {
      NewOutcome(t.outcomes, id, row, tenant);
    }
  }

  lemma OwnAudit(t: Tables, tenant: string, c: string, kind: Kind, row: AuditRow)
    requires row.tenant == tenant && ((c, kind) in t.audit ==> t.audit[(c, kind)].tenant == tenant)
    ensures WriteAudit(Project(t, tenant), c, kind, row) == Project(WriteAudit(t, c, kind, row), tenant)
  {
    if (c, kind) !in t.audit {
      NewEvent(t.audit, (c, kind), row, tenant);
    }
  }

  lemma OwnErase(t: Tables, tenant: string, vehicle: string)
    ensures EraseRegistry(Project(t, tenant), tenant, vehicle)
         == match EraseRegistry(t, tenant, vehicle) case Some(t') => Some(Project(t', tenant)) case None => None
  {
    var u := Project(t, tenant);
    if k :| k in t.policies && Names(k, t.policies[k], tenant, vehicle) && Without(t.policies[k].scope, vehicle) == [] {
      assert k in u.policies && Names(k, u.policies[k], tenant, vehicle);
    } else {
      assert EraseRegistry(u, tenant, vehicle).Some?;
      assert EraseRegistry(u, tenant, vehicle).value.policies
          == OwnPolicies(EraseRegistry(t, tenant, vehicle).value.policies, tenant);
    }
  }

  lemma OwnExpire(t: Tables, id: string)
    ensures MarkExpired(Project(t, SCAN_TENANT), id) == Project(MarkExpired(t, id), SCAN_TENANT)
  {
    assert MarkExpired(Project(t, SCAN_TENANT), id).deployments == OwnDeployments(MarkExpired(t, id).deployments, SCAN_TENANT);
  }

  lemma OwnRedact(t: Tables, tenant: string, subject: string)
    ensures RedactAudit(Project(t, tenant), tenant, subject) == Project(RedactAudit(t, tenant, subject), tenant)
  {
    assert RedactAudit(Project(t, tenant), tenant, subject).audit == OwnEvents(RedactAudit(t, tenant, subject).audit, tenant);
  }

  // ----- runs -------------------------------------------------------------------------------------------------------------

  lemma OwnConsists(ops: seq<Op>, tenant: string)
    requires ops != []
    ensures ops[0].tenant == tenant ==>
      Own(ops, tenant) != [] && Own(ops, tenant)[0] == ops[0] && Own(ops, tenant)[1..] == Own(ops[1..], tenant)
    ensures ops[0].tenant != tenant ==> Own(ops, tenant) == Own(ops[1..], tenant)
  {
  }

  lemma FirstOfRun(u: Tables, own: seq<Op>, tenant: string, u': Tables, r: Result)
    requires own != [] && own[0].tenant == tenant && Step(u, own[0]) == (u', r)
    ensures Run(u, own) == Run(u', own[1..]) && Seen(u, own, tenant) == [r] + Seen(u', own[1..], tenant)
  {
  }

  lemma {:induction false} RunsAgree(t: Tables, ops: seq<Op>, tenant: string, slots: set<Slot>)
    requires forall i :: 0 <= i < |ops| ==> Proper(ops[i])
    requires forall i :: 0 <= i < |ops| ==> if ops[i].tenant == tenant then Slots(ops[i]) <= slots else Slots(ops[i]) !! slots
    requires Free(t, tenant, slots)
    ensures Run(Project(t, tenant), Own(ops, tenant)) == Project(Run(t, ops), tenant)
    ensures Seen(Project(t, tenant), Own(ops, tenant), tenant) == Seen(t, ops, tenant)
    decreases |ops|
  {
    if ops != [] {
      var op := ops[0];
      var (t', r) := Step(t, op);
      StaysFree(t, op, tenant, slots);
      OwnConsists(ops, tenant);
      RunsAgree(t', ops[1..], tenant, slots);
      if op.tenant == tenant {
        OwnStep(t, op);
        FirstOfRun(Project(t, tenant), Own(ops, tenant), tenant, Project(t', tenant), r);
      } else {
        OtherStep(t, op, tenant);
      }
    }
  }

  function SlotsOf(ops: seq<Op>, tenant: string): set<Slot> {
    set i, s | 0 <= i < |ops| && ops[i].tenant == tenant && s in Slots(ops[i]) :: s
  }

  /** Non-interference: removing everybody else's statements changes neither what a tenant's own
      statements return nor the rows the tenant is left with. */
  lemma TenantsDoNotInterfere(ops: seq<Op>, tenant: string)
    requires forall i :: 0 <= i < |ops| ==> Proper(ops[i])
    requires Unshared(ops, tenant)
    ensures Seen(EMPTY, ops, tenant) == Seen(EMPTY, Own(ops, tenant), tenant)
    ensures Project(Run(EMPTY, ops), tenant) == Run(EMPTY, Own(ops, tenant))
  {
    var slots := SlotsOf(ops, tenant);
    forall i | 0 <= i < |ops|
      ensures if ops[i].tenant == tenant then Slots(ops[i]) <= slots else Slots(ops[i]) !! slots
    {
    }
    RunsAgree(EMPTY, ops, tenant, slots);
    assert Project(EMPTY, tenant) == EMPTY;
  }

  // ----- when the audit trail interferes -------------------------------------------------------------------------------------

  /** The tenant that claims an audit key first in a run. */
  function FirstWriter(ops: seq<Op>, c: string, kind: Kind): Option<string> {
    if ops == [] then None
    else if ops[0].PutAudit? && ops[0].correlation == c && ops[0].kind == kind then Some(ops[0].tenant)
    else FirstWriter(ops[1..], c, kind)
  }

  /** An audit row belongs to whoever claimed its key first, for the rest of the run. */
  lemma {:induction false} FirstWriterOwns(t: Tables, ops: seq<Op>, c: string, kind: Kind)
    requires forall i :: 0 <= i < |ops| ==> Proper(ops[i])
    ensures var owner := if (c, kind) in t.audit then Some(t.audit[(c, kind)].tenant) else FirstWriter(ops, c, kind);
      && ((c, kind) in Run(t, ops).audit <==> owner.Some?)
      && (owner.Some? ==> Run(t, ops).audit[(c, kind)].tenant == owner.value)
    decreases |ops|
  {
    if ops != [] {
      StepKeepsEvent(t, ops[0], c, kind);
      FirstWriterOwns(Step(t, ops[0]).0, ops[1..], c, kind);
    }
  }

  lemma StepKeepsEvent(t: Tables, op: Op, c: string, kind: Kind)
    requires Proper(op)
    ensures var t' := Step(t, op).0;
      if (c, kind) in t.audit then (c, kind) in t'.audit && t'.audit[(c, kind)].tenant == t.audit[(c, kind)].tenant
      else if op.PutAudit? && op.correlation == c && op.kind == kind
      then (c, kind) in t'.audit && t'.audit[(c, kind)].tenant == op.tenant
      else (c, kind) !in t'.audit
  {
  }

  predicate Claims(op: Op, tenant: string, c: string, kind: Kind) {
    op.PutAudit? && op.tenant == tenant && op.correlation == c && op.kind == kind
  }

  lemma {:induction false} FirstOwnWriter(ops: seq<Op>, tenant: string, c: string, kind: Kind, n: nat)
    requires n < |ops| && Claims(ops[n], tenant, c, kind)
    ensures FirstWriter(Own(ops, tenant), c, kind) == Some(tenant)
  {
    OwnConsists(ops, tenant);
    var own := Own(ops, tenant);
    if n == 0 {
      assert own[0] == ops[0];
    } else {
      FirstOwnWriter(ops[1..], tenant, c, kind, n - 1);
    }
  }

  /** The exact condition for one event: a tenant that writes the key sees its event as it would
      alone if and only if nobody else claimed that key first. The unique key is global, so with a
      shared correlation id the later tenant's write fails and leaves no event. */
  lemma EventSurvivesIff(ops: seq<Op>, tenant: string, c: string, kind: Kind, n: nat)
    requires forall i :: 0 <= i < |ops| ==> Proper(ops[i])
    requires n < |ops| && Claims(ops[n], tenant, c, kind)
    ensures (c, kind) in Project(Run(EMPTY, Own(ops, tenant)), tenant).audit
    ensures (c, kind) in Project(Run(EMPTY, ops), tenant).audit <==> FirstWriter(ops, c, kind) == Some(tenant)
  {
    FirstWriterOwns(EMPTY, ops, c, kind);
    FirstOwnWriter(ops, tenant, c, kind, n);
    OwnProper(ops, tenant);
    FirstWriterOwns(EMPTY, Own(ops, tenant), c, kind);
    SomebodyWrote(ops, c, kind, n);
  }

  lemma {:induction false} OwnProper(ops: seq<Op>, tenant: string)
    requires forall i :: 0 <= i < |ops| ==> Proper(ops[i])
    ensures forall i :: 0 <= i < |Own(ops, tenant)| ==> Proper(Own(ops, tenant)[i])
  {
    if ops != [] {
      OwnProper(ops[1..], tenant);
    }
  }

  lemma {:induction false} SomebodyWrote(ops: seq<Op>, c: string, kind: Kind, n: nat)
    requires n < |ops| && ops[n].PutAudit? && ops[n].correlation == c && ops[n].kind == kind
    ensures FirstWriter(ops, c, kind).Some?
  {
    if n > 0 {
      SomebodyWrote(ops[1..], c, kind, n - 1);
    }
  }
}
