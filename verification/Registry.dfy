/**
 The shared tables and the transactions that touch them. Every `async with db.acquire(...)` block
 is one function here: it yields the committed tables, or `None` when a constraint rejects the
 statement and the transaction rolls back.
 */
module Registry {
  import opened Prelude
  import E = Evaluator

  datatype PolicyKey = PolicyKey(tenant: string, policyId: string, version: string)

  /** A generated policy that has parsed as a CollectionPolicySpec. */
  datatype PolicySpec = PolicySpec(
    policyId: string, version: string, signals: seq<string>, scope: seq<string>,
    windowHours: int, threshold: real, piiConsent: bool, hasPiiSignal: bool, findingId: string)

  datatype PolicyRow = PolicyRow(
    signals: seq<string>, scope: seq<string>, threshold: real, findingId: string, createdAt: int)

  datatype Status = Accepted | Rejected | Expired

  datatype DeploymentRow = DeploymentRow(
    key: PolicyKey, scope: seq<string>, status: Status, expiresAt: Option<int>)

  datatype OutcomeRow = OutcomeRow(key: PolicyKey, findingId: string, state: E.Hypothesis, evaluatedAt: int)

  datatype Observation = Observation(key: PolicyKey, vehicle: string, signal: string, value: real)

  datatype Kind =
    | KAccepted | KGenerated | KValidated | KDeployed | KRejected | KOutcome | KErasure | KDeploymentRejected

  /** The JSON documents kept in audit rows. */
  datatype Json = JNull | JStr(str: string) | JArr(items: seq<Json>) | JObj(fields: map<string, Json>)

  datatype AuditRow = AuditRow(
    tenant: string, principal: string, finding: Json,
    policyRef: Option<PolicyKey>, deploymentRef: Option<string>, outcomeRef: Option<string>)

  /** `audit` is keyed by its UNIQUE (correlation_id, kind) constraint, the other tables by their
      primary keys. */
  datatype Tables = Tables(
    policies: map<PolicyKey, PolicyRow>,
    deployments: map<string, DeploymentRow>,
    outcomes: map<string, OutcomeRow>,
    audit: map<(string, Kind), AuditRow>,
    telemetry: seq<Observation>)

  const EMPTY := Tables(map[], map[], map[], map[], [])

  /** The tenant under which the feedback worker scans and expires deployments; row-level security
      hides every other tenant's deployments from it. */
  const SCAN_TENANT := "feature-001-default"

  const SCAN_LIMIT := 100

  function KeyOf(tenant: string, p: PolicySpec): PolicyKey {
    PolicyKey(tenant, p.policyId, p.version)
  }

  /** The schema bounds of CollectionPolicySpec that the tables rely on. */
  predicate SchemaOk(p: PolicySpec) {
    && p.policyId != ""
    && p.signals != [] && p.scope != []
    && 1 <= p.windowHours <= 168
    && 0.0 <= p.threshold <= 1.0
    && (p.hasPiiSignal ==> p.piiConsent)
  }

  // ----- transactions ---------------------------------------------------------------------------

  /** `PolicyRepository.insert`: the primary key rejects a second row; the threshold is rounded by
      its column type. */
  function InsertPolicy(t: Tables, tenant: string, p: PolicySpec, now: int): Option<Tables> {
    var key := KeyOf(tenant, p);
    if key in t.policies || p.scope == [] || p.signals == [] then None
    else
      var row := PolicyRow(p.signals, p.scope, E.Stored(p.threshold), p.findingId, now);
      Some(t.(policies := t.policies[key := row]))
  }

  /** `DeploymentRepository.insert`: primary key, foreign key to the policy, non-empty scope. */
  function InsertDeployment(t: Tables, id: string, row: DeploymentRow): Option<Tables> {
    if id in t.deployments || row.key !in t.policies || row.scope == [] then None
    else Some(t.(deployments := t.deployments[id := row]))
  }

  /** `OutcomeRepository.insert`: primary key, foreign key to the policy. */
  function InsertOutcome(t: Tables, id: string, row: OutcomeRow): Option<Tables> {
    if id in t.outcomes || row.key !in t.policies then None
    else Some(t.(outcomes := t.outcomes[id := row]))
  }

  /** The key of an audit write is taken by another tenant, whose row the follow-up SELECT of
      `AuditEventWriter.write` does not see; the write then raises. */
  predicate Clash(t: Tables, tenant: string, correlation: string, kind: Kind) {
    (correlation, kind) in t.audit && t.audit[(correlation, kind)].tenant != tenant
  }

  /** `AuditEventWriter.write`: ON CONFLICT (correlation_id, kind) DO NOTHING. */
  function WriteAudit(t: Tables, correlation: string, kind: Kind, row: AuditRow): Tables {
    if (correlation, kind) in t.audit then t
    else t.(audit := t.audit[(correlation, kind) := row])
  }

  /** `mark_expired`, under the scan tenant's row-level security. */
  function MarkExpired(t: Tables, id: string): Tables {
    if id in t.deployments && t.deployments[id].key.tenant == SCAN_TENANT
    then t.(deployments := t.deployments[id := t.deployments[id].(status := Expired)])
    else t
  }

  function AddTelemetry(t: Tables, rows: seq<Observation>): Tables {
    t.(telemetry := t.telemetry + rows)
  }

  // ----- reads ------------------------------------------------------------------------------------

  predicate Due(row: DeploymentRow, now: int) {
    && row.key.tenant == SCAN_TENANT
    && row.status == Accepted
    && row.expiresAt.Some? && row.expiresAt.value <= now
  }

  /** An admissible answer of `list_due`: due rows, oldest expiry first, no more than the limit, and
      nothing older left behind. Rows with equal expiry may come in any order. */
  ghost predicate DueIn(deployments: map<string, DeploymentRow>, now: int, ids: seq<string>) {
    && (forall i :: 0 <= i < |ids| ==> ids[i] in deployments && Due(deployments[ids[i]], now))
    && (forall i, j :: 0 <= i < j < |ids| ==> ids[i] != ids[j])
    && (forall i, j :: 0 <= i < j < |ids| ==>
          deployments[ids[i]].expiresAt.value <= deployments[ids[j]].expiresAt.value)
    && |ids| <= SCAN_LIMIT
    && (forall id :: id in deployments && Due(deployments[id], now) && id !in ids ==>
          && |ids| == SCAN_LIMIT
          && forall i :: 0 <= i < |ids| ==> deployments[ids[i]].expiresAt.value <= deployments[id].expiresAt.value)
  }

  ghost predicate DueBatch(t: Tables, now: int, ids: seq<string>) {
    DueIn(t.deployments, now, ids)
  }

  /** Observations `_collect_telemetry` may return: rows of the policy, for vehicles in the
      deployment's scope; all of them up to the limit of 1000, in any order and multiplicity the
      table holds. */
  ghost predicate Collected(t: Tables, d: DeploymentRow, seen: seq<Observation>) {
    && (forall o :: o in seen ==> o in t.telemetry && o.key == d.key && o.vehicle in d.scope)
    && (seen == [] ==> forall o :: o in t.telemetry ==> !(o.key == d.key && o.vehicle in d.scope))
  }

  function Values(seen: seq<Observation>): (vs: seq<real>)
    ensures |vs| == |seen|
    ensures forall i :: 0 <= i < |seen| ==> vs[i] == seen[i].value
  {
    seq(|seen|, i requires 0 <= i < |seen| => seen[i].value)
  }

  // ----- erasure ------------------------------------------------------------------------------------

  /** The scope with every mention of the vehicle dropped, order and repetitions kept. */
  function Without(scope: seq<string>, vehicle: string): seq<string> {
    if scope == [] then []
    else (if scope[0] == vehicle then [] else [scope[0]]) + Without(scope[1..], vehicle)
  }

  predicate Names(key: PolicyKey, row: PolicyRow, tenant: string, vehicle: string) {
    key.tenant == tenant && vehicle in row.scope
  }

  function ErasedRow(key: PolicyKey, row: PolicyRow, tenant: string, vehicle: string): PolicyRow {
    if Names(key, row, tenant, vehicle) then row.(scope := Without(row.scope, vehicle)) else row
  }

  /** `_erase_registry` for a vehicle: one UPDATE over the tenant's policies. `jsonb_agg` over no
      elements is NULL, which the column rejects, and then the whole statement fails. */
  function EraseRegistry(t: Tables, tenant: string, vehicle: string): Option<Tables> {
    if exists k :: k in t.policies && Names(k, t.policies[k], tenant, vehicle) && Without(t.policies[k].scope, vehicle) == []
    then None
    else Some(t.(policies := map k | k in t.policies :: ErasedRow(k, t.policies[k], tenant, vehicle)))
  }

  function WithoutVehicle(rows: seq<Observation>, tenant: string, vehicle: string): seq<Observation> {
    if rows == [] then []
    else
      (if rows[0].key.tenant == tenant && rows[0].vehicle == vehicle then [] else [rows[0]])
      + WithoutVehicle(rows[1..], tenant, vehicle)
  }

  /** `_erase_telemetry` for a vehicle. */
  function EraseTelemetry(t: Tables, tenant: string, vehicle: string): Tables {
    t.(telemetry := WithoutVehicle(t.telemetry, tenant, vehicle))
  }

  /** `jsonb_set(COALESCE(finding, '{}'), '{redacted_subject}', subject)`; a document that is not an
      object is left as it is. */
  function Redacted(finding: Json, subject: string): Json {
    match finding
    case JObj(fields) => JObj(fields["redacted_subject" := JStr(subject)])
    case JNull => JObj(map["redacted_subject" := JStr(subject)])
    case _ => finding
  }

  predicate Concerns(row: AuditRow, tenant: string, subject: string) {
    row.tenant == tenant &&
    (row.principal == subject ||
     (row.finding.JObj? && "finding_id" in row.finding.fields && row.finding.fields["finding_id"] == JStr(subject)))
  }

  /** `_redact_audit`. */
  function RedactAudit(t: Tables, tenant: string, subject: string): Tables {
    t.(audit := map k | k in t.audit ::
         if Concerns(t.audit[k], tenant, subject)
         then t.audit[k].(finding := Redacted(t.audit[k].finding, subject)) else t.audit[k])
  }

  lemma {:induction false} WithoutVehicleFrom(rows: seq<Observation>, tenant: string, vehicle: string)
    ensures forall o :: o in WithoutVehicle(rows, tenant, vehicle) <==>
      o in rows && !(o.key.tenant == tenant && o.vehicle == vehicle)
  {
    if rows != [] {
      WithoutVehicleFrom(rows[1..], tenant, vehicle);
      assert rows == [rows[0]] + rows[1..];
    }
  }
}
