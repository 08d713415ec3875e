/**
 The policy loop as a protocol over the shared tables: any number of runner tasks
 (`GraphRunner.run_async`), feedback workers (`FeedbackWorker.tick`) and erasures, interleaved
 between any two transactions, with an exception or a crash possible at every await.
 */
module Pipeline {
  import opened Prelude
  import opened Registry
  import G = PolicyGraph
  import E = Evaluator
  import L = Lineage

  // ----- runner tasks ------------------------------------------------------------------------------

  /** Where a task stands: each name says what has been committed last. */
  datatype Pc =
    | InGraph | Ran | GeneratedWritten | PolicyStored | ValidatedWritten | DeploymentStored | DeployedWritten
    | RejectedWritten | Failing | Done | Crashed

  /** `log` lists the audit writes the task has committed, in order. */
  datatype Task = Task(
    tenant: string, correlation: string, session: string, findingId: string, directive: E.Directive,
    pc: Pc, run: Option<G.GraphRun>, log: seq<Kind>)

  datatype Event =
    | Returns(run: G.GraphRun)                        // the graph thread finishes
    | Proceeds(now: int, rows: seq<Observation>)      // the next transaction commits (or is rejected)
    | Throws                                          // an exception at the current await
    | Dies                                            // the process is gone, or the task cancelled

  predicate Chosen(k: Task) {
    k.run.Some? && k.run.value.completed && G.WellFormedRun(k.tenant, k.run.value)
  }

  function Key(k: Task): PolicyKey
    requires Chosen(k)
  {
    KeyOf(k.tenant, k.run.value.policy.spec)
  }

  /** The audit rows of a task; the rejected ones carry their error in the finding document. */
  function RowOf(k: Task, policyRef: Option<PolicyKey>, deploymentRef: Option<string>): AuditRow {
    AuditRow(k.tenant, k.session, L.FindingRef(k.tenant, k.findingId), policyRef, deploymentRef, None)
  }

  function RejectedRow(k: Task, error: Json): AuditRow {
    AuditRow(k.tenant, k.session, L.WithError(L.FindingRef(k.tenant, k.findingId), error), None, None, None)
  }

  /** Rows `simulate` may insert for the task's policy. */
  ghost predicate Simulated(k: Task, rows: seq<Observation>)
    requires Chosen(k)
  {
    var spec := k.run.value.policy.spec;
    && (if k.directive == E.Starve then rows == [] else forall v :: v in spec.scope ==> Mentions(rows, Key(k), v))
    && forall o :: o in rows ==>
         o.key == Key(k) && o.vehicle in spec.scope && E.Aligned(k.directive, spec.threshold, o.value)
  }

  ghost predicate Mentions(rows: seq<Observation>, key: PolicyKey, vehicle: string) {
    exists o :: o in rows && o.key == key && o.vehicle == vehicle
  }

  predicate Active(pc: Pc) {
    pc !in {Failing, Done, Crashed}
  }

  /** The task is at a statement of `_run` or of its exception handler that can be executed. The first
      one raises while it builds its `policy_ref` from a draft without identifiers. */
  predicate Ready(k: Task) {
    && k.pc !in {InGraph, Done, Crashed}
    && (k.pc != Failing ==> k.run.Some? && G.WellFormedRun(k.tenant, k.run.value))
    && (k.pc == Ran ==> G.HasIds(k.run.value.policy))
    && (k.pc !in {Ran, GeneratedWritten, RejectedWritten, Failing} ==> Chosen(k))
  }

  /** An audit write of a task, and the point after it. */
  datatype Write = Write(kind: Kind, row: AuditRow, next: Pc)

  /** The audit write that the next statement makes, if it makes one. */
  function AuditOf(k: Task): Option<Write>
    requires Ready(k)
  {
    match k.pc
    case Ran => Some(Write(KGenerated, RowOf(k, Some(G.RefOf(k.tenant, k.run.value.policy)), None), GeneratedWritten))
    case GeneratedWritten =>
      if k.run.value.completed then None
      else Some(Write(KRejected, RejectedRow(k, L.ValidationFailed(k.run.value.errors)), RejectedWritten))
    case PolicyStored => Some(Write(KValidated, RowOf(k, Some(Key(k)), None), ValidatedWritten))
    case DeploymentStored =>
      Some(Write(KDeployed, RowOf(k, Some(Key(k)), Some(k.run.value.record.value.id)), DeployedWritten))
    case Failing => Some(Write(KRejected, RejectedRow(k, L.RUNNER_ERROR), Done))
    case _ => None
  }

  /** An exception: into the handler, or out of it. */
  function Thrown(k: Task): Task {
    k.(pc := if k.pc == Failing then Crashed else Failing)
  }

  /** One transaction (or the end) of `_run`, from the statement after `pc`. */
  function Proceed(t: Tables, k: Task, now: int, rows: seq<Observation>): (Tables, Task)
    requires Ready(k)
  {
    match AuditOf(k)
    case Some(w) =>
      if Clash(t, k.tenant, k.correlation, w.kind) then (t, Thrown(k))
      else (WriteAudit(t, k.correlation, w.kind, w.row), k.(pc := w.next, log := k.log + [w.kind]))
    case None =>
      match k.pc
      case GeneratedWritten =>
        (match InsertPolicy(t, k.tenant, k.run.value.policy.spec, now)
         case Some(t') => (t', k.(pc := PolicyStored))
         case None => (t, k.(pc := Failing)))
      case ValidatedWritten =>
        (match InsertDeployment(t, k.run.value.record.value.id, k.run.value.record.value.row)
         case Some(t') => (t', k.(pc := DeploymentStored))
         case None => (t, k.(pc := Failing)))
      case DeployedWritten => (AddTelemetry(t, rows), k.(pc := Done))
      case _ => (t, k.(pc := Done))
  }

  /** The task can take the event in its present state. */
  ghost predicate Enabled(k: Task, e: Event) {
    match e
    case Returns(run) => k.pc == InGraph && G.WellFormedRun(k.tenant, run)
    case Proceeds(_, rows) => Ready(k) && (k.pc == DeployedWritten ==> Simulated(k, rows))
    case Throws => k.pc !in {Done, Crashed}
    case Dies => k.pc !in {Done, Crashed}
  }

  ghost function StepTask(t: Tables, k: Task, e: Event): (Tables, Task)
    requires Enabled(k, e)
  {
    match e
    case Returns(run) => (t, k.(pc := Ran, run := Some(run)))
    case Proceeds(now, rows) => Proceed(t, k, now, rows)
    case Throws => (t, Thrown(k))
    case Dies => (t, k.(pc := Crashed))
  }

  // ----- feedback workers ------------------------------------------------------------------------------

  /** The statement a worker has reached in `_process`, with the row it copied from the scan. */
  datatype WorkerStep =
    | NextRecord
    | Fetched(id: string, row: DeploymentRow, policy: PolicyRow)
    | PolicyMissing(id: string, row: DeploymentRow)
    | Judged(id: string, row: DeploymentRow, findingId: string, state: E.Hypothesis)
    | OutcomeStored(id: string, row: DeploymentRow, findingId: string, outcomeId: string)
    | Marked(id: string, row: DeploymentRow, findingId: string, outcomeId: string)

  datatype Worker = Worker(queue: seq<(string, DeploymentRow)>, step: WorkerStep)

  const IDLE := Worker([], NextRecord)

  datatype WorkerAction =
    | Scan(now: int, ids: seq<string>)
    | Fetch
    | Judge(seen: seq<Observation>)
    | StoreOutcome(outcomeId: string, now: int)
    | Mark
    | WriteOutcome
    | Abort                                          // an exception ends the tick; a crash does too

  function Copies(t: Tables, ids: seq<string>): (rows: seq<(string, DeploymentRow)>)
    requires forall i :: 0 <= i < |ids| ==> ids[i] in t.deployments
    ensures |rows| == |ids|
    ensures forall i :: 0 <= i < |ids| ==> rows[i] == (ids[i], t.deployments[ids[i]])
  {
    seq(|ids|, i requires 0 <= i < |ids| => (ids[i], t.deployments[ids[i]]))
  }

  ghost predicate WorkerEnabled(t: Tables, w: Worker, a: WorkerAction) {
    match a
    case Scan(now, ids) => w == IDLE && DueBatch(t, now, ids)
    case Fetch => w.step.NextRecord? && w.queue != []
    case Judge(seen) => w.step.Fetched? && Collected(t, w.step.row, seen)
    case StoreOutcome(outcomeId, _) => w.step.Judged?
    case Mark => w.step.OutcomeStored? || w.step.PolicyMissing?
    case WriteOutcome => w.step.Marked?
    case Abort => true
  }

  function OutcomeEvent(key: PolicyKey, findingId: string, outcomeId: string): AuditRow {
    AuditRow(key.tenant, "feedback-worker", L.FindingRef(key.tenant, findingId), Some(key), None, Some(outcomeId))
  }

  ghost function StepWorker(t: Tables, w: Worker, a: WorkerAction): (Tables, Worker)
    requires WorkerEnabled(t, w, a)
  {
    match a
    case Scan(now, ids) => (t, Worker(Copies(t, ids), NextRecord))
    case Fetch =>
      var (id, row) := w.queue[0];
      var rest := w.queue[1..];
      if row.key in t.policies then (t, Worker(rest, Fetched(id, row, t.policies[row.key])))
      else (t, Worker(rest, PolicyMissing(id, row)))
    case Judge(seen) =>
      var f := w.step;
      (t, w.(step := Judged(f.id, f.row, f.policy.findingId, E.Judge(Values(seen), f.policy.threshold))))
    case StoreOutcome(outcomeId, now) =>
      var f := w.step;
      (match InsertOutcome(t, outcomeId, OutcomeRow(f.row.key, f.findingId, f.state, now))
       case Some(t') => (t', w.(step := OutcomeStored(f.id, f.row, f.findingId, outcomeId)))
       case None => (t, IDLE))
    case Mark =>
      (MarkExpired(t, w.step.id),
       w.(step := if w.step.OutcomeStored? then Marked(w.step.id, w.step.row, w.step.findingId, w.step.outcomeId)
                  else NextRecord))
    case WriteOutcome =>
      var f := w.step;
      if Clash(t, f.row.key.tenant, f.id, KOutcome) then (t, IDLE)
      else (WriteAudit(t, f.id, KOutcome, OutcomeEvent(f.row.key, f.findingId, f.outcomeId)), w.(step := NextRecord))
    case Abort => (t, IDLE)
  }

  // ----- the protocol ------------------------------------------------------------------------------------

  /** `owner` is bookkeeping: the task that inserted each policy row. */
  datatype State = State(
    tables: Tables, tasks: map<nat, Task>, workers: map<nat, Worker>, owner: map<PolicyKey, nat>)

  datatype Action =
    | Spawn(task: nat, tenant: string, correlation: string, session: string, findingId: string, directive: E.Directive)
    | TaskDoes(task: nat, event: Event)
    | Hire(worker: nat)
    | WorkerDoes(worker: nat, action: WorkerAction)
    | ErasesRegistry(tenant: string, vehicle: string)
    | ErasesTelemetry(tenant: string, vehicle: string)
    | RedactsAudit(tenant: string, subject: string)
    | WritesOther(correlation: string, kind: Kind, row: AuditRow)    // ingest, erasure and scope-check rows

  const INITIAL := State(EMPTY, map[], map[], map[])

  ghost predicate Next(s: State, a: Action, s': State) {
    match a
    case Spawn(i, tenant, correlation, session, findingId, directive) =>
      && i !in s.tasks
      && s' == s.(tasks := s.tasks[i := Task(tenant, correlation, session, findingId, directive, InGraph, None, [])])
    case TaskDoes(i, e) =>
      && i in s.tasks && Enabled(s.tasks[i], e)
      && var (t', k') := StepTask(s.tables, s.tasks[i], e);
         s' == s.(tables := t', tasks := s.tasks[i := k'],
                  owner := if k'.pc == PolicyStored && s.tasks[i].pc != PolicyStored && Chosen(k')
                           then s.owner[Key(k') := i] else s.owner)
    case Hire(j) =>
      j !in s.workers && s' == s.(workers := s.workers[j := IDLE])
    case WorkerDoes(j, w) =>
      && j in s.workers && WorkerEnabled(s.tables, s.workers[j], w)
      && var (t', w') := StepWorker(s.tables, s.workers[j], w);
         s' == s.(tables := t', workers := s.workers[j := w'])
    case ErasesRegistry(tenant, vehicle) =>
      s' == s.(tables := match EraseRegistry(s.tables, tenant, vehicle) case Some(t') => t' case None => s.tables)
    case ErasesTelemetry(tenant, vehicle) =>
      s' == s.(tables := EraseTelemetry(s.tables, tenant, vehicle))
    case RedactsAudit(tenant, subject) =>
      s' == s.(tables := RedactAudit(s.tables, tenant, subject))
    case WritesOther(correlation, kind, row) =>
      kind in {KAccepted, KErasure, KDeploymentRejected} && s' == s.(tables := WriteAudit(s.tables, correlation, kind, row))
  }

  // ----- what every reachable state satisfies ---------------------------------------------------------------

  predicate HoldsPolicy(pc: Pc) {
    pc in {PolicyStored, ValidatedWritten, DeploymentStored, DeployedWritten}
  }

  ghost predicate HasOutcome(t: Tables, key: PolicyKey) {
    exists o :: o in t.outcomes && t.outcomes[o].key == key
  }

  /** Deployments were inserted as accepted, point at a stored policy, and expire only after an
      outcome for that policy has been written, and only for the scan tenant; no policy has two
      deployments. */
  ghost predicate DeploymentsOk(t: Tables) {
    && (forall id :: id in t.deployments ==>
          && t.deployments[id].key in t.policies
          && t.deployments[id].status in {Accepted, Expired}
          && (t.deployments[id].status == Expired ==>
                HasOutcome(t, t.deployments[id].key) && t.deployments[id].key.tenant == SCAN_TENANT))
    && (forall i, j :: i in t.deployments && j in t.deployments && i != j ==>
          t.deployments[i].key != t.deployments[j].key)
  }

  /** Audit rows of the pipeline name rows that exist, whichever task wrote them first. */
  ghost predicate AuditOk(t: Tables) {
    && (forall c :: (c, KValidated) in t.audit ==>
          t.audit[(c, KValidated)].policyRef.Some? && t.audit[(c, KValidated)].policyRef.value in t.policies)
    && (forall c :: (c, KDeployed) in t.audit ==>
          var row := t.audit[(c, KDeployed)];
          row.policyRef.Some? && row.deploymentRef.Some? && row.deploymentRef.value in t.deployments
          && t.deployments[row.deploymentRef.value].key == row.policyRef.value)
    && (forall c :: (c, KOutcome) in t.audit ==>
          t.audit[(c, KOutcome)].outcomeRef.Some? && t.audit[(c, KOutcome)].outcomeRef.value in t.outcomes)
  }

  /** Stored policies belong to the task that inserted them, and repeat its policy. */
  ghost predicate OwnersOk(s: State) {
    s.owner.Keys == s.tables.policies.Keys && forall key :: key in s.tables.policies ==>
      && key in s.owner && s.owner[key] in s.tasks
      && var k := s.tasks[s.owner[key]];
         && Chosen(k) && Key(k) == key
         && s.tables.policies[key].threshold == E.Stored(k.run.value.policy.spec.threshold)
         && k.pc !in {InGraph, Ran, GeneratedWritten}
  }

  /** The audit writes of a task, from where it stands. */
  ghost predicate LogOk(k: Task) {
    match k.pc
    case InGraph | Ran => k.log == []
    case GeneratedWritten | PolicyStored => k.log == [KGenerated]
    case ValidatedWritten | DeploymentStored => k.log == [KGenerated, KValidated]
    case DeployedWritten => k.log == [KGenerated, KValidated, KDeployed]
    case RejectedWritten => k.log == [KGenerated, KRejected]
    case Failing => Chain(k.log) || k.log == [KGenerated, KRejected]
    case Done | Crashed => ChainThenRejected(k.log)
  }

  const CHAIN := [KGenerated, KValidated, KDeployed]

  predicate Chain(log: seq<Kind>) {
    log <= CHAIN
  }

  /** A prefix of generated, validated, deployed, then at most one rejected; a dead letter whose
      task fails after writing its rejection asks once more for the row that is there. */
  predicate ChainThenRejected(log: seq<Kind>) {
    || Chain(log)
    || (log != [] && log[|log| - 1] == KRejected && Chain(log[..|log| - 1]))
    || log == [KGenerated, KRejected, KRejected]
  }

  /** The task's tenant has a row of the kind under the task's correlation id. */
  predicate Recorded(t: Tables, k: Task, kind: Kind) {
    (k.correlation, kind) in t.audit && t.audit[(k.correlation, kind)].tenant == k.tenant
  }

  /** A task against the tables: its audit writes are there, the policy it holds is its own and has
      no deployment until it inserts one. */
  ghost predicate TaskAt(t: Tables, owner: map<PolicyKey, nat>, i: nat, k: Task) {
    && LogOk(k)
    && (forall n :: 0 <= n < |k.log| ==> Recorded(t, k, k.log[n]))
    && (k.run.Some? ==> G.WellFormedRun(k.tenant, k.run.value))
    && (k.pc == InGraph ==> k.run.None?)
    && (k.pc !in {InGraph, Failing, Crashed, Done} ==> k.run.Some?)
    && (HoldsPolicy(k.pc) ==> Chosen(k) && Key(k) in t.policies && Key(k) in owner && owner[Key(k)] == i)
    && (k.pc in {PolicyStored, ValidatedWritten} ==>
          forall id :: id in t.deployments ==> t.deployments[id].key != Key(k))
    && (k.pc in {DeploymentStored, DeployedWritten} ==>
          var r := k.run.value.record.value;
          r.id in t.deployments && t.deployments[r.id].key == Key(k))
  }

  ghost predicate TaskOk(s: State, i: nat)
    requires i in s.tasks
  {
    TaskAt(s.tables, s.owner, i, s.tasks[i])
  }

  ghost predicate TasksOk(s: State) {
    forall i :: i in s.tasks ==> TaskOk(s, i)
  }

  /** A copied deployment row still describes the stored one. */
  ghost predicate CopyOk(t: Tables, id: string, row: DeploymentRow) {
    id in t.deployments && t.deployments[id].key == row.key && t.deployments[id].scope == row.scope
  }

  ghost predicate WorkerOk(s: State, w: Worker) {
    && (forall i :: 0 <= i < |w.queue| ==> CopyOk(s.tables, w.queue[i].0, w.queue[i].1))
    && (match w.step
        case NextRecord => true
        case Fetched(id, row, policy) =>
          && CopyOk(s.tables, id, row) && row.key in s.tables.policies
          && policy.threshold == s.tables.policies[row.key].threshold
        case PolicyMissing(_, _) => false
        case Judged(id, row, _, state) =>
          CopyOk(s.tables, id, row) && row.key in s.tables.policies && Plausible(s, row.key, state)
        case OutcomeStored(id, row, _, o) => CopyOk(s.tables, id, row) && HasOutcome(s.tables, row.key) && o in s.tables.outcomes
        case Marked(_, _, _, o) => o in s.tables.outcomes)
  }

  ghost predicate WorkersOk(s: State) {
    forall j :: j in s.workers ==> WorkerOk(s, s.workers[j])
  }

  /** The hypothesis states that a policy's own directive and threshold allow: no data, or the one
      verdict its simulated telemetry determines. */
  ghost predicate Plausible(s: State, key: PolicyKey, state: E.Hypothesis) {
    && key in s.owner && s.owner[key] in s.tasks && Chosen(s.tasks[s.owner[key]])
    && var k := s.tasks[s.owner[key]];
       state == E.NoData ||
       (k.directive != E.Starve &&
        state == if k.directive == E.RuleOut && k.run.value.policy.spec.threshold >= 0.0005 then E.RuledOut else E.Confirmed)
  }

  ghost predicate TelemetryOk(s: State) {
    forall o :: o in s.tables.telemetry ==>
      && o.key in s.tables.policies && o.key in s.owner && s.owner[o.key] in s.tasks
      && var k := s.tasks[s.owner[o.key]];
         Chosen(k) && k.directive != E.Starve && E.Aligned(k.directive, k.run.value.policy.spec.threshold, o.value)
  }

  ghost predicate OutcomesOk(s: State) {
    forall o :: o in s.tables.outcomes ==>
      s.tables.outcomes[o].key in s.tables.policies && Plausible(s, s.tables.outcomes[o].key, s.tables.outcomes[o].state)
  }

  ghost predicate Inv(s: State) {
    && DeploymentsOk(s.tables)
    && AuditOk(s.tables)
    && OwnersOk(s)
    && TasksOk(s)
    && WorkersOk(s)
    && TelemetryOk(s)
    && OutcomesOk(s)
  }

  // ----- nothing is ever taken back ---------------------------------------------------------------------------

  /** Rows stay; only a deployment's status, a policy's scope and an audit document may change: the
      status only to expired, the document only by redaction. */
  ghost predicate Extends(t: Tables, t': Tables) {
    && (forall k :: k in t.policies ==> k in t'.policies && t'.policies[k] == t.policies[k].(scope := t'.policies[k].scope))
    && (forall d :: d in t.deployments ==>
          && d in t'.deployments
          && t'.deployments[d] == t.deployments[d].(status := t'.deployments[d].status)
          && (t'.deployments[d].status == t.deployments[d].status || t'.deployments[d].status == Expired))
    && (forall o :: o in t.outcomes ==> o in t'.outcomes && t'.outcomes[o] == t.outcomes[o])
    && (forall a :: a in t.audit ==>
          && a in t'.audit
          && t'.audit[a] == t.audit[a].(finding := t'.audit[a].finding)
          && L.Core(t'.audit[a].finding) == L.Core(t.audit[a].finding))
  }

  ghost predicate Continues(k: Task, k': Task) {
    && k'.tenant == k.tenant && k'.correlation == k.correlation && k'.directive == k.directive
    && k'.session == k.session && k'.findingId == k.findingId
    && (k.run.Some? ==> k'.run == k.run)
    && k.log <= k'.log
    && (k.pc !in {InGraph, Ran, GeneratedWritten} ==> k'.pc !in {InGraph, Ran, GeneratedWritten})
  }

  ghost predicate StateExtends(s: State, s': State) {
    && Extends(s.tables, s'.tables)
    && (forall i :: i in s.tasks ==> i in s'.tasks && Continues(s.tasks[i], s'.tasks[i]))
    && (forall k :: k in s.owner ==> k in s'.owner && s'.owner[k] == s.owner[k])
  }

  lemma AuditExtends(t: Tables, correlation: string, kind: Kind, row: AuditRow)
    ensures Extends(t, WriteAudit(t, correlation, kind, row))
  {
  }

  lemma PolicyExtends(t: Tables, tenant: string, p: PolicySpec, now: int)
    ensures InsertPolicy(t, tenant, p, now).Some? ==> Extends(t, InsertPolicy(t, tenant, p, now).value)
  {
  }

  lemma DeploymentExtends(t: Tables, id: string, row: DeploymentRow)
    ensures InsertDeployment(t, id, row).Some? ==> Extends(t, InsertDeployment(t, id, row).value)
    ensures Extends(t, MarkExpired(t, id))
  {
  }

  lemma OutcomeExtends(t: Tables, id: string, row: OutcomeRow)
    ensures InsertOutcome(t, id, row).Some? ==> Extends(t, InsertOutcome(t, id, row).value)
  {
  }

  lemma RegistryErasureExtends(t: Tables, tenant: string, vehicle: string)
    ensures EraseRegistry(t, tenant, vehicle).Some? ==> Extends(t, EraseRegistry(t, tenant, vehicle).value)
  {
  }

  lemma TelemetryExtends(t: Tables, telemetry: seq<Observation>)
    ensures Extends(t, t.(telemetry := telemetry))
  {
  }

  lemma RedactionExtends(t: Tables, tenant: string, subject: string)
    ensures Extends(t, RedactAudit(t, tenant, subject))
  {
    forall a | a in t.audit
      ensures L.Core(RedactAudit(t, tenant, subject).audit[a].finding) == L.Core(t.audit[a].finding)
    {
      L.RedactionKeepsCore(t.audit[a].finding, subject);
    }
  }

  lemma ProceedExtends(t: Tables, k: Task, now: int, rows: seq<Observation>)
    requires Ready(k)
    ensures Extends(t, Proceed(t, k, now, rows).0)
  {
    if AuditOf(k).Some? {
      TelemetryExtends(t, t.telemetry);
      AuditExtends(t, k.correlation, AuditOf(k).value.kind, AuditOf(k).value.row);
    } else if k.pc == GeneratedWritten {
      PolicyExtends(t, k.tenant, k.run.value.policy.spec, now);
    } else if k.pc == ValidatedWritten {
      DeploymentExtends(t, k.run.value.record.value.id, k.run.value.record.value.row);
    } else {
      TelemetryExtends(t, t.telemetry);
      TelemetryExtends(t, t.telemetry + rows);
    }
  }

  lemma ProceedContinues(t: Tables, k: Task, now: int, rows: seq<Observation>)
    requires Ready(k)
    ensures Continues(k, Proceed(t, k, now, rows).1)
    ensures Proceed(t, k, now, rows).1.pc == PolicyStored ==> Chosen(k) && Key(k) !in t.policies
  {
  }

  lemma WorkerExtends(t: Tables, w: Worker, a: WorkerAction)
    requires WorkerEnabled(t, w, a)
    ensures Extends(t, StepWorker(t, w, a).0)
  {
    match a
    case StoreOutcome(o, now) => OutcomeExtends(t, o, OutcomeRow(w.step.row.key, w.step.findingId, w.step.state, now));
    case Mark => DeploymentExtends(t, w.step.id, w.step.row);
    case WriteOutcome =>
      AuditExtends(t, w.step.id, KOutcome, OutcomeEvent(w.step.row.key, w.step.findingId, w.step.outcomeId));
    case _ =>
  }

  lemma EventContinues(t: Tables, k: Task, e: Event)
    requires Enabled(k, e) && (k.pc == InGraph ==> k.run.None?)
    ensures Extends(t, StepTask(t, k, e).0) && Continues(k, StepTask(t, k, e).1)
    ensures StepTask(t, k, e).1.pc == PolicyStored && k.pc != PolicyStored ==> Chosen(k) && Key(k) !in t.policies
  {
    if e.Proceeds? {
      ProceedExtends(t, k, e.now, e.rows);
      ProceedContinues(t, k, e.now, e.rows);
    }
  }

  lemma TaskExtends(s: State, i: nat, e: Event, s': State)
    requires i in s.tasks && (s.tasks[i].pc == InGraph ==> s.tasks[i].run.None?)
    requires s.owner.Keys == s.tables.policies.Keys && Next(s, TaskDoes(i, e), s')
    ensures StateExtends(s, s')
  {
    EventContinues(s.tables, s.tasks[i], e);
  }

  lemma TablesExtend(s: State, s': State)
    requires Extends(s.tables, s'.tables) && s'.tasks == s.tasks && s'.owner == s.owner
    ensures StateExtends(s, s')
  {
  }

  lemma EnvironmentExtends(s: State, a: Action, s': State)
    requires Next(s, a, s') && !a.TaskDoes? && !a.Spawn?
    ensures StateExtends(s, s')
  {
    match a {
      case WorkerDoes(j, w) => WorkerExtends(s.tables, s.workers[j], w);
      case ErasesRegistry(tenant, vehicle) => RegistryErasureExtends(s.tables, tenant, vehicle);
      case ErasesTelemetry(tenant, vehicle) => TelemetryExtends(s.tables, s'.tables.telemetry);
      case RedactsAudit(tenant, subject) => RedactionExtends(s.tables, tenant, subject);
      case WritesOther(c, kind, row) => AuditExtends(s.tables, c, kind, row);
      case Hire(_) => TelemetryExtends(s.tables, s.tables.telemetry);
    }
    TablesExtend(s, s');
  }

  lemma SpawnExtends(s: State, a: Action, s': State)
    requires Next(s, a, s') && a.Spawn?
    ensures StateExtends(s, s')
  {
    TelemetryExtends(s.tables, s.tables.telemetry);
  }

  lemma StepExtends(s: State, a: Action, s': State)
    requires TasksOk(s) && s.owner.Keys == s.tables.policies.Keys && Next(s, a, s')
    ensures StateExtends(s, s')
  {
    if a.TaskDoes? {
      assert TaskOk(s, a.task);
      TaskExtends(s, a.task, a.event, s');
    } else if a.Spawn? {
      SpawnExtends(s, a, s');
    } else {
      EnvironmentExtends(s, a, s');
    }
  }

  // ----- frames --------------------------------------------------------------------------------------------------

  lemma PlausibleStays(s: State, s': State, key: PolicyKey, state: E.Hypothesis)
    requires StateExtends(s, s') && Plausible(s, key, state)
    ensures Plausible(s', key, state)
  {
  }

  lemma OutcomeStays(s: State, s': State, key: PolicyKey)
    requires StateExtends(s, s') && HasOutcome(s.tables, key)
    ensures HasOutcome(s'.tables, key)
  {
    var o :| o in s.tables.outcomes && s.tables.outcomes[o].key == key;
    assert o in s'.tables.outcomes && s'.tables.outcomes[o].key == key;
  }

  lemma WorkerStays(s: State, s': State, w: Worker)
    requires StateExtends(s, s') && WorkerOk(s, w)
    ensures WorkerOk(s', w)
  {
    match w.step
    case Judged(id, row, _, state) => PlausibleStays(s, s', row.key, state);
    case OutcomeStored(id, row, _, o) => OutcomeStays(s, s', row.key);
    case _ =>
  }

  /** Everything about a task that later rows cannot disturb. */
  lemma TaskStays(s: State, s': State, i: nat)
    requires StateExtends(s, s') && i in s.tasks && TaskOk(s, i) && s'.tasks[i] == s.tasks[i]
    requires s.tasks[i].pc in {PolicyStored, ValidatedWritten} ==>
      forall id :: id in s'.tables.deployments && id !in s.tables.deployments ==>
        s'.tables.deployments[id].key != Key(s.tasks[i])
    ensures TaskOk(s', i)
  {
  }

  lemma OwnersStay(s: State, s': State)
    requires StateExtends(s, s') && OwnersOk(s) && s'.owner == s.owner && s'.tables.policies.Keys == s.tables.policies.Keys
    ensures OwnersOk(s')
  {
  }

  lemma OutcomesStay(s: State, s': State)
    requires StateExtends(s, s') && OutcomesOk(s) && s'.tables.outcomes == s.tables.outcomes
    ensures OutcomesOk(s')
  {
    forall o | o in s'.tables.outcomes
      ensures s'.tables.outcomes[o].key in s'.tables.policies
      ensures Plausible(s', s'.tables.outcomes[o].key, s'.tables.outcomes[o].state)
    {
      PlausibleStays(s, s', s.tables.outcomes[o].key, s.tables.outcomes[o].state);
    }
  }

  lemma TelemetryStays(s: State, s': State)
    requires StateExtends(s, s') && TelemetryOk(s) && forall o :: o in s'.tables.telemetry ==> o in s.tables.telemetry
    ensures TelemetryOk(s')
  {
  }

  /** Deployments and audit references survive any step that adds no deployment or reference. */
  lemma ReferencesStay(s: State, s': State)
    requires StateExtends(s, s') && DeploymentsOk(s.tables)
    requires s'.tables.deployments.Keys == s.tables.deployments.Keys
    requires forall d :: d in s'.tables.deployments && s'.tables.deployments[d].status == Expired ==>
      || s.tables.deployments[d].status == Expired
      || (HasOutcome(s.tables, s.tables.deployments[d].key) && s.tables.deployments[d].key.tenant == SCAN_TENANT)
    ensures DeploymentsOk(s'.tables)
  {
    forall d | d in s'.tables.deployments && s'.tables.deployments[d].status == Expired
      ensures HasOutcome(s'.tables, s'.tables.deployments[d].key)
    {
      OutcomeStays(s, s', s.tables.deployments[d].key);
    }
  }

  lemma AuditStays(s: State, s': State)
    requires StateExtends(s, s') && AuditOk(s.tables) && s'.tables.audit.Keys == s.tables.audit.Keys
    ensures AuditOk(s'.tables)
  {
    forall c | (c, KValidated) in s'.tables.audit
      ensures s'.tables.audit[(c, KValidated)].policyRef.Some?
      ensures s'.tables.audit[(c, KValidated)].policyRef.value in s'.tables.policies
    {
      assert (c, KValidated) in s.tables.audit;
    }
    forall c | (c, KDeployed) in s'.tables.audit
      ensures var row := s'.tables.audit[(c, KDeployed)];
        row.policyRef.Some? && row.deploymentRef.Some? && row.deploymentRef.value in s'.tables.deployments
        && s'.tables.deployments[row.deploymentRef.value].key == row.policyRef.value
    {
      assert (c, KDeployed) in s.tables.audit;
    }
    forall c | (c, KOutcome) in s'.tables.audit
      ensures s'.tables.audit[(c, KOutcome)].outcomeRef.Some?
      ensures s'.tables.audit[(c, KOutcome)].outcomeRef.value in s'.tables.outcomes
    {
      assert (c, KOutcome) in s.tables.audit;
    }
  }

  /** Bystanders of a task's step: the other tasks and all workers. */
  lemma BystandersStay(s: State, s': State, i: nat)
    requires TasksOk(s) && WorkersOk(s) && StateExtends(s, s')
    requires s'.workers == s.workers && s'.tasks.Keys == s.tasks.Keys
    requires forall j :: j in s.tasks && j != i ==> s'.tasks[j] == s.tasks[j]
    requires forall j, id ::
      (j in s.tasks && j != i && s.tasks[j].pc in {PolicyStored, ValidatedWritten} && TaskOk(s, j)
       && id in s'.tables.deployments && id !in s.tables.deployments)
      ==> s'.tables.deployments[id].key != Key(s.tasks[j])
    ensures WorkersOk(s') && forall j :: j in s'.tasks && j != i ==> TaskOk(s', j)
  {
    forall j | j in s'.tasks && j != i
      ensures TaskOk(s', j)
    {
      assert TaskOk(s, j);
      TaskStays(s, s', j);
    }
    forall j | j in s'.workers
      ensures WorkerOk(s', s'.workers[j])
    {
      WorkerStays(s, s', s.workers[j]);
    }
  }

  /** Ownership, outcomes and telemetry survive a step that adds to none of them. */
  lemma LedgersStay(s: State, s': State)
    requires StateExtends(s, s') && OwnersOk(s) && OutcomesOk(s) && TelemetryOk(s)
    requires s'.owner == s.owner && s'.tables.policies.Keys == s.tables.policies.Keys
    requires s'.tables.outcomes == s.tables.outcomes
    ensures OwnersOk(s') && OutcomesOk(s')
    ensures s'.tables.telemetry == s.tables.telemetry ==> TelemetryOk(s')
  {
    OwnersStay(s, s');
    OutcomesStay(s, s');
    if s'.tables.telemetry == s.tables.telemetry { TelemetryStays(s, s'); }
  }

  /** The shape of a task's step: one task moves on, nobody else does. */
  lemma TaskStepShape(s: State, i: nat, e: Event, s': State)
    requires TasksOk(s) && s.owner.Keys == s.tables.policies.Keys && Next(s, TaskDoes(i, e), s')
    ensures StateExtends(s, s') && TaskOk(s, i)
    ensures s'.workers == s.workers && s'.tasks.Keys == s.tasks.Keys
    ensures forall j :: j in s.tasks && j != i ==> s'.tasks[j] == s.tasks[j]
  {
    assert TaskOk(s, i);
    TaskExtends(s, i, e, s');
  }

  lemma OneMoves(s: State, s': State, i: nat)
    requires i in s.tasks && TasksOk(s) && WorkersOk(s) && StateExtends(s, s')
    requires s'.workers == s.workers && s'.tasks.Keys == s.tasks.Keys
    requires forall j :: j in s.tasks && j != i ==> s'.tasks[j] == s.tasks[j]
    requires TaskOk(s', i)
    requires s'.tables.deployments.Keys == s.tables.deployments.Keys
    ensures TasksOk(s') && WorkersOk(s')
  {
    BystandersStay(s, s', i);
  }

  // ----- each step keeps the invariant -----------------------------------------------------------------------------

  /** Steps of a task that commit nothing. */
  predicate Quiet(t: Tables, k: Task, e: Event) {
    || !e.Proceeds?
    || k.pc == RejectedWritten
    || (Ready(k) && AuditOf(k).Some? && Clash(t, k.tenant, k.correlation, AuditOf(k).value.kind))
  }

  lemma QuietStep(t: Tables, owner: map<PolicyKey, nat>, i: nat, k: Task, e: Event)
    requires TaskAt(t, owner, i, k) && Enabled(k, e) && Quiet(t, k, e)
    ensures var (t', k') := StepTask(t, k, e); t' == t && TaskAt(t, owner, i, k') && k'.pc != PolicyStored
  {
  }

  lemma QuietTaskKeeps(s: State, i: nat, e: Event, s': State)
    requires Inv(s) && Next(s, TaskDoes(i, e), s') && Quiet(s.tables, s.tasks[i], e)
    ensures Inv(s')
  {
    TaskStepShape(s, i, e, s');
    QuietStep(s.tables, s.owner, i, s.tasks[i], e);
    OneMoves(s, s', i);
    LedgersStay(s, s');
  }

  predicate WritesAudit(t: Tables, k: Task) {
    Ready(k) && AuditOf(k).Some? && !Clash(t, k.tenant, k.correlation, AuditOf(k).value.kind)
  }

  lemma LogStep(k: Task, kind: Kind, pc: Pc)
    requires LogOk(k)
    requires || (k.pc == Ran && kind == KGenerated && pc == GeneratedWritten)
             || (k.pc == GeneratedWritten && kind == KRejected && pc == RejectedWritten)
             || (k.pc == PolicyStored && kind == KValidated && pc == ValidatedWritten)
             || (k.pc == DeploymentStored && kind == KDeployed && pc == DeployedWritten)
             || (k.pc == Failing && kind == KRejected && pc == Done)
    ensures LogOk(k.(pc := pc, log := k.log + [kind]))
  {
    var log := k.log + [kind];
    assert log[..|log| - 1] == k.log;
  }

  lemma AuditingStepIs(t: Tables, k: Task, e: Event)
    requires e.Proceeds? && Enabled(k, e) && WritesAudit(t, k)
    ensures var (t', k') := StepTask(t, k, e);
      var w := AuditOf(k).value;
      && t' == WriteAudit(t, k.correlation, w.kind, w.row) && t' == t.(audit := t'.audit)
      && t'.audit.Keys == t.audit.Keys + {(k.correlation, w.kind)}
      && k' == k.(pc := w.next, log := k.log + [w.kind]) && Recorded(t', k', w.kind)
  {
  }

  lemma AuditingStep(t: Tables, owner: map<PolicyKey, nat>, i: nat, k: Task, e: Event)
    requires TaskAt(t, owner, i, k) && e.Proceeds? && Enabled(k, e) && WritesAudit(t, k)
    ensures var (t', k') := StepTask(t, k, e);
      t' == t.(audit := t'.audit) && TaskAt(t', owner, i, k') && k'.pc != PolicyStored
  {
    AuditingStepIs(t, k, e);
    LogStep(k, AuditOf(k).value.kind, AuditOf(k).value.next);
  }

  /** The rows a new audit row names exist. */
  ghost predicate RefsOk(t: Tables, kind: Kind, row: AuditRow) {
    && (kind == KValidated ==> row.policyRef.Some? && row.policyRef.value in t.policies)
    && (kind == KDeployed ==>
          row.policyRef.Some? && row.deploymentRef.Some? && row.deploymentRef.value in t.deployments
          && t.deployments[row.deploymentRef.value].key == row.policyRef.value)
    && (kind == KOutcome ==> row.outcomeRef.Some? && row.outcomeRef.value in t.outcomes)
  }

  lemma WriteKeepsRefs(t: Tables, correlation: string, kind: Kind, row: AuditRow)
    requires AuditOk(t) && RefsOk(t, kind, row)
    ensures AuditOk(WriteAudit(t, correlation, kind, row))
  {
  }

  lemma AuditingStepRefs(t: Tables, owner: map<PolicyKey, nat>, i: nat, k: Task, e: Event)
    requires TaskAt(t, owner, i, k) && e.Proceeds? && Enabled(k, e) && WritesAudit(t, k) && AuditOk(t)
    ensures AuditOk(StepTask(t, k, e).0)
  {
    AuditingStepIs(t, k, e);
    var w := AuditOf(k).value;
    WriteKeepsRefs(t, k.correlation, w.kind, w.row);
  }

  lemma AuditingTaskKeeps(s: State, i: nat, e: Event, s': State)
    requires Inv(s) && e.Proceeds? && Next(s, TaskDoes(i, e), s') && WritesAudit(s.tables, s.tasks[i])
    ensures Inv(s')
  {
    TaskStepShape(s, i, e, s');
    AuditingStep(s.tables, s.owner, i, s.tasks[i], e);
    AuditingStepRefs(s.tables, s.owner, i, s.tasks[i], e);
    OneMoves(s, s', i);
    ReferencesStay(s, s');
    LedgersStay(s, s');
  }

  /** Inserting the policy: the primary key makes the task its owner. */
  lemma PolicyTaskOk(s: State, i: nat, e: Event, s': State)
    requires i in s.tasks && TaskOk(s, i) && e.Proceeds? && Next(s, TaskDoes(i, e), s')
    requires s.tasks[i].pc == GeneratedWritten && s.tasks[i].run.value.completed
    requires DeploymentsOk(s.tables)
    ensures TaskOk(s', i)
    ensures s'.tables == s.tables.(policies := s'.tables.policies)
  {
  }

  /** The new row is the task's, and repeats its policy. */
  lemma PolicyTaskRow(s: State, i: nat, e: Event, s': State)
    requires i in s.tasks && TaskOk(s, i) && e.Proceeds? && Next(s, TaskDoes(i, e), s')
    requires s.tasks[i].pc == GeneratedWritten && s.tasks[i].run.value.completed
    ensures s'.tasks[i].pc !in {InGraph, Ran, GeneratedWritten} && Chosen(s'.tasks[i])
    ensures || (s'.owner == s.owner && s'.tables.policies == s.tables.policies)
            || (var key := Key(s'.tasks[i]);
                && key !in s.tables.policies
                && s'.owner == s.owner[key := i]
                && s'.tables.policies.Keys == s.tables.policies.Keys + {key}
                && s'.tables.policies[key].threshold == E.Stored(s'.tasks[i].run.value.policy.spec.threshold))
  {
  }

  lemma PolicyTaskOwners(s: State, i: nat, s': State)
    requires OwnersOk(s) && StateExtends(s, s') && i in s'.tasks
    requires s'.tasks[i].pc !in {InGraph, Ran, GeneratedWritten} && Chosen(s'.tasks[i])
    requires var key := Key(s'.tasks[i]);
      && key !in s.tables.policies
      && s'.owner == s.owner[key := i]
      && s'.tables.policies.Keys == s.tables.policies.Keys + {key}
      && s'.tables.policies[key].threshold == E.Stored(s'.tasks[i].run.value.policy.spec.threshold)
    ensures OwnersOk(s')
  {
    var added := Key(s'.tasks[i]);
    assert s'.owner.Keys == s'.tables.policies.Keys;
    forall key | key in s'.tables.policies
      ensures s'.owner[key] in s'.tasks && Chosen(s'.tasks[s'.owner[key]]) && Key(s'.tasks[s'.owner[key]]) == key
      ensures s'.tables.policies[key].threshold == E.Stored(s'.tasks[s'.owner[key]].run.value.policy.spec.threshold)
      ensures s'.tasks[s'.owner[key]].pc !in {InGraph, Ran, GeneratedWritten}
    {
      if key != added {
        assert key in s.tables.policies && s'.owner[key] == s.owner[key];
        assert Continues(s.tasks[s.owner[key]], s'.tasks[s.owner[key]]);
      }
    }
  }

  lemma PolicyTaskKeeps(s: State, i: nat, e: Event, s': State)
    requires Inv(s) && e.Proceeds? && Next(s, TaskDoes(i, e), s')
    requires s.tasks[i].pc == GeneratedWritten && s.tasks[i].run.value.completed
    ensures Inv(s')
  {
    TaskStepShape(s, i, e, s');
    PolicyTaskOk(s, i, e, s');
    PolicyTaskRow(s, i, e, s');
    if s'.owner == s.owner && s'.tables.policies == s.tables.policies { OwnersStay(s, s'); } else { PolicyTaskOwners(s, i, s'); }
    OneMoves(s, s', i);
    ReferencesStay(s, s');
    AuditStays(s, s');
    OutcomesStay(s, s');
    TelemetryStays(s, s');
  }

  /** Inserting the deployment: no other task can hold the policy, so it is the policy's first. */
  lemma DeploymentTaskOk(s: State, i: nat, e: Event, s': State)
    requires i in s.tasks && TaskOk(s, i) && e.Proceeds? && Next(s, TaskDoes(i, e), s')
    requires s.tasks[i].pc == ValidatedWritten
    ensures TaskOk(s', i)
    ensures s'.owner == s.owner
    ensures s'.tables == s.tables.(deployments := s'.tables.deployments)
    ensures forall id :: id in s'.tables.deployments && id !in s.tables.deployments ==>
      s'.tables.deployments[id].key == Key(s.tasks[i])
  {
  }

  lemma DeploymentTaskTables(s: State, i: nat, e: Event, s': State)
    requires i in s.tasks && TaskOk(s, i) && e.Proceeds? && Next(s, TaskDoes(i, e), s')
    requires s.tasks[i].pc == ValidatedWritten
    requires DeploymentsOk(s.tables)
    ensures DeploymentsOk(s'.tables)
  {
    var k := s.tasks[i];
    var r := k.run.value.record.value;
    assert r.row.key == Key(k) && r.row.status == Accepted;
    DeploymentInsertOk(s.tables, r.id, r.row);
  }

  lemma DeploymentInsertOk(t: Tables, id: string, row: DeploymentRow)
    requires DeploymentsOk(t) && row.status == Accepted
    requires forall d :: d in t.deployments ==> t.deployments[d].key != row.key
    ensures InsertDeployment(t, id, row).Some? ==> DeploymentsOk(InsertDeployment(t, id, row).value)
  {
    if InsertDeployment(t, id, row).Some? {
      var t' := InsertDeployment(t, id, row).value;
      forall d | d in t'.deployments && t'.deployments[d].status == Expired
        ensures HasOutcome(t', t'.deployments[d].key)
      {
        assert HasOutcome(t, t.deployments[d].key);
      }
    }
  }

  /** The other tasks that hold a policy hold a different one. */
  lemma DifferentPolicies(s: State, i: nat, j: nat)
    requires i in s.tasks && j in s.tasks && i != j && TaskOk(s, i) && TaskOk(s, j)
    requires HoldsPolicy(s.tasks[i].pc) && HoldsPolicy(s.tasks[j].pc)
    ensures Key(s.tasks[i]) != Key(s.tasks[j])
  {
    assert s.owner[Key(s.tasks[j])] == j && s.owner[Key(s.tasks[i])] == i;
  }

  lemma DeploymentTaskOthers(s: State, i: nat, s': State)
    requires TasksOk(s) && WorkersOk(s) && StateExtends(s, s') && i in s.tasks && s.tasks[i].pc == ValidatedWritten
    requires s'.workers == s.workers && s'.tasks.Keys == s.tasks.Keys && TaskOk(s', i)
    requires forall j :: j in s.tasks && j != i ==> s'.tasks[j] == s.tasks[j]
    requires TaskOk(s, i) && forall id :: id in s'.tables.deployments && id !in s.tables.deployments ==>
      s'.tables.deployments[id].key == Key(s.tasks[i])
    ensures TasksOk(s') && WorkersOk(s')
  {
    forall j, id | (j in s.tasks && j != i && s.tasks[j].pc in {PolicyStored, ValidatedWritten} && TaskOk(s, j)
                    && id in s'.tables.deployments && id !in s.tables.deployments)
      ensures s'.tables.deployments[id].key != Key(s.tasks[j])
    {
      DifferentPolicies(s, i, j);
    }
    BystandersStay(s, s', i);
  }

  lemma DeploymentTaskKeeps(s: State, i: nat, e: Event, s': State)
    requires Inv(s) && e.Proceeds? && Next(s, TaskDoes(i, e), s')
    requires s.tasks[i].pc == ValidatedWritten
    ensures Inv(s')
  {
    TaskStepShape(s, i, e, s');
    DeploymentTaskOk(s, i, e, s');
    DeploymentTaskTables(s, i, e, s');
    DeploymentTaskOthers(s, i, s');
    AuditStays(s, s');
    LedgersStay(s, s');
  }

  /** The simulator's rows carry the owner's directive. */
  lemma TelemetryTaskKeeps(s: State, i: nat, e: Event, s': State)
    requires Inv(s) && e.Proceeds? && Next(s, TaskDoes(i, e), s')
    requires s.tasks[i].pc == DeployedWritten
    ensures Inv(s')
  {
    TaskStepShape(s, i, e, s');
    TelemetryTaskOk(s, i, e, s');
    OneMoves(s, s', i);
    OnlyTelemetryGrew(s, s');
  }

  lemma OnlyTelemetryGrew(s: State, s': State)
    requires DeploymentsOk(s.tables) && AuditOk(s.tables) && OwnersOk(s) && OutcomesOk(s) && TelemetryOk(s) && StateExtends(s, s')
    requires s'.owner == s.owner && s'.tables == s.tables.(telemetry := s'.tables.telemetry)
    ensures DeploymentsOk(s'.tables) && AuditOk(s'.tables) && OwnersOk(s') && OutcomesOk(s')
  {
    ReferencesStay(s, s');
    AuditStays(s, s');
    LedgersStay(s, s');
  }

  lemma TelemetryTaskOk(s: State, i: nat, e: Event, s': State)
    requires i in s.tasks && TaskOk(s, i) && e.Proceeds? && Next(s, TaskDoes(i, e), s')
    requires s.tasks[i].pc == DeployedWritten
    requires TelemetryOk(s)
    ensures TaskOk(s', i) && TelemetryOk(s')
    ensures s'.owner == s.owner && s'.tables == s.tables.(telemetry := s'.tables.telemetry)
  {
    forall o | o in s'.tables.telemetry
      ensures o in s.tables.telemetry || o in e.rows
    {
    }
  }

  lemma TaskKeeps(s: State, i: nat, e: Event, s': State)
    requires Inv(s) && Next(s, TaskDoes(i, e), s')
    ensures Inv(s')
  {
    assert TaskOk(s, i);
    var k := s.tasks[i];
    if Quiet(s.tables, k, e) {
      QuietTaskKeeps(s, i, e, s');
    } else if k.pc == GeneratedWritten && k.run.value.completed {
      PolicyTaskKeeps(s, i, e, s');
    } else if k.pc == ValidatedWritten {
      DeploymentTaskKeeps(s, i, e, s');
    } else if k.pc == DeployedWritten {
      TelemetryTaskKeeps(s, i, e, s');
    } else {
      AuditingTaskKeeps(s, i, e, s');
    }
  }

  // workers

  /** What the judging step may conclude from telemetry that the owner's simulator produced. */
  lemma JudgedIsPlausible(s: State, row: DeploymentRow, threshold: real, seen: seq<Observation>)
    requires TelemetryOk(s) && OwnersOk(s) && row.key in s.tables.policies
    requires threshold == s.tables.policies[row.key].threshold
    requires Collected(s.tables, row, seen)
    ensures Plausible(s, row.key, E.Judge(Values(seen), threshold))
  {
    var k := s.tasks[s.owner[row.key]];
    var values := Values(seen);
    if seen != [] {
      assert seen[0] in seen && seen[0] in s.tables.telemetry && seen[0].key == row.key;
      forall i | 0 <= i < |values|
        ensures E.Aligned(k.directive, k.run.value.policy.spec.threshold, values[i])
      {
        assert seen[i] in seen && seen[i] in s.tables.telemetry && seen[i].key == row.key;
      }
      E.OutcomeDetermined(k.directive, k.run.value.policy.spec.threshold, values);
    }
  }

  /** The worker's own state after its step, case by case. */
  lemma ScanOk(s: State, w: Worker, now: int, ids: seq<string>)
    requires WorkerEnabled(s.tables, w, Scan(now, ids))
    ensures WorkerOk(s, StepWorker(s.tables, w, Scan(now, ids)).1)
  {
  }

  lemma FetchOk(s: State, w: Worker)
    requires WorkerEnabled(s.tables, w, Fetch) && WorkerOk(s, w) && DeploymentsOk(s.tables)
    ensures WorkerOk(s, StepWorker(s.tables, w, Fetch).1)
  {
    assert CopyOk(s.tables, w.queue[0].0, w.queue[0].1);
  }

  lemma JudgeOk(s: State, w: Worker, seen: seq<Observation>)
    requires WorkerEnabled(s.tables, w, Judge(seen)) && WorkerOk(s, w) && TelemetryOk(s) && OwnersOk(s)
    ensures WorkerOk(s, StepWorker(s.tables, w, Judge(seen)).1)
  {
    JudgedIsPlausible(s, w.step.row, w.step.policy.threshold, seen);
  }

  lemma StoreOutcomeOk(s: State, w: Worker, o: string, now: int, s': State)
    requires WorkerEnabled(s.tables, w, StoreOutcome(o, now)) && WorkerOk(s, w) && StateExtends(s, s')
    requires s'.tables == StepWorker(s.tables, w, StoreOutcome(o, now)).0
    ensures WorkerOk(s', StepWorker(s.tables, w, StoreOutcome(o, now)).1)
  {
    if StepWorker(s.tables, w, StoreOutcome(o, now)).1.step.OutcomeStored? {
      assert o in s'.tables.outcomes && s'.tables.outcomes[o].key == w.step.row.key;
      assert HasOutcome(s'.tables, w.step.row.key);
    }
  }

  lemma MarkOk(s: State, w: Worker, a: WorkerAction, s': State)
    requires WorkerEnabled(s.tables, w, a) && WorkerOk(s, w) && StateExtends(s, s')
    requires a in {Mark, WriteOutcome, Abort}
    ensures WorkerOk(s', StepWorker(s.tables, w, a).1)
  {
    WorkerStays(s, s', w);
  }

  lemma WorkerStepOk(s: State, w: Worker, a: WorkerAction, s': State)
    requires WorkerEnabled(s.tables, w, a) && WorkerOk(s, w) && StateExtends(s, s')
    requires s'.tables == StepWorker(s.tables, w, a).0
    requires DeploymentsOk(s.tables) && TelemetryOk(s) && OwnersOk(s)
    ensures WorkerOk(s', StepWorker(s.tables, w, a).1)
  {
    if a.StoreOutcome? {
      StoreOutcomeOk(s, w, a.outcomeId, a.now, s');
    } else if a.Scan? || a.Fetch? || a.Judge? {
      ReadingOk(s, w, a, s');
    } else {
      MarkOk(s, w, a, s');
    }
  }

  lemma ReadingOk(s: State, w: Worker, a: WorkerAction, s': State)
    requires WorkerEnabled(s.tables, w, a) && WorkerOk(s, w) && StateExtends(s, s')
    requires a.Scan? || a.Fetch? || a.Judge?
    requires DeploymentsOk(s.tables) && TelemetryOk(s) && OwnersOk(s)
    ensures WorkerOk(s', StepWorker(s.tables, w, a).1)
  {
    match a {
      case Scan(now, ids) => ScanOk(s, w, now, ids);
      case Fetch => FetchOk(s, w);
      case Judge(seen) => JudgeOk(s, w, seen);
    }
    WorkerStays(s, s', StepWorker(s.tables, w, a).1);
  }

  lemma OtherWorkersStay(s: State, t': Tables, j: nat, w': Worker, s': State)
    requires TasksOk(s) && WorkersOk(s) && StateExtends(s, s')
    requires s' == s.(tables := t', workers := s.workers[j := w'])
    requires t'.deployments.Keys == s.tables.deployments.Keys
    requires WorkerOk(s', w')
    ensures TasksOk(s') && WorkersOk(s')
  {
    forall i | i in s'.tasks
      ensures TaskOk(s', i)
    {
      assert TaskOk(s, i);
      TaskStays(s, s', i);
    }
    forall i | i in s'.workers
      ensures WorkerOk(s', s'.workers[i])
    {
      if i != j { WorkerStays(s, s', s.workers[i]); }
    }
  }

  /** Tables after a worker's step. */
  lemma WorkerTables(t: Tables, w: Worker, a: WorkerAction)
    requires WorkerEnabled(t, w, a)
    ensures var t' := StepWorker(t, w, a).0;
      && t'.policies == t.policies && t'.telemetry == t.telemetry
      && t'.deployments.Keys == t.deployments.Keys
      && (a.Mark? || t'.deployments == t.deployments)
      && (a.StoreOutcome? || t'.outcomes == t.outcomes)
      && (a.WriteOutcome? || t'.audit == t.audit)
  {
  }

  /** Marking touches one row, and only one that has its outcome. */
  lemma MarkedHasOutcome(s: State, w: Worker, a: WorkerAction, d: string)
    requires WorkerEnabled(s.tables, w, a) && WorkerOk(s, w)
    requires d in StepWorker(s.tables, w, a).0.deployments && d in s.tables.deployments
    requires StepWorker(s.tables, w, a).0.deployments[d].status == Expired
    ensures || s.tables.deployments[d].status == Expired
            || (HasOutcome(s.tables, s.tables.deployments[d].key) && s.tables.deployments[d].key.tenant == SCAN_TENANT)
  {
  }

  lemma WorkerDeployments(s: State, w: Worker, a: WorkerAction, s': State)
    requires WorkerEnabled(s.tables, w, a) && WorkerOk(s, w) && StateExtends(s, s') && DeploymentsOk(s.tables)
    requires s'.tables == StepWorker(s.tables, w, a).0
    ensures DeploymentsOk(s'.tables)
  {
    WorkerTables(s.tables, w, a);
    forall d | d in s'.tables.deployments && s'.tables.deployments[d].status == Expired
      ensures || s.tables.deployments[d].status == Expired
              || (HasOutcome(s.tables, s.tables.deployments[d].key) && s.tables.deployments[d].key.tenant == SCAN_TENANT)
    {
      MarkedHasOutcome(s, w, a, d);
    }
    ReferencesStay(s, s');
  }

  lemma NewOutcome(s: State, w: Worker, a: WorkerAction, o: string)
    requires WorkerEnabled(s.tables, w, a) && WorkerOk(s, w)
    requires o in StepWorker(s.tables, w, a).0.outcomes && o !in s.tables.outcomes
    ensures var row := StepWorker(s.tables, w, a).0.outcomes[o];
      row.key in s.tables.policies && Plausible(s, row.key, row.state)
  {
  }

  lemma WorkerOutcomes(s: State, w: Worker, a: WorkerAction, s': State)
    requires WorkerEnabled(s.tables, w, a) && WorkerOk(s, w) && StateExtends(s, s') && OutcomesOk(s)
    requires s'.tables == StepWorker(s.tables, w, a).0
    ensures OutcomesOk(s')
  {
    forall o | o in s'.tables.outcomes
      ensures s'.tables.outcomes[o].key in s'.tables.policies
      ensures Plausible(s', s'.tables.outcomes[o].key, s'.tables.outcomes[o].state)
    {
      if o !in s.tables.outcomes { NewOutcome(s, w, a, o); }
      PlausibleStays(s, s', s'.tables.outcomes[o].key, s'.tables.outcomes[o].state);
    }
  }

  lemma WorkerAudit(s: State, w: Worker, a: WorkerAction, s': State)
    requires WorkerEnabled(s.tables, w, a) && WorkerOk(s, w) && StateExtends(s, s') && AuditOk(s.tables)
    requires s'.tables == StepWorker(s.tables, w, a).0
    ensures AuditOk(s'.tables)
  {
    WorkerTables(s.tables, w, a);
    if !a.WriteOutcome? { AuditStays(s, s'); }
  }

  lemma WorkerParts(s: State, w: Worker, a: WorkerAction, s': State)
    requires WorkerEnabled(s.tables, w, a) && WorkerOk(s, w) && StateExtends(s, s')
    requires DeploymentsOk(s.tables) && AuditOk(s.tables) && OwnersOk(s) && TelemetryOk(s) && OutcomesOk(s)
    requires s'.tables == StepWorker(s.tables, w, a).0 && s'.owner == s.owner
    ensures WorkerOk(s', StepWorker(s.tables, w, a).1)
    ensures DeploymentsOk(s'.tables) && AuditOk(s'.tables) && OwnersOk(s') && TelemetryOk(s') && OutcomesOk(s')
  {
    WorkerTables(s.tables, w, a);
    WorkerStepOk(s, w, a, s');
    WorkerDeployments(s, w, a, s');
    WorkerAudit(s, w, a, s');
    WorkerOutcomes(s, w, a, s');
    OwnersStay(s, s');
    TelemetryStays(s, s');
  }

  lemma WorkerKeeps(s: State, j: nat, a: WorkerAction, s': State)
    requires Inv(s) && Next(s, WorkerDoes(j, a), s')
    ensures Inv(s')
  {
    var w := s.workers[j];
    assert WorkerOk(s, w);
    WorkerExtends(s.tables, w, a);
    TablesExtend(s, s');
    WorkerTables(s.tables, w, a);
    WorkerParts(s, w, a, s');
    OtherWorkersStay(s, s'.tables, j, s'.workers[j], s');
  }

  // erasures and the rest

  /** Steps that only rewrite table contents: everybody stays where they are. */
  lemma EveryoneStays(s: State, s': State)
    requires TasksOk(s) && WorkersOk(s) && StateExtends(s, s') && s'.tasks == s.tasks && s'.workers == s.workers
    requires s'.tables.deployments.Keys == s.tables.deployments.Keys
    ensures TasksOk(s') && WorkersOk(s')
  {
    forall i | i in s'.tasks
      ensures TaskOk(s', i)
    {
      assert TaskOk(s, i);
      TaskStays(s, s', i);
    }
    forall j | j in s'.workers
      ensures WorkerOk(s', s'.workers[j])
    {
      WorkerStays(s, s', s.workers[j]);
    }
  }

  lemma RewriteKeeps(s: State, s': State)
    requires Inv(s) && StateExtends(s, s') && s' == s.(tables := s'.tables)
    requires s'.tables.policies.Keys == s.tables.policies.Keys && s'.tables.audit.Keys == s.tables.audit.Keys
    requires s'.tables.deployments == s.tables.deployments && s'.tables.outcomes == s.tables.outcomes
    requires forall o :: o in s'.tables.telemetry ==> o in s.tables.telemetry
    ensures Inv(s')
  {
    EveryoneStays(s, s');
    ReferencesStay(s, s');
    AuditStays(s, s');
    LedgersStay(s, s');
    TelemetryStays(s, s');
  }

  lemma ErasureKeeps(s: State, a: Action, s': State)
    requires Inv(s) && Next(s, a, s')
    requires a.ErasesRegistry? || a.ErasesTelemetry? || a.RedactsAudit?
    ensures Inv(s')
  {
    var tenant, subject := a.tenant, if a.RedactsAudit? then a.subject else a.vehicle;
    EnvironmentExtends(s, a, s');
    ErasureKeys(s.tables, tenant, subject);
    RewriteKeeps(s, s');
  }

  lemma ErasureKeys(t: Tables, tenant: string, subject: string)
    ensures EraseRegistry(t, tenant, subject).Some? ==>
      EraseRegistry(t, tenant, subject).value.policies.Keys == t.policies.Keys
    ensures RedactAudit(t, tenant, subject).audit.Keys == t.audit.Keys
    ensures forall o :: o in EraseTelemetry(t, tenant, subject).telemetry ==> o in t.telemetry
  {
    WithoutVehicleFrom(t.telemetry, tenant, subject);
  }

  lemma OtherAudit(t: Tables, correlation: string, kind: Kind, row: AuditRow)
    requires AuditOk(t) && kind in {KAccepted, KErasure, KDeploymentRejected}
    ensures AuditOk(WriteAudit(t, correlation, kind, row))
  {
  }

  lemma OtherKeeps(s: State, a: Action, s': State)
    requires Inv(s) && Next(s, a, s') && a.WritesOther?
    ensures Inv(s')
  {
    AuditExtends(s.tables, a.correlation, a.kind, a.row);
    OtherAudit(s.tables, a.correlation, a.kind, a.row);
    TablesExtend(s, s');
    AuditOnlyKeeps(s, s');
  }

  lemma AuditOnlyKeeps(s: State, s': State)
    requires Inv(s) && StateExtends(s, s') && s' == s.(tables := s.tables.(audit := s'.tables.audit)) && AuditOk(s'.tables)
    ensures Inv(s')
  {
    EveryoneStays(s, s');
    ReferencesStay(s, s');
    LedgersStay(s, s');
  }

  lemma SpawnKeeps(s: State, a: Action, s': State)
    requires Inv(s) && Next(s, a, s') && a.Spawn?
    ensures Inv(s')
  {
    StepExtends(s, a, s');
    SpawnedTasks(s, a, s');
    forall j | j in s'.workers
      ensures WorkerOk(s', s'.workers[j])
    {
      WorkerStays(s, s', s.workers[j]);
    }
    LedgersStay(s, s');
  }

  lemma SpawnedTasks(s: State, a: Action, s': State)
    requires TasksOk(s) && Next(s, a, s') && a.Spawn? && StateExtends(s, s')
    ensures TasksOk(s')
  {
    assert TaskOk(s', a.task);
    forall i | i in s.tasks
      ensures TaskOk(s', i)
    {
      assert TaskOk(s, i);
      TaskStays(s, s', i);
    }
  }

  lemma HireKeeps(s: State, a: Action, s': State)
    requires Inv(s) && Next(s, a, s') && a.Hire?
    ensures Inv(s')
  {
    StepExtends(s, a, s');
    EveryoneStays(s, s'.(workers := s.workers));
    forall i | i in s'.tasks
      ensures TaskOk(s', i)
    {
      assert TaskOk(s, i);
      TaskStays(s, s', i);
    }
    forall j | j in s'.workers
      ensures WorkerOk(s', s'.workers[j])
    {
      if j in s.workers { WorkerStays(s, s', s.workers[j]); }
    }
    LedgersStay(s, s');
  }

  /** Every step of every actor keeps the invariant. */
  lemma NextKeeps(s: State, a: Action, s': State)
    requires Inv(s) && Next(s, a, s')
    ensures Inv(s')
  {
    match a
    case Spawn(_, _, _, _, _, _) => SpawnKeeps(s, a, s');
    case TaskDoes(i, e) => TaskKeeps(s, i, e, s');
    case Hire(_) => HireKeeps(s, a, s');
    case WorkerDoes(j, w) => WorkerKeeps(s, j, w, s');
    case WritesOther(_, _, _) => OtherKeeps(s, a, s');
    case _ => ErasureKeeps(s, a, s');
  }

  // ----- runs ------------------------------------------------------------------------------------------------------

  ghost predicate IsRun(states: seq<State>, actions: seq<Action>) {
    && |states| == |actions| + 1
    && states[0] == INITIAL
    && forall n :: 0 <= n < |actions| ==> Next(states[n], actions[n], states[n + 1])
  }

  /** A run, one step longer. */
  lemma Then(states: seq<State>, actions: seq<Action>, a: Action, s': State)
    returns (states': seq<State>, actions': seq<Action>)
    requires IsRun(states, actions) && Next(states[|actions|], a, s')
    ensures IsRun(states', actions') && states'[|actions'|] == s'
    ensures states <= states' && actions' == actions + [a]
  {
    states', actions' := states + [s'], actions + [a];
  }

  lemma {:induction false} RunKeeps(states: seq<State>, actions: seq<Action>, n: nat)
    requires IsRun(states, actions) && n < |states|
    ensures Inv(states[n])
    decreases n
  {
    if n > 0 {
      RunKeeps(states, actions, n - 1);
      NextKeeps(states[n - 1], actions[n - 1], states[n]);
    }
  }

  /** Safety of every run: whatever interleaves and whatever fails, deployments point at their
      policies and expire only once judged, no policy is deployed twice, and the worker's
      policy-missing branch is never taken. */
  lemma EveryRunIsSafe(states: seq<State>, actions: seq<Action>, n: nat)
    requires IsRun(states, actions) && n < |states|
    ensures DeploymentsOk(states[n].tables)
    ensures forall j :: j in states[n].workers ==> !states[n].workers[j].step.PolicyMissing?
  {
    RunKeeps(states, actions, n);
    forall j | j in states[n].workers
      ensures !states[n].workers[j].step.PolicyMissing?
    {
      assert WorkerOk(states[n], states[n].workers[j]);
    }
  }

  lemma ExtendsTransitive(a: State, b: State, c: State)
    requires StateExtends(a, b) && StateExtends(b, c)
    ensures StateExtends(a, c)
  {
    TablesTransitive(a.tables, b.tables, c.tables);
    forall i | i in a.tasks
      ensures i in c.tasks && Continues(a.tasks[i], c.tasks[i])
    {
      assert Continues(a.tasks[i], b.tasks[i]) && Continues(b.tasks[i], c.tasks[i]);
    }
  }

  lemma TablesTransitive(a: Tables, b: Tables, c: Tables)
    requires Extends(a, b) && Extends(b, c)
    ensures Extends(a, c)
  {
  }

  lemma NextTakesNothingBack(states: seq<State>, actions: seq<Action>, n: nat)
    requires IsRun(states, actions) && n < |actions|
    ensures StateExtends(states[n], states[n + 1])
  {
    RunKeeps(states, actions, n);
    StepExtends(states[n], actions[n], states[n + 1]);
  }

  /** Between any two points of a run nothing is taken back: policies, deployments, outcomes and
      audit rows stay, a deployment's status moves only to expired, an outcome never changes, and
      a task's audit writes only grow. */
  lemma {:induction false} NothingIsTakenBack(states: seq<State>, actions: seq<Action>, m: nat, n: nat)
    requires IsRun(states, actions) && m <= n < |states|
    ensures StateExtends(states[m], states[n])
    decreases n - m
  {
    if m < n {
      NothingIsTakenBack(states, actions, m, n - 1);
      NextTakesNothingBack(states, actions, n - 1);
      ExtendsTransitive(states[m], states[n - 1], states[n]);
    }
  }

  /** A deployment row enters the table as accepted. */
  lemma DeploymentsStartAccepted(states: seq<State>, actions: seq<Action>, n: nat, id: string)
    requires IsRun(states, actions) && n < |actions|
    requires id !in states[n].tables.deployments && id in states[n + 1].tables.deployments
    ensures states[n + 1].tables.deployments[id].status == Accepted
  {
    StepInsertsAccepted(states[n], actions[n], states[n + 1], id);
  }

  lemma StepInsertsAccepted(s: State, a: Action, s': State, id: string)
    requires Next(s, a, s') && id !in s.tables.deployments && id in s'.tables.deployments
    ensures s'.tables.deployments[id].status == Accepted
  {
    match a
    case TaskDoes(i, e) => TaskInsertsAccepted(s.tables, s.tasks[i], e, id);
    case WorkerDoes(j, w) => WorkerTables(s.tables, s.workers[j], w);
    case _ =>
  }

  lemma TaskInsertsAccepted(t: Tables, k: Task, e: Event, id: string)
    requires Enabled(k, e) && id !in t.deployments && id in StepTask(t, k, e).0.deployments
    ensures StepTask(t, k, e).0.deployments[id].status == Accepted
  {
    assert e.Proceeds?;
    assert k.pc == ValidatedWritten;
  }

  /** Row-level security confines the scan: deployments of any other tenant stay accepted for ever. */
  lemma OtherTenantsNeverExpire(states: seq<State>, actions: seq<Action>, n: nat, id: string)
    requires IsRun(states, actions) && n < |states|
    requires id in states[n].tables.deployments && states[n].tables.deployments[id].key.tenant != SCAN_TENANT
    ensures states[n].tables.deployments[id].status == Accepted
  {
    RunKeeps(states, actions, n);
  }

  /** The audit trail of every task in every run: a prefix of generated, validated, deployed, then
      at most one rejected; every write has its row; and every validated, deployed or outcome row
      names rows that exist, even when tasks share a correlation id. */
  lemma AuditTrailIsSound(states: seq<State>, actions: seq<Action>, n: nat, i: nat)
    requires IsRun(states, actions) && n < |states| && i in states[n].tasks
    ensures var k := states[n].tasks[i];
      && ChainThenRejected(k.log)
      && (forall m :: 0 <= m < |k.log| ==> Recorded(states[n].tables, k, k.log[m]))
    ensures AuditOk(states[n].tables)
  {
    RunKeeps(states, actions, n);
    assert TaskOk(states[n], i);
    var log := states[n].tasks[i].log;
    assert log == [KGenerated, KRejected] ==> log[..1] == [KGenerated];
  }

  /** No interleaving turns a verdict: every outcome row is `no_data` or the one verdict that its
      policy's own directive and threshold determine. */
  lemma OutcomesAreFaithful(states: seq<State>, actions: seq<Action>, n: nat, o: string)
    requires IsRun(states, actions) && n < |states| && o in states[n].tables.outcomes
    ensures var row := states[n].tables.outcomes[o];
      row.key in states[n].tables.policies && Plausible(states[n], row.key, row.state)
  {
    RunKeeps(states, actions, n);
  }

  /** Error lineage over whole runs: once a dead letter has committed the first rejected row of its
      correlation id, every later reader of that row, redacted or not, finds exactly the
      out-of-vocabulary signals of the draft that was rejected last. */
  lemma RejectionIsLegible(states: seq<State>, actions: seq<Action>, n: nat, m: nat, i: nat, voc: G.Vocabulary)
    requires IsRun(states, actions) && n < |actions| && n < m < |states|
    requires actions[n].TaskDoes? && actions[n].event.Proceeds? && actions[n].task == i && i in states[n].tasks
    requires var k := states[n].tasks[i];
      && k.pc == GeneratedWritten && k.run.Some? && !k.run.value.completed
      && k.run.value.errors == G.NodeErrors(voc, k.run.value.policy)
      && (k.correlation, KRejected) !in states[n].tables.audit
    ensures var k := states[n].tasks[i];
      && (k.correlation, KRejected) in states[m].tables.audit
      && L.NamedInvalid(states[m].tables.audit[(k.correlation, KRejected)].finding)
         == Some(L.Names(if G.Parses(k.run.value.policy) then G.Unknown(voc.names, k.run.value.policy.spec.signals) else []))
  {
    var k := states[n].tasks[i];
    assert Next(states[n], actions[n], states[n + 1]);
    var written := RejectedRow(k, L.ValidationFailed(k.run.value.errors));
    assert states[n + 1].tables.audit[(k.correlation, KRejected)] == written;
    NothingIsTakenBack(states, actions, n + 1, m);
    L.RejectionNamesTheSignals(voc, k.run.value.policy, k.tenant, k.findingId,
                               states[m].tables.audit[(k.correlation, KRejected)].finding);
  }

  /** The guards of the step relation never block a task: whenever its next statement is due, it can
      be executed, except for the one that raises while it reads identifiers the draft does not have. */
  lemma TasksAreNeverStuck(states: seq<State>, actions: seq<Action>, n: nat, i: nat, now: int) returns (rows: seq<Observation>)
    requires IsRun(states, actions) && n < |states| && i in states[n].tasks
    requires states[n].tasks[i].pc !in {InGraph, Done, Crashed}
    ensures var k := states[n].tasks[i];
      Enabled(k, Proceeds(now, rows)) || (k.pc == Ran && k.run.Some? && !G.HasIds(k.run.value.policy) && Enabled(k, Throws))
  {
    RunKeeps(states, actions, n);
    assert TaskOk(states[n], i);
    rows := [];
    if states[n].tasks[i].pc == DeployedWritten {
      rows := SomeRows(states[n].tasks[i]);
    }
  }

  /** The simulator always has rows to insert. */
  lemma SomeRows(k: Task) returns (rows: seq<Observation>)
    requires Chosen(k)
    ensures Simulated(k, rows)
  {
    var spec := k.run.value.policy.spec;
    if k.directive == E.Starve {
      rows := [];
    } else {
      var value := if k.directive == E.RuleOut then 0.0 else 1.0;
      rows := seq(|spec.scope|, i requires 0 <= i < |spec.scope| => Observation(Key(k), spec.scope[i], spec.signals[0], value));
      forall v | v in spec.scope
        ensures Mentions(rows, Key(k), v)
      {
        var i :| 0 <= i < |spec.scope| && spec.scope[i] == v;
        assert rows[i] in rows;
      }
    }
  }

  // ----- whose audit rows they are ---------------------------------------------------------------------------------------

  const RUNNER_KINDS := {KGenerated, KValidated, KDeployed, KRejected}

  ghost predicate Sourced(s: State, correlation: string, kind: Kind) {
    exists i :: i in s.tasks && s.tasks[i].correlation == correlation && kind in s.tasks[i].log
  }

  ghost predicate AuditSourced(s: State) {
    forall c, kind :: (c, kind) in s.tables.audit && kind in RUNNER_KINDS ==> Sourced(s, c, kind)
  }

  lemma SourcedStays(s: State, s': State, c: string, kind: Kind)
    requires StateExtends(s, s') && Sourced(s, c, kind)
    ensures Sourced(s', c, kind)
  {
    var i :| i in s.tasks && s.tasks[i].correlation == c && kind in s.tasks[i].log;
    assert Continues(s.tasks[i], s'.tasks[i]);
    var m :| 0 <= m < |s.tasks[i].log| && s.tasks[i].log[m] == kind;
    assert s'.tasks[i].log[m] == kind;
  }

  /** Where a step's new runner row comes from. */
  lemma NewRowIsLogged(t: Tables, k: Task, e: Event, c: string, kind: Kind)
    requires Enabled(k, e) && (c, kind) !in t.audit && (c, kind) in StepTask(t, k, e).0.audit
    ensures var k' := StepTask(t, k, e).1; k'.correlation == c && kind in k'.log
  {
    if e.Proceeds? && WritesAudit(t, k) {
      AuditingStepIs(t, k, e);
    } else {
      UnauditedStep(t, k, e);
    }
  }

  lemma UnauditedStep(t: Tables, k: Task, e: Event)
    requires Enabled(k, e) && !(e.Proceeds? && WritesAudit(t, k))
    ensures StepTask(t, k, e).0.audit == t.audit
  {
  }

  lemma SourcedKeeps(s: State, a: Action, s': State)
    requires Inv(s) && Next(s, a, s') && AuditSourced(s)
    ensures AuditSourced(s')
  {
    StepExtends(s, a, s');
    forall c, kind | (c, kind) in s'.tables.audit && kind in RUNNER_KINDS
      ensures Sourced(s', c, kind)
    {
      if (c, kind) in s.tables.audit {
        SourcedStays(s, s', c, kind);
      } else {
        NewRowIsTaskDoing(s, a, s', c, kind);
        NewRowIsLogged(s.tables, s.tasks[a.task], a.event, c, kind);
        assert s'.tasks[a.task].correlation == c;
      }
    }
  }

  lemma NewRowIsTaskDoing(s: State, a: Action, s': State, c: string, kind: Kind)
    requires Next(s, a, s') && (c, kind) !in s.tables.audit && (c, kind) in s'.tables.audit && kind in RUNNER_KINDS
    ensures a.TaskDoes?
  {
    if a.WorkerDoes? {
      WorkerTables(s.tables, s.workers[a.worker], a.action);
    }
  }

  lemma {:induction false} RunIsSourced(states: seq<State>, actions: seq<Action>, n: nat)
    requires IsRun(states, actions) && n < |states|
    ensures AuditSourced(states[n])
    decreases n
  {
    if n > 0 {
      RunIsSourced(states, actions, n - 1);
      RunKeeps(states, actions, n - 1);
      SourcedKeeps(states[n - 1], actions[n - 1], states[n]);
    }
  }

  /** For a task whose correlation id no other task uses, the runner rows under that id are exactly
      the writes the task committed. */
  lemma AuditTrailIsExact(states: seq<State>, actions: seq<Action>, n: nat, i: nat, kind: Kind)
    requires IsRun(states, actions) && n < |states| && i in states[n].tasks && kind in RUNNER_KINDS
    requires forall j :: j in states[n].tasks && states[n].tasks[j].correlation == states[n].tasks[i].correlation ==> j == i
    ensures (states[n].tasks[i].correlation, kind) in states[n].tables.audit <==> kind in states[n].tasks[i].log
  {
    RunIsSourced(states, actions, n);
    RunKeeps(states, actions, n);
    var s, k := states[n], states[n].tasks[i];
    assert TaskOk(s, i);
    if (k.correlation, kind) in s.tables.audit {
      assert Sourced(s, k.correlation, kind);
    }
  }
}
