/**
 Outcome determination, from the simulator through the tables to the verdict.
 */
module Verdicts {
  import opened Registry
  import opened Pipeline
  import opened Prelude
  import opened Runtime
  import opened FeedbackWorker
  import E = Evaluator
  import G = PolicyGraph

  // ----- one simulation, judged ---------------------------------------------------------------------

  /** The samples as rows of the policy. */
  function Observations(key: PolicyKey, samples: seq<E.Sample>): (rows: seq<Observation>)
    ensures |rows| == |samples|
    ensures forall i :: 0 <= i < |samples| ==>
      rows[i] == Observation(key, samples[i].vehicle, samples[i].signal, samples[i].value)
  {
    seq(|samples|, i requires 0 <= i < |samples| => Observation(key, samples[i].vehicle, samples[i].signal, samples[i].value))
  }

  lemma EveryVehicleObserved(key: PolicyKey, scope: seq<string>, signals: seq<string>, threshold: real, directive: E.Directive,
                             samples: seq<E.Sample>, vehicle: string)
    requires E.IsSimulation(scope, signals, threshold, directive, samples) && directive != E.Starve
    requires signals != [] && vehicle in scope
    ensures Mentions(Observations(key, samples), key, vehicle)
  {
    var j :| 0 <= j < |scope| && scope[j] == vehicle;
    assert E.InRow(samples, scope[j], signals[0], 0);
    var r :| r in samples && r.vehicle == scope[j] && r.signal == signals[0] && r.second == 0;
    var i :| 0 <= i < |samples| && samples[i] == r;
    assert Observations(key, samples)[i] in Observations(key, samples);
  }

  lemma ObservedAsSimulated(key: PolicyKey, scope: seq<string>, signals: seq<string>, threshold: real, directive: E.Directive,
                            samples: seq<E.Sample>, o: Observation)
    requires E.IsSimulation(scope, signals, threshold, directive, samples) && o in Observations(key, samples)
    ensures o.key == key && o.vehicle in scope && E.Aligned(directive, threshold, o.value)
  {
    var i :| 0 <= i < |samples| && Observations(key, samples)[i] == o;
    assert samples[i] in samples;
  }

  /** What `simulate` produces is what the protocol lets a session insert. */
  lemma SimulationIsSimulated(k: Task, samples: seq<E.Sample>)
    requires Chosen(k)
    requires var spec := k.run.value.policy.spec; E.IsSimulation(spec.scope, spec.signals, spec.threshold, k.directive, samples)
    ensures Simulated(k, Observations(Key(k), samples))
  {
    var spec := k.run.value.policy.spec;
    var rows := Observations(Key(k), samples);
    forall o | o in rows
      ensures o.key == Key(k) && o.vehicle in spec.scope && E.Aligned(k.directive, spec.threshold, o.value)
    {
      ObservedAsSimulated(Key(k), spec.scope, spec.signals, spec.threshold, k.directive, samples, o);
    }
    if k.directive != E.Starve {
      forall v | v in spec.scope
        ensures Mentions(rows, Key(k), v)
      {
        EveryVehicleObserved(Key(k), spec.scope, spec.signals, spec.threshold, k.directive, samples, v);
      }
    }
  }

  /** `simulate` for a session: rows it may insert. */
  method SimulateTelemetry(k: Task, draw: nat -> real) returns (rows: seq<Observation>)
    requires Chosen(k) && forall n :: E.DrawInRange(k.directive, draw(n))
    ensures Simulated(k, rows)
  {
    var spec := k.run.value.policy.spec;
    var samples := E.Simulate(spec.scope, spec.signals, spec.threshold, k.directive, draw);
    SimulationIsSimulated(k, samples);
    rows := Observations(Key(k), samples);
  }

  /** Simulated once, stored, collected and judged against the stored threshold: the directive and the
      threshold alone decide, whatever else is in the table and whichever rows a limit leaves. */
  lemma OutcomeOfSimulation(t: Tables, d: DeploymentRow, signals: seq<string>, threshold: real, directive: E.Directive,
                            samples: seq<E.Sample>, seen: seq<Observation>)
    requires d.scope != [] && signals != [] && 0.0 <= threshold <= 1.0
    requires E.IsSimulation(d.scope, signals, threshold, directive, samples)
    requires forall o: Observation :: o.key == d.key ==> (o in t.telemetry <==> o in Observations(d.key, samples))
    requires Collected(t, d, seen)
    ensures E.Judge(Values(seen), E.Stored(threshold)) == E.Determined(directive, threshold)
  {
    var rows := Observations(d.key, samples);
    if directive == E.Starve {
      assert forall i :: 0 <= i < |seen| ==> seen[i] in seen;
    } else {
      EveryVehicleObserved(d.key, d.scope, signals, threshold, directive, samples, d.scope[0]);
      var o :| o in rows && o.key == d.key && o.vehicle == d.scope[0];
      assert o in t.telemetry && o.vehicle in d.scope;
      var values := Values(seen);
      forall i | 0 <= i < |values|
        ensures E.Aligned(directive, threshold, values[i])
      {
        assert seen[i] in seen;
        ObservedAsSimulated(d.key, d.scope, signals, threshold, directive, samples, seen[i]);
      }
      E.OutcomeDetermined(directive, threshold, values);
    }
  }

  // ----- deployments keep their policy's scope --------------------------------------------------------

  ghost predicate ScopeKept(s: State, id: string) {
    && id in s.tables.deployments && s.tables.deployments[id].key in s.owner
    && s.owner[s.tables.deployments[id].key] in s.tasks
    && var k := s.tasks[s.owner[s.tables.deployments[id].key]];
       Chosen(k) && s.tables.deployments[id].scope == k.run.value.policy.spec.scope
  }

  lemma NewDeployment(s: State, a: Action, s': State, id: string)
    requires Next(s, a, s') && id !in s.tables.deployments && id in s'.tables.deployments
    requires TasksOk(s)
    ensures ScopeKept(s', id)
  {
    match a
    case TaskDoes(i, e) => assert TaskOk(s, i); DeploymentOfTask(s.tables, s.tasks[i], e, id);
    case WorkerDoes(j, w) => WorkerTables(s.tables, s.workers[j], w);
    case _ =>
  }

  lemma DeploymentOfTask(t: Tables, k: Task, e: Event, id: string)
    requires Enabled(k, e) && id !in t.deployments && id in StepTask(t, k, e).0.deployments
    ensures var (t', k') := StepTask(t, k, e);
      && k.pc == ValidatedWritten && k'.pc == DeploymentStored && k'.run == k.run && Chosen(k')
      && t'.deployments[id].key == Key(k) && t'.deployments[id].scope == k.run.value.policy.spec.scope
  {
    assert e.Proceeds? && k.pc == ValidatedWritten;
  }

  lemma {:induction false} ScopesAreKept(states: seq<State>, actions: seq<Action>, n: nat, id: string)
    requires IsRun(states, actions) && n < |states| && id in states[n].tables.deployments
    ensures ScopeKept(states[n], id)
  {
    if n > 0 {
      if id in states[n - 1].tables.deployments {
        ScopesAreKept(states, actions, n - 1, id);
        NextTakesNothingBack(states, actions, n - 1);
        var i := states[n - 1].owner[states[n - 1].tables.deployments[id].key];
        assert Continues(states[n - 1].tasks[i], states[n].tasks[i]);
      } else {
        RunKeeps(states, actions, n - 1);
        NewDeployment(states[n - 1], actions[n - 1], states[n], id);
      }
    }
  }

  // ----- telemetry of a finished session ------------------------------------------------------------------

  /** The session went through to its last statement. */
  predicate Finished(k: Task) {
    k.pc == Done && k.log == CHAIN && Chosen(k)
  }

  ghost predicate ErasedBefore(actions: seq<Action>, n: nat, tenant: string, vehicle: string)
    requires n <= |actions|
  {
    exists m :: 0 <= m < n && actions[m] == ErasesTelemetry(tenant, vehicle)
  }

  /** Telemetry of the vehicle is there, unless it has been erased. */
  ghost predicate Supplied(states: seq<State>, actions: seq<Action>, n: nat, key: PolicyKey, vehicle: string)
    requires n < |states| && n <= |actions|
  {
    Mentions(states[n].tables.telemetry, key, vehicle) || ErasedBefore(actions, n, key.tenant, vehicle)
  }

  lemma StaysMentioned(s: State, a: Action, s': State, key: PolicyKey, vehicle: string)
    requires Next(s, a, s') && Mentions(s.tables.telemetry, key, vehicle)
    ensures Mentions(s'.tables.telemetry, key, vehicle) || a == ErasesTelemetry(key.tenant, vehicle)
  {
    var o :| o in s.tables.telemetry && o.key == key && o.vehicle == vehicle;
    match a
    case TaskDoes(i, e) => TelemetryOnlyGrows(s.tables, s.tasks[i], e); assert o in s'.tables.telemetry;
    case WorkerDoes(j, w) => WorkerTables(s.tables, s.workers[j], w);
    case ErasesTelemetry(tenant, v) => WithoutVehicleFrom(s.tables.telemetry, tenant, v);
    case _ =>
  }

  lemma TelemetryOnlyGrows(t: Tables, k: Task, e: Event)
    requires Enabled(k, e)
    ensures forall o :: o in t.telemetry ==> o in StepTask(t, k, e).0.telemetry
  {
  }

  /** The only way to finish is to insert the simulated rows. */
  lemma FinishInserts(t: Tables, k: Task, e: Event)
    requires Enabled(k, e) && LogOk(k) && Finished(StepTask(t, k, e).1)
    ensures k.pc == DeployedWritten && e.Proceeds?
    ensures StepTask(t, k, e) == (AddTelemetry(t, e.rows), k.(pc := Done))
  {
    var k' := StepTask(t, k, e).1;
    assert e.Proceeds?;
    assert k'.log[2] == KDeployed && |k'.log| == 3;
    assert k.pc != Failing;
  }

  lemma {:induction false} FinishedIsSupplied(states: seq<State>, actions: seq<Action>, n: nat, i: nat, vehicle: string)
    requires IsRun(states, actions) && n < |states| && i in states[n].tasks && Finished(states[n].tasks[i])
    requires states[n].tasks[i].directive != E.Starve && vehicle in states[n].tasks[i].run.value.policy.spec.scope
    ensures Supplied(states, actions, n, Key(states[n].tasks[i]), vehicle)
  {
    var key := Key(states[n].tasks[i]);
    var s, s' := states[n - 1], states[n];
    assert Next(s, actions[n - 1], s');
    if i in s.tasks && Finished(s.tasks[i]) {
      StillFinished(s, actions[n - 1], s', i);
      FinishedIsSupplied(states, actions, n - 1, i, vehicle);
      if Mentions(s.tables.telemetry, key, vehicle) {
        StaysMentioned(s, actions[n - 1], s', key, vehicle);
      }
    } else {
      RunKeeps(states, actions, n - 1);
      JustFinished(s, actions[n - 1], s', i);
      var rows := actions[n - 1].event.rows;
      assert Mentions(rows, key, vehicle);
      var o :| o in rows && o.key == key && o.vehicle == vehicle;
      assert o in s'.tables.telemetry;
    }
  }

  lemma StillFinished(s: State, a: Action, s': State, i: nat)
    requires Next(s, a, s') && i in s.tasks && Finished(s.tasks[i])
    ensures i in s'.tasks && s'.tasks[i] == s.tasks[i]
  {
  }

  lemma JustFinished(s: State, a: Action, s': State, i: nat)
    requires TasksOk(s) && Next(s, a, s') && i in s'.tasks && Finished(s'.tasks[i]) && !(i in s.tasks && Finished(s.tasks[i]))
    ensures a.TaskDoes? && a.task == i && i in s.tasks && a.event.Proceeds?
    ensures s'.tasks[i] == s.tasks[i].(pc := Done) && Chosen(s.tasks[i]) && Simulated(s.tasks[i], a.event.rows)
    ensures s'.tables == AddTelemetry(s.tables, a.event.rows)
  {
    assert a.TaskDoes? && a.task == i;
    assert TaskOk(s, i);
    FinishInserts(s.tables, s.tasks[i], a.event);
  }

  // ----- the verdict in runs ----------------------------------------------------------------------------------

  /** In every run: once a session has finished, a worker that judges its deployment reaches exactly the
      verdict that the session's directive and threshold determine, as long as the telemetry of one
      vehicle in its scope has never been erased. */
  lemma VerdictIsExact(states: seq<State>, actions: seq<Action>, n: nat, j: nat, seen: seq<Observation>, vehicle: string)
    requires IsRun(states, actions) && n < |actions| && actions[n] == WorkerDoes(j, Judge(seen))
    requires j in states[n].workers && states[n].workers[j].step.Fetched?
    requires var row := states[n].workers[j].step.row;
      && row.key in states[n].owner && states[n].owner[row.key] in states[n].tasks
      && Finished(states[n].tasks[states[n].owner[row.key]])
      && vehicle in states[n].tasks[states[n].owner[row.key]].run.value.policy.spec.scope
      && !ErasedBefore(actions, n, row.key.tenant, vehicle)
    ensures var k := states[n].tasks[states[n].owner[states[n].workers[j].step.row.key]];
      var w := states[n + 1].workers;
      j in w && w[j].step.Judged? && w[j].step.state == E.Determined(k.directive, k.run.value.policy.spec.threshold)
  {
    var s := states[n];
    var row := s.workers[j].step.row;
    AtJudging(states, actions, n, j, seen);
    if s.tasks[s.owner[row.key]].directive != E.Starve {
      FinishedIsSupplied(states, actions, n, s.owner[row.key], vehicle);
    }
    JudgedExactly(s, row, s.workers[j].step.policy.threshold, seen, vehicle);
  }

  /** What is known when a worker judges. */
  lemma AtJudging(states: seq<State>, actions: seq<Action>, n: nat, j: nat, seen: seq<Observation>)
    requires IsRun(states, actions) && n < |actions| && actions[n] == WorkerDoes(j, Judge(seen))
    requires j in states[n].workers && states[n].workers[j].step.Fetched?
    ensures var s, f := states[n], states[n].workers[j].step;
      && TelemetryOk(s) && OwnersOk(s) && Collected(s.tables, f.row, seen)
      && f.row.key in s.tables.policies && f.policy.threshold == s.tables.policies[f.row.key].threshold
      && Key(s.tasks[s.owner[f.row.key]]) == f.row.key
      && f.row.scope == s.tasks[s.owner[f.row.key]].run.value.policy.spec.scope
    ensures var w := states[n + 1].workers;
      j in w && w[j].step.Judged? && w[j].step.state == E.Judge(Values(seen), states[n].workers[j].step.policy.threshold)
  {
    var s := states[n];
    RunKeeps(states, actions, n);
    assert WorkerOk(s, s.workers[j]);
    ScopesAreKept(states, actions, n, s.workers[j].step.id);
    JudgingStep(s, j, seen, states[n + 1]);
  }

  lemma JudgingStep(s: State, j: nat, seen: seq<Observation>, s': State)
    requires Next(s, WorkerDoes(j, Judge(seen)), s')
    ensures Collected(s.tables, s.workers[j].step.row, seen)
    ensures j in s'.workers && s'.workers[j].step.Judged?
    ensures s'.workers[j].step.state == E.Judge(Values(seen), s.workers[j].step.policy.threshold)
  {
  }

  lemma JudgedExactly(s: State, row: DeploymentRow, threshold: real, seen: seq<Observation>, vehicle: string)
    requires TelemetryOk(s) && OwnersOk(s) && row.key in s.tables.policies && Collected(s.tables, row, seen)
    requires threshold == s.tables.policies[row.key].threshold && vehicle in row.scope
    requires s.tasks[s.owner[row.key]].directive != E.Starve ==> Mentions(s.tables.telemetry, row.key, vehicle)
    ensures var k := s.tasks[s.owner[row.key]];
      E.Judge(Values(seen), threshold) == E.Determined(k.directive, k.run.value.policy.spec.threshold)
  {
    JudgedIsPlausible(s, row, threshold, seen);
    if s.tasks[s.owner[row.key]].directive != E.Starve {
      MentionedIsSeen(s.tables, row, seen, vehicle);
    }
    if seen != [] {
      SeenIsFed(s, row, seen);
    }
  }

  lemma MentionedIsSeen(t: Tables, row: DeploymentRow, seen: seq<Observation>, vehicle: string)
    requires Collected(t, row, seen) && vehicle in row.scope && Mentions(t.telemetry, row.key, vehicle)
    ensures seen != []
  {
    var o :| o in t.telemetry && o.key == row.key && o.vehicle == vehicle;
  }

  lemma SeenIsFed(s: State, row: DeploymentRow, seen: seq<Observation>)
    requires TelemetryOk(s) && Collected(s.tables, row, seen) && seen != []
    ensures row.key in s.owner && s.owner[row.key] in s.tasks && s.tasks[s.owner[row.key]].directive != E.Starve
  {
    assert seen[0] in seen && seen[0] in s.tables.telemetry;
  }

  // ----- judged too early ---------------------------------------------------------------------------------------

  /** Telemetry of a policy is there only once its session has finished. */
  ghost predicate FedByFinished(s: State) {
    forall o :: o in s.tables.telemetry ==>
      o.key in s.owner && s.owner[o.key] in s.tasks && Finished(s.tasks[s.owner[o.key]])
  }

  lemma FedStep(s: State, a: Action, s': State)
    requires TasksOk(s) && Next(s, a, s') && StateExtends(s, s') && FedByFinished(s)
    ensures FedByFinished(s')
  {
    forall o | o in s'.tables.telemetry
      ensures o.key in s'.owner && s'.owner[o.key] in s'.tasks && Finished(s'.tasks[s'.owner[o.key]])
    {
      if o in s.tables.telemetry {
        StillFinished(s, a, s', s.owner[o.key]);
      } else {
        NewlyFed(s, a, s', o);
      }
    }
  }

  lemma NewlyFed(s: State, a: Action, s': State, o: Observation)
    requires TasksOk(s) && Next(s, a, s') && StateExtends(s, s') && o in s'.tables.telemetry && o !in s.tables.telemetry
    ensures o.key in s'.owner && s'.owner[o.key] in s'.tasks && Finished(s'.tasks[s'.owner[o.key]])
  {
    match a
    case TaskDoes(i, e) => assert TaskOk(s, i); FedByTask(s.tables, s.owner, i, s.tasks[i], e, o);
    case WorkerDoes(j, w) => WorkerTables(s.tables, s.workers[j], w);
    case ErasesTelemetry(tenant, v) => WithoutVehicleFrom(s.tables.telemetry, tenant, v);
    case _ =>
  }

  lemma FedByTask(t: Tables, owner: map<PolicyKey, nat>, i: nat, k: Task, e: Event, o: Observation)
    requires TaskAt(t, owner, i, k) && Enabled(k, e) && o !in t.telemetry && o in StepTask(t, k, e).0.telemetry
    ensures Finished(StepTask(t, k, e).1) && o.key in owner && owner[o.key] == i
  {
    assert e.Proceeds? && k.pc == DeployedWritten;
    assert o in e.rows;
  }

  lemma {:induction false} RunIsFed(states: seq<State>, actions: seq<Action>, n: nat)
    requires IsRun(states, actions) && n < |states|
    ensures FedByFinished(states[n])
  {
    if n > 0 {
      RunIsFed(states, actions, n - 1);
      RunKeeps(states, actions, n - 1);
      NextTakesNothingBack(states, actions, n - 1);
      FedStep(states[n - 1], actions[n - 1], states[n]);
    }
  }

  /** In every run: a worker that judges a deployment before its session has finished reaches no_data,
      whatever the directive. */
  lemma EarlyVerdictIsNoData(states: seq<State>, actions: seq<Action>, n: nat, j: nat, seen: seq<Observation>)
    requires IsRun(states, actions) && n < |actions| && actions[n] == WorkerDoes(j, Judge(seen))
    requires j in states[n].workers && states[n].workers[j].step.Fetched?
    requires var row := states[n].workers[j].step.row;
      row.key in states[n].owner && states[n].owner[row.key] in states[n].tasks && !Finished(states[n].tasks[states[n].owner[row.key]])
    ensures var w := states[n + 1].workers; j in w && w[j].step.Judged? && w[j].step.state == E.NoData
  {
    AtJudging(states, actions, n, j, seen);
    RunIsFed(states, actions, n);
    if seen != [] {
      SeenIsFinished(states[n], states[n].workers[j].step.row, seen);
    }
  }

  lemma SeenIsFinished(s: State, row: DeploymentRow, seen: seq<Observation>)
    requires FedByFinished(s) && Collected(s.tables, row, seen) && seen != []
    ensures row.key in s.owner && s.owner[row.key] in s.tasks && Finished(s.tasks[s.owner[row.key]])
  {
    assert seen[0] in seen;
  }

  /** And that is for good: an expired deployment stays expired and no scan returns it again. */
  lemma ExpiredForGood(states: seq<State>, actions: seq<Action>, m: nat, n: nat, id: string)
    requires IsRun(states, actions) && m <= n < |states|
    requires id in states[m].tables.deployments && states[m].tables.deployments[id].status == Expired
    ensures id in states[n].tables.deployments && states[n].tables.deployments[id].status == Expired
    ensures n < |actions| && actions[n].WorkerDoes? && actions[n].action.Scan? ==> id !in actions[n].action.ids
  {
    NothingIsTakenBack(states, actions, m, n);
    if n < |actions| {
      assert Next(states[n], actions[n], states[n + 1]);
    }
  }

  // ----- a run that is judged too early -----------------------------------------------------------------------------

  lemma WorksCons(t: Tables, w: Worker, a: WorkerAction, t1: Tables, w1: Worker, rest: seq<WorkerAction>)
    requires WorkerEnabled(t, w, a) && StepWorker(t, w, a) == (t1, w1) && Works(t1, w1, rest)
    ensures Works(t, w, [a] + rest) && Worked(t, w, [a] + rest) == Worked(t1, w1, rest)
  {
    assert ([a] + rest)[1..] == rest;
  }

  /** A tick over one due deployment of whose policy no telemetry is there. */
  lemma TickWithoutTelemetry(t: Tables, now: int, id: string, o: string) returns (work: seq<WorkerAction>, t': Tables)
    requires id in t.deployments && DueBatch(t, now, [id]) && t.deployments[id].key in t.policies && o !in t.outcomes
    requires forall x :: x in t.telemetry ==> x.key != t.deployments[id].key
    requires (id, KOutcome) !in t.audit
    ensures Works(t, IDLE, work) && Worked(t, IDLE, work) == (t', IDLE)
    ensures id in t'.deployments && t'.deployments[id] == t.deployments[id].(status := Expired)
    ensures o in t'.outcomes && t'.outcomes[o].key == t.deployments[id].key && t'.outcomes[o].state == E.NoData
  {
    var row := t.deployments[id];
    var policy := t.policies[row.key];
    var outcome := OutcomeRow(row.key, policy.findingId, E.NoData, now);
    var t1 := t.(outcomes := t.outcomes[o := outcome]);
    var t2 := MarkExpired(t1, id);
    t' := WriteAudit(t2, id, KOutcome, OutcomeEvent(row.key, policy.findingId, o));
    var rest := Concluded(t, t1, t2, t', id, row, policy, o, now);
    assert Copies(t, [id]) == [(id, row)];
    var w1 := Worker([(id, row)], NextRecord);
    assert [(id, row)][1..] == [];
    WorksCons(t, w1, Fetch, t, Worker([], Fetched(id, row, policy)), rest);
    WorksCons(t, IDLE, Scan(now, [id]), t, w1, [Fetch] + rest);
    work := [Scan(now, [id])] + ([Fetch] + rest);
  }

  lemma Concluded(t: Tables, t1: Tables, t2: Tables, t3: Tables, id: string, row: DeploymentRow, policy: PolicyRow, o: string, now: int)
    returns (rest: seq<WorkerAction>)
    requires row.key in t.policies && o !in t.outcomes && (id, KOutcome) !in t.audit && forall x :: x in t.telemetry ==> x.key != row.key
    requires t1 == t.(outcomes := t.outcomes[o := OutcomeRow(row.key, policy.findingId, E.NoData, now)]) && t2 == MarkExpired(t1, id)
    requires t3 == WriteAudit(t2, id, KOutcome, OutcomeEvent(row.key, policy.findingId, o))
    ensures var w := Worker([], Fetched(id, row, policy)); Works(t, w, rest) && Worked(t, w, rest) == (t3, IDLE)
  {
    var w3 := Worker([], Judged(id, row, policy.findingId, E.NoData));
    var w4 := Worker([], OutcomeStored(id, row, policy.findingId, o));
    var w5 := Worker([], Marked(id, row, policy.findingId, o));
    assert Works(t3, IDLE, []) && Worked(t3, IDLE, []) == (t3, IDLE);
    WorksCons(t2, w5, WriteOutcome, t3, IDLE, []);
    WorksCons(t1, w4, Mark, t2, w5, [WriteOutcome] + []);
    WorksCons(t, w3, StoreOutcome(o, now), t1, w4, [Mark] + ([WriteOutcome] + []));
    assert Values([]) == [];
    WorksCons(t, Worker([], Fetched(id, row, policy)), Judge([]), t, w3, [StoreOutcome(o, now)] + ([Mark] + ([WriteOutcome] + [])));
    rest := [Judge([])] + ([StoreOutcome(o, now)] + ([Mark] + ([WriteOutcome] + [])));
  }

  /** A session of the scan tenant whose graph deployed the policy, with a window that ends at once. */
  function Deployed(spec: PolicySpec, directive: E.Directive, c: string, id: string, now: int): Task {
    var row := DeploymentRow(KeyOf(SCAN_TENANT, spec), spec.scope, Accepted, Some(now));
    Task(SCAN_TENANT, c, c, spec.findingId, directive, Ran,
         Some(G.GraphRun(true, G.Fields(spec), Some(G.DeploymentRecord(id, row)), [], 1)), [])
  }

  /** Its first two statements, from an empty registry. */
  lemma PolicyWritten(spec: PolicySpec, k: Task, now: int) returns (events: seq<Event>, t: Tables, k': Task)
    requires SchemaOk(spec) && Chosen(k) && k.run.value.policy == G.Fields(spec) && k.tenant == SCAN_TENANT && k.pc == Ran && k.log == []
    ensures Playable(EMPTY, k, events) && Play(EMPTY, k, events) == (t, k')
    ensures k' == k.(pc := PolicyStored, log := [KGenerated])
    ensures t.policies.Keys == {Key(k)} && t == EMPTY.(policies := t.policies, audit := t.audit)
    ensures t.audit.Keys == {(k.correlation, KGenerated)} && t.audit[(k.correlation, KGenerated)].tenant == SCAN_TENANT
  {
    var w := AuditOf(k).value;
    var t1 := WriteAudit(EMPTY, k.correlation, w.kind, w.row);
    var k1 := k.(pc := GeneratedWritten, log := [KGenerated]);
    t := InsertPolicy(t1, SCAN_TENANT, spec, now).value;
    k' := k1.(pc := PolicyStored);
    PlayOne(EMPTY, k, Proceeds(now, []));
    assert k.log + [KGenerated] == [KGenerated];
    PlayMore(EMPTY, k, [Proceeds(now, [])], Proceeds(now, []), t1, k1);
    events := [Proceeds(now, [])] + [Proceeds(now, [])];
  }

  /** The next three: the deployment row is in, its telemetry is not. */
  lemma DeploymentWritten(t: Tables, k: Task, id: string, now: int) returns (events: seq<Event>, t': Tables, k': Task)
    requires Chosen(k) && k.tenant == SCAN_TENANT && k.pc == PolicyStored && k.log == [KGenerated]
    requires k.run.value.record.value.id == id && k.run.value.record.value.row.expiresAt == Some(now)
    requires t.policies.Keys == {Key(k)} && t == EMPTY.(policies := t.policies, audit := t.audit)
    requires t.audit.Keys == {(k.correlation, KGenerated)} && t.audit[(k.correlation, KGenerated)].tenant == SCAN_TENANT
    ensures Playable(t, k, events) && Play(t, k, events) == (t', k')
    ensures k' == k.(pc := DeployedWritten, log := CHAIN)
    ensures t' == t.(deployments := map[id := k.run.value.record.value.row], audit := t'.audit)
    ensures forall c, kind :: (c, kind) in t'.audit ==> kind != KOutcome
  {
    var e := Proceeds(now, []);
    var t1, k1 := Validated(t, k, now);
    var t2 := t1.(deployments := map[id := k.run.value.record.value.row]);
    var k2 := k1.(pc := DeploymentStored);
    assert StepTask(t1, k1, e) == (t2, k2);
    t', k' := DeploymentNoted(t2, k2, now);
    PlayOne(t, k, e);
    PlayMore(t, k, [e], e, t1, k1);
    PlayMore(t, k, [e] + [e], e, t2, k2);
    events := [e] + [e] + [e];
  }

  lemma Validated(t: Tables, k: Task, now: int) returns (t': Tables, k': Task)
    requires Chosen(k) && k.pc == PolicyStored && k.log == [KGenerated] && t.audit.Keys == {(k.correlation, KGenerated)}
    ensures StepTask(t, k, Proceeds(now, [])) == (t', k') && k' == k.(pc := ValidatedWritten, log := [KGenerated, KValidated])
    ensures t' == t.(audit := t'.audit) && t'.audit.Keys == {(k.correlation, KGenerated), (k.correlation, KValidated)}
  {
    AuditingStepIs(t, k, Proceeds(now, []));
    assert [KGenerated] + [KValidated] == [KGenerated, KValidated];
    t', k' := StepTask(t, k, Proceeds(now, [])).0, k.(pc := ValidatedWritten, log := [KGenerated, KValidated]);
  }

  lemma DeploymentNoted(t: Tables, k: Task, now: int) returns (t': Tables, k': Task)
    requires Chosen(k) && k.pc == DeploymentStored && k.log == [KGenerated, KValidated]
    requires t.audit.Keys == {(k.correlation, KGenerated), (k.correlation, KValidated)}
    ensures StepTask(t, k, Proceeds(now, [])) == (t', k') && k' == k.(pc := DeployedWritten, log := CHAIN)
    ensures t' == t.(audit := t'.audit) && forall c, kind :: (c, kind) in t'.audit ==> kind != KOutcome
  {
    AuditingStepIs(t, k, Proceeds(now, []));
    assert [KGenerated, KValidated] + [KDeployed] == CHAIN;
    t', k' := StepTask(t, k, Proceeds(now, [])).0, k.(pc := DeployedWritten, log := CHAIN);
  }

  /** The run itself, for any policy whose simulation would have decided it: the session deploys it, a
      worker scans it before the telemetry is in, and a no_data outcome and an expired deployment are
      left for good although the session then finishes. */
  lemma JudgedTooEarly(spec: PolicySpec, directive: E.Directive, c: string, id: string, o: string, now: int)
    returns (states: seq<State>, actions: seq<Action>)
    requires SchemaOk(spec) && directive != E.Starve
    ensures IsRun(states, actions)
    ensures var s := states[|actions|];
      && 0 in s.tasks && Finished(s.tasks[0]) && s.tasks[0].directive == directive
      && id in s.tables.deployments && s.tables.deployments[id].key == Key(s.tasks[0]) && s.tables.deployments[id].status == Expired
      && o in s.tables.outcomes && s.tables.outcomes[o].key == Key(s.tasks[0]) && s.tables.outcomes[o].state == E.NoData
    ensures E.Determined(directive, spec.threshold) != E.NoData
  {
    var k;
    states, actions, k := UpToTelemetry(spec, directive, c, id, now);
    var s := states[|actions|];
    var work, t := TickWithoutTelemetry(s.tables, now, id, o);
    states, actions := WorkedIsARun(states, actions, 0, work);
    states, actions := Finish(states, actions, k, now);
  }

  /** The session, up to its last statement, with an idle worker beside it. */
  lemma UpToTelemetry(spec: PolicySpec, directive: E.Directive, c: string, id: string, now: int)
    returns (states: seq<State>, actions: seq<Action>, k: Task)
    requires SchemaOk(spec)
    ensures IsRun(states, actions)
    ensures Chosen(k) && k.pc == DeployedWritten && k.log == CHAIN && k.directive == directive && k.tenant == SCAN_TENANT
    ensures var s := states[|actions|];
      && 0 in s.tasks && s.tasks[0] == k && 0 in s.workers && s.workers[0] == IDLE
      && s.tables.policies.Keys == {Key(k)} && s.tables.outcomes == map[] && s.tables.telemetry == []
      && s.tables.deployments == map[id := DeploymentRow(Key(k), spec.scope, Accepted, Some(now))]
      && (id, KOutcome) !in s.tables.audit && DueBatch(s.tables, now, [id])
  {
    var ran := Deployed(spec, directive, c, id, now);
    var start := ran.(pc := InGraph, run := None);
    var first, t1, k1 := PolicyWritten(spec, ran, now);
    var second, t2, k2 := DeploymentWritten(t1, k1, id, now);
    PlayConcat(EMPTY, ran, first, second);
    PlayCons(EMPTY, start, Returns(ran.run.value), first + second);
    k := k2;
    states, actions := Then([INITIAL], [], Hire(0), INITIAL.(workers := map[0 := IDLE]));
    states, actions := SessionIsARun(states, actions, 0, start, [Returns(ran.run.value)] + (first + second));
  }

  /** The last statement. */
  lemma Finish(states: seq<State>, actions: seq<Action>, k: Task, now: int) returns (states': seq<State>, actions': seq<Action>)
    requires IsRun(states, actions) && 0 in states[|actions|].tasks && states[|actions|].tasks[0] == k
    requires Chosen(k) && k.pc == DeployedWritten && k.log == CHAIN
    ensures IsRun(states', actions')
    ensures var s, s' := states[|actions|], states'[|actions'|];
      && s'.tables == s.tables.(telemetry := s'.tables.telemetry) && 0 in s'.tasks && s'.tasks[0] == k.(pc := Done) && Finished(s'.tasks[0])
  {
    var s := states[|actions|];
    var rows := SomeRows(k);
    states', actions' := Then(states, actions, TaskDoes(0, Proceeds(now, rows)),
                              s.(tables := AddTelemetry(s.tables, rows), tasks := s.tasks[0 := k.(pc := Done)]));
  }
}
