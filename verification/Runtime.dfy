/**
 The runner as the sequential program it is, over a database object whose methods are the
 repository's transactions. It is proved to be a run of the protocol in `Pipeline`, so everything
 proved there about interleavings holds of it.
 */
module Runtime {
  import opened Prelude
  import opened Registry
  import opened Pipeline
  import G = PolicyGraph
  import E = Evaluator
  import L = Lineage

  class Database {
    var policies: map<PolicyKey, PolicyRow>
    var deployments: map<string, DeploymentRow>
    var outcomes: map<string, OutcomeRow>
    var audit: map<(string, Kind), AuditRow>
    var telemetry: seq<Observation>

    constructor ()
      ensures View() == EMPTY
    {
      policies, deployments, outcomes, audit, telemetry := map[], map[], map[], map[], [];
    }

    ghost function View(): Tables
      reads this
    {
      Tables(policies, deployments, outcomes, audit, telemetry)
    }

    method StorePolicy(tenant: string, p: PolicySpec, now: int) returns (ok: bool)
      modifies this`policies
      ensures ok <==> InsertPolicy(old(View()), tenant, p, now).Some?
      ensures View() == if ok then InsertPolicy(old(View()), tenant, p, now).value else old(View())
    {
      var key := KeyOf(tenant, p);
      if key in policies || p.scope == [] || p.signals == [] {
        return false;
      }
      policies := policies[key := PolicyRow(p.signals, p.scope, E.Stored(p.threshold), p.findingId, now)];
      return true;
    }

    method StoreDeployment(id: string, row: DeploymentRow) returns (ok: bool)
      modifies this`deployments
      ensures ok <==> InsertDeployment(old(View()), id, row).Some?
      ensures View() == if ok then InsertDeployment(old(View()), id, row).value else old(View())
    {
      if id in deployments || row.key !in policies || row.scope == [] {
        return false;
      }
      deployments := deployments[id := row];
      return true;
    }

    method StoreOutcomeRow(id: string, row: OutcomeRow) returns (ok: bool)
      modifies this`outcomes
      ensures ok <==> InsertOutcome(old(View()), id, row).Some?
      ensures View() == if ok then InsertOutcome(old(View()), id, row).value else old(View())
    {
      if id in outcomes || row.key !in policies {
        return false;
      }
      outcomes := outcomes[id := row];
      return true;
    }

    /** First writer wins; the writer raises if that was another tenant. */
    method Audit(correlation: string, kind: Kind, row: AuditRow) returns (ok: bool)
      modifies this`audit
      ensures ok <==> !Clash(old(View()), row.tenant, correlation, kind)
      ensures View() == WriteAudit(old(View()), correlation, kind, row)
      ensures ok ==> (correlation, kind) in audit && audit[(correlation, kind)].tenant == row.tenant
    {
      if (correlation, kind) !in audit {
        audit := audit[(correlation, kind) := row];
        return true;
      }
      return audit[(correlation, kind)].tenant == row.tenant;
    }

    method Expire(id: string)
      modifies this`deployments
      ensures View() == MarkExpired(old(View()), id)
    {
      if id in deployments && deployments[id].key.tenant == SCAN_TENANT {
        deployments := deployments[id := deployments[id].(status := Expired)];
      }
    }

    method Observe(rows: seq<Observation>)
      modifies this`telemetry
      ensures View() == AddTelemetry(old(View()), rows)
    {
      telemetry := telemetry + rows;
    }
  }

  // ----- GraphRunner -----------------------------------------------------------------------------

  /** `n` statements of `_run` in a row, from `k`; a rejected statement ends them. */
  ghost function After(t: Tables, k: Task, now: int, rows: seq<Observation>, n: nat): (Tables, Task)
    decreases n
  {
    if n == 0 || !Active(k.pc) || !Enabled(k, Proceeds(now, rows)) then (t, k)
    else
      var (t', k') := Proceed(t, k, now, rows);
      After(t', k', now, rows, n - 1)
  }

  /** One statement, and those after it. */
  lemma OneStatement(t: Tables, k: Task, now: int, rows: seq<Observation>, t': Tables, k': Task, n: nat)
    requires Active(k.pc) && Enabled(k, Proceeds(now, rows)) && Proceed(t, k, now, rows) == (t', k')
    ensures After(t, k, now, rows, n + 1) == After(t', k', now, rows, n)
  {
  }

  /** `_run` after the graph has returned. `fault(i)` makes the i-th await raise instead of
      committing. `steps` counts the statements that committed. */
  method RunBody(db: Database, k: Task, now: int, rows: seq<Observation>, fault: nat -> bool)
    returns (k': Task, raised: bool, ghost steps: nat)
    requires k.pc == Ran && k.run.Some? && G.WellFormedRun(k.tenant, k.run.value)
    requires Chosen(k) ==> Simulated(k, rows)
    modifies db
    ensures (db.View(), k') == After(old(db.View()), k, now, rows, steps)
    ensures !raised ==> k'.pc == Done || k'.pc == RejectedWritten
    // without faults, it raises because the database rejected something, or in its first statement
    ensures raised && (forall i :: !fault(i)) ==> k'.pc == (if G.HasIds(k.run.value.policy) then Failing else Ran)
    ensures raised ==> k'.pc !in {InGraph, Done, Crashed}
    ensures !G.HasIds(k.run.value.policy) ==> raised && k' == k && db.View() == old(db.View())
  {
    ghost var t0 := db.View();
    var run := k.run.value;
    k', steps := k, 0;
    if fault(0) || !G.HasIds(run.policy) {
      return k', true, steps;
    }
    var ok := db.Audit(k.correlation, KGenerated, RowOf(k, Some(G.RefOf(k.tenant, run.policy)), None));
    if !ok {
      k' := Thrown(k);
      OneStatement(t0, k, now, rows, db.View(), k', 0);
      return k', true, 1;
    }
    k' := k'.(pc := GeneratedWritten, log := k'.log + [KGenerated]);
    ghost var t1, k1 := db.View(), k';
    OneStatement(t0, k, now, rows, t1, k1, 0);
    if fault(1) {
      return k', true, 1;
    }
    if !run.completed {
      ok := db.Audit(k.correlation, KRejected, RejectedRow(k, L.ValidationFailed(run.errors)));
      k' := if ok then k'.(pc := RejectedWritten, log := k'.log + [KRejected]) else Thrown(k');
      OneStatement(t1, k1, now, rows, db.View(), k', 0);
      OneStatement(t0, k, now, rows, t1, k1, 1);
      return k', !ok, 2;
    }
    k', raised, steps := Persist(db, k', now, rows, fault);
    OneStatement(t0, k, now, rows, t1, k1, steps);
    steps := steps + 1;
  }

  /** The registry part of `_run`: policy, audit, deployment, audit, telemetry. */
  method Persist(db: Database, k: Task, now: int, rows: seq<Observation>, fault: nat -> bool)
    returns (k': Task, raised: bool, ghost steps: nat)
    requires k.pc == GeneratedWritten && Chosen(k) && Simulated(k, rows)
    modifies db
    ensures (db.View(), k') == After(old(db.View()), k, now, rows, steps)
    ensures !raised ==> k'.pc == Done
    ensures raised && (forall i :: !fault(i)) ==> k'.pc == Failing
    ensures raised ==> k'.pc !in {InGraph, Done, Crashed}
  {
    ghost var t0 := db.View();
    var spec := k.run.value.policy.spec;
    var stored := db.StorePolicy(k.tenant, spec, now);
    if !stored {
      k' := k.(pc := Failing);
      OneStatement(t0, k, now, rows, db.View(), k', 0);
      return k', true, 1;
    }
    k' := k.(pc := PolicyStored);
    ghost var t1, k1 := db.View(), k';
    OneStatement(t0, k, now, rows, t1, k1, 0);
    if fault(2) {
      return k', true, 1;
    }
    var ok := db.Audit(k.correlation, KValidated, RowOf(k, Some(Key(k)), None));
    k' := if ok then k'.(pc := ValidatedWritten, log := k'.log + [KValidated]) else Thrown(k');
    ghost var t2, k2 := db.View(), k';
    OneStatement(t1, k1, now, rows, t2, k2, 0);
    OneStatement(t0, k, now, rows, t1, k1, 1);
    if !ok || fault(3) {
      return k', true, 2;
    }
    k', raised, steps := PersistDeployment(db, k', now, rows, fault);
    OneStatement(t1, k1, now, rows, t2, k2, steps);
    OneStatement(t0, k, now, rows, t1, k1, steps + 1);
    steps := steps + 2;
  }

  method PersistDeployment(db: Database, k: Task, now: int, rows: seq<Observation>, fault: nat -> bool)
    returns (k': Task, raised: bool, ghost steps: nat)
    requires k.pc == ValidatedWritten && Chosen(k) && Simulated(k, rows)
    modifies db
    ensures (db.View(), k') == After(old(db.View()), k, now, rows, steps)
    ensures !raised ==> k'.pc == Done
    ensures raised && (forall i :: !fault(i)) ==> k'.pc == Failing
    ensures raised ==> k'.pc !in {InGraph, Done, Crashed}
  {
    ghost var t0 := db.View();
    var record := k.run.value.record.value;
    var stored := db.StoreDeployment(record.id, record.row);
    if !stored {
      k' := k.(pc := Failing);
      OneStatement(t0, k, now, rows, db.View(), k', 0);
      return k', true, 1;
    }
    k' := k.(pc := DeploymentStored);
    ghost var t1, k1 := db.View(), k';
    OneStatement(t0, k, now, rows, t1, k1, 0);
    if fault(4) {
      return k', true, 1;
    }
    var ok := db.Audit(k.correlation, KDeployed, RowOf(k, Some(Key(k)), Some(record.id)));
    k' := if ok then k'.(pc := DeployedWritten, log := k'.log + [KDeployed]) else Thrown(k');
    ghost var t2, k2 := db.View(), k';
    OneStatement(t1, k1, now, rows, t2, k2, 0);
    OneStatement(t0, k, now, rows, t1, k1, 1);
    if !ok || fault(5) {
      return k', true, 2;
    }
    db.Observe(rows);
    k' := k'.(pc := Done);
    OneStatement(t2, k2, now, rows, db.View(), k', 0);
    OneStatement(t1, k1, now, rows, t2, k2, 1);
    OneStatement(t0, k, now, rows, t1, k1, 2);
    return k', false, 3;
  }

  /** A sequence of events of the protocol, played on the tables and a task. */
  ghost predicate Playable(t: Tables, k: Task, events: seq<Event>)
    decreases |events|
  {
    events == [] ||
    (Enabled(k, events[0]) && var (t', k') := StepTask(t, k, events[0]); Playable(t', k', events[1..]))
  }

  ghost function Play(t: Tables, k: Task, events: seq<Event>): (Tables, Task)
    requires Playable(t, k, events)
    decreases |events|
  {
    if events == [] then (t, k)
    else var (t', k') := StepTask(t, k, events[0]); Play(t', k', events[1..])
  }

  lemma {:induction false} PlayConcat(t: Tables, k: Task, a: seq<Event>, b: seq<Event>)
    requires Playable(t, k, a) && var (t', k') := Play(t, k, a); Playable(t', k', b)
    ensures Playable(t, k, a + b)
    ensures Play(t, k, a + b) == var (t', k') := Play(t, k, a); Play(t', k', b)
    decreases |a|
  {
    if a == [] {
      assert a + b == b;
    } else {
      assert (a + b)[1..] == a[1..] + b;
      var (t', k') := StepTask(t, k, a[0]);
      PlayConcat(t', k', a[1..], b);
    }
  }

  lemma PlayOne(t: Tables, k: Task, e: Event)
    requires Enabled(k, e)
    ensures Playable(t, k, [e]) && Play(t, k, [e]) == StepTask(t, k, e)
  {
    assert [e][1..] == [];
    var (t', k') := StepTask(t, k, e);
    assert Playable(t', k', []);
  }

  /** Nothing is thrown and nobody dies. */
  ghost predicate Calm(events: seq<Event>) {
    forall i :: 0 <= i < |events| ==> events[i].Returns? || events[i].Proceeds?
  }

  lemma PlayCons(t: Tables, k: Task, e: Event, rest: seq<Event>)
    requires Enabled(k, e) && var (t', k') := StepTask(t, k, e); Playable(t', k', rest)
    ensures Playable(t, k, [e] + rest)
    ensures Play(t, k, [e] + rest) == var (t', k') := StepTask(t, k, e); Play(t', k', rest)
  {
    assert ([e] + rest)[1..] == rest;
  }

  /** The statements of `_run` are events of the protocol. */
  lemma {:induction false} AfterIsPlayed(t: Tables, k: Task, now: int, rows: seq<Observation>, n: nat)
    returns (events: seq<Event>)
    ensures Playable(t, k, events) && Play(t, k, events) == After(t, k, now, rows, n)
    ensures Calm(events)
    decreases n
  {
    if n == 0 || !Active(k.pc) || !Enabled(k, Proceeds(now, rows)) {
      events := [];
    } else {
      var e := Proceeds(now, rows);
      var (t', k') := Proceed(t, k, now, rows);
      var rest := AfterIsPlayed(t', k', now, rows, n - 1);
      OneStatement(t, k, now, rows, t', k', n - 1);
      PlayCons(t, k, e, rest);
      events := [e] + rest;
    }
  }

  /** `run_async`: the body under its exception handler. `outcome` is what the graph thread returns,
      `None` when it raises; `handlerFault` makes the handler's own audit write raise. The method is a
      run of the protocol's events from a freshly spawned task. */
  method RunAsync(db: Database, tenant: string, correlation: string, session: string, findingId: string, directive: E.Directive,
                  outcome: Option<G.GraphRun>, now: int, rows: seq<Observation>, fault: nat -> bool, handlerFault: bool)
    returns (end: Task, ghost events: seq<Event>)
    requires outcome.Some? ==> G.WellFormedRun(tenant, outcome.value)
    requires var k := Task(tenant, correlation, session, findingId, directive, Ran, outcome, []); Chosen(k) ==> Simulated(k, rows)
    modifies db
    ensures var start := Task(tenant, correlation, session, findingId, directive, InGraph, None, []);
      Playable(old(db.View()), start, events) && Play(old(db.View()), start, events) == (db.View(), end)
    ensures end.pc == Done || end.pc == Crashed
    ensures end.pc == Crashed ==> handlerFault || Clash(db.View(), tenant, correlation, KRejected)
    // without faults nothing is thrown exactly when the last draft has both identifiers
    ensures outcome.Some? && (forall i :: !fault(i)) && !handlerFault ==>
      (Calm(events) <==> G.HasIds(outcome.value.policy))
    // without them all that is left of the run is the runner's own error
    ensures outcome.Some? && !G.HasIds(outcome.value.policy) && !handlerFault ==>
      db.View() == WriteAudit(old(db.View()), correlation, KRejected, RejectedRow(end, L.RUNNER_ERROR))
  {
    ghost var t0 := db.View();
    var start := Task(tenant, correlation, session, findingId, directive, InGraph, None, []);
    if outcome.None? {
      events, end := Handle(db, start, handlerFault, start, t0, []);
      return;
    }
    var raised;
    end, raised, events := Attempt(db, start, outcome.value, now, rows, fault);
    if raised {
      events, end := Handle(db, end, handlerFault, start, t0, events);
    }
  }

  /** The `try` block of `run_async`, once the graph has returned. */
  method Attempt(db: Database, start: Task, run: G.GraphRun, now: int, rows: seq<Observation>, fault: nat -> bool)
    returns (end: Task, raised: bool, ghost events: seq<Event>)
    requires start.pc == InGraph && start.run.None? && G.WellFormedRun(start.tenant, run)
    requires var k := start.(pc := Ran, run := Some(run)); Chosen(k) ==> Simulated(k, rows)
    modifies db
    ensures Playable(old(db.View()), start, events) && Play(old(db.View()), start, events) == (db.View(), end)
    ensures Calm(events) && RejectedRow(end, L.RUNNER_ERROR) == RejectedRow(start, L.RUNNER_ERROR)
    ensures end.tenant == start.tenant && end.correlation == start.correlation
    ensures if raised then end.pc !in {Done, Crashed} else end.pc == Done
    ensures raised && (forall i :: !fault(i)) ==> end.pc == (if G.HasIds(run.policy) then Failing else Ran)
    ensures !G.HasIds(run.policy) ==> raised && end.pc == Ran && db.View() == old(db.View())
  {
    ghost var t0 := db.View();
    var k := start.(pc := Ran, run := Some(run));
    ghost var steps;
    end, raised, steps := RunBody(db, k, now, rows, fault);
    ghost var body := AfterIsPlayed(t0, k, now, rows, steps);
    PlayCons(t0, start, Returns(run), body);
    events := [Returns(run)] + body;
    RunKept(t0, start, events);
    if !raised && end.pc == RejectedWritten {
      PlayMore(t0, start, events, Proceeds(now, rows), db.View(), end);
      events := events + [Proceeds(now, rows)];
      end := end.(pc := Done);
    }
  }

  /** Runs of events keep what `run_async` knows of its task. */
  lemma {:induction false} RunKept(t: Tables, k: Task, events: seq<Event>)
    requires Playable(t, k, events) && (k.run.Some? ==> G.WellFormedRun(k.tenant, k.run.value))
    requires k.pc !in {InGraph, Failing, Crashed, Done} ==> k.run.Some?
    ensures var end := Play(t, k, events).1;
      && (end.run.Some? ==> G.WellFormedRun(end.tenant, end.run.value))
      && (end.pc !in {InGraph, Failing, Crashed, Done} ==> end.run.Some?)
      && end.tenant == k.tenant && end.correlation == k.correlation && end.session == k.session && end.findingId == k.findingId
    decreases |events|
  {
    if events != [] {
      var (t', k') := StepTask(t, k, events[0]);
      RunKept(t', k', events[1..]);
    }
  }

  /** The exception handler of `run_async`. */
  method Handle(db: Database, k: Task, handlerFault: bool, ghost start: Task, ghost t0: Tables, ghost before: seq<Event>)
    returns (ghost events: seq<Event>, end: Task)
    requires k.pc !in {Done, Crashed}
    requires Playable(t0, start, before) && Play(t0, start, before) == (db.View(), k)
    modifies db
    ensures Playable(t0, start, events) && Play(t0, start, events) == (db.View(), end)
    ensures end.pc == if handlerFault || Clash(db.View(), k.tenant, k.correlation, KRejected) then Crashed else Done
    ensures db.View() == if handlerFault then old(db.View())
                         else WriteAudit(old(db.View()), k.correlation, KRejected, RejectedRow(k, L.RUNNER_ERROR))
    ensures RejectedRow(end, L.RUNNER_ERROR) == RejectedRow(k, L.RUNNER_ERROR)
    ensures Calm(before) && !handlerFault ==> (Calm(events) <==> k.pc == Failing)
  {
    ghost var t := db.View();
    var failing := k.(pc := Failing);
    events := Caught(t0, start, before, t, k);
    if handlerFault {
      PlayMore(t0, start, events, Throws, t, failing);
      events := events + [Throws];
      end := failing.(pc := Crashed);
    } else {
      PlayMore(t0, start, events, Proceeds(0, []), t, failing);
      events := events + [Proceeds(0, [])];
      var ok := db.Audit(k.correlation, KRejected, RejectedRow(k, L.RUNNER_ERROR));
      end := if ok then failing.(pc := Done, log := failing.log + [KRejected]) else Thrown(failing);
    }
  }

  /** The exception reaches the handler, thrown or by a rejected statement. */
  lemma Caught(t0: Tables, start: Task, before: seq<Event>, t: Tables, k: Task) returns (events: seq<Event>)
    requires Playable(t0, start, before) && Play(t0, start, before) == (t, k) && k.pc !in {Done, Crashed}
    ensures Playable(t0, start, events) && Play(t0, start, events) == (t, k.(pc := Failing))
    ensures Calm(events) <==> Calm(before) && k.pc == Failing
  {
    if k.pc == Failing {
      events := before;
    } else {
      PlayMore(t0, start, before, Throws, t, k);
      events := before + [Throws];
    }
  }

  /** One more event. */
  lemma PlayMore(t0: Tables, start: Task, before: seq<Event>, e: Event, t: Tables, k: Task)
    requires Playable(t0, start, before) && Play(t0, start, before) == (t, k) && Enabled(k, e)
    ensures Playable(t0, start, before + [e]) && Play(t0, start, before + [e]) == StepTask(t, k, e)
    ensures Calm(before + [e]) <==> Calm(before) && (e.Returns? || e.Proceeds?)
  {
    PlayOne(t, k, e);
    PlayConcat(t0, start, before, [e]);
    var after := before + [e];
    assert after[|before|] == e && forall i :: 0 <= i < |before| ==> after[i] == before[i];
  }

  /** Played events are steps of the protocol: any run can be continued by them. */
  lemma {:induction false} PlayedIsARun(states: seq<State>, actions: seq<Action>, i: nat, events: seq<Event>)
    returns (states': seq<State>, actions': seq<Action>)
    requires IsRun(states, actions) && i in states[|actions|].tasks
    requires Playable(states[|actions|].tables, states[|actions|].tasks[i], events)
    ensures IsRun(states', actions') && states <= states' && actions <= actions' && |actions'| == |actions| + |events|
    ensures var s, s' := states[|actions|], states'[|actions'|];
      i in s'.tasks && (s'.tables, s'.tasks[i]) == Play(s.tables, s.tasks[i], events) && s'.workers == s.workers
    decreases |events|
  {
    if events == [] {
      states', actions' := states, actions;
    } else {
      var s := states[|actions|];
      var (t', k') := StepTask(s.tables, s.tasks[i], events[0]);
      var owner := if k'.pc == PolicyStored && s.tasks[i].pc != PolicyStored && Chosen(k') then s.owner[Key(k') := i] else s.owner;
      states', actions' := Then(states, actions, TaskDoes(i, events[0]), s.(tables := t', tasks := s.tasks[i := k'], owner := owner));
      states', actions' := PlayedIsARun(states', actions', i, events[1..]);
    }
  }

  /** What `RunAsync` does from the tables of any run is a continuation of that run by a new session. */
  lemma SessionIsARun(states: seq<State>, actions: seq<Action>, i: nat, start: Task, events: seq<Event>)
    returns (states': seq<State>, actions': seq<Action>)
    requires IsRun(states, actions) && i !in states[|actions|].tasks
    requires start.pc == InGraph && start.run.None? && start.log == []
    requires Playable(states[|actions|].tables, start, events)
    ensures IsRun(states', actions') && states <= states' && actions <= actions'
    ensures var s' := states'[|actions'|];
      && i in s'.tasks && (s'.tables, s'.tasks[i]) == Play(states[|actions|].tables, start, events)
      && s'.workers == states[|actions|].workers
  {
    var s := states[|actions|];
    states', actions' := Then(states, actions,
      Spawn(i, start.tenant, start.correlation, start.session, start.findingId, start.directive), s.(tasks := s.tasks[i := start]));
    states', actions' := PlayedIsARun(states', actions', i, events);
  }

  /** A dead letter whose last draft has no identifiers: the runner's first statement cannot be
      executed, no generated row is written, and the rejected row says nothing of the validation. */
  lemma NamelessDraftIsNotExplained(t: Tables, k: Task, errors: seq<G.ValidationError>, attempts: nat, now: int, rows: seq<Observation>)
    requires k.pc == Ran && k.run == Some(G.GraphRun(false, G.Malformed(None), None, errors, attempts))
    ensures !Enabled(k, Proceeds(now, rows))
    ensures Playable(t, k, [Throws, Proceeds(0, [])])
    ensures Play(t, k, [Throws, Proceeds(0, [])]).0 == WriteAudit(t, k.correlation, KRejected, RejectedRow(k, L.RUNNER_ERROR))
    ensures L.NamedInvalid(RejectedRow(k, L.RUNNER_ERROR).finding) == None
  {
    PlayOne(t, k, Throws);
    PlayMore(t, k, [Throws], Proceeds(0, []), t, k.(pc := Failing));
    assert [Throws] + [Proceeds(0, [])] == [Throws, Proceeds(0, [])];
  }
}
