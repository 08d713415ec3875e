/**
 The feedback worker: one tick as the sequential program it is, and what a series of ticks achieves.
 */
module FeedbackWorker {
  import opened Prelude
  import opened Registry
  import opened Pipeline
  import opened Runtime
  import E = Evaluator

  // ----- one tick is a run of the protocol --------------------------------------------------------

  ghost predicate Works(t: Tables, w: Worker, actions: seq<WorkerAction>)
    decreases |actions|
  {
    actions == [] ||
    (WorkerEnabled(t, w, actions[0]) && var (t', w') := StepWorker(t, w, actions[0]); Works(t', w', actions[1..]))
  }

  ghost function Worked(t: Tables, w: Worker, actions: seq<WorkerAction>): (Tables, Worker)
    requires Works(t, w, actions)
    decreases |actions|
  {
    if actions == [] then (t, w)
    else var (t', w') := StepWorker(t, w, actions[0]); Worked(t', w', actions[1..])
  }

  /** One more action at the end of a run. */
  lemma {:induction false} WorksOn(t: Tables, w: Worker, actions: seq<WorkerAction>, a: WorkerAction)
    requires Works(t, w, actions) && var (t', w') := Worked(t, w, actions); WorkerEnabled(t', w', a)
    ensures Works(t, w, actions + [a])
    ensures Worked(t, w, actions + [a]) == var (t', w') := Worked(t, w, actions); StepWorker(t', w', a)
    decreases |actions|
  {
    if actions == [] {
      assert actions + [a] == [a] && [a][1..] == [];
      var (t', w') := StepWorker(t, w, a);
      assert Works(t', w', []);
    } else {
      assert (actions + [a])[1..] == actions[1..] + [a];
      var (t', w') := StepWorker(t, w, actions[0]);
      WorksOn(t', w', actions[1..], a);
    }
  }

  predicate Matches(o: Observation, row: DeploymentRow) {
    o.key == row.key && o.vehicle in row.scope
  }

  function MatchesIn(rows: seq<Observation>, row: DeploymentRow): nat {
    if rows == [] then 0 else (if Matches(rows[0], row) then 1 else 0) + MatchesIn(rows[1..], row)
  }

  lemma {:induction false} NoMatches(rows: seq<Observation>, row: DeploymentRow)
    ensures MatchesIn(rows, row) == 0 <==> forall o :: o in rows ==> !Matches(o, row)
  {
    if rows != [] {
      NoMatches(rows[1..], row);
      assert rows == [rows[0]] + rows[1..];
    }
  }

  /** `_collect_telemetry`: the policy's rows for vehicles in scope, newest first, up to 1000. */
  method CollectTelemetry(db: Database, row: DeploymentRow) returns (seen: seq<Observation>)
    ensures Collected(db.View(), row, seen)
    ensures |seen| == Min(1000, MatchesIn(db.telemetry, row)) && multiset(seen) <= multiset(db.telemetry)
  {
    seen := [];
    var i := |db.telemetry|;
    assert db.telemetry[..i] == db.telemetry;
    while i > 0 && |seen| < 1000
      invariant 0 <= i <= |db.telemetry| && |seen| <= 1000
      invariant forall o :: o in seen ==> o in db.telemetry && Matches(o, row)
      invariant |seen| == MatchesIn(db.telemetry[i..], row) && multiset(seen) <= multiset(db.telemetry[i..])
    {
      i := i - 1;
      var o := db.telemetry[i];
      assert db.telemetry[i..] == [o] + db.telemetry[i + 1..];
      if o.key == row.key && o.vehicle in row.scope {
        seen := seen + [o];
      }
    }
    Enough(db.telemetry, row, i);
    NoMatches(db.telemetry, row);
  }

  /** Later rows count among all rows. */
  lemma {:induction false} Enough(rows: seq<Observation>, row: DeploymentRow, i: nat)
    requires i <= |rows|
    ensures MatchesIn(rows[i..], row) <= MatchesIn(rows, row) && multiset(rows[i..]) <= multiset(rows)
    ensures i == 0 ==> rows[i..] == rows
  {
    if i > 0 {
      Enough(rows[1..], row, i - 1);
      assert rows[i..] == rows[1..][i - 1..] && rows == [rows[0]] + rows[1..];
    }
  }

  /** `_process` for one copied row. `fault(i)` makes the i-th await raise. The step counter of the
      protocol's worker goes along as `w`. */
  method Process(db: Database, w: Worker, outcomeId: string, now: int, fault: nat -> bool)
    returns (w': Worker, ok: bool, ghost actions: seq<WorkerAction>)
    requires w.step.NextRecord? && w.queue != []
    modifies db
    ensures Works(old(db.View()), w, actions) && Worked(old(db.View()), w, actions) == (db.View(), w')
    ensures db.policies == old(db.policies) && old(db.outcomes).Keys <= db.outcomes.Keys
    ensures if ok then w' == Worker(w.queue[1..], NextRecord) else w' == IDLE
    ensures ok ==> db.deployments == MarkExpired(old(db.View()), w.queue[0].0).deployments
    ensures !ok ==> db.deployments in {old(db.deployments), MarkExpired(old(db.View()), w.queue[0].0).deployments}
    ensures !ok ==>
      || outcomeId in old(db.outcomes)
      || Clash(db.View(), w.queue[0].1.key.tenant, w.queue[0].0, KOutcome)
      || exists i :: 0 <= i < 5 && fault(i)
  {
    ghost var t0 := db.View();
    var (id, row) := w.queue[0];
    var rest := w.queue[1..];
    actions := [];
    if fault(0) {
      actions := Aborted(t0, w, actions);
      return IDLE, false, actions;
    }
    WorksOn(t0, w, actions, Fetch);
    actions := actions + [Fetch];
    if row.key !in db.policies {
      WorksOn(t0, w, actions, Mark);
      actions := actions + [Mark];
      db.Expire(id);
      return Worker(rest, NextRecord), true, actions;
    }
    var policy := db.policies[row.key];
    if fault(1) {
      actions := Aborted(t0, w, actions);
      return IDLE, false, actions;
    }
    var seen := CollectTelemetry(db, row);
    WorksOn(t0, w, actions, Judge(seen));
    actions := actions + [Judge(seen)];
    var verdict := E.Evaluate(Values(seen), policy.threshold);
    var judged := Worker(rest, Judged(id, row, policy.findingId, verdict.state));
    assert Worked(t0, w, actions) == (db.View(), judged);
    w', ok, actions := Conclude(db, t0, w, actions, judged, outcomeId, now, fault);
  }

  /** An exception leaves the tick with nothing more committed. */
  lemma Aborted(t0: Tables, w: Worker, before: seq<WorkerAction>) returns (actions: seq<WorkerAction>)
    requires Works(t0, w, before)
    ensures Works(t0, w, actions) && Worked(t0, w, actions) == (Worked(t0, w, before).0, IDLE)
  {
    WorksOn(t0, w, before, Abort);
    actions := before + [Abort];
  }

  /** The writing half of `_process`: outcome, expiry, audit. */
  method Conclude(db: Database, ghost t0: Tables, ghost w0: Worker, ghost before: seq<WorkerAction>,
                  w: Worker, outcomeId: string, now: int, fault: nat -> bool)
    returns (w': Worker, ok: bool, ghost actions: seq<WorkerAction>)
    requires w.step.Judged? && w.step.row.key in db.policies
    requires Works(t0, w0, before) && Worked(t0, w0, before) == (db.View(), w)
    modifies db
    ensures Works(t0, w0, actions) && Worked(t0, w0, actions) == (db.View(), w')
    ensures db.policies == old(db.policies) && old(db.outcomes).Keys <= db.outcomes.Keys
    ensures if ok then w' == Worker(w.queue, NextRecord) else w' == IDLE
    ensures ok ==> db.deployments == MarkExpired(old(db.View()), w.step.id).deployments
    ensures !ok ==> db.deployments in {old(db.deployments), MarkExpired(old(db.View()), w.step.id).deployments}
    ensures !ok ==>
      || outcomeId in old(db.outcomes)
      || Clash(db.View(), w.step.row.key.tenant, w.step.id, KOutcome)
      || exists i :: 0 <= i < 5 && fault(i)
  {
    actions := before;
    var f := w.step;
    if fault(2) {
      actions := Aborted(t0, w0, actions);
      return IDLE, false, actions;
    }
    WorksOn(t0, w0, actions, StoreOutcome(outcomeId, now));
    actions := actions + [StoreOutcome(outcomeId, now)];
    var stored := db.StoreOutcomeRow(outcomeId, OutcomeRow(f.row.key, f.findingId, f.state, now));
    if !stored {
      return IDLE, false, actions;
    }
    if fault(3) {
      actions := Aborted(t0, w0, actions);
      return IDLE, false, actions;
    }
    WorksOn(t0, w0, actions, Mark);
    actions := actions + [Mark];
    db.Expire(f.id);
    if fault(4) {
      actions := Aborted(t0, w0, actions);
      return IDLE, false, actions;
    }
    WorksOn(t0, w0, actions, WriteOutcome);
    actions := actions + [WriteOutcome];
    var written := db.Audit(f.id, KOutcome, OutcomeEvent(f.row.key, f.findingId, outcomeId));
    if !written {
      return IDLE, false, actions;
    }
    return Worker(w.queue, NextRecord), true, actions;
  }

  lemma {:induction false} WorksConcat(t: Tables, w: Worker, a: seq<WorkerAction>, b: seq<WorkerAction>)
    requires Works(t, w, a) && var (t', w') := Worked(t, w, a); Works(t', w', b)
    ensures Works(t, w, a + b)
    ensures Worked(t, w, a + b) == var (t', w') := Worked(t, w, a); Worked(t', w', b)
    decreases |a|
  {
    if a == [] {
      assert a + b == b;
    } else {
      assert (a + b)[1..] == a[1..] + b;
      var (t', w') := StepWorker(t, w, a[0]);
      WorksConcat(t', w', a[1..], b);
    }
  }

  /** The deployments after the given rows have been marked. */
  function ExpireAll(deployments: map<string, DeploymentRow>, ids: seq<string>): map<string, DeploymentRow> {
    map d | d in deployments :: if d in ids then deployments[d].(status := Expired) else deployments[d]
  }

  lemma ExpireOneMore(deployments: map<string, DeploymentRow>, ids: seq<string>, i: nat, t: Tables)
    requires i < |ids| && ids[i] in deployments && deployments[ids[i]].key.tenant == SCAN_TENANT
    requires t.deployments == ExpireAll(deployments, ids[..i])
    ensures MarkExpired(t, ids[i]).deployments == ExpireAll(deployments, ids[..i + 1])
  {
    assert ids[..i + 1] == ids[..i] + [ids[i]];
  }

  /** `tick`: scan (its answer is `ids`), then process the copied rows in order; the first exception
      ends it. The method is a run of the protocol, and expires a prefix of the batch. */
  method Tick(db: Database, now: int, ids: seq<string>, outcomeId: nat -> string, at: int, fault: (nat, nat) -> bool)
    returns (processed: nat, raised: bool, ghost actions: seq<WorkerAction>)
    requires DueBatch(db.View(), now, ids)
    modifies db
    ensures Works(old(db.View()), IDLE, actions) && Worked(old(db.View()), IDLE, actions) == (db.View(), IDLE)
    ensures processed <= |ids| && (processed == |ids| <==> !raised)
    ensures raised ==>
      || outcomeId(processed) in db.outcomes
      || Clash(db.View(), SCAN_TENANT, ids[processed], KOutcome)
      || exists i :: 0 <= i < 5 && fault(processed, i)
    ensures db.deployments == ExpireAll(old(db.deployments), ids[..processed])
         || (raised && db.deployments == ExpireAll(old(db.deployments), ids[..processed + 1]))
  {
    ghost var t0 := db.View();
    var scanned := db.deployments;
    var copies := seq(|ids|, i requires 0 <= i < |ids| => (ids[i], scanned[ids[i]]));
    var w := Worker(copies, NextRecord);
    assert copies == Copies(t0, ids);
    WorksOn(t0, IDLE, [], Scan(now, ids));
    actions := [] + [Scan(now, ids)];
    processed := 0;
    while processed < |ids|
      invariant 0 <= processed <= |ids|
      invariant w == Worker(copies[processed..], NextRecord)
      invariant Works(t0, IDLE, actions) && Worked(t0, IDLE, actions) == (db.View(), w)
      invariant db.deployments == ExpireAll(t0.deployments, ids[..processed])
    {
      ExpireOneMore(t0.deployments, ids, processed, db.View());
      assert copies[processed..][0].0 == ids[processed];
      var w', ok;
      ghost var more;
      w', ok, more := Process(db, w, outcomeId(processed), at, (i: nat) => fault(processed, i));
      WorksConcat(t0, IDLE, actions, more);
      actions := actions + more;
      if !ok {
        return processed, true, actions;
      }
      assert copies[processed..][1..] == copies[processed + 1..];
      w := w';
      processed := processed + 1;
    }
    assert copies[processed..] == [];
    raised := false;
  }

  // ----- a series of ticks drains what was due ----------------------------------------------------------

  /** One fault-free tick, preceded by insertions of other deployments. */
  datatype Round = Round(inserted: map<string, DeploymentRow>, now: int, ids: seq<string>)

  function Ticked(deployments: map<string, DeploymentRow>, r: Round): map<string, DeploymentRow> {
    ExpireAll(deployments + r.inserted, r.ids)
  }

  /** Rows inserted while the backlog drains are new and expire after everything in it. */
  ghost predicate Later(deployments: map<string, DeploymentRow>, r: Round, horizon: int) {
    && r.inserted.Keys !! deployments.Keys
    && forall d :: d in r.inserted && r.inserted[d].expiresAt.Some? ==> r.inserted[d].expiresAt.value > horizon
  }

  ghost predicate Series(deployments: map<string, DeploymentRow>, rounds: seq<Round>, since: int, horizon: int)
    decreases |rounds|
  {
    rounds == [] ||
    (&& Later(deployments, rounds[0], horizon)
     && since <= rounds[0].now
     && DueIn(deployments + rounds[0].inserted, rounds[0].now, rounds[0].ids)
     && Series(Ticked(deployments, rounds[0]), rounds[1..], since, horizon))
  }

  function AfterRounds(deployments: map<string, DeploymentRow>, rounds: seq<Round>): map<string, DeploymentRow>
    decreases |rounds|
  {
    if rounds == [] then deployments else AfterRounds(Ticked(deployments, rounds[0]), rounds[1..])
  }

  /** The backlog: deployments due when the series starts. */
  ghost predicate Backlog(deployments: map<string, DeploymentRow>, ids: set<string>, since: int, horizon: int) {
    && horizon <= since
    && (forall d :: d in ids ==>
          d in deployments && deployments[d].key.tenant == SCAN_TENANT && deployments[d].expiresAt.Some?
          && deployments[d].expiresAt.value <= horizon && deployments[d].status in {Accepted, Expired})
    // everything else that could be scanned expires later than all of it
    && (forall d :: d in deployments && d !in ids && Due(deployments[d], horizon) ==> false)
  }

  function Waiting(deployments: map<string, DeploymentRow>, ids: set<string>): set<string> {
    set d | d in ids && d in deployments && deployments[d].status == Accepted
  }

  /** A row left behind by a batch means that the batch was full, and all of it older backlog. */
  lemma BatchIsBacklog(all: map<string, DeploymentRow>, now: int, batch: seq<string>, ids: set<string>, horizon: int, left: string)
    requires horizon <= now && DueIn(all, now, batch)
    requires left in all && Due(all[left], horizon) && left !in batch
    requires forall d :: d in all && Due(all[d], horizon) ==> d in ids
    ensures |batch| == SCAN_LIMIT
    ensures forall i :: 0 <= i < |batch| ==> batch[i] in Waiting(all, ids)
  {
    assert Due(all[left], now);
    forall i | 0 <= i < |batch|
      ensures batch[i] in Waiting(all, ids)
    {
      assert Due(all[batch[i]], now);
      assert all[batch[i]].expiresAt.value <= all[left].expiresAt.value;
      assert Due(all[batch[i]], horizon);
    }
  }

  /** What is waiting after a batch has been expired. */
  lemma BatchDrains(all: map<string, DeploymentRow>, now: int, batch: seq<string>, ids: set<string>, horizon: int)
    requires horizon <= now && DueIn(all, now, batch)
    requires forall d :: d in all && Due(all[d], horizon) ==> d in ids
    requires forall d :: d in Waiting(all, ids) ==> Due(all[d], horizon)
    ensures |Waiting(ExpireAll(all, batch), ids)| == Max(0, |Waiting(all, ids)| - SCAN_LIMIT)
  {
    var before := Waiting(all, ids);
    var taken := set d | d in batch;
    assert Waiting(ExpireAll(all, batch), ids) == before - taken;
    if left :| left in before && left !in batch {
      BatchIsBacklog(all, now, batch, ids, horizon, left);
      DistinctCount(batch, before);
    } else {
      assert before - taken == {};
      SubsetFits(before, batch);
    }
  }

  /** One tick either clears the backlog or takes a full batch out of it: nothing that became due
      later can push in front. */
  lemma RoundDrains(deployments: map<string, DeploymentRow>, r: Round, ids: set<string>, since: int, horizon: int)
    requires Backlog(deployments, ids, since, horizon) && Later(deployments, r, horizon) && since <= r.now
    requires DueIn(deployments + r.inserted, r.now, r.ids)
    ensures Backlog(Ticked(deployments, r), ids, since, horizon)
    ensures |Waiting(Ticked(deployments, r), ids)| == Max(0, |Waiting(deployments, ids)| - SCAN_LIMIT)
  {
    var all := deployments + r.inserted;
    assert Waiting(all, ids) == Waiting(deployments, ids);
    BatchDrains(all, r.now, r.ids, ids, horizon);
  }

  lemma {:induction false} RoundsDrain(deployments: map<string, DeploymentRow>, rounds: seq<Round>, ids: set<string>,
                                        since: int, horizon: int)
    requires Backlog(deployments, ids, since, horizon) && Series(deployments, rounds, since, horizon)
    ensures |Waiting(AfterRounds(deployments, rounds), ids)| == Max(0, |Waiting(deployments, ids)| - SCAN_LIMIT * |rounds|)
    ensures Backlog(AfterRounds(deployments, rounds), ids, since, horizon)
    decreases |rounds|
  {
    if rounds != [] {
      RoundDrains(deployments, rounds[0], ids, since, horizon);
      RoundsDrain(Ticked(deployments, rounds[0]), rounds[1..], ids, since, horizon);
    }
  }

  /** No starvation, and no slack: a backlog of n due deployments is expired completely after exactly
      ceil(n / 100) fault-free ticks, whatever else is inserted or becomes due meanwhile. */
  lemma BacklogDrains(deployments: map<string, DeploymentRow>, rounds: seq<Round>, ids: set<string>, since: int, horizon: int)
    requires Backlog(deployments, ids, since, horizon) && Series(deployments, rounds, since, horizon)
    requires Waiting(deployments, ids) == ids
    ensures (forall d :: d in ids ==>
               d in AfterRounds(deployments, rounds) && AfterRounds(deployments, rounds)[d].status == Expired)
       <==> SCAN_LIMIT * |rounds| >= |ids|
  {
    RoundsDrain(deployments, rounds, ids, since, horizon);
    NoneWaiting(AfterRounds(deployments, rounds), ids, since, horizon);
  }

  lemma NoneWaiting(deployments: map<string, DeploymentRow>, ids: set<string>, since: int, horizon: int)
    requires Backlog(deployments, ids, since, horizon)
    ensures |Waiting(deployments, ids)| == 0 <==> forall d :: d in ids ==> d in deployments && deployments[d].status == Expired
  {
    if |Waiting(deployments, ids)| == 0 {
      forall d | d in ids
        ensures deployments[d].status == Expired
      {
        assert d !in Waiting(deployments, ids);
      }
    } else {
      var d :| d in Waiting(deployments, ids);
    }
  }

  /** The deployments due at an instant are such a backlog. */
  lemma DueIsBacklog(deployments: map<string, DeploymentRow>, ids: set<string>, now: int)
    requires forall d :: d in ids <==> d in deployments && Due(deployments[d], now)
    ensures Backlog(deployments, ids, now, now) && Waiting(deployments, ids) == ids
  {
  }

  /** The other side of "one exception aborts the tick": a row that is strictly oldest heads every
      batch, so if processing it always raises before its expiry is marked, `Tick` never gets past it
      (its `processed` stays 0). */
  lemma OldestHeadsTheBatch(deployments: map<string, DeploymentRow>, now: int, ids: seq<string>, oldest: string)
    requires DueIn(deployments, now, ids) && oldest in deployments && Due(deployments[oldest], now)
    requires forall d :: d in deployments && d != oldest && Due(deployments[d], now) ==>
      deployments[oldest].expiresAt.value < deployments[d].expiresAt.value
    ensures ids != [] && ids[0] == oldest
  {
    if oldest !in ids {
      assert ids[0] in deployments;
    }
  }

  // ----- played actions are steps of the protocol ----------------------------------------------------------

  /** Any run can be continued by what a worker of it does. */
  lemma {:induction false} WorkedIsARun(states: seq<State>, actions: seq<Action>, j: nat, work: seq<WorkerAction>)
    returns (states': seq<State>, actions': seq<Action>)
    requires IsRun(states, actions) && j in states[|actions|].workers
    requires Works(states[|actions|].tables, states[|actions|].workers[j], work)
    ensures IsRun(states', actions') && states <= states' && actions <= actions'
    ensures var s, s' := states[|actions|], states'[|actions'|];
      j in s'.workers && (s'.tables, s'.workers[j]) == Worked(s.tables, s.workers[j], work) && s'.tasks == s.tasks
    decreases |work|
  {
    if work == [] {
      states', actions' := states, actions;
    } else {
      var s := states[|actions|];
      var (t', w') := StepWorker(s.tables, s.workers[j], work[0]);
      states', actions' := Then(states, actions, WorkerDoes(j, work[0]), s.(tables := t', workers := s.workers[j := w']));
      states', actions' := WorkedIsARun(states', actions', j, work[1..]);
    }
  }
}
