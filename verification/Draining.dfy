/**
 Non-starvation in runs of the protocol: the ticks of one worker drain a backlog of due deployments
 whatever the sessions, the other workers and the erasures do in between.
 */
module Draining {
  import opened Prelude
  import opened Registry
  import opened Pipeline
  import opened FeedbackWorker

  // ----- what a worker has in its hands -------------------------------------------------------------

  predicate HasUnmarked(w: Worker) {
    w.step.Fetched? || w.step.PolicyMissing? || w.step.Judged? || w.step.OutcomeStored?
  }

  /** Scanned rows that the worker has yet to mark. */
  function Hands(w: Worker): set<string> {
    (set i | 0 <= i < |w.queue| :: w.queue[i].0) + (if HasUnmarked(w) then {w.step.id} else {})
  }

  function Load(w: Worker): nat {
    |w.queue| + if HasUnmarked(w) then 1 else 0
  }

  /** The worker's action ends its tick early: an exception, a duplicate outcome id, or an outcome event
      whose key another tenant has taken. */
  ghost predicate Falters(t: Tables, w: Worker, a: WorkerAction)
    requires WorkerEnabled(t, w, a)
  {
    || a.Abort?
    || (a.StoreOutcome? &&
        InsertOutcome(t, a.outcomeId, OutcomeRow(w.step.row.key, w.step.findingId, w.step.state, a.now)).None?)
    || (a.WriteOutcome? && Clash(t, w.step.row.key.tenant, w.step.id, KOutcome))
  }

  lemma HandsOfFetch(w: Worker, w': Worker)
    requires w.step.NextRecord? && w.queue != [] && w'.queue == w.queue[1..] && HasUnmarked(w') && w'.step.id == w.queue[0].0
    ensures Hands(w') == Hands(w) && Load(w') == Load(w)
  {
    forall d
      ensures d in Hands(w') <==> d in Hands(w)
    {
      if i :| 0 <= i < |w'.queue| && w'.queue[i].0 == d {
        assert w.queue[i + 1].0 == d;
      }
      if i :| 0 < i < |w.queue| && w.queue[i].0 == d {
        assert w'.queue[i - 1].0 == d;
      }
    }
  }

  /** An action other than a scan takes out of the worker's hands only what it marks. */
  lemma HandsStep(t: Tables, w: Worker, a: WorkerAction)
    requires WorkerEnabled(t, w, a) && !a.Scan? && !Falters(t, w, a)
    ensures var (t', w') := StepWorker(t, w, a);
      if a.Mark? then Hands(w) == Hands(w') + {w.step.id} && Load(w) == Load(w') + 1
      else Hands(w') == Hands(w) && Load(w') == Load(w)
  {
    var w' := StepWorker(t, w, a).1;
    if a.Fetch? {
      HandsOfFetch(w, w');
    }
  }

  // ----- what is waiting ------------------------------------------------------------------------------

  ghost predicate OnlyExpires(deployments: map<string, DeploymentRow>, deployments': map<string, DeploymentRow>) {
    forall d :: d in deployments ==>
      && d in deployments'
      && deployments'[d] == deployments[d].(status := deployments'[d].status)
      && (deployments'[d].status == deployments[d].status || deployments'[d].status == Expired)
  }

  lemma WaitingShrinks(deployments: map<string, DeploymentRow>, deployments': map<string, DeploymentRow>, ids: set<string>)
    requires OnlyExpires(deployments, deployments') && ids <= deployments.Keys
    ensures Waiting(deployments', ids) <= Waiting(deployments, ids)
  {
  }

  lemma BacklogStays(deployments: map<string, DeploymentRow>, deployments': map<string, DeploymentRow>, ids: set<string>,
                     since: int, horizon: int)
    requires Backlog(deployments, ids, since, horizon) && OnlyExpires(deployments, deployments')
    requires forall d :: d in deployments' && d !in deployments ==> !Due(deployments'[d], horizon)
    ensures Backlog(deployments', ids, since, horizon)
  {
  }

  lemma MarkWaiting(t: Tables, id: string, ids: set<string>, since: int, horizon: int)
    requires Backlog(t.deployments, ids, since, horizon)
    ensures Waiting(MarkExpired(t, id).deployments, ids) == Waiting(t.deployments, ids) - {id}
  {
  }

  /** Of the backlog, what waits and is not in the worker's hands. */
  function Loose(deployments: map<string, DeploymentRow>, w: Worker, ids: set<string>): set<string> {
    set d | d in Waiting(deployments, ids) && d !in Hands(w)
  }

  /** How much would wait if the worker marked all it holds, at least. */
  function Rest(deployments: map<string, DeploymentRow>, w: Worker, ids: set<string>): int {
    |Waiting(deployments, ids)| - Load(w)
  }

  lemma IdleHands(deployments: map<string, DeploymentRow>, ids: set<string>)
    ensures Hands(IDLE) == {} && Load(IDLE) == 0
    ensures Loose(deployments, IDLE, ids) == Waiting(deployments, ids) && Rest(deployments, IDLE, ids) == |Waiting(deployments, ids)|
  {
  }

  lemma HandsOfScan(t: Tables, batch: seq<string>)
    requires forall i :: 0 <= i < |batch| ==> batch[i] in t.deployments
    ensures var w := Worker(Copies(t, batch), NextRecord);
      Hands(w) == (set d | d in batch) && Load(w) == |batch|
  {
    var w := Worker(Copies(t, batch), NextRecord);
    forall d
      ensures d in Hands(w) <==> d in batch
    {
      if d in batch {
        var i :| 0 <= i < |batch| && batch[i] == d;
        assert w.queue[i].0 == d;
      }
    }
  }

  lemma WaitingWithout(deployments: map<string, DeploymentRow>, batch: seq<string>, ids: set<string>)
    ensures Waiting(ExpireAll(deployments, batch), ids) == Waiting(deployments, ids) - (set d | d in batch)
  {
  }

  /** A scan takes a full batch of the backlog into the worker's hands, or all of it. */
  lemma ScanTakes(t: Tables, now: int, batch: seq<string>, ids: set<string>, since: int, horizon: int)
    requires Backlog(t.deployments, ids, since, horizon) && since <= now && DueBatch(t, now, batch)
    ensures var w := Worker(Copies(t, batch), NextRecord);
      && |Loose(t.deployments, w, ids)| == Max(0, |Loose(t.deployments, IDLE, ids)| - SCAN_LIMIT)
      && Rest(t.deployments, w, ids) >= Rest(t.deployments, IDLE, ids) - SCAN_LIMIT
  {
    IdleHands(t.deployments, ids);
    HandsOfScan(t, batch);
    WaitingWithout(t.deployments, batch, ids);
    assert Loose(t.deployments, Worker(Copies(t, batch), NextRecord), ids) == Waiting(ExpireAll(t.deployments, batch), ids);
    BatchDrains(t.deployments, now, batch, ids, horizon);
  }

  lemma LessOne<T>(s: set<T>, x: T)
    ensures |s| - 1 <= |s - {x}| <= |s|
  {
    if x !in s {
      assert s - {x} == s;
    }
  }

  /** Any other action leaves the count of what is out of hand as it is. */
  lemma WorkKeeps(t: Tables, w: Worker, a: WorkerAction, ids: set<string>, since: int, horizon: int)
    requires WorkerEnabled(t, w, a) && !a.Scan? && !Falters(t, w, a) && Backlog(t.deployments, ids, since, horizon)
    ensures var (t', w') := StepWorker(t, w, a);
      Loose(t'.deployments, w', ids) == Loose(t.deployments, w, ids) && Rest(t'.deployments, w', ids) >= Rest(t.deployments, w, ids)
  {
    HandsStep(t, w, a);
    if a.Mark? {
      MarkKeeps(t, w, StepWorker(t, w, a).1, ids, since, horizon);
    } else {
      WorkerTables(t, w, a);
    }
  }

  lemma MarkKeeps(t: Tables, w: Worker, w': Worker, ids: set<string>, since: int, horizon: int)
    requires HasUnmarked(w) && Hands(w) == Hands(w') + {w.step.id} && Load(w) == Load(w') + 1
    requires Backlog(t.deployments, ids, since, horizon)
    ensures var t' := MarkExpired(t, w.step.id);
      Loose(t'.deployments, w', ids) == Loose(t.deployments, w, ids) && Rest(t'.deployments, w', ids) >= Rest(t.deployments, w, ids)
  {
    MarkWaiting(t, w.step.id, ids, since, horizon);
    LessOne(Waiting(t.deployments, ids), w.step.id);
    LooseAfterMark(t.deployments, MarkExpired(t, w.step.id).deployments, w, w', ids);
  }

  lemma LooseAfterMark(deployments: map<string, DeploymentRow>, deployments': map<string, DeploymentRow>, w: Worker, w': Worker,
                       ids: set<string>)
    requires HasUnmarked(w) && Hands(w) == Hands(w') + {w.step.id}
    requires Waiting(deployments', ids) == Waiting(deployments, ids) - {w.step.id}
    ensures Loose(deployments', w', ids) == Loose(deployments, w, ids)
  {
  }

  // ----- runs --------------------------------------------------------------------------------------------

  predicate IsScan(a: Action, j: nat) {
    a.WorkerDoes? && a.worker == j && a.action.Scan?
  }

  /** Ticks of the worker that start between two points of a run. */
  function Ticks(actions: seq<Action>, j: nat, m: nat, n: nat): nat
    requires m <= n <= |actions|
    decreases n
  {
    if m == n then 0 else Ticks(actions, j, m, n - 1) + if IsScan(actions[n - 1], j) then 1 else 0
  }

  /** A step at which the worker does not falter, scans as of no earlier instant than `since`, and no
      deployment that is due by `horizon` is inserted. */
  ghost predicate Smooth(s: State, a: Action, s': State, j: nat, since: int, horizon: int) {
    && (a.WorkerDoes? && a.worker == j && j in s.workers && WorkerEnabled(s.tables, s.workers[j], a.action) ==>
          !Falters(s.tables, s.workers[j], a.action) && (a.action.Scan? ==> since <= a.action.now))
    && (forall d :: d in s'.tables.deployments && d !in s.tables.deployments ==> !Due(s'.tables.deployments[d], horizon))
  }

  /** Only this worker marks deployments. */
  predicate MarksAlone(a: Action, j: nat) {
    a.WorkerDoes? && a.action.Mark? ==> a.worker == j
  }

  lemma StepOnlyExpires(s: State, a: Action, s': State)
    requires Next(s, a, s') && StateExtends(s, s')
    ensures OnlyExpires(s.tables.deployments, s'.tables.deployments)
  {
  }

  lemma BystanderStep(s: State, a: Action, s': State, j: nat, ids: set<string>)
    requires Next(s, a, s') && StateExtends(s, s') && j in s.workers && !(a.WorkerDoes? && a.worker == j)
    requires ids <= s.tables.deployments.Keys
    ensures j in s'.workers && s'.workers[j] == s.workers[j]
    ensures Waiting(s'.tables.deployments, ids) <= Waiting(s.tables.deployments, ids)
    ensures MarksAlone(a, j) ==> Waiting(s'.tables.deployments, ids) == Waiting(s.tables.deployments, ids)
  {
    StepOnlyExpires(s, a, s');
    WaitingShrinks(s.tables.deployments, s'.tables.deployments, ids);
    if MarksAlone(a, j) {
      UnmarkedStays(s, a, s', ids);
    }
  }

  lemma UnmarkedStays(s: State, a: Action, s': State, ids: set<string>)
    requires Next(s, a, s') && !(a.WorkerDoes? && a.action.Mark?) && ids <= s.tables.deployments.Keys
    ensures Waiting(s'.tables.deployments, ids) == Waiting(s.tables.deployments, ids)
  {
    match a
    case TaskDoes(i, e) => TaskLeavesDeployments(s.tables, s.tasks[i], e);
    case WorkerDoes(j, w) => WorkerTables(s.tables, s.workers[j], w);
    case _ =>
  }

  lemma TaskLeavesDeployments(t: Tables, k: Task, e: Event)
    requires Enabled(k, e)
    ensures forall d :: d in t.deployments ==>
      d in StepTask(t, k, e).0.deployments && StepTask(t, k, e).0.deployments[d] == t.deployments[d]
  {
    if !(e.Proceeds? && k.pc == ValidatedWritten) {
      assert StepTask(t, k, e).0.deployments == t.deployments;
    }
  }

  lemma SubsetSize<T>(a: set<T>, b: set<T>)
    requires a <= b
    ensures |a| <= |b|
  {
    assert b == a + (b - a);
  }

  ghost predicate SmoothRun(states: seq<State>, actions: seq<Action>, j: nat, m: nat, n: nat, since: int, horizon: int) {
    && IsRun(states, actions) && m <= n < |states| && j in states[m].workers && states[m].workers[j] == IDLE
    && forall l :: m <= l < n ==> Smooth(states[l], actions[l], states[l + 1], j, since, horizon)
  }

  /** One step of anybody. */
  lemma DrainsStep(s: State, a: Action, s': State, j: nat, ids: set<string>, since: int, horizon: int)
    requires Next(s, a, s') && StateExtends(s, s') && j in s.workers && Smooth(s, a, s', j, since, horizon)
    requires Backlog(s.tables.deployments, ids, since, horizon)
    ensures j in s'.workers
    ensures Counted(s, a, s', j, ids)
  {
    if a.WorkerDoes? && a.worker == j {
      OwnCounted(s, a.action, s', j, ids, since, horizon);
    } else {
      BystanderStep(s, a, s', j, ids);
      SubsetSize(LooseAt(s', j, ids), LooseAt(s, j, ids));
    }
  }

  lemma OwnCounted(s: State, a: WorkerAction, s': State, j: nat, ids: set<string>, since: int, horizon: int)
    requires Next(s, WorkerDoes(j, a), s') && Backlog(s.tables.deployments, ids, since, horizon)
    requires !Falters(s.tables, s.workers[j], a) && (a.Scan? ==> since <= a.now)
    ensures j in s'.workers && Counted(s, WorkerDoes(j, a), s', j, ids)
  {
    if a.Scan? {
      ScanTakes(s.tables, a.now, a.ids, ids, since, horizon);
    } else {
      WorkKeeps(s.tables, s.workers[j], a, ids, since, horizon);
    }
  }

  function LooseAt(s: State, j: nat, ids: set<string>): set<string>
    requires j in s.workers
  {
    Loose(s.tables.deployments, s.workers[j], ids)
  }

  function RestAt(s: State, j: nat, ids: set<string>): int
    requires j in s.workers
  {
    Rest(s.tables.deployments, s.workers[j], ids)
  }

  /** Counts before and after a step. */
  ghost predicate Counted(s: State, a: Action, s': State, j: nat, ids: set<string>)
    requires j in s.workers && j in s'.workers
  {
    && |LooseAt(s', j, ids)| <= (if IsScan(a, j) then Max(0, |LooseAt(s, j, ids)| - SCAN_LIMIT) else |LooseAt(s, j, ids)|)
    && (MarksAlone(a, j) ==> RestAt(s', j, ids) >= RestAt(s, j, ids) - (if IsScan(a, j) then SCAN_LIMIT else 0))
  }

  lemma StepBacklog(s: State, a: Action, s': State, j: nat, ids: set<string>, since: int, horizon: int)
    requires Next(s, a, s') && StateExtends(s, s') && Smooth(s, a, s', j, since, horizon) && j in s.workers
    requires Backlog(s.tables.deployments, ids, since, horizon)
    ensures j in s'.workers && Backlog(s'.tables.deployments, ids, since, horizon)
  {
    StepOnlyExpires(s, a, s');
    BacklogStays(s.tables.deployments, s'.tables.deployments, ids, since, horizon);
  }

  lemma RunStep(states: seq<State>, actions: seq<Action>, j: nat, m: nat, l: nat, n: nat, since: int, horizon: int)
    requires SmoothRun(states, actions, j, m, n, since, horizon) && m <= l < n
    ensures Next(states[l], actions[l], states[l + 1]) && Smooth(states[l], actions[l], states[l + 1], j, since, horizon)
  {
  }

  /** One more action in the count of ticks. */
  lemma CountTick(total: nat, ticks: nat, scans: bool, before: nat, after: nat)
    requires before <= Max(0, total - SCAN_LIMIT * ticks)
    requires after <= if scans then Max(0, before - SCAN_LIMIT) else before
    ensures after <= Max(0, total - SCAN_LIMIT * (ticks + if scans then 1 else 0))
  {
  }

  lemma BacklogAt(states: seq<State>, actions: seq<Action>, j: nat, m: nat, l: nat, n: nat, ids: set<string>, since: int, horizon: int)
    requires SmoothRun(states, actions, j, m, n, since, horizon) && m <= l < n && j in states[l].workers
    requires Backlog(states[l].tables.deployments, ids, since, horizon)
    ensures j in states[l + 1].workers && Backlog(states[l + 1].tables.deployments, ids, since, horizon)
  {
    RunStep(states, actions, j, m, l, n, since, horizon);
    NextTakesNothingBack(states, actions, l);
    StepBacklog(states[l], actions[l], states[l + 1], j, ids, since, horizon);
  }

  lemma CountedAt(states: seq<State>, actions: seq<Action>, j: nat, m: nat, l: nat, n: nat, ids: set<string>, since: int, horizon: int)
    requires SmoothRun(states, actions, j, m, n, since, horizon) && m <= l < n && j in states[l].workers
    requires Backlog(states[l].tables.deployments, ids, since, horizon)
    ensures j in states[l + 1].workers && Counted(states[l], actions[l], states[l + 1], j, ids)
  {
    RunStep(states, actions, j, m, l, n, since, horizon);
    NextTakesNothingBack(states, actions, l);
    DrainsStep(states[l], actions[l], states[l + 1], j, ids, since, horizon);
  }

  ghost predicate HasBacklog(s: State, j: nat, ids: set<string>, since: int, horizon: int) {
    j in s.workers && Backlog(s.tables.deployments, ids, since, horizon)
  }

  lemma {:induction false} BacklogPersists(states: seq<State>, j: nat, m: nat, l: nat, n: nat, ids: set<string>, since: int, horizon: int)
    requires m <= l <= n < |states| && HasBacklog(states[m], j, ids, since, horizon)
    requires forall i :: m <= i < n && HasBacklog(states[i], j, ids, since, horizon) ==> HasBacklog(states[i + 1], j, ids, since, horizon)
    ensures HasBacklog(states[l], j, ids, since, horizon)
    decreases l
  {
    if m < l {
      var i := l - 1;
      BacklogPersists(states, j, m, i, n, ids, since, horizon);
      assert HasBacklog(states[i + 1], j, ids, since, horizon);
    }
  }

  lemma BacklogAlong(states: seq<State>, actions: seq<Action>, j: nat, m: nat, l: nat, n: nat, ids: set<string>, since: int, horizon: int)
    requires SmoothRun(states, actions, j, m, n, since, horizon) && m <= l <= n
    requires Backlog(states[m].tables.deployments, ids, since, horizon)
    ensures HasBacklog(states[l], j, ids, since, horizon)
  {
    forall i | m <= i < n && HasBacklog(states[i], j, ids, since, horizon)
      ensures HasBacklog(states[i + 1], j, ids, since, horizon)
    {
      BacklogAt(states, actions, j, m, i, n, ids, since, horizon);
    }
    BacklogPersists(states, j, m, l, n, ids, since, horizon);
  }

  ghost predicate CountedRun(states: seq<State>, actions: seq<Action>, j: nat, m: nat, n: nat, ids: set<string>) {
    && m <= n < |states| && |states| == |actions| + 1
    && (forall l :: m <= l <= n ==> j in states[l].workers)
    && (forall l :: m <= l < n ==> Counted(states[l], actions[l], states[l + 1], j, ids))
  }

  lemma CountedThrough(states: seq<State>, actions: seq<Action>, j: nat, m: nat, n: nat, ids: set<string>, since: int, horizon: int)
    requires SmoothRun(states, actions, j, m, n, since, horizon) && Backlog(states[m].tables.deployments, ids, since, horizon)
    ensures CountedRun(states, actions, j, m, n, ids)
  {
    forall l | m <= l <= n
      ensures j in states[l].workers
      ensures l < n ==> j in states[l + 1].workers && Counted(states[l], actions[l], states[l + 1], j, ids)
    {
      BacklogAlong(states, actions, j, m, l, n, ids, since, horizon);
      if l < n {
        CountedAt(states, actions, j, m, l, n, ids, since, horizon);
      }
    }
  }

  lemma {:induction false} Shrinks(counts: seq<nat>, actions: seq<Action>, j: nat, m: nat, n: nat)
    requires m <= n < |counts| == |actions| + 1
    requires forall l :: m <= l < n ==> counts[l + 1] <= if IsScan(actions[l], j) then Max(0, counts[l] - SCAN_LIMIT) else counts[l]
    ensures counts[n] <= Max(0, counts[m] - SCAN_LIMIT * Ticks(actions, j, m, n))
    decreases n
  {
    if m < n {
      var l := n - 1;
      Shrinks(counts, actions, j, m, l);
      CountTick(counts[m], Ticks(actions, j, m, l), IsScan(actions[l], j), counts[l], counts[l + 1]);
    }
  }

  lemma {:induction false} Resists(counts: seq<int>, actions: seq<Action>, j: nat, m: nat, n: nat)
    requires m <= n < |counts| == |actions| + 1
    requires forall l :: m <= l < n ==> counts[l + 1] >= counts[l] - if IsScan(actions[l], j) then SCAN_LIMIT else 0
    ensures counts[n] >= counts[m] - SCAN_LIMIT * Ticks(actions, j, m, n)
    decreases n
  {
    if m < n {
      var l := n - 1;
      Resists(counts, actions, j, m, l);
      assert counts[l + 1] >= counts[l] - if IsScan(actions[l], j) then SCAN_LIMIT else 0;
    }
  }

  /** What is loose goes at least as fast, and the rest at most as fast, as the ticks take it. */
  lemma DrainsAlong(states: seq<State>, actions: seq<Action>, j: nat, m: nat, n: nat, ids: set<string>)
    requires CountedRun(states, actions, j, m, n, ids)
    ensures |LooseAt(states[n], j, ids)| <= Max(0, |LooseAt(states[m], j, ids)| - SCAN_LIMIT * Ticks(actions, j, m, n))
  {
    var counts := seq(|states|, i requires 0 <= i < |states| =>
      if j in states[i].workers then |LooseAt(states[i], j, ids)| else 0);
    forall l | m <= l < n
      ensures counts[l + 1] <= if IsScan(actions[l], j) then Max(0, counts[l] - SCAN_LIMIT) else counts[l]
    {
      assert Counted(states[l], actions[l], states[l + 1], j, ids);
    }
    Shrinks(counts, actions, j, m, n);
  }

  lemma RestAlong(states: seq<State>, actions: seq<Action>, j: nat, m: nat, n: nat, ids: set<string>)
    requires CountedRun(states, actions, j, m, n, ids) && forall l :: m <= l < n ==> MarksAlone(actions[l], j)
    ensures RestAt(states[n], j, ids) >= RestAt(states[m], j, ids) - SCAN_LIMIT * Ticks(actions, j, m, n)
  {
    var counts := seq(|states|, i requires 0 <= i < |states| =>
      if j in states[i].workers then RestAt(states[i], j, ids) else 0);
    forall l | m <= l < n
      ensures counts[l + 1] >= counts[l] - if IsScan(actions[l], j) then SCAN_LIMIT else 0
    {
      assert Counted(states[l], actions[l], states[l + 1], j, ids);
    }
    Resists(counts, actions, j, m, n);
  }

  /** What waits after the ticks between two points at which the worker is idle. */
  lemma WaitingAfter(states: seq<State>, actions: seq<Action>, j: nat, m: nat, n: nat, ids: set<string>)
    requires CountedRun(states, actions, j, m, n, ids) && states[m].workers[j] == IDLE && states[n].workers[j] == IDLE
    ensures |Waiting(states[n].tables.deployments, ids)|
         <= Max(0, |Waiting(states[m].tables.deployments, ids)| - SCAN_LIMIT * Ticks(actions, j, m, n))
    ensures (forall l :: m <= l < n ==> MarksAlone(actions[l], j)) ==>
      |Waiting(states[n].tables.deployments, ids)| >= |Waiting(states[m].tables.deployments, ids)| - SCAN_LIMIT * Ticks(actions, j, m, n)
  {
    DrainsAlong(states, actions, j, m, n, ids);
    if forall l :: m <= l < n ==> MarksAlone(actions[l], j) {
      RestAlong(states, actions, j, m, n, ids);
    }
    IdleHands(states[m].tables.deployments, ids);
    IdleHands(states[n].tables.deployments, ids);
  }

  predicate AllExpired(deployments: map<string, DeploymentRow>, ids: set<string>) {
    forall d :: d in ids ==> d in deployments && deployments[d].status == Expired
  }

  lemma Drained(states: seq<State>, actions: seq<Action>, j: nat, m: nat, n: nat, ids: set<string>, since: int, horizon: int)
    requires CountedRun(states, actions, j, m, n, ids) && HasBacklog(states[n], j, ids, since, horizon)
    requires Waiting(states[m].tables.deployments, ids) == ids && states[m].workers[j] == IDLE && states[n].workers[j] == IDLE
    ensures SCAN_LIMIT * Ticks(actions, j, m, n) >= |ids| ==> AllExpired(states[n].tables.deployments, ids)
    ensures (forall l :: m <= l < n ==> MarksAlone(actions[l], j)) ==>
      (AllExpired(states[n].tables.deployments, ids) <==> SCAN_LIMIT * Ticks(actions, j, m, n) >= |ids|)
  {
    WaitingAfter(states, actions, j, m, n, ids);
    NoneWaiting(states[n].tables.deployments, ids, since, horizon);
  }

  /** No starvation, in every run: a backlog of n due deployments is expired once a worker has finished
      ceil(n / 100) ticks without an exception, whatever everybody else does meanwhile and whatever is
      inserted to become due later. If no other worker helps, it takes exactly that many. */
  lemma TicksDrainBacklog(states: seq<State>, actions: seq<Action>, j: nat, m: nat, n: nat, ids: set<string>,
                          since: int, horizon: int)
    requires SmoothRun(states, actions, j, m, n, since, horizon)
    requires Backlog(states[m].tables.deployments, ids, since, horizon) && Waiting(states[m].tables.deployments, ids) == ids
    requires j in states[n].workers && states[n].workers[j] == IDLE
    ensures SCAN_LIMIT * Ticks(actions, j, m, n) >= |ids| ==> AllExpired(states[n].tables.deployments, ids)
    ensures (forall l :: m <= l < n ==> MarksAlone(actions[l], j)) ==>
      (AllExpired(states[n].tables.deployments, ids) <==> SCAN_LIMIT * Ticks(actions, j, m, n) >= |ids|)
  {
    CountedThrough(states, actions, j, m, n, ids, since, horizon);
    BacklogAlong(states, actions, j, m, n, n, ids, since, horizon);
    Drained(states, actions, j, m, n, ids, since, horizon);
  }
}
