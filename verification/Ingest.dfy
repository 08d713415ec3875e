/**
 POST /findings: the idempotency check, the conditional insert and the enqueue, first one request at
 a time with a crash anywhere, then any number of overlapping requests.
 */
module Ingest {
  import opened Prelude

  type Key = (string, string)    // (tenant, finding id)
  type Sha = seq<int>            // a digest; only equality is used

  datatype Decision = Decision(firstSeen: bool, replay: bool, changed: bool)

  function Decide(known: map<Key, Sha>, key: Key, sha: Sha): Decision {
    if key !in known then Decision(true, false, false)
    else Decision(false, known[key] == sha, known[key] != sha)
  }

  /** The reference: check and record in one step. */
  function Recorded(known: map<Key, Sha>, key: Key, sha: Sha): map<Key, Sha> {
    if key in known then known else known[key := sha]
  }

  class InMemoryBackend {
    var store: map<Key, Sha>

    constructor ()
      ensures store == map[]
    {
      store := map[];
    }

    method CheckOrRecord(key: Key, sha: Sha) returns (d: Decision)
      modifies this
      ensures d == Decide(old(store), key, sha)
      ensures store == Recorded(old(store), key, sha)
    {
      if key !in store {
        store := store[key := sha];
        return Decision(true, false, false);
      }
      return Decision(false, store[key] == sha, store[key] != sha);
    }
  }

  // ----- one request at a time --------------------------------------------------------------------

  datatype SchemaCheck = Supported | UnsupportedMajor | Malformed

  datatype Request = Request(bodyTenant: Option<string>, schema: SchemaCheck, valid: bool,
                             findingId: string, sha: Sha, correlation: string)

  datatype Response = NotFound | VersionUnsupported | Invalid | Replied(idempotentReplay: bool) | Raised

  datatype Session = Session(key: Key, correlation: string)

  /** The findings table, the accepted audit events by correlation id, and the graph runs started. */
  datatype Store = Store(rows: map<Key, Sha>, accepted: map<string, Key>, sessions: seq<Session>)

  const NOTHING := Store(map[], map[], [])

  /** A request and the await that raises or dies in it: 0 the check, 1 the insert, 2 the audit write,
      3 the enqueue; anything later is none. */
  datatype Post = Post(tenant: string, request: Request, stop: nat)

  predicate Admitted(p: Post) {
    && (p.request.bodyTenant.None? || p.request.bodyTenant.value == p.tenant)
    && p.request.schema == Supported && p.request.valid
  }

  function KeyOf(p: Post): Key { (p.tenant, p.request.findingId) }

  /** The correlation id already has another tenant's accepted event, on which the audit write raises. */
  predicate Clashes(accepted: map<string, Key>, tenant: string, correlation: string) {
    correlation in accepted && accepted[correlation].0 != tenant
  }

  /** What a request leaves behind, by how far it got. */
  function Posted(s: Store, p: Post): Store {
    var key := KeyOf(p);
    if !Admitted(p) || p.stop < 2 || key in s.rows then s
    else
      var c := p.request.correlation;
      Store(s.rows[key := p.request.sha],
            if p.stop < 3 || c in s.accepted then s.accepted else s.accepted[c := key],
            if p.stop < 4 || Clashes(s.accepted, p.tenant, c) then s.sessions else s.sessions + [Session(key, c)])
  }

  class Server {
    var rows: map<Key, Sha>
    var accepted: map<string, Key>
    var sessions: seq<Session>

    constructor ()
      ensures View() == NOTHING
    {
      rows, accepted, sessions := map[], map[], [];
    }

    ghost function View(): Store
      reads this
    {
      Store(rows, accepted, sessions)
    }

    /** `_PgBackend.check_or_record`, which records nothing. */
    method Check(key: Key, sha: Sha) returns (d: Decision)
      ensures d == Decide(rows, key, sha)
    {
      if key !in rows {
        return Decision(true, false, false);
      }
      return Decision(false, rows[key] == sha, rows[key] != sha);
    }

    /** `_persist_finding`: the row if there is none, then the accepted event. */
    method Persist(key: Key, sha: Sha, correlation: string, stop: nat) returns (raised: bool)
      modifies this`rows, this`accepted
      ensures raised <==> stop < 3 || Clashes(old(accepted), key.0, correlation)
      ensures rows == if stop < 2 then old(rows) else Recorded(old(rows), key, sha)
      ensures accepted == if stop < 3 || correlation in old(accepted) then old(accepted) else old(accepted)[correlation := key]
    {
      if stop < 2 {
        return true;
      }
      if key !in rows {
        rows := rows[key := sha];
      }
      if stop < 3 {
        return true;
      }
      if correlation !in accepted {
        accepted := accepted[correlation := key];
        return false;
      }
      return accepted[correlation].0 != key.0;
    }

    /** `post_finding`. */
    method PostFinding(p: Post) returns (r: Response)
      modifies this
      ensures View() == Posted(old(View()), p)
      ensures r.Replied? <==>
        && Admitted(p) && p.stop > 0
        && (KeyOf(p) !in old(rows) ==> p.stop > 3 && !Clashes(old(accepted), p.tenant, p.request.correlation))
      ensures r.Replied? ==> r.idempotentReplay == !Decide(old(rows), KeyOf(p), p.request.sha).firstSeen
      ensures r.NotFound? <==> p.request.bodyTenant.Some? && p.request.bodyTenant.value != p.tenant
      ensures r.Raised? ==> Admitted(p)
    {
      var q := p.request;
      if q.bodyTenant.Some? && q.bodyTenant.value != p.tenant {
        return NotFound;
      }
      if q.schema == UnsupportedMajor {
        return VersionUnsupported;
      }
      if q.schema == Malformed || !q.valid {
        return Invalid;
      }
      if p.stop == 0 {
        return Raised;
      }
      var decision := Check(KeyOf(p), q.sha);
      if decision.firstSeen {
        var raised := Persist(KeyOf(p), q.sha, q.correlation, p.stop);
        if raised || p.stop < 4 {
          return Raised;
        }
        sessions := sessions + [Session(KeyOf(p), q.correlation)];
        return Replied(false);
      }
      return Replied(true);
    }
  }

  function PostAll(s: Store, posts: seq<Post>): Store
    decreases |posts|
  {
    if posts == [] then s else PostAll(Posted(s, posts[0]), posts[1..])
  }

  /** A request reaches its commit when it gets past the insert. */
  predicate Commits(p: Post) {
    Admitted(p) && p.stop >= 2
  }

  function RecordAll(known: map<Key, Sha>, posts: seq<Post>): map<Key, Sha>
    decreases |posts|
  {
    if posts == [] then known
    else RecordAll(if Commits(posts[0]) then Recorded(known, KeyOf(posts[0]), posts[0].request.sha) else known, posts[1..])
  }

  /** Sequential refinement: check, then insert if absent, behaves as the in-memory check-and-record
      of the requests that got as far as their insert; crashes before it leave no trace. */
  lemma {:induction false} PostgresRefinesInMemory(s: Store, posts: seq<Post>)
    ensures PostAll(s, posts).rows == RecordAll(s.rows, posts)
    decreases |posts|
  {
    if posts != [] {
      PostgresRefinesInMemory(Posted(s, posts[0]), posts[1..]);
    }
  }

  function Runs(sessions: seq<Session>, key: Key): nat {
    if sessions == [] then 0 else Runs(sessions[..|sessions| - 1], key) + if sessions[|sessions| - 1].key == key then 1 else 0
  }

  /** The request that decides a key: the first one that commits it. */
  function Winner(posts: seq<Post>, key: Key): Option<Post> {
    if posts == [] then None
    else if Commits(posts[0]) && KeyOf(posts[0]) == key then Some(posts[0])
    else Winner(posts[1..], key)
  }

  /** The first request to commit the key, from the given state, also gets to its enqueue. */
  predicate WinnerLives(s: Store, posts: seq<Post>, key: Key)
    decreases |posts|
  {
    posts != [] &&
    if Commits(posts[0]) && KeyOf(posts[0]) == key
    then posts[0].stop >= 4 && !Clashes(s.accepted, posts[0].tenant, posts[0].request.correlation)
    else WinnerLives(Posted(s, posts[0]), posts[1..], key)
  }

  lemma {:induction false} RunsFrom(s: Store, posts: seq<Post>, key: Key)
    ensures Runs(PostAll(s, posts).sessions, key) == Runs(s.sessions, key) +
      (if key !in s.rows && WinnerLives(s, posts, key) then 1 else 0)
    decreases |posts|
  {
    if posts != [] {
      var s' := Posted(s, posts[0]);
      RunsFrom(s', posts[1..], key);
      if s'.sessions != s.sessions {
        assert s'.sessions[..|s'.sessions| - 1] == s.sessions;
      }
    }
  }

  lemma {:induction false} RowFrom(s: Store, posts: seq<Post>, key: Key)
    ensures var rows := PostAll(s, posts).rows;
      if key in s.rows then key in rows && rows[key] == s.rows[key]
      else if Winner(posts, key).Some? then key in rows && rows[key] == Winner(posts, key).value.request.sha
      else key !in rows
    decreases |posts|
  {
    if posts != [] {
      RowFrom(Posted(s, posts[0]), posts[1..], key);
    }
  }

  /** At most one graph run per (tenant, finding), over every sequence of requests and crashes, and
      exactly when: the first request to commit the key decides. If that one failed before its
      enqueue the finding is recorded and never runs. */
  lemma OneRunPerFinding(posts: seq<Post>, key: Key)
    ensures var s := PostAll(NOTHING, posts); var w := Winner(posts, key);
      && Runs(s.sessions, key) == (if WinnerLives(NOTHING, posts, key) then 1 else 0)
      && (key in s.rows <==> w.Some?) && (w.Some? ==> s.rows[key] == w.value.request.sha)
  {
    RunsFrom(NOTHING, posts, key);
    RowFrom(NOTHING, posts, key);
  }

  // ----- decisions ----------------------------------------------------------------------------------------

  /** The decisions taken by the requests that reach their check, against the table. */
  function Decisions(s: Store, posts: seq<Post>): seq<Decision>
    decreases |posts|
  {
    if posts == [] then []
    else
      (if Admitted(posts[0]) && posts[0].stop > 0 then [Decide(s.rows, KeyOf(posts[0]), posts[0].request.sha)] else [])
      + Decisions(Posted(s, posts[0]), posts[1..])
  }

  /** The same requests, put to the in-memory backend: it records for those that got past their insert. */
  function InMemoryDecisions(known: map<Key, Sha>, posts: seq<Post>): seq<Decision>
    decreases |posts|
  {
    if posts == [] then []
    else
      (if Admitted(posts[0]) && posts[0].stop > 0 then [Decide(known, KeyOf(posts[0]), posts[0].request.sha)] else [])
      + InMemoryDecisions(if Commits(posts[0]) then Recorded(known, KeyOf(posts[0]), posts[0].request.sha) else known, posts[1..])
  }

  /** Every decision agrees, not only the table that is left. */
  lemma {:induction false} DecisionsAgree(s: Store, posts: seq<Post>)
    ensures Decisions(s, posts) == InMemoryDecisions(s.rows, posts)
    decreases |posts|
  {
    if posts != [] {
      DecisionsAgree(Posted(s, posts[0]), posts[1..]);
    }
  }

  /** What a decision means: first seen exactly if no earlier request committed the key, and otherwise a
      replay or a changed payload by comparison with the one that did so first. */
  lemma DecisionMeans(posts: seq<Post>, key: Key, sha: Sha)
    ensures var d := Decide(PostAll(NOTHING, posts).rows, key, sha); var w := Winner(posts, key);
      && (d.firstSeen <==> w.None?)
      && (d.replay <==> w.Some? && w.value.request.sha == sha)
      && (d.changed <==> w.Some? && w.value.request.sha != sha)
  {
    RowFrom(NOTHING, posts, key);
  }

  // ----- overlapping requests ----------------------------------------------------------------------------

  datatype Phase = Arrived | First | Stored | Noted | Enqueued | Replay | Dead

  datatype InFlight = InFlight(key: Key, sha: Sha, correlation: string, phase: Phase)

  datatype State = State(store: Store, requests: map<nat, InFlight>)

  datatype Action =
    | Arrive(i: nat, key: Key, sha: Sha, correlation: string)
    | Checks(i: nat)
    | Inserts(i: nat)
    | Notes(i: nat)
    | Enqueues(i: nat)
    | Dies(i: nat)

  const INITIAL := State(NOTHING, map[])

  function Moved(s: State, i: nat, phase: Phase): map<nat, InFlight>
    requires i in s.requests
  {
    s.requests[i := s.requests[i].(phase := phase)]
  }

  ghost predicate Next(s: State, a: Action, s': State) {
    match a
    case Arrive(i, key, sha, c) =>
      i !in s.requests && s' == s.(requests := s.requests[i := InFlight(key, sha, c, Arrived)])
    case Checks(i) =>
      && i in s.requests && s.requests[i].phase == Arrived
      && s' == s.(requests := Moved(s, i, if Decide(s.store.rows, s.requests[i].key, s.requests[i].sha).firstSeen then First else Replay))
    case Inserts(i) =>
      && i in s.requests && s.requests[i].phase == First
      && s' == State(s.store.(rows := Recorded(s.store.rows, s.requests[i].key, s.requests[i].sha)), Moved(s, i, Stored))
    case Notes(i) =>
      && i in s.requests && s.requests[i].phase == Stored
      && var r := s.requests[i];
         if Clashes(s.store.accepted, r.key.0, r.correlation) then s' == s.(requests := Moved(s, i, Dead))
         else s' == State(s.store.(accepted := if r.correlation in s.store.accepted then s.store.accepted
                                               else s.store.accepted[r.correlation := r.key]), Moved(s, i, Noted))
    case Enqueues(i) =>
      && i in s.requests && s.requests[i].phase == Noted
      && var r := s.requests[i];
         s' == State(s.store.(sessions := s.store.sessions + [Session(r.key, r.correlation)]), Moved(s, i, Enqueued))
    case Dies(i) =>
      i in s.requests && s' == s.(requests := Moved(s, i, Dead))
  }

  ghost predicate IsRun(states: seq<State>, actions: seq<Action>) {
    && |states| == |actions| + 1
    && states[0] == INITIAL
    && forall n :: 0 <= n < |actions| ==> Next(states[n], actions[n], states[n + 1])
  }

  /** The first committed digest of a key is kept for ever. */
  lemma {:induction false} FirstDigestIsKept(states: seq<State>, actions: seq<Action>, m: nat, n: nat, key: Key)
    requires IsRun(states, actions) && m <= n < |states| && key in states[m].store.rows
    ensures key in states[n].store.rows && states[n].store.rows[key] == states[m].store.rows[key]
    decreases n - m
  {
    if m < n {
      FirstDigestIsKept(states, actions, m, n - 1, key);
      assert Next(states[n - 1], actions[n - 1], states[n]);
    }
  }

  /** A request that has not been checked when its key commits. */
  ghost predicate TooLate(s: State, i: nat, key: Key) {
    i in s.requests && s.requests[i].key == key ==> s.requests[i].phase in {Arrived, Replay, Dead}
  }

  /** Once a key is committed, no request that had not been checked by then, or has yet to arrive,
      ever gets to its enqueue. */
  lemma {:induction false} LateRequestsNeverEnqueue(states: seq<State>, actions: seq<Action>, m: nat, n: nat, i: nat, key: Key)
    requires IsRun(states, actions) && m <= n < |states|
    requires key in states[m].store.rows && TooLate(states[m], i, key)
    ensures TooLate(states[n], i, key)
    decreases n - m
  {
    if m < n {
      LateRequestsNeverEnqueue(states, actions, m, n - 1, i, key);
      FirstDigestIsKept(states, actions, m, n - 1, key);
      assert Next(states[n - 1], actions[n - 1], states[n]);
    }
  }

  ghost predicate Inv(s: State) {
    forall i :: i in s.requests ==>
      && (s.requests[i].phase in {Stored, Noted, Enqueued} ==> s.requests[i].key in s.store.rows)
      && (s.requests[i].phase in {Noted, Enqueued} ==>
            s.requests[i].correlation in s.store.accepted && s.store.accepted[s.requests[i].correlation].0 == s.requests[i].key.0)
  }

  lemma {:induction false} RunKeeps(states: seq<State>, actions: seq<Action>, n: nat)
    requires IsRun(states, actions) && n < |states|
    ensures Inv(states[n])
  {
    if n > 0 {
      RunKeeps(states, actions, n - 1);
      assert Next(states[n - 1], actions[n - 1], states[n]);
    }
  }

  /** A graph run is never started without its finding row and accepted event. */
  lemma EnqueuedIsRecorded(states: seq<State>, actions: seq<Action>, n: nat, i: nat)
    requires IsRun(states, actions) && n < |actions| && actions[n] == Enqueues(i)
    ensures i in states[n].requests && states[n].requests[i].key in states[n].store.rows
    ensures var r := states[n].requests[i];
      r.correlation in states[n].store.accepted && states[n].store.accepted[r.correlation].0 == r.key.0
  {
    RunKeeps(states, actions, n);
    assert Next(states[n], actions[n], states[n + 1]);
  }

  /** Two runs for one key need overlapping requests: of two requests that both enqueue it, each was
      checked before the other inserted. */
  lemma DoubleRunsOverlap(states: seq<State>, actions: seq<Action>, i: nat, j: nat, inserted: nat, checked: nat, enqueued: nat)
    requires IsRun(states, actions)
    requires inserted < |actions| && actions[inserted] == Inserts(i) && i in states[inserted].requests
    requires checked < |actions| && actions[checked] == Checks(j) && j in states[checked].requests
    requires enqueued < |actions| && actions[enqueued] == Enqueues(j)
    requires states[checked].requests[j].key == states[inserted].requests[i].key
    ensures checked < inserted
  {
    assert Next(states[inserted], actions[inserted], states[inserted + 1]);
    assert Next(states[checked], actions[checked], states[checked + 1]);
    assert Next(states[enqueued], actions[enqueued], states[enqueued + 1]);
    var key := states[inserted].requests[i].key;
    if inserted < checked {
      CheckedOnce(states, actions, checked, enqueued, j);
      LateRequestsNeverEnqueueFrom(states, actions, inserted + 1, checked, enqueued, j, key);
    }
  }

  /** A request's key is fixed, and its enqueue comes after its check. */
  lemma CheckedOnce(states: seq<State>, actions: seq<Action>, checked: nat, enqueued: nat, j: nat)
    requires IsRun(states, actions) && checked < |actions| && enqueued < |actions|
    requires actions[checked] == Checks(j) && actions[enqueued] == Enqueues(j)
    ensures checked < enqueued
    ensures j in states[checked].requests && j in states[enqueued].requests
    ensures states[enqueued].requests[j].key == states[checked].requests[j].key
  {
    assert Next(states[checked], actions[checked], states[checked + 1]);
    assert Next(states[enqueued], actions[enqueued], states[enqueued + 1]);
    if enqueued < checked {
      PhaseAdvances(states, actions, enqueued, checked, j);
    } else {
      PhaseAdvances(states, actions, checked, enqueued, j);
    }
  }

  function Rank(p: Phase): nat {
    match p
    case Arrived => 0 case First => 1 case Stored => 2 case Noted => 3 case Enqueued => 4 case Replay => 5 case Dead => 6
  }

  lemma {:induction false} PhaseAdvances(states: seq<State>, actions: seq<Action>, m: nat, n: nat, j: nat)
    requires IsRun(states, actions) && m <= n < |states| && j in states[m].requests
    ensures j in states[n].requests && states[n].requests[j].key == states[m].requests[j].key
    ensures Rank(states[m].requests[j].phase) <= Rank(states[n].requests[j].phase)
    decreases n - m
  {
    if m < n {
      PhaseAdvances(states, actions, m, n - 1, j);
      assert Next(states[n - 1], actions[n - 1], states[n]);
    }
  }

  lemma LateRequestsNeverEnqueueFrom(states: seq<State>, actions: seq<Action>, m: nat, checked: nat, enqueued: nat, j: nat, key: Key)
    requires IsRun(states, actions) && m <= checked < enqueued < |actions|
    requires key in states[m].store.rows
    requires actions[checked] == Checks(j) && j in states[checked].requests && states[checked].requests[j].key == key
    ensures actions[enqueued] != Enqueues(j)
  {
    assert Next(states[checked], actions[checked], states[checked + 1]);
    assert Next(states[enqueued], actions[enqueued], states[enqueued + 1]);
    FirstDigestIsKept(states, actions, m, checked, key);
    LateRequestsNeverEnqueue(states, actions, checked, enqueued, j, key);
    PhaseAdvances(states, actions, checked, enqueued, j);
  }

  function Pair(a: InFlight, pa: Phase, b: InFlight, pb: Phase): map<nat, InFlight> {
    map[0 := a.(phase := pa), 1 := b.(phase := pb)]
  }

  /** A run, one step longer. */
  lemma Then(states: seq<State>, actions: seq<Action>, a: Action, s': State)
    returns (states': seq<State>, actions': seq<Action>)
    requires IsRun(states, actions) && Next(states[|actions|], a, s')
    ensures IsRun(states', actions') && states'[|actions'|] == s'
  {
    states', actions' := states + [s'], actions + [a];
  }

  lemma BothChecked(key: Key, c: string, a: Sha, b: Sha) returns (states: seq<State>, actions: seq<Action>)
    ensures IsRun(states, actions)
    ensures states[|actions|] ==
      State(INITIAL.store, Pair(InFlight(key, a, c, Arrived), First, InFlight(key, b, c, Arrived), First))
  {
    var r0, r1 := InFlight(key, a, c, Arrived), InFlight(key, b, c, Arrived);
    states, actions := [INITIAL], [];
    states, actions := Then(states, actions, Arrive(0, key, a, c), State(INITIAL.store, map[0 := r0]));
    states, actions := Then(states, actions, Arrive(1, key, b, c), State(INITIAL.store, Pair(r0, Arrived, r1, Arrived)));
    states, actions := Then(states, actions, Checks(0), State(INITIAL.store, Pair(r0, First, r1, Arrived)));
    states, actions := Then(states, actions, Checks(1), State(INITIAL.store, Pair(r0, First, r1, First)));
  }

  lemma BothStored(key: Key, c: string, a: Sha, b: Sha) returns (states: seq<State>, actions: seq<Action>)
    ensures IsRun(states, actions)
    ensures states[|actions|] == State(Store(map[key := a], map[c := key], []),
                                       Pair(InFlight(key, a, c, Arrived), Noted, InFlight(key, b, c, Arrived), Noted))
  {
    var kept := Store(map[key := a], map[], []);
    var noted := Store(map[key := a], map[c := key], []);
    var r0, r1 := InFlight(key, a, c, Arrived), InFlight(key, b, c, Arrived);
    states, actions := BothChecked(key, c, a, b);
    states, actions := Then(states, actions, Inserts(0), State(kept, Pair(r0, Stored, r1, First)));
    states, actions := Then(states, actions, Inserts(1), State(kept, Pair(r0, Stored, r1, Stored)));
    states, actions := Then(states, actions, Notes(0), State(noted, Pair(r0, Noted, r1, Stored)));
    states, actions := Then(states, actions, Notes(1), State(noted, Pair(r0, Noted, r1, Noted)));
  }

  /** The bound of one needs the requests not to overlap: two that are both checked before either
      inserts both start a run, and the second one's digest is nowhere kept. */
  lemma OverlapRunsTwice(key: Key, c: string, a: Sha, b: Sha) returns (states: seq<State>, actions: seq<Action>)
    ensures IsRun(states, actions)
    ensures Runs(states[|actions|].store.sessions, key) == 2
    ensures states[|actions|].store.rows == map[key := a]
  {
    var noted := Store(map[key := a], map[c := key], []);
    var r0, r1 := InFlight(key, a, c, Arrived), InFlight(key, b, c, Arrived);
    var run := Session(key, c);
    states, actions := BothStored(key, c, a, b);
    states, actions := Then(states, actions, Enqueues(0), State(noted.(sessions := [run]), Pair(r0, Enqueued, r1, Noted)));
    states, actions := Then(states, actions, Enqueues(1), State(noted.(sessions := [run, run]), Pair(r0, Enqueued, r1, Enqueued)));
    TwoRuns(run);
  }

  lemma TwoRuns(run: Session)
    ensures Runs([run, run], run.key) == 2
  {
    assert [run, run][..1] == [run] && [run][..0] == [];
    assert Runs([run], run.key) == 1;
  }
}
