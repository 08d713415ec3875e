/**
 Applying and rolling back migrations: what is recorded is what is in effect, under failure at any
 statement and with any number of runners at once.
 */
module MigrationRunner {
  import opened Prelude
  import opened Migrations

  type Script = (string, string)    // version and name of an up script

  /** The up scripts in effect, with multiplicity, and the rows of `schema_migrations`. */
  datatype Schema = Schema(effects: multiset<Script>, recorded: map<string, string>)

  const FRESH := Schema(multiset{}, map[])

  /** Effects and records agree, and nothing is in effect twice. */
  ghost predicate Consistent(s: Schema) {
    forall v, n :: s.effects[(v, n)] == if v in s.recorded && s.recorded[v] == n then 1 else 0
  }

  predicate Distinct(ms: seq<Migration>) {
    forall i, j :: 0 <= i < j < |ms| ==> ms[i].version != ms[j].version
  }

  /** One migration's transaction: the script, then its row; a second row of the version violates the
      primary key and undoes the script with it. */
  function Apply(s: Schema, m: Migration): Option<Schema> {
    if m.version in s.recorded then None
    else Some(Added(s, m))
  }

  function Added(s: Schema, m: Migration): Schema {
    Schema(s.effects + multiset{(m.version, m.name)}, s.recorded[m.version := m.name])
  }

  /** A rollback's transaction: the down script takes its own up script's effect back, if it is there;
      the DELETE is silent about a missing row. */
  function Unapply(s: Schema, m: Migration): Schema {
    Schema(s.effects - multiset{(m.version, m.name)}, s.recorded - {m.version})
  }

  lemma ApplyKeeps(s: Schema, m: Migration)
    requires Consistent(s) && Apply(s, m).Some?
    ensures Consistent(Apply(s, m).value)
  {
  }

  /** A rollback keeps the two in step exactly when the down script it picks belongs to the
      migration recorded under the version. */
  lemma RollbackKeepsIff(s: Schema, m: Migration)
    requires Consistent(s) && m.version in s.recorded
    ensures Consistent(Unapply(s, m)) <==> s.recorded[m.version] == m.name
  {
    var s' := Unapply(s, m);
    var n := s.recorded[m.version];
    if n != m.name {
      assert s'.effects[(m.version, n)] == 1;
    }
  }

  // ----- one runner --------------------------------------------------------------------------------

  /** `apply_pending` after its snapshot: `stop` transactions commit before one fails. Returns the
      schema, the versions applied and whether it raised. */
  function ApplyRun(s: Schema, existing: set<string>, ms: seq<Migration>, stop: nat): (Schema, seq<string>, bool)
    decreases |ms|
  {
    if ms == [] then (s, [], false)
    else if ms[0].version in existing then ApplyRun(s, existing, ms[1..], stop)
    else if stop == 0 then (s, [], true)
    else match Apply(s, ms[0])
      case None => (s, [], true)
      case Some(s') =>
        var (s2, versions, raised) := ApplyRun(s', existing, ms[1..], stop - 1);
        (s2, [ms[0].version] + versions, raised)
  }

  /** What is left to do, in order. */
  function Pending(ms: seq<Migration>, done: set<string>): seq<Migration> {
    if ms == [] then []
    else (if ms[0].version in done then [] else [ms[0]]) + Pending(ms[1..], done)
  }

  function Versions(ms: seq<Migration>): (vs: seq<string>)
    ensures |vs| == |ms| && forall i :: 0 <= i < |ms| ==> vs[i] == ms[i].version
  {
    seq(|ms|, i requires 0 <= i < |ms| => ms[i].version)
  }

  /** The migrations applied one after another. */
  function ApplyAll(s: Schema, ms: seq<Migration>): Schema
    decreases |ms|
  {
    if ms == [] then s
    else ApplyAll(Added(s, ms[0]), ms[1..])
  }

  /** None of the versions is recorded yet. */
  ghost predicate Unrecorded(ms: seq<Migration>, s: Schema) {
    forall m :: m in ms ==> m.version !in s.recorded
  }

  lemma {:induction false} PendingFacts(ms: seq<Migration>, done: set<string>)
    ensures forall m :: m in Pending(ms, done) <==> m in ms && m.version !in done
    ensures |Pending(ms, done)| <= |ms|
  {
    if ms != [] {
      PendingFacts(ms[1..], done);
      assert ms == [ms[0]] + ms[1..];
    }
  }

  /** The first `stop` of the migrations, which raises if there are more. */
  function ApplyUpTo(s: Schema, p: seq<Migration>, stop: nat): (Schema, seq<string>, bool)
    decreases |p|
  {
    if p == [] then (s, [], false)
    else if stop == 0 then (s, [], true)
    else
      var (s2, versions, raised) := ApplyUpTo(Added(s, p[0]), p[1..], stop - 1);
      (s2, [p[0].version] + versions, raised)
  }

  lemma Slices(p: seq<Migration>, n: nat)
    requires 0 < n <= |p|
    ensures p[..n] == [p[0]] + p[1..][..n - 1] && p[n..] == p[1..][n - 1..]
  {
  }

  lemma DistinctTail(ms: seq<Migration>)
    requires Distinct(ms) && ms != []
    ensures Distinct(ms[1..]) && forall m :: m in ms[1..] ==> m.version != ms[0].version
  {
  }

  lemma PendingConsists(ms: seq<Migration>, done: set<string>)
    requires ms != []
    ensures ms[0].version in done ==> Pending(ms, done) == Pending(ms[1..], done)
    ensures ms[0].version !in done ==>
      var p := Pending(ms, done); p != [] && p[0] == ms[0] && p[1..] == Pending(ms[1..], done) && ms[0] in p
  {
  }

  /** With distinct versions a run applies the pending migrations in order, up to the one that fails. */
  lemma {:induction false} RunIsUpTo(s: Schema, existing: set<string>, ms: seq<Migration>, stop: nat)
    requires Distinct(ms) && Unrecorded(Pending(ms, existing), s)
    ensures ApplyRun(s, existing, ms, stop) == ApplyUpTo(s, Pending(ms, existing), stop)
    decreases |ms|
  {
    if ms != [] {
      DistinctTail(ms);
      PendingFacts(ms[1..], existing);
      PendingConsists(ms, existing);
      if ms[0].version in existing {
        RunIsUpTo(s, existing, ms[1..], stop);
      } else if stop > 0 {
        RunIsUpTo(Added(s, ms[0]), existing, ms[1..], stop - 1);
      }
    }
  }

  lemma Cons(s: Schema, m: Migration, rest: seq<Migration>)
    ensures ApplyAll(s, [m] + rest) == ApplyAll(Added(s, m), rest)
    ensures Versions([m] + rest) == [m.version] + Versions(rest)
  {
    assert ([m] + rest)[1..] == rest;
  }

  lemma {:induction false} UpToIsPrefix(s: Schema, p: seq<Migration>, stop: nat)
    ensures var n := Min(stop, |p|); ApplyUpTo(s, p, stop) == (ApplyAll(s, p[..n]), Versions(p[..n]), stop < |p|)
    decreases |p|
  {
    var n := Min(stop, |p|);
    if n == 0 {
      assert p[..n] == [] && Versions([]) == [];
    } else {
      UpToIsPrefix(Added(s, p[0]), p[1..], stop - 1);
      Slices(p, n);
      Cons(s, p[0], p[1..][..n - 1]);
    }
  }

  lemma {:induction false} ApplyAllRecords(s: Schema, ms: seq<Migration>)
    ensures ApplyAll(s, ms).recorded.Keys == s.recorded.Keys + (set m | m in ms :: m.version)
    decreases |ms|
  {
    if ms != [] {
      ApplyAllRecords(Added(s, ms[0]), ms[1..]);
      assert ms == [ms[0]] + ms[1..];
    }
  }

  lemma {:induction false} ApplyAllAppend(s: Schema, a: seq<Migration>, b: seq<Migration>)
    ensures ApplyAll(s, a + b) == ApplyAll(ApplyAll(s, a), b)
    decreases |a|
  {
    if a == [] {
      assert a + b == b;
    } else {
      assert (a + b)[1..] == a[1..] + b;
      ApplyAllAppend(Added(s, a[0]), a[1..], b);
    }
  }

  function VersionSet(ms: seq<Migration>): set<string> {
    set m | m in ms :: m.version
  }

  /** What is pending once a prefix of it is done. */
  lemma {:induction false} PendingOfMore(ms: seq<Migration>, done: set<string>, n: nat)
    requires Distinct(ms) && n <= |Pending(ms, done)|
    ensures Pending(ms, done + VersionSet(Pending(ms, done)[..n])) == Pending(ms, done)[n..]
  {
    if ms != [] {
      var p, rest := Pending(ms, done), Pending(ms[1..], done);
      DistinctTail(ms);
      if ms[0].version in done {
        assert p == rest;
        PendingOfMore(ms[1..], done, n);
      } else if n == 0 {
        assert done + VersionSet(p[..0]) == done;
      } else {
        assert p[0] == ms[0] && p[1..] == rest;
        PendingOfMore(ms[1..], done, n - 1);
        PendingIgnores(ms[1..], done + VersionSet(rest[..n - 1]), ms[0].version);
        Slices(p, n);
        ConsVersions(done, ms[0], rest[..n - 1]);
      }
    }
  }

  lemma ConsVersions(done: set<string>, m: Migration, rest: seq<Migration>)
    ensures done + VersionSet([m] + rest) == done + VersionSet(rest) + {m.version}
  {
  }

  lemma {:induction false} PendingIgnores(ms: seq<Migration>, done: set<string>, v: string)
    requires forall m :: m in ms ==> m.version != v
    ensures Pending(ms, done + {v}) == Pending(ms, done)
  {
    if ms != [] {
      assert ms[0] in ms;
      PendingIgnores(ms[1..], done, v);
    }
  }

  /** A run from the records as they are. */
  lemma RunFrom(s: Schema, ms: seq<Migration>, stop: nat)
    requires Distinct(ms)
    ensures var p := Pending(ms, s.recorded.Keys); var n := Min(stop, |p|);
      ApplyRun(s, s.recorded.Keys, ms, stop) == (ApplyAll(s, p[..n]), Versions(p[..n]), stop < |p|)
  {
    PendingFacts(ms, s.recorded.Keys);
    RunIsUpTo(s, s.recorded.Keys, ms, stop);
    UpToIsPrefix(s, Pending(ms, s.recorded.Keys), stop);
  }

  lemma Remaining(s: Schema, ms: seq<Migration>, n: nat)
    requires Distinct(ms) && n <= |Pending(ms, s.recorded.Keys)|
    ensures var p := Pending(ms, s.recorded.Keys); Pending(ms, ApplyAll(s, p[..n]).recorded.Keys) == p[n..]
  {
    ApplyAllRecords(s, Pending(ms, s.recorded.Keys)[..n]);
    PendingOfMore(ms, s.recorded.Keys, n);
  }

  /** An undisturbed run applies everything pending. */
  lemma WholeRun(s: Schema, ms: seq<Migration>, enough: nat)
    requires Distinct(ms) && enough >= |ms|
    ensures var p := Pending(ms, s.recorded.Keys);
      ApplyRun(s, s.recorded.Keys, ms, enough) == (ApplyAll(s, p), Versions(p), false)
  {
    var p := Pending(ms, s.recorded.Keys);
    PendingFacts(ms, s.recorded.Keys);
    RunFrom(s, ms, enough);
    assert p[..|p|] == p;
  }

  lemma Halves(s: Schema, p: seq<Migration>, n: nat)
    requires n <= |p|
    ensures ApplyAll(ApplyAll(s, p[..n]), p[n..]) == ApplyAll(s, p)
    ensures Versions(p[..n]) + Versions(p[n..]) == Versions(p)
  {
    assert p[..n] + p[n..] == p;
    ApplyAllAppend(s, p[..n], p[n..]);
  }

  /** Crash consistency in one runner: wherever a run fails, the next undisturbed one applies exactly
      the rest, in order, and leaves what one undisturbed run would have left. */
  lemma RerunResumes(s: Schema, ms: seq<Migration>, stop: nat, enough: nat)
    requires Distinct(ms) && enough >= |ms|
    ensures var (s1, first, raised) := ApplyRun(s, s.recorded.Keys, ms, stop);
      var (s2, second, again) := ApplyRun(s1, s1.recorded.Keys, ms, enough);
      && (s2, first + second, again) == ApplyRun(s, s.recorded.Keys, ms, enough)
      && first + second == Versions(Pending(ms, s.recorded.Keys))
      && (raised <==> second != []) && !again
  {
    var p := Pending(ms, s.recorded.Keys);
    var n := Min(stop, |p|);
    RunFrom(s, ms, stop);
    Remaining(s, ms, n);
    WholeRun(ApplyAll(s, p[..n]), ms, enough);
    Halves(s, p, n);
    WholeRun(s, ms, enough);
  }

  /** A run after an undisturbed one finds nothing to do. */
  lemma RerunIsEmpty(s: Schema, ms: seq<Migration>, enough: nat, stop: nat)
    requires Distinct(ms) && enough >= |ms|
    ensures var s1 := ApplyRun(s, s.recorded.Keys, ms, enough).0;
      ApplyRun(s1, s1.recorded.Keys, ms, stop) == (s1, [], false)
  {
    var p := Pending(ms, s.recorded.Keys);
    WholeRun(s, ms, enough);
    assert p[..|p|] == p;
    Remaining(s, ms, |p|);
    RunFrom(ApplyAll(s, p), ms, stop);
  }

  // ----- shared version numbers ---------------------------------------------------------------------------

  /** Whatever the list, of several migrations of one version only the first can come into effect: a
      later one fails with the version's row taken, and every rerun passes over it. */
  lemma {:induction false} OnlyTheFirstOfAVersion(s: Schema, existing: set<string>, ms: seq<Migration>, stop: nat, i: nat, j: nat)
    requires i < j < |ms| && ms[i].version == ms[j].version
    requires forall h :: 0 <= h < j ==> ms[h].version != ms[j].version || ms[h].name != ms[j].name
    requires existing <= s.recorded.Keys
    ensures var late := (ms[j].version, ms[j].name); ApplyRun(s, existing, ms, stop).0.effects[late] == s.effects[late]
    decreases |ms|
  {
    if ms[0].version in existing {
      if i > 0 {
        OnlyTheFirstOfAVersion(s, existing, ms[1..], stop, i - 1, j - 1);
      } else {
        Untouched(s, existing, ms, stop, ms[j]);
      }
    } else if stop > 0 && Apply(s, ms[0]).Some? {
      var s' := Apply(s, ms[0]).value;
      if i > 0 {
        OnlyTheFirstOfAVersion(s', existing, ms[1..], stop - 1, i - 1, j - 1);
      } else {
        Untouched(s', existing, ms[1..], stop - 1, ms[j]);
      }
    }
  }

  /** A recorded version is never applied again. */
  lemma {:induction false} Untouched(s: Schema, existing: set<string>, ms: seq<Migration>, stop: nat, m: Migration)
    requires m.version in s.recorded
    ensures ApplyRun(s, existing, ms, stop).0.effects[(m.version, m.name)] == s.effects[(m.version, m.name)]
    decreases |ms|
  {
    if ms != [] {
      if ms[0].version in existing {
        Untouched(s, existing, ms[1..], stop, m);
      } else if stop > 0 && Apply(s, ms[0]).Some? {
        Untouched(Apply(s, ms[0]).value, existing, ms[1..], stop - 1, m);
      }
    }
  }

  // ----- the methods -----------------------------------------------------------------------------------------

  /** `rollback_one` looks its target up in a dictionary, where the last migration of a version wins. */
  function Target(ms: seq<Migration>, version: string): Option<Migration> {
    if ms == [] then None
    else if ms[|ms| - 1].version == version then Some(ms[|ms| - 1])
    else Target(ms[..|ms| - 1], version)
  }

  lemma {:induction false} TargetIs(ms: seq<Migration>, version: string)
    ensures Target(ms, version).Some? ==> Target(ms, version).value in ms && Target(ms, version).value.version == version
    ensures Target(ms, version).None? <==> forall m :: m in ms ==> m.version != version
  {
    if ms != [] {
      TargetIs(ms[..|ms| - 1], version);
      assert ms == ms[..|ms| - 1] + [ms[|ms| - 1]];
    }
  }

  /** The result of a run, after versions applied before it. */
  function After(applied: seq<string>, run: (Schema, seq<string>, bool)): (Schema, seq<string>, bool) {
    (run.0, applied + run.1, run.2)
  }

  /** The loop before its first and after its last round. */
  lemma FirstAndLast(s: Schema, existing: set<string>, ms: seq<Migration>, left: nat, applied: seq<string>)
    ensures After([], ApplyRun(s, existing, ms[0..], left)) == ApplyRun(s, existing, ms, left)
    ensures After(applied, ApplyRun(s, existing, ms[|ms|..], left)) == (s, applied, false)
  {
    assert ms[0..] == ms && ms[|ms|..] == [];
    var versions := ApplyRun(s, existing, ms, left).1;
    assert [] + versions == versions && applied + [] == applied;
  }

  /** One round of the loop. */
  lemma OneMigration(s: Schema, existing: set<string>, ms: seq<Migration>, i: nat, left: nat, applied: seq<string>)
    requires i < |ms|
    ensures var run := After(applied, ApplyRun(s, existing, ms[i..], left));
      if ms[i].version in existing then run == After(applied, ApplyRun(s, existing, ms[i + 1..], left))
      else if left == 0 || Apply(s, ms[i]).None? then run == (s, applied, true)
      else run == After(applied + [ms[i].version], ApplyRun(Apply(s, ms[i]).value, existing, ms[i + 1..], left - 1))
  {
    assert ms[i..][1..] == ms[i + 1..];
    if ms[i].version !in existing && left > 0 && Apply(s, ms[i]).Some? {
      var versions := ApplyRun(Apply(s, ms[i]).value, existing, ms[i + 1..], left - 1).1;
      assert applied + ([ms[i].version] + versions) == applied + [ms[i].version] + versions;
    } else {
      assert applied + [] == applied;
    }
  }

  datatype Rollback = UnknownVersion | NoDownScript | NotApplied | Failed | RolledBack

  class Database {
    var effects: multiset<Script>
    var recorded: map<string, string>

    constructor ()
      ensures View() == FRESH
    {
      effects, recorded := multiset{}, map[];
    }

    ghost function View(): Schema
      reads this
    {
      Schema(effects, recorded)
    }

    /** One transaction of `apply_pending`. */
    method Commit(m: Migration) returns (ok: bool)
      modifies this
      ensures ok <==> Apply(old(View()), m).Some?
      ensures View() == if ok then Apply(old(View()), m).value else old(View())
    {
      if m.version in recorded {
        return false;
      }
      effects := effects + multiset{(m.version, m.name)};
      recorded := recorded[m.version := m.name];
      return true;
    }

    /** `apply_pending`; `stop` transactions commit before one fails. */
    method ApplyPending(ms: seq<Migration>, stop: nat) returns (applied: seq<string>, raised: bool)
      modifies this
      ensures ApplyRun(old(View()), old(recorded).Keys, ms, stop) == (View(), applied, raised)
    {
      ghost var s0 := View();
      var existing := recorded.Keys;
      applied := [];
      var left := stop;
      FirstAndLast(s0, existing, ms, stop, applied);
      for i := 0 to |ms|
        invariant ApplyRun(s0, existing, ms, stop) == After(applied, ApplyRun(View(), existing, ms[i..], left))
      {
        OneMigration(View(), existing, ms, i, left, applied);
        if ms[i].version !in existing {
          if left == 0 {
            return applied, true;
          }
          var ok := Commit(ms[i]);
          if !ok {
            return applied, true;
          }
          applied := applied + [ms[i].version];
          left := left - 1;
        }
      }
      FirstAndLast(View(), existing, ms, left, applied);
      raised := false;
    }

    /** `rollback_one`. */
    method RollbackOne(ms: seq<Migration>, version: string, fails: bool) returns (r: Rollback)
      modifies this
      ensures r.UnknownVersion? <==> forall m :: m in ms ==> m.version != version
      ensures r.NotApplied? ==> version !in old(recorded)
      ensures r.RolledBack? ==> Target(ms, version).Some? && version in old(recorded)
      ensures View() == if r.RolledBack? then Unapply(old(View()), Target(ms, version).value) else old(View())
      ensures !fails && version in old(recorded) && Target(ms, version).Some? && Target(ms, version).value.hasDown ==> r.RolledBack?
    {
      var target := Find(ms, version);
      TargetIs(ms, version);
      if target.None? {
        return UnknownVersion;
      }
      if !target.value.hasDown {
        return NoDownScript;
      }
      if version !in recorded {
        return NotApplied;
      }
      if fails {
        return Failed;
      }
      effects := effects - multiset{(version, target.value.name)};
      recorded := recorded - {version};
      return RolledBack;
    }
  }

  method Find(ms: seq<Migration>, version: string) returns (target: Option<Migration>)
    ensures target == Target(ms, version)
  {
    target := None;
    for i := 0 to |ms|
      invariant target == Target(ms[..i], version)
    {
      assert ms[..i + 1][..i] == ms[..i];
      if ms[i].version == version {
        target := Some(ms[i]);
      }
    }
    assert ms[..|ms|] == ms;
  }

  /** Two migrations of one version, the later one with a down script: rolling the version back takes
      the record away and leaves the first script in effect. */
  lemma SharedVersionBreaksRollback(v: string, a: string, b: string)
    requires a != b
    ensures var ms := [Migration(v, a, true), Migration(v, b, true)];
      var s := ApplyRun(FRESH, {}, ms, 2).0;
      && Consistent(s) && Target(ms, v) == Some(ms[1])
      && !Consistent(Unapply(s, ms[1])) && Unapply(s, ms[1]) == Schema(multiset{(v, a)}, map[])
  {
    var ms := [Migration(v, a, true), Migration(v, b, true)];
    var s1 := Added(FRESH, ms[0]);
    assert ms[1..] == [ms[1]];
    assert ApplyRun(s1, {}, ms[1..], 1) == (s1, [], true);
    assert ApplyRun(FRESH, {}, ms, 2).0 == s1;
    assert s1 == Schema(multiset{(v, a)}, map[v := a]);
    RollbackKeepsIff(s1, ms[1]);
  }

  // ----- any number of runners -------------------------------------------------------------------------------------

  /** A runner works from the snapshot it took: the migrations then pending, or the migration it is to
      roll back. */
  datatype Runner = Applier(queue: seq<Migration>) | Roller(target: Migration) | Finished

  datatype State = State(schema: Schema, runners: map<nat, Runner>)

  datatype Action =
    | StartApply(r: nat)
    | StartRollback(r: nat, version: string)
    | Commits(r: nat)
    | Fails(r: nat)

  /** What a commit does: a taken primary key ends the runner with nothing changed. */
  function Committed(s: Schema, r: Runner): (Schema, Runner) {
    match r
    case Applier(queue) =>
      if queue == [] then (s, Finished)
      else (match Apply(s, queue[0])
            case Some(s') => (s', Applier(queue[1..]))
            case None => (s, Finished))
    case Roller(m) => (Unapply(s, m), Finished)
    case Finished => (s, Finished)
  }

  ghost predicate Next(ms: seq<Migration>, s: State, a: Action, s': State) {
    match a
    case StartApply(r) =>
      r !in s.runners && s' == s.(runners := s.runners[r := Applier(Pending(ms, s.schema.recorded.Keys))])
    case StartRollback(r, v) =>
      && r !in s.runners && v in s.schema.recorded
      && Target(ms, v).Some? && Target(ms, v).value.hasDown
      && s' == s.(runners := s.runners[r := Roller(Target(ms, v).value)])
    case Commits(r) =>
      && r in s.runners
      && var (schema, runner) := Committed(s.schema, s.runners[r]); s' == State(schema, s.runners[r := runner])
    case Fails(r) =>
      r in s.runners && s' == s.(runners := s.runners[r := Finished])
  }

  ghost predicate IsRun(ms: seq<Migration>, states: seq<State>, actions: seq<Action>) {
    && |states| == |actions| + 1
    && states[0] == State(FRESH, map[])
    && forall n :: 0 <= n < |actions| ==> Next(ms, states[n], actions[n], states[n + 1])
  }

  ghost predicate Known(ms: seq<Migration>, s: Schema) {
    forall v :: v in s.recorded ==> exists m :: m in ms && m.version == v && m.name == s.recorded[v]
  }

  ghost predicate RunnerOk(ms: seq<Migration>, r: Runner) {
    && (r.Applier? ==> forall m :: m in r.queue ==> m in ms)
    && (r.Roller? ==> r.target in ms)
  }

  ghost predicate Inv(ms: seq<Migration>, s: State) {
    Consistent(s.schema) && Known(ms, s.schema) && forall r :: r in s.runners ==> RunnerOk(ms, s.runners[r])
  }

  lemma SameVersionSameMigration(ms: seq<Migration>, a: Migration, b: Migration)
    requires Distinct(ms) && a in ms && b in ms && a.version == b.version
    ensures a == b
  {
    var i :| 0 <= i < |ms| && ms[i] == a;
    var j :| 0 <= j < |ms| && ms[j] == b;
    assert i == j;
  }

  lemma UnapplyKeeps(ms: seq<Migration>, s: Schema, m: Migration)
    requires Distinct(ms) && m in ms && Consistent(s) && Known(ms, s)
    ensures Consistent(Unapply(s, m)) && Known(ms, Unapply(s, m))
  {
    if m.version in s.recorded {
      var known :| known in ms && known.version == m.version && known.name == s.recorded[m.version];
      SameVersionSameMigration(ms, m, known);
      RollbackKeepsIff(s, m);
    }
  }

  lemma CommitKeeps(ms: seq<Migration>, s: Schema, r: Runner)
    requires Distinct(ms) && Consistent(s) && Known(ms, s) && RunnerOk(ms, r)
    ensures var (s', r') := Committed(s, r); Consistent(s') && Known(ms, s') && RunnerOk(ms, r')
  {
    match r
    case Applier(queue) =>
      if queue != [] && Apply(s, queue[0]).Some? {
        assert queue[0] in queue;
        ApplyKeeps(s, queue[0]);
      }
    case Roller(m) => UnapplyKeeps(ms, s, m);
    case Finished =>
  }

  lemma NextKeeps(ms: seq<Migration>, s: State, a: Action, s': State)
    requires Distinct(ms) && Inv(ms, s) && Next(ms, s, a, s')
    ensures Inv(ms, s')
  {
    match a
    case StartApply(_) => PendingFacts(ms, s.schema.recorded.Keys);
    case StartRollback(_, v) => TargetIs(ms, v);
    case Commits(r) => CommitKeeps(ms, s.schema, s.runners[r]);
    case Fails(_) =>
  }

  /** Whatever interleaves and whatever fails, the scripts in effect are exactly the recorded ones,
      each once. */
  lemma {:induction false} RecordsMatchEffects(ms: seq<Migration>, states: seq<State>, actions: seq<Action>, n: nat)
    requires Distinct(ms) && IsRun(ms, states, actions) && n < |states|
    ensures Inv(ms, states[n])
  {
    if n > 0 {
      RecordsMatchEffects(ms, states, actions, n - 1);
      NextKeeps(ms, states[n - 1], actions[n - 1], states[n]);
    }
  }

  /** The step at which a version's up script takes effect, and the one at which it is rolled back. */
  ghost predicate AppliedAt(states: seq<State>, n: nat, v: string)
    requires n + 1 < |states|
  {
    v !in states[n].schema.recorded && v in states[n + 1].schema.recorded
  }

  ghost predicate RolledBackAt(states: seq<State>, n: nat, v: string)
    requires n + 1 < |states|
  {
    v in states[n].schema.recorded && v !in states[n + 1].schema.recorded
  }

  lemma {:induction false} StaysRecorded(states: seq<State>, v: string, m: nat, n: nat)
    requires m <= n < |states| && v in states[m].schema.recorded
    requires forall k :: m <= k < n ==> !RolledBackAt(states, k, v)
    ensures v in states[n].schema.recorded
    decreases n - m
  {
    if m < n {
      StaysRecorded(states, v, m, n - 1);
      assert !RolledBackAt(states, n - 1, v);
    }
  }

  /** An up script's effect changes only with the record, by one: a step puts the script of a version
      into effect exactly when it records the version, and takes it out exactly when it removes it. */
  lemma EffectsFollowRecords(ms: seq<Migration>, states: seq<State>, actions: seq<Action>, n: nat, m: Migration)
    requires Distinct(ms) && IsRun(ms, states, actions) && n < |actions| && m in ms
    ensures var before: int, after: int := states[n].schema.effects[(m.version, m.name)], states[n + 1].schema.effects[(m.version, m.name)];
      after == before + (if AppliedAt(states, n, m.version) then 1 else if RolledBackAt(states, n, m.version) then -1 else 0)
  {
    RecordsMatchEffects(ms, states, actions, n);
    RecordsMatchEffects(ms, states, actions, n + 1);
    RecordedName(ms, states[n].schema, m);
    RecordedName(ms, states[n + 1].schema, m);
  }

  lemma RecordedName(ms: seq<Migration>, s: Schema, m: Migration)
    requires Distinct(ms) && m in ms && Known(ms, s)
    ensures m.version in s.recorded ==> s.recorded[m.version] == m.name
  {
    if m.version in s.recorded {
      var known :| known in ms && known.version == m.version && known.name == s.recorded[m.version];
      SameVersionSameMigration(ms, m, known);
    }
  }

  /** No up script takes effect twice without its rollback in between. */
  lemma NoScriptTwice(ms: seq<Migration>, states: seq<State>, actions: seq<Action>, m: nat, n: nat, v: string)
    requires IsRun(ms, states, actions) && m < n < |actions|
    requires AppliedAt(states, m, v) && AppliedAt(states, n, v)
    ensures exists k :: m < k < n && RolledBackAt(states, k, v)
  {
    if forall k :: m < k < n ==> !RolledBackAt(states, k, v) {
      StaysRecorded(states, v, m + 1, n);
    }
  }
}
