/**
 A time-limited cache in front of an authoritative table, with every lookup split into the steps
 between which other actors run: GET, SELECT and SET. The ownership cache over `tenant_vehicles` and
 the configuration cache over `tenant_config` are the two instances.
 */
module AuthorityCache {
  import opened Prelude

  /** A cached answer and the last instant at which it is still a hit. */
  datatype Entry<V> = Entry(answer: Option<V>, expires: int)

  /** A lookup after its GET. `writeBack` is false when the GET itself failed. */
  datatype Lookup<V> =
    | Missed(key: string, writeBack: bool)
    | Selected(key: string, writeBack: bool, answer: Option<V>, at: int)
    | Answered(key: string, answer: Option<V>)
    | Died

  datatype State<V> = State(
    clock: int, table: map<string, V>, cache: map<string, Entry<V>>, lookups: map<nat, Lookup<V>>)

  /** `ttl`, and whether the answer "no row" is cached. */
  datatype Policy = Policy(ttl: nat, cacheAbsent: bool)

  function Answer<V>(table: map<string, V>, key: string): Option<V> {
    if key in table then Some(table[key]) else None
  }

  predicate IsHit<V>(s: State<V>, key: string) {
    key in s.cache && s.clock <= s.cache[key].expires
  }

  datatype Action<V> =
    | Waits(time: nat)
    | Writes(key: string, value: V)          // the row is inserted or replaced
    | Removes(key: string)                   // the row is deleted
    | Invalidates(key: string)               // an invalidation arrives, whenever and for whatever reason
    | Loses(key: string)                     // expiry, eviction or a flush
    | Gets(i: nat, key: string)
    | GetFails(i: nat, key: string)
    | Selects(i: nat)
    | Sets(i: nat)                           // write-back, where the policy allows it, and answer
    | SetFails(i: nat)
    | Dies(i: nat)

  predicate Cacheable<V>(p: Policy, l: Lookup<V>)
    requires l.Selected?
  {
    l.writeBack && (p.cacheAbsent || l.answer.Some?)
  }

  predicate Enabled<V>(s: State<V>, a: Action<V>) {
    match a
    case Gets(i, _) => i !in s.lookups
    case GetFails(i, _) => i !in s.lookups
    case Selects(i) => i in s.lookups && s.lookups[i].Missed?
    case Sets(i) => i in s.lookups && s.lookups[i].Selected?
    case SetFails(i) => i in s.lookups && s.lookups[i].Selected?
    case Dies(i) => i in s.lookups
    case _ => true
  }

  function Step<V>(p: Policy, s: State<V>, a: Action<V>): State<V>
    requires Enabled(s, a)
  {
    match a
    case Waits(time) => s.(clock := s.clock + time)
    case Writes(key, value) => s.(table := s.table[key := value])
    case Removes(key) => s.(table := s.table - {key})
    case Invalidates(key) => s.(cache := s.cache - {key})
    case Loses(key) => s.(cache := s.cache - {key})
    case Gets(i, key) =>
      s.(lookups := s.lookups[i := if IsHit(s, key) then Answered(key, s.cache[key].answer) else Missed(key, true)])
    case GetFails(i, key) => s.(lookups := s.lookups[i := Missed(key, false)])
    case Selects(i) =>
      var l := s.lookups[i];
      s.(lookups := s.lookups[i := Selected(l.key, l.writeBack, Answer(s.table, l.key), s.clock)])
    case Sets(i) =>
      var l := s.lookups[i];
      s.(lookups := s.lookups[i := Answered(l.key, l.answer)],
         cache := if Cacheable(p, l) then s.cache[l.key := Entry(l.answer, s.clock + p.ttl)] else s.cache)
    case SetFails(i) => s.(lookups := s.lookups[i := Answered(s.lookups[i].key, s.lookups[i].answer)])
    case Dies(i) => s.(lookups := s.lookups[i := Died])
  }

  ghost predicate Next<V(!new)>(p: Policy, s: State<V>, a: Action<V>, s': State<V>) {
    Enabled(s, a) && s' == Step(p, s, a)
  }

  /** The steps, taken one after another with nobody else in between. */
  ghost predicate Takes<V(!new)>(p: Policy, s: State<V>, actions: seq<Action<V>>, s': State<V>)
    decreases |actions|
  {
    if actions == [] then s' == s
    else Enabled(s, actions[0]) && Takes(p, Step(p, s, actions[0]), actions[1..], s')
  }

  lemma TakesCons<V(!new)>(p: Policy, s: State<V>, a: Action<V>, s1: State<V>, rest: seq<Action<V>>, s': State<V>)
    requires Next(p, s, a, s1) && Takes(p, s1, rest, s')
    ensures Takes(p, s, [a] + rest, s')
  {
    assert ([a] + rest)[1..] == rest;
  }

  // single steps of one lookup, with everything else as it was

  lemma GetMisses<V(!new)>(p: Policy, s: State<V>, i: nat, key: string)
    requires i !in s.lookups && !IsHit(s, key)
    ensures Next(p, s, Gets(i, key), s.(lookups := s.lookups[i := Missed(key, true)]))
  {
  }

  lemma SelectAnswers<V(!new)>(p: Policy, s: State<V>, others: map<nat, Lookup<V>>, i: nat, key: string, writeBack: bool)
    requires s.lookups == others[i := Missed(key, writeBack)]
    ensures Next(p, s, Selects(i), s.(lookups := others[i := Selected(key, writeBack, Answer(s.table, key), s.clock)]))
  {
    assert s.lookups[i := Selected(key, writeBack, Answer(s.table, key), s.clock)]
        == others[i := Selected(key, writeBack, Answer(s.table, key), s.clock)];
  }

  lemma SetAnswers<V(!new)>(p: Policy, s: State<V>, others: map<nat, Lookup<V>>, i: nat, l: Lookup<V>)
    requires l.Selected? && s.lookups == others[i := l]
    ensures Next(p, s, SetFails(i), s.(lookups := others[i := Answered(l.key, l.answer)]))
    ensures Next(p, s, Sets(i), s.(lookups := others[i := Answered(l.key, l.answer)],
                                   cache := if Cacheable(p, l) then s.cache[l.key := Entry(l.answer, s.clock + p.ttl)] else s.cache))
  {
    assert s.lookups[i := Answered(l.key, l.answer)] == others[i := Answered(l.key, l.answer)];
  }

  ghost predicate IsRun<V(!new)>(p: Policy, states: seq<State<V>>, actions: seq<Action<V>>) {
    && |states| == |actions| + 1
    && states[0].cache == map[] && states[0].lookups == map[]
    && forall n :: 0 <= n < |actions| ==> Next(p, states[n], actions[n], states[n + 1])
  }

  // ----- bounded staleness --------------------------------------------------------------------------

  /** No write-back comes later than `delay` after its SELECT. */
  ghost predicate Prompt<V(!new)>(states: seq<State<V>>, actions: seq<Action<V>>, delay: nat) {
    |states| == |actions| + 1 &&
    forall n :: 0 <= n < |actions| && actions[n].Sets? && actions[n].i in states[n].lookups ==>
      var l := states[n].lookups[actions[n].i];
      l.Selected? ==> states[n].clock - l.at <= delay
  }

  /** The table gave this answer at some instant of the run so far, not before `since`. */
  ghost predicate WasTrue<V(!new)>(states: seq<State<V>>, n: nat, key: string, answer: Option<V>, since: int)
    requires n < |states|
  {
    exists j :: 0 <= j <= n && since <= states[j].clock && Answer(states[j].table, key) == answer
  }

  lemma StaysTrue<V(!new)>(states: seq<State<V>>, m: nat, n: nat, key: string, answer: Option<V>, since: int, since': int)
    requires m <= n < |states| && since' <= since && WasTrue(states, m, key, answer, since)
    ensures WasTrue(states, n, key, answer, since')
  {
  }

  ghost predicate SelectedOk<V(!new)>(states: seq<State<V>>, n: nat)
    requires n < |states|
  {
    forall i :: i in states[n].lookups && states[n].lookups[i].Selected? ==>
      var l := states[n].lookups[i]; WasTrue(states, n, l.key, l.answer, l.at)
  }

  ghost predicate EntriesOk<V(!new)>(p: Policy, states: seq<State<V>>, n: nat, delay: nat)
    requires n < |states|
  {
    forall key :: key in states[n].cache ==>
      var e := states[n].cache[key]; WasTrue(states, n, key, e.answer, e.expires - p.ttl - delay)
  }

  lemma {:induction false} SelectedWasTrue<V(!new)>(p: Policy, states: seq<State<V>>, actions: seq<Action<V>>, n: nat)
    requires IsRun(p, states, actions) && n < |states|
    ensures SelectedOk(states, n)
  {
    if n > 0 {
      SelectedWasTrue(p, states, actions, n - 1);
      assert Next(p, states[n - 1], actions[n - 1], states[n]);
      forall i | i in states[n].lookups && states[n].lookups[i].Selected?
        ensures var l := states[n].lookups[i]; WasTrue(states, n, l.key, l.answer, l.at)
      {
        var l := states[n].lookups[i];
        if actions[n - 1] == Selects(i) {
          assert states[n].clock == l.at && Answer(states[n].table, l.key) == l.answer;
        } else {
          assert i in states[n - 1].lookups && states[n - 1].lookups[i] == l;
          StaysTrue(states, n - 1, n, l.key, l.answer, l.at, l.at);
        }
      }
    }
  }

  lemma NewEntryIsSet<V(!new)>(p: Policy, s: State<V>, a: Action<V>, s': State<V>, key: string)
    requires Next(p, s, a, s') && key in s'.cache && !(key in s.cache && s.cache[key] == s'.cache[key])
    ensures a.Sets? && a.i in s.lookups && s.lookups[a.i].Selected? && s.lookups[a.i].key == key
    ensures s'.cache[key] == Entry(s.lookups[a.i].answer, s.clock + p.ttl)
  {
  }

  lemma EntryWasTrue<V(!new)>(p: Policy, states: seq<State<V>>, actions: seq<Action<V>>, n: nat, delay: nat, key: string)
    requires IsRun(p, states, actions) && Prompt(states, actions, delay) && 0 < n < |states|
    requires EntriesOk(p, states, n - 1, delay) && key in states[n].cache
    ensures var e := states[n].cache[key]; WasTrue(states, n, key, e.answer, e.expires - p.ttl - delay)
  {
    assert Next(p, states[n - 1], actions[n - 1], states[n]);
    var e := states[n].cache[key];
    if key in states[n - 1].cache && states[n - 1].cache[key] == e {
      StaysTrue(states, n - 1, n, key, e.answer, e.expires - p.ttl - delay, e.expires - p.ttl - delay);
    } else {
      NewEntryIsSet(p, states[n - 1], actions[n - 1], states[n], key);
      var l := states[n - 1].lookups[actions[n - 1].i];
      SelectedWasTrue(p, states, actions, n - 1);
      StaysTrue(states, n - 1, n, key, e.answer, l.at, e.expires - p.ttl - delay);
    }
  }

  lemma {:induction false} EntriesWereTrue<V(!new)>(p: Policy, states: seq<State<V>>, actions: seq<Action<V>>, n: nat, delay: nat)
    requires IsRun(p, states, actions) && Prompt(states, actions, delay) && n < |states|
    ensures EntriesOk(p, states, n, delay)
  {
    if n > 0 {
      EntriesWereTrue(p, states, actions, n - 1, delay);
      forall key | key in states[n].cache
        ensures var e := states[n].cache[key]; WasTrue(states, n, key, e.answer, e.expires - p.ttl - delay)
      {
        EntryWasTrue(p, states, actions, n, delay, key);
      }
    }
  }

  /** Bounded staleness, whatever interleaves, fails or gets lost: an answer served on a hit was the
      table's answer at some instant no longer ago than the time to live plus the longest
      SELECT-to-SET delay. Invalidations play no part in the bound. */
  lemma HitIsRecent<V(!new)>(p: Policy, states: seq<State<V>>, actions: seq<Action<V>>, n: nat, delay: nat, i: nat, key: string)
    requires IsRun(p, states, actions) && Prompt(states, actions, delay) && n < |actions|
    requires actions[n] == Gets(i, key) && IsHit(states[n], key)
    ensures i in states[n + 1].lookups && states[n + 1].lookups[i].Answered?
    ensures WasTrue(states, n, key, states[n + 1].lookups[i].answer, states[n].clock - p.ttl - delay)
  {
    assert Next(p, states[n], actions[n], states[n + 1]);
    EntriesWereTrue(p, states, actions, n, delay);
    var e := states[n].cache[key];
    StaysTrue(states, n, n, key, e.answer, e.expires - p.ttl - delay, states[n].clock - p.ttl - delay);
  }

  /** On the other path the answer is the table's at the SELECT. */
  lemma MissIsSelected<V(!new)>(p: Policy, states: seq<State<V>>, actions: seq<Action<V>>, n: nat, i: nat)
    requires IsRun(p, states, actions) && n < |actions| && actions[n] in {Sets(i), SetFails(i)}
    ensures i in states[n].lookups && states[n].lookups[i].Selected? && i in states[n + 1].lookups
    ensures var l := states[n].lookups[i];
      states[n + 1].lookups[i] == Answered(l.key, l.answer) && WasTrue(states, n, l.key, l.answer, l.at)
  {
    assert Next(p, states[n], actions[n], states[n + 1]);
    SelectedWasTrue(p, states, actions, n);
  }

  /** The answer "no row" is never cached where the policy says so. */
  lemma {:induction false} AbsenceIsNotCached<V(!new)>(p: Policy, states: seq<State<V>>, actions: seq<Action<V>>, n: nat, key: string)
    requires IsRun(p, states, actions) && n < |states| && !p.cacheAbsent && key in states[n].cache
    ensures states[n].cache[key].answer.Some?
  {
    if n > 0 {
      assert Next(p, states[n - 1], actions[n - 1], states[n]);
      if key in states[n - 1].cache {
        AbsenceIsNotCached(p, states, actions, n - 1, key);
      }
    }
  }

  // ----- coherence -------------------------------------------------------------------------------------

  predicate Changes<V>(a: Action<V>) {
    a.Writes? || a.Removes?
  }

  /** No row changes while a lookup of its key is between SELECT and SET. */
  ghost predicate Undisturbed<V(!new)>(states: seq<State<V>>, actions: seq<Action<V>>) {
    |states| == |actions| + 1 &&
    forall n :: 0 <= n < |actions| && Changes(actions[n]) ==>
      forall i :: i in states[n].lookups && states[n].lookups[i].Selected? ==> states[n].lookups[i].key != actions[n].key
  }

  /** Keys changed and not invalidated since. */
  function Open<V>(actions: seq<Action<V>>, n: nat): set<string>
    requires n <= |actions|
  {
    if n == 0 then {}
    else if Changes(actions[n - 1]) then Open(actions, n - 1) + {actions[n - 1].key}
    else if actions[n - 1].Invalidates? then Open(actions, n - 1) - {actions[n - 1].key}
    else Open(actions, n - 1)
  }

  /** Entries and pending write-backs agree with the table, except for the given keys' entries. */
  ghost predicate Coherent<V(!new)>(s: State<V>, except: set<string>) {
    && (forall key :: key in s.cache && key !in except ==> s.cache[key].answer == Answer(s.table, key))
    && (forall i :: i in s.lookups && s.lookups[i].Selected? ==> s.lookups[i].answer == Answer(s.table, s.lookups[i].key))
  }

  lemma {:induction false} UndisturbedIsCoherent<V(!new)>(p: Policy, states: seq<State<V>>, actions: seq<Action<V>>, n: nat)
    requires IsRun(p, states, actions) && Undisturbed(states, actions) && n < |states|
    ensures Coherent(states[n], Open(actions, n))
  {
    if n > 0 {
      UndisturbedIsCoherent(p, states, actions, n - 1);
      CoherentStep(p, states[n - 1], actions[n - 1], states[n], Open(actions, n - 1), Open(actions, n));
    }
  }

  lemma CoherentStep<V(!new)>(p: Policy, s: State<V>, a: Action<V>, s': State<V>, before: set<string>, after: set<string>)
    requires Next(p, s, a, s') && Coherent(s, before)
    requires Changes(a) ==>
      forall i :: i in s.lookups && s.lookups[i].Selected? ==> s.lookups[i].key != a.key
    requires after == if Changes(a) then before + {a.key} else if a.Invalidates? then before - {a.key} else before
    ensures Coherent(s', after)
  {
  }

  /** Then every hit on a key that is not awaiting its invalidation serves the table's current answer. */
  lemma SettledHitIsCurrent<V(!new)>(p: Policy, states: seq<State<V>>, actions: seq<Action<V>>, n: nat, i: nat, key: string)
    requires IsRun(p, states, actions) && Undisturbed(states, actions) && n < |actions|
    requires actions[n] == Gets(i, key) && IsHit(states[n], key) && key !in Open(actions, n)
    ensures i in states[n + 1].lookups
    ensures states[n + 1].lookups[i] == Answered(key, Answer(states[n].table, key))
  {
    assert Next(p, states[n], actions[n], states[n + 1]);
    UndisturbedIsCoherent(p, states, actions, n);
  }

  /** Past its start, the run never sees the given answer for the key again. */
  ghost predicate OnlyEarly<V(!new)>(states: seq<State<V>>, key: string, answer: Option<V>) {
    forall j :: 0 <= j < |states| && Answer(states[j].table, key) == answer ==> states[j].clock <= 0
  }

  /** A run, one step longer. */
  lemma Then<V(!new)>(p: Policy, states: seq<State<V>>, actions: seq<Action<V>>, a: Action<V>, s': State<V>, key: string, answer: Option<V>)
    returns (states': seq<State<V>>, actions': seq<Action<V>>)
    requires IsRun(p, states, actions) && Next(p, states[|actions|], a, s')
    requires OnlyEarly(states, key, answer) && (s'.clock <= 0 || Answer(s'.table, key) != answer)
    ensures IsRun(p, states', actions') && states'[|actions'|] == s'
    ensures OnlyEarly(states', key, answer)
  {
    states', actions' := states + [s'], actions + [a];
  }

  /** A change, promptly invalidated, between a lookup's SELECT and SET. */
  lemma ChangedAfterSelect<V(!new)>(p: Policy, key: string, before: V, after: V)
    returns (states: seq<State<V>>, actions: seq<Action<V>>)
    requires before != after
    ensures IsRun(p, states, actions) && OnlyEarly(states, key, Some(before))
    ensures states[|actions|] == State(0, map[key := after], map[], map[0 := Selected(key, true, Some(before), 0)])
  {
    var t0, t1 := map[key := before], map[key := after];
    var o := Some(before);
    var l1: Lookup<V> := Missed(key, true);
    var l2 := Selected(key, true, o, 0);
    states, actions := [State(0, t0, map[], map[])], [];
    states, actions := Then(p, states, actions, Gets(0, key), State(0, t0, map[], map[0 := l1]), key, o);
    states, actions := Then(p, states, actions, Selects(0), State(0, t0, map[], map[0 := l2]), key, o);
    states, actions := Then(p, states, actions, Writes(key, after), State(0, t1, map[], map[0 := l2]), key, o);
    states, actions := Then(p, states, actions, Invalidates(key), State(0, t1, map[], map[0 := l2]), key, o);
  }

  /** That condition is needed, and the bound is tight: with such a change and a late SET the old
      answer is still served the whole time to live plus the delay after it was last true. */
  lemma WriteBackOvertakesInvalidation<V(!new)>(p: Policy, key: string, before: V, after: V, delay: nat)
    returns (states: seq<State<V>>, actions: seq<Action<V>>)
    requires before != after
    ensures IsRun(p, states, actions)
    ensures OnlyEarly(states, key, Some(before))
    ensures var end := states[|actions|];
      && end.clock == p.ttl + delay
      && Answer(end.table, key) == Some(after) && 1 in end.lookups && end.lookups[1] == Answered(key, Some(before))
  {
    var table := map[key := after];
    var o := Some(before);
    var l2 := Selected(key, true, o, 0);
    var l3 := Answered(key, o);
    var cache := map[key := Entry(o, delay + p.ttl)];
    states, actions := ChangedAfterSelect(p, key, before, after);
    states, actions := Then(p, states, actions, Waits(delay), State(delay, table, map[], map[0 := l2]), key, o);
    states, actions := Then(p, states, actions, Sets(0), State(delay, table, cache, map[0 := l3]), key, o);
    states, actions := Then(p, states, actions, Waits(p.ttl), State(delay + p.ttl, table, cache, map[0 := l3]), key, o);
    states, actions := Then(p, states, actions, Gets(1, key), State(delay + p.ttl, table, cache, map[0 := l3, 1 := l3]), key, o);
  }
}
