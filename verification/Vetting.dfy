/**
 From the validator to the registry: what validation promises of a draft holds of every policy row
 that any run ever commits.
 */
module Vetting {
  import opened Prelude
  import opened Registry
  import opened Pipeline
  import G = PolicyGraph
  import L = Lineage

  /** What the retry loop guarantees of a finished run: it carries the errors of its last draft, and
      completes only with a draft that passed. */
  ghost predicate Vetted(voc: G.Vocabulary, run: G.GraphRun) {
    run.errors == G.NodeErrors(voc, run.policy) && (run.completed ==> G.Passes(voc, run.policy))
  }

  ghost predicate GraphVets(voc: G.Vocabulary, a: Action) {
    a.TaskDoes? && a.event.Returns? ==> Vetted(voc, a.event.run)
  }

  ghost predicate TasksVetted(voc: G.Vocabulary, s: State) {
    forall i :: i in s.tasks && s.tasks[i].run.Some? ==> Vetted(voc, s.tasks[i].run.value)
  }

  /** `CollectMindGraph.run` keeps that promise. */
  method RunGraph(session: G.Session, voc: G.Vocabulary, gen: nat -> Option<G.Draft>, reply: G.CollectorReply, freshId: string)
    returns (run: Option<G.GraphRun>)
    modifies session
    ensures run.Some? ==> Vetted(voc, run.value) && G.WellFormedRun(session.tenant, run.value)
  {
    var generated, deployed;
    run, generated, deployed := G.Run(session, voc, gen, reply, freshId);
  }

  lemma StepVets(voc: G.Vocabulary, s: State, a: Action, s': State)
    requires TasksVetted(voc, s) && Next(s, a, s') && GraphVets(voc, a)
    ensures TasksVetted(voc, s')
  {
    if a.TaskDoes? {
      RunOfStep(s.tables, s.tasks[a.task], a.event);
    }
  }

  lemma RunOfStep(t: Tables, k: Task, e: Event)
    requires Enabled(k, e)
    ensures StepTask(t, k, e).1.run == if e.Returns? then Some(e.run) else k.run
  {
  }

  lemma {:induction false} RunVets(voc: G.Vocabulary, states: seq<State>, actions: seq<Action>, n: nat)
    requires IsRun(states, actions) && n < |states| && forall m :: 0 <= m < |actions| ==> GraphVets(voc, actions[m])
    ensures TasksVetted(voc, states[n])
  {
    if n > 0 {
      RunVets(voc, states, actions, n - 1);
      StepVets(voc, states[n - 1], actions[n - 1], states[n]);
    }
  }

  /** A policy row lists the signals of the policy its owner generated. */
  ghost predicate SignalsKept(s: State, key: PolicyKey) {
    && key in s.tables.policies && key in s.owner && s.owner[key] in s.tasks
    && Chosen(s.tasks[s.owner[key]])
    && s.tables.policies[key].signals == s.tasks[s.owner[key]].run.value.policy.spec.signals
  }

  lemma NewRow(t: Tables, k: Task, e: Event, key: PolicyKey)
    requires Enabled(k, e) && key !in t.policies && key in StepTask(t, k, e).0.policies
    ensures var (t', k') := StepTask(t, k, e);
      && k.pc != PolicyStored && k'.pc == PolicyStored && k'.run == k.run && Chosen(k') && Key(k') == key
      && t'.policies[key].signals == k'.run.value.policy.spec.signals
  {
    assert e.Proceeds? && AuditOf(k).None? && k.pc == GeneratedWritten;
  }

  lemma StepKeepsSignals(s: State, a: Action, s': State, key: PolicyKey)
    requires Next(s, a, s') && StateExtends(s, s') && key in s'.tables.policies
    requires key in s.tables.policies ==> SignalsKept(s, key)
    ensures SignalsKept(s', key)
  {
    if key in s.tables.policies {
      assert Continues(s.tasks[s.owner[key]], s'.tasks[s.owner[key]]);
    } else {
      OnlyTasksInsert(s, a, s', key);
      NewRow(s.tables, s.tasks[a.task], a.event, key);
    }
  }

  lemma OnlyTasksInsert(s: State, a: Action, s': State, key: PolicyKey)
    requires Next(s, a, s') && key !in s.tables.policies && key in s'.tables.policies
    ensures a.TaskDoes?
  {
    if a.WorkerDoes? {
      WorkerTables(s.tables, s.workers[a.worker], a.action);
    }
  }

  lemma {:induction false} SignalsAreKept(states: seq<State>, actions: seq<Action>, n: nat, key: PolicyKey)
    requires IsRun(states, actions) && n < |states| && key in states[n].tables.policies
    ensures SignalsKept(states[n], key)
  {
    if n > 0 {
      if key in states[n - 1].tables.policies {
        SignalsAreKept(states, actions, n - 1, key);
      }
      NextTakesNothingBack(states, actions, n - 1);
      StepKeepsSignals(states[n - 1], actions[n - 1], states[n], key);
    }
  }

  /** In every run, every policy in the registry lists only signals of the vocabulary, and names a
      personal one only with consent, whatever interleaves, fails or is erased. */
  lemma EveryStoredPolicyIsVetted(voc: G.Vocabulary, states: seq<State>, actions: seq<Action>, n: nat, key: PolicyKey)
    requires IsRun(states, actions) && n < |states| && key in states[n].tables.policies
    requires forall m :: 0 <= m < |actions| ==> GraphVets(voc, actions[m])
    ensures SignalsKept(states[n], key)
    ensures var row := states[n].tables.policies[key];
      var spec := states[n].tasks[states[n].owner[key]].run.value.policy.spec;
      && (forall x :: x in row.signals ==> x in voc.names)
      && (forall x :: x in row.signals && G.Pii(voc, x) ==> spec.piiConsent && spec.hasPiiSignal)
  {
    SignalsAreKept(states, actions, n, key);
    RunVets(voc, states, actions, n);
    G.PassesIff(voc, states[n].tasks[states[n].owner[key]].run.value.policy);
  }

  /** In every run, every dead letter's first rejected row names exactly the out-of-vocabulary signals of
      its last draft, to every later reader. */
  lemma EveryRejectionIsLegible(voc: G.Vocabulary, states: seq<State>, actions: seq<Action>, n: nat, m: nat, i: nat)
    requires IsRun(states, actions) && n < |actions| && n < m < |states|
    requires forall l :: 0 <= l < |actions| ==> GraphVets(voc, actions[l])
    requires actions[n].TaskDoes? && actions[n].event.Proceeds? && actions[n].task == i && i in states[n].tasks
    requires var k := states[n].tasks[i];
      k.pc == GeneratedWritten && k.run.Some? && !k.run.value.completed && (k.correlation, KRejected) !in states[n].tables.audit
    ensures var k := states[n].tasks[i];
      && (k.correlation, KRejected) in states[m].tables.audit
      && L.NamedInvalid(states[m].tables.audit[(k.correlation, KRejected)].finding)
         == Some(L.Names(if G.Parses(k.run.value.policy) then G.Unknown(voc.names, k.run.value.policy.spec.signals) else []))
  {
    RunVets(voc, states, actions, n);
    RejectionIsLegible(states, actions, n, m, i, voc);
  }
}
