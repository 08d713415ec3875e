/**
 One policy-generation session: the generate / validate / deploy loop with its retry budget
 (`graph/build.py`, `orchestrator.py`, `session.py`, the validator and deployer nodes) over the
 policy validator (`validator/policy_validator.py`). The generator and the collector are arbitrary.
 */
module PolicyGraph {
  import opened Prelude
  import opened Registry
  import opened Ordering
  import Vss

  // ----- the validator --------------------------------------------------------------------------

  datatype Details = InvalidSignals(names: seq<string>) | FlaggedSignals(flagged: seq<string>) | WindowValue(hours: int)

  /** A validation error as the session stores it; a schema failure carries no details. */
  datatype ValidationError = ValidationError(code: string, field: string, details: Option<Details>)

  datatype Vocabulary = Vocabulary(names: set<string>, branches: seq<string>, prefixMatch: bool)

  /** Out-of-vocabulary names in the order and multiplicity the policy lists them. */
  function Unknown(names: set<string>, signals: seq<string>): seq<string> {
    if signals == [] then []
    else (if signals[0] in names then [] else [signals[0]]) + Unknown(names, signals[1..])
  }

  ghost predicate Pii(voc: Vocabulary, signal: string) {
    Vss.IsPii(voc.branches, voc.prefixMatch, signal)
  }

  /** The personal signals, sorted and without repetitions. */
  ghost function Flagged(voc: Vocabulary, signals: seq<string>): seq<string> {
    if signals == [] then []
    else
      var before, last := Flagged(voc, signals[..|signals| - 1]), signals[|signals| - 1];
      if Pii(voc, last) then Inserted(before, last) else before
  }

  lemma {:induction false} FlaggedIs(voc: Vocabulary, signals: seq<string>)
    ensures Sorted(Flagged(voc, signals))
    ensures forall s :: s in Flagged(voc, signals) <==> s in signals && Pii(voc, s)
  {
    if signals != [] {
      var n := |signals| - 1;
      FlaggedIs(voc, signals[..n]);
      InsertedIs(Flagged(voc, signals[..n]), signals[n]);
      assert signals == signals[..n] + [signals[n]];
    }
  }

  ghost function VocabularyErrors(voc: Vocabulary, p: PolicySpec): seq<ValidationError> {
    var unknown := Unknown(voc.names, p.signals);
    if unknown == [] then [] else [ValidationError("VSS_INVALID_SIGNAL", "signals", Some(InvalidSignals(unknown)))]
  }

  ghost function GovernanceErrors(voc: Vocabulary, p: PolicySpec): seq<ValidationError> {
    var flagged := Flagged(voc, p.signals);
    if flagged == [] then []
    else if !p.piiConsent then
      [ValidationError("PII_CONSENT_REQUIRED", "data_governance_flags", Some(FlaggedSignals(flagged)))]
    else if !p.hasPiiSignal then
      [ValidationError("PII_FLAG_INCONSISTENT", "data_governance_flags.has_pii_signal", Some(FlaggedSignals(flagged)))]
    else []
  }

  function WindowErrors(p: PolicySpec): seq<ValidationError> {
    if 1 <= p.windowHours <= 168 then []
    else [ValidationError("WINDOW_OUT_OF_BOUNDS", "collection_window_hours", Some(WindowValue(p.windowHours)))]
  }

  ghost function ErrorsOf(voc: Vocabulary, p: PolicySpec): seq<ValidationError> {
    VocabularyErrors(voc, p) + GovernanceErrors(voc, p) + WindowErrors(p)
  }

  lemma {:induction false} UnknownConcat(names: set<string>, a: seq<string>, b: seq<string>)
    ensures Unknown(names, a + b) == Unknown(names, a) + Unknown(names, b)
  {
    if a == [] {
      assert a + b == b;
    } else {
      assert (a + b)[1..] == a[1..] + b;
      UnknownConcat(names, a[1..], b);
    }
  }

  method FindUnknown(names: set<string>, signals: seq<string>) returns (invalid: seq<string>)
    ensures invalid == Unknown(names, signals)
  {
    invalid := [];
    for i := 0 to |signals|
      invariant invalid == Unknown(names, signals[..i])
    {
      assert signals[..i + 1] == signals[..i] + [signals[i]];
      UnknownConcat(names, signals[..i], [signals[i]]);
      if signals[i] !in names {
        invalid := invalid + [signals[i]];
      }
    }
    assert signals[..|signals|] == signals;
  }

  /** `PolicyValidator.validate` without the close-match suggestions. */
  method Validate(voc: Vocabulary, p: PolicySpec) returns (errors: seq<ValidationError>)
    ensures errors == ErrorsOf(voc, p)
  {
    errors := [];
    var invalid := FindUnknown(voc.names, p.signals);
    if invalid != [] {
      errors := errors + [ValidationError("VSS_INVALID_SIGNAL", "signals", Some(InvalidSignals(invalid)))];
    }
    var flagged := EvaluateSignals(voc, p.signals);
    if flagged != [] && !p.piiConsent {
      errors := errors + [ValidationError("PII_CONSENT_REQUIRED", "data_governance_flags", Some(FlaggedSignals(flagged)))];
    } else if flagged != [] && !p.hasPiiSignal {
      errors := errors +
        [ValidationError("PII_FLAG_INCONSISTENT", "data_governance_flags.has_pii_signal", Some(FlaggedSignals(flagged)))];
    }
    if !(1 <= p.windowHours <= 168) {
      errors := errors + [ValidationError("WINDOW_OUT_OF_BOUNDS", "collection_window_hours", Some(WindowValue(p.windowHours)))];
    }
  }

  /** `evaluate_signals`: sorted, and exactly the personal ones. */
  method EvaluateSignals(voc: Vocabulary, signals: seq<string>) returns (flagged: seq<string>)
    ensures flagged == Flagged(voc, signals)
    ensures Sorted(flagged) && forall s :: s in flagged <==> s in signals && Pii(voc, s)
  {
    flagged := [];
    for i := 0 to |signals|
      invariant flagged == Flagged(voc, signals[..i])
    {
      assert signals[..i + 1][..i] == signals[..i];
      FlaggedIs(voc, signals[..i]);
      var pii := Vss.CheckPii(voc.branches, voc.prefixMatch, signals[i]);
      if pii {
        var more := Insert(flagged, signals[i]);
        InsertedIs(flagged, signals[i]);
        SortedIsUnique(more, Inserted(flagged, signals[i]));
        flagged := more;
      }
    }
    assert signals[..|signals|] == signals;
    FlaggedIs(voc, signals);
  }

  // ----- the session and its nodes ---------------------------------------------------------------

  /** What a generator call leaves in the session: fields that form a policy record, or any other JSON
      value, with its `policy_id` and `version` if it is an object that has both. */
  datatype Draft = Malformed(ids: Option<(string, string)>) | Fields(spec: PolicySpec)

  predicate HasIds(d: Draft) {
    d.Fields? || d.ids.Some?
  }

  /** `policy_ref` of the draft. */
  function RefOf(tenant: string, d: Draft): PolicyKey
    requires HasIds(d)
  {
    match d
    case Fields(spec) => KeyOf(tenant, spec)
    case Malformed(ids) => PolicyKey(tenant, ids.value.0, ids.value.1)
  }

  datatype DeploymentRecord = DeploymentRecord(id: string, row: DeploymentRow)

  /** The collector raises, or answers; `accepted` is status == "accepted". */
  datatype CollectorReply = Raises | Answers(id: string, accepted: bool, expiresAt: Option<int>)

  /** `CollectionPolicySpec.model_validate` succeeds. */
  predicate Parses(d: Draft) {
    d.Fields? && SchemaOk(d.spec)
  }

  /** A draft the validator node lets through to deployment. */
  ghost predicate Passes(voc: Vocabulary, d: Draft) {
    Parses(d) && ErrorsOf(voc, d.spec) == []
  }

  lemma {:induction false} UnknownMembers(names: set<string>, signals: seq<string>)
    ensures forall x :: x in Unknown(names, signals) <==> x in signals && x !in names
  {
    if signals != [] {
      UnknownMembers(names, signals[1..]);
      assert signals == [signals[0]] + signals[1..];
    }
  }

  /** What passing validation means: the draft parses, every signal is in the vocabulary, and if one
      of them is personal the policy both has consent and says so. */
  lemma PassesIff(voc: Vocabulary, d: Draft)
    ensures Passes(voc, d) <==>
      && Parses(d)
      && (forall x :: x in d.spec.signals ==> x in voc.names)
      && ((exists x :: x in d.spec.signals && Pii(voc, x)) ==> d.spec.piiConsent && d.spec.hasPiiSignal)
  {
    if Parses(d) {
      var signals := d.spec.signals;
      UnknownMembers(voc.names, signals);
      assert Unknown(voc.names, signals) == [] <==> forall x :: x in signals ==> x in voc.names by {
        if Unknown(voc.names, signals) != [] {
          assert Unknown(voc.names, signals)[0] in Unknown(voc.names, signals);
        }
      }
      FlaggedIs(voc, signals);
      if x :| x in signals && Pii(voc, x) {
        assert x in Flagged(voc, signals);
      } else if Flagged(voc, signals) != [] {
        assert Flagged(voc, signals)[0] in Flagged(voc, signals);
      }
    }
  }

  ghost function NodeErrors(voc: Vocabulary, d: Draft): seq<ValidationError> {
    if Parses(d) then ErrorsOf(voc, d.spec)
    else [ValidationError("SCHEMA_VALIDATION_FAILED", "generated_policy", None)]
  }

  datatype Route = Deploy | Retry | DeadLetter

  class Session {
    const tenant: string
    var retryCount: int
    const retryBudget: int
    var validationErrors: seq<ValidationError>
    var generatedPolicy: Option<Draft>
    var deploymentRecord: Option<DeploymentRecord>

    constructor (tenant: string, retryCount: int, retryBudget: int)
      ensures this.tenant == tenant && this.retryCount == retryCount && this.retryBudget == retryBudget
      ensures validationErrors == [] && generatedPolicy == None && deploymentRecord == None
    {
      this.tenant, this.retryCount, this.retryBudget := tenant, retryCount, retryBudget;
      validationErrors, generatedPolicy, deploymentRecord := [], None, None;
    }

    /** The validator node: the errors of the latest draft replace whatever was there. */
    method ValidateDraft(voc: Vocabulary) returns (ok: bool)
      requires generatedPolicy.Some?
      modifies this`validationErrors
      ensures ok <==> Passes(voc, generatedPolicy.value)
      ensures ok <==> validationErrors == []
      ensures validationErrors == NodeErrors(voc, generatedPolicy.value)
    {
      var draft := generatedPolicy.value;
      if !Parses(draft) {
        validationErrors := [ValidationError("SCHEMA_VALIDATION_FAILED", "generated_policy", None)];
        return false;
      }
      validationErrors := Validate(voc, draft.spec);
      return validationErrors == [];
    }

    method RouteAfterValidation(valid: bool) returns (route: Route)
      modifies this`retryCount
      ensures route == if valid then Deploy else if old(retryCount) >= retryBudget then DeadLetter else Retry
      ensures retryCount == old(retryCount) + (if route == Retry then 1 else 0)
    {
      if valid {
        return Deploy;
      }
      if retryCount >= retryBudget {
        return DeadLetter;
      }
      retryCount := retryCount + 1;
      return Retry;
    }

    /** The deployer node: the record repeats the policy it was built from. */
    method DeployPolicy(reply: CollectorReply, freshId: string) returns (ok: bool, record: Option<DeploymentRecord>)
      requires generatedPolicy.Some? && generatedPolicy.value.Fields?
      modifies this`deploymentRecord
      ensures ok <==> reply.Answers?
      ensures ok ==> record.Some? && deploymentRecord == record
                     && RecordOf(tenant, generatedPolicy.value.spec, reply, record.value)
      ensures !ok ==> deploymentRecord == old(deploymentRecord) && record == None
    {
      if reply.Raises? {
        return false, None;
      }
      var spec := generatedPolicy.value.spec;
      var row := DeploymentRow(KeyOf(tenant, spec), spec.scope, if reply.accepted then Accepted else Rejected, reply.expiresAt);
      record := Some(DeploymentRecord(if reply.id != "" then reply.id else freshId, row));
      deploymentRecord := record;
      ok := true;
    }
  }

  predicate RecordOf(tenant: string, spec: PolicySpec, reply: CollectorReply, r: DeploymentRecord) {
    && r.row.key == KeyOf(tenant, spec)
    && r.row.scope == spec.scope
    && (r.row.status == Accepted <==> reply.Answers? && reply.accepted)
    && (reply.Answers? ==> r.row.expiresAt == reply.expiresAt && (reply.id != "" ==> r.id == reply.id))
  }

  // ----- the graph ---------------------------------------------------------------------------------

  /** A finished run, as `GraphRun` and the session it carries. */
  datatype GraphRun = GraphRun(
    completed: bool, policy: Draft, record: Option<DeploymentRecord>, errors: seq<ValidationError>, attempts: nat)

  /** What the persistence layer may rely on, whatever the generator and the collector did. */
  predicate WellFormedRun(tenant: string, r: GraphRun) {
    r.completed ==>
      && Parses(r.policy)
      && r.record.Some?
      && r.record.value.row.status == Accepted
      && r.record.value.row.key == KeyOf(tenant, r.policy.spec)
      && r.record.value.row.scope == r.policy.spec.scope
  }

  /** The loop of generator, validator and route: drafts are made until one is deployed or the
      budget is spent. The route is `None` when the generator raises. */
  method GenerateUntilRouted(session: Session, voc: Vocabulary, gen: nat -> Option<Draft>)
    returns (route: Option<Route>, generated: nat)
    modifies session`generatedPolicy, session`validationErrors, session`retryCount
    ensures 1 <= generated <= Max(0, session.retryBudget - old(session.retryCount)) + 1
    ensures forall i :: 0 <= i < generated - 1 ==> gen(i).Some? && !Passes(voc, gen(i).value)
    ensures route.None? <==> gen(generated - 1).None?
    ensures route.Some? ==>
      && session.generatedPolicy == gen(generated - 1)
      && session.validationErrors == NodeErrors(voc, session.generatedPolicy.value)
      && route.value == (if session.validationErrors == [] then Deploy else DeadLetter)
      && (route.value == Deploy <==> Passes(voc, session.generatedPolicy.value))
      && (route.value == DeadLetter ==> generated == Max(0, session.retryBudget - old(session.retryCount)) + 1)
  {
    generated := 0;
    var start := session.retryCount;
    while true
      invariant session.retryCount == start + generated
      invariant generated <= Max(0, session.retryBudget - start)
      invariant forall i :: 0 <= i < generated ==> gen(i).Some? && !Passes(voc, gen(i).value)
      decreases session.retryBudget - session.retryCount
    {
      var draft := gen(generated);
      generated := generated + 1;
      if draft.None? {
        return None, generated;
      }
      session.generatedPolicy := draft;
      var ok := session.ValidateDraft(voc);
      var next := session.RouteAfterValidation(ok);
      if next != Retry {
        return Some(next), generated;
      }
    }
  }

  /** `CollectMindGraph.run`. `gen(i)` is the i-th answer of the generator, `None` when it raises;
      the result is `None` when the run raises. The extra results count the calls made. */
  method Run(session: Session, voc: Vocabulary, gen: nat -> Option<Draft>, reply: CollectorReply, freshId: string)
    returns (run: Option<GraphRun>, generated: nat, deployed: nat)
    modifies session
    ensures 1 <= generated <= Max(0, session.retryBudget - old(session.retryCount)) + 1
    ensures deployed <= 1
    // every attempt before the last one came back and failed validation
    ensures forall i :: 0 <= i < generated - 1 ==> gen(i).Some? && !Passes(voc, gen(i).value)
    // only a policy whose latest validation passed is deployed
    ensures deployed == 1 <==> gen(generated - 1).Some? && Passes(voc, gen(generated - 1).value)
    // the run raises exactly when its generator or its collector did
    ensures run.None? <==> gen(generated - 1).None? || (deployed == 1 && reply.Raises?)
    ensures run.Some? ==>
      && WellFormedRun(session.tenant, run.value)
      && run.value.attempts == generated
      && gen(generated - 1) == Some(run.value.policy)
      && run.value.errors == NodeErrors(voc, run.value.policy)
      // completed exactly when the one deployment was accepted
      && (run.value.completed <==> deployed == 1 && reply.Answers? && reply.accepted)
      // without a deployment, the whole budget was spent
      && (deployed == 0 ==> generated == Max(0, session.retryBudget - old(session.retryCount)) + 1)
      // a dead letter carries no validation errors exactly when the deployment was what failed
      && (!run.value.completed ==> (run.value.errors == [] <==> deployed == 1))
  {
    var route;
    route, generated := GenerateUntilRouted(session, voc, gen);
    if route.None? {
      return None, generated, 0;
    }
    if route.value == DeadLetter {
      return Some(GraphRun(false, session.generatedPolicy.value, session.deploymentRecord, session.validationErrors, generated)),
             generated, 0;
    }
    var record;
    var answered;
    answered, record := session.DeployPolicy(reply, freshId);
    deployed := 1;
    if !answered {
      return None, generated, deployed;
    }
    var accepted := record.value.row.status == Accepted;
    run := Some(GraphRun(accepted, session.generatedPolicy.value, record, session.validationErrors, generated));
  }
}
