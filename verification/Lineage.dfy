/**
 How a validation error travels: from the session's error list through `_flatten_invalid` and the
 `_extras` carrier of the audit row, back out of `_row_to_event`. The JSON text itself is left to the
 database; documents are values.
 */
module Lineage {
  import opened Prelude
  import opened Registry
  import G = PolicyGraph

  /** `_finding_ref`. */
  function FindingRef(tenant: string, findingId: string): Json {
    JObj(map["tenant_id" := JStr(tenant), "finding_id" := JStr(findingId)])
  }

  /** `AuditEventWriter.write`: an error rides in `_extras`, unless the document already has one. */
  function WithError(finding: Json, error: Json): Json {
    if finding.JObj? && "_extras" !in finding.fields
    then JObj(finding.fields["_extras" := JObj(map["error" := error])])
    else finding
  }

  function Names(ss: seq<string>): (items: seq<Json>)
    ensures |items| == |ss| && forall i :: 0 <= i < |ss| ==> items[i] == JStr(ss[i])
  {
    seq(|ss|, i requires 0 <= i < |ss| => JStr(ss[i]))
  }

  /** Names in the errors' `invalid_signals` details, in order. */
  function Flatten(errors: seq<G.ValidationError>): seq<string> {
    if errors == [] then [] else InvalidIn(errors[0]) + Flatten(errors[1..])
  }

  function InvalidIn(e: G.ValidationError): seq<string> {
    if e.details.Some? && e.details.value.InvalidSignals? then e.details.value.names else []
  }

  lemma {:induction false} FlattenConcat(a: seq<G.ValidationError>, b: seq<G.ValidationError>)
    ensures Flatten(a + b) == Flatten(a) + Flatten(b)
  {
    if a == [] {
      assert a + b == b;
    } else {
      assert (a + b)[1..] == a[1..] + b;
      FlattenConcat(a[1..], b);
    }
  }

  /** `_flatten_invalid`. */
  method FlattenInvalid(errors: seq<G.ValidationError>) returns (out: seq<string>)
    ensures out == Flatten(errors)
  {
    out := [];
    for i := 0 to |errors|
      invariant out == Flatten(errors[..i])
    {
      assert errors[..i + 1] == errors[..i] + [errors[i]];
      FlattenConcat(errors[..i], [errors[i]]);
      assert [errors[i]][1..] == [];
      if errors[i].details.Some? && errors[i].details.value.InvalidSignals? {
        out := out + errors[i].details.value.names;
      }
    }
    assert errors[..|errors|] == errors;
  }

  /** The error of a dead letter, and of a run that raised. */
  function ValidationFailed(errors: seq<G.ValidationError>): Json {
    JObj(map["code" := JStr("VALIDATION_FAILED"),
             "details" := JObj(map["invalid_signals" := JArr(Names(Flatten(errors)))])])
  }

  const RUNNER_ERROR := JObj(map["code" := JStr("GRAPH_RUNNER_ERROR")])

  // ----- reading an event back ----------------------------------------------------------------------

  function Get(doc: Json, field: string): Option<Json> {
    if doc.JObj? && field in doc.fields then Some(doc.fields[field]) else None
  }

  /** The `error` of `_row_to_event`. */
  function ErrorOf(finding: Json): Option<Json> {
    match Get(finding, "_extras")
    case Some(extras) => Get(extras, "error")
    case None => None
  }

  /** The invalid signals an event names, for a reader of the audit trail. */
  function NamedInvalid(finding: Json): Option<seq<Json>> {
    match ErrorOf(finding)
    case Some(error) =>
      (match Get(error, "details")
       case Some(details) =>
         (match Get(details, "invalid_signals") case Some(JArr(items)) => Some(items) case _ => None)
       case None => None)
    case None => None
  }

  /** What redaction leaves alone. */
  function Core(doc: Json): map<string, Json> {
    if doc.JObj? then doc.fields - {"redacted_subject"} else map[]
  }

  lemma RedactionKeepsCore(doc: Json, subject: string)
    ensures Core(Redacted(doc, subject)) == Core(doc)
  {
  }

  lemma ErrorIsInCore(a: Json, b: Json)
    requires Core(a) == Core(b)
    ensures NamedInvalid(a) == NamedInvalid(b)
  {
    assert "_extras" in Core(a) <==> a.JObj? && "_extras" in a.fields;
    assert "_extras" in Core(b) <==> b.JObj? && "_extras" in b.fields;
  }

  /** The errors of a parsed policy flatten to exactly its out-of-vocabulary names. */
  lemma FlattenOfErrors(voc: G.Vocabulary, p: PolicySpec)
    ensures Flatten(G.ErrorsOf(voc, p)) == G.Unknown(voc.names, p.signals)
  {
    var a, b, c := G.VocabularyErrors(voc, p), G.GovernanceErrors(voc, p), G.WindowErrors(p);
    FlattenConcat(a + b, c);
    FlattenConcat(a, b);
    assert forall e: G.ValidationError :: [e][1..] == [];
    assert Flatten(a) == G.Unknown(voc.names, p.signals);
    assert Flatten(b) == [] && Flatten(c) == [];
  }

  /** Round trip: the rejected event of a dead letter, read back after any number of redactions,
      names exactly the out-of-vocabulary signals of the last draft if that parsed, in its order and
      multiplicity, and none if it did not parse. */
  lemma RejectionNamesTheSignals(voc: G.Vocabulary, draft: G.Draft, tenant: string, findingId: string, read: Json)
    requires Core(read) == Core(WithError(FindingRef(tenant, findingId), ValidationFailed(G.NodeErrors(voc, draft))))
    ensures NamedInvalid(read) == Some(Names(if G.Parses(draft) then G.Unknown(voc.names, draft.spec.signals) else []))
  {
    var errors := G.NodeErrors(voc, draft);
    var written := WithError(FindingRef(tenant, findingId), ValidationFailed(errors));
    assert "_extras" != "tenant_id" && "_extras" != "finding_id" by {
      assert |"_extras"| == 7 && |"tenant_id"| == 9 && |"finding_id"| == 10;
    }
    assert ErrorOf(written) == Some(ValidationFailed(errors));
    assert "code" != "details" by { assert |"code"| == 4 && |"details"| == 7; }
    assert NamedInvalid(written) == Some(Names(Flatten(errors)));
    ErrorIsInCore(written, read);
    if G.Parses(draft) {
      FlattenOfErrors(voc, draft.spec);
    } else {
      assert |errors| == 1 && errors[1..] == [];
      assert Flatten(errors[1..]) == [];
      assert Flatten(errors) == [];
    }
  }
}
