/**
 The synthetic telemetry of a deployed policy and the rule that judges it: `TelemetryGenerator.simulate`,
 the NUMERIC(4,3) column the threshold passes through, and `BrakeWearHypothesisRule.evaluate`.
 */
module Evaluator {
  datatype Hypothesis = NoData | Confirmed | RuledOut

  /** Evidence of one evaluation. The score is rounded to three digits in the source, which
      `count / 10` never needs. */
  datatype Verdict = Verdict(state: Hypothesis, count: nat, quality: real, above: nat, below: nat)

  function Above(values: seq<real>, threshold: real): nat {
    if values == [] then 0 else (if values[0] >= threshold then 1 else 0) + Above(values[1..], threshold)
  }

  lemma {:induction false} AboveConcat(a: seq<real>, b: seq<real>, threshold: real)
    ensures Above(a + b, threshold) == Above(a, threshold) + Above(b, threshold)
  {
    if a == [] {
      assert a + b == b;
    } else {
      assert (a + b)[1..] == a[1..] + b;
      AboveConcat(a[1..], b, threshold);
    }
  }

  /** The state the rule promises: a tie between the two sides confirms. */
  function Judge(values: seq<real>, threshold: real): Hypothesis {
    if values == [] then NoData
    else if 2 * Above(values, threshold) >= |values| then Confirmed
    else RuledOut
  }

  method Evaluate(values: seq<real>, threshold: real) returns (v: Verdict)
    ensures v.state == Judge(values, threshold)
    ensures v.count == |values| && v.above + v.below == |values| && v.above == Above(values, threshold)
    ensures v.quality == if |values| >= 10 then 1.0 else |values| as real / 10.0
  {
    var count := |values|;
    if count == 0 {
      return Verdict(NoData, 0, 0.0, 0, 0);
    }
    var above, below := 0, 0;
    for i := 0 to count
      invariant above == Above(values[..i], threshold) && above + below == i
    {
      assert values[..i + 1] == values[..i] + [values[i]];
      AboveConcat(values[..i], [values[i]], threshold);
      if values[i] >= threshold {
        above := above + 1;
      } else {
        below := below + 1;
      }
    }
    assert values[..count] == values;
    var confirmed := above >= below && above > 0;
    var quality := if count as real / 10.0 <= 1.0 then count as real / 10.0 else 1.0;
    return Verdict(if confirmed then Confirmed else RuledOut, count, quality, above, below);
  }

  // ----- what the verdict depends on ---------------------------------------------------------

  lemma AboveWithout(b: seq<real>, i: nat, threshold: real)
    requires i < |b|
    ensures multiset(b[..i] + b[i + 1..]) == multiset(b) - multiset{b[i]}
    ensures Above(b, threshold) == Above(b[..i] + b[i + 1..], threshold) + Above([b[i]], threshold)
  {
    assert b == b[..i] + [b[i]] + b[i + 1..];
    AboveConcat(b[..i], b[i + 1..], threshold);
    AboveConcat(b[..i], [b[i]], threshold);
    AboveConcat(b[..i] + [b[i]], b[i + 1..], threshold);
  }

  lemma WithoutOne(values: seq<real>, i: nat)
    requires i < |values|
    ensures multiset(values[..i] + values[i + 1..]) == multiset(values) - multiset{values[i]}
    ensures |values[..i] + values[i + 1..]| == |values| - 1
  {
    assert values == values[..i] + [values[i]] + values[i + 1..];
  }

  lemma {:induction false} AbovePermutes(a: seq<real>, b: seq<real>, threshold: real)
    requires multiset(a) == multiset(b)
    ensures Above(a, threshold) == Above(b, threshold)
    decreases |a|
  {
    if a == [] {
      assert |multiset(b)| == 0;
    } else {
      assert a[0] in multiset(b);
      var i :| 0 <= i < |b| && b[i] == a[0];
      var a', b' := a[..0] + a[1..], b[..i] + b[i + 1..];
      AboveWithout(a, 0, threshold);
      AboveWithout(b, i, threshold);
      WithoutOne(a, 0);
      WithoutOne(b, i);
      assert multiset(a') == multiset(b');
      AbovePermutes(a', b', threshold);
    }
  }

  /** The order in which observations are read back is irrelevant. */
  lemma JudgePermutes(a: seq<real>, b: seq<real>, threshold: real)
    requires multiset(a) == multiset(b)
    ensures Judge(a, threshold) == Judge(b, threshold)
  {
    AbovePermutes(a, b, threshold);
    assert |a| == |multiset(a)| == |multiset(b)| == |b|;
  }

  /** Two batches that agree are judged alike together. */
  lemma JudgeConcat(a: seq<real>, b: seq<real>, threshold: real)
    requires Judge(a, threshold) == Judge(b, threshold)
    ensures Judge(a + b, threshold) == Judge(a, threshold)
  {
    AboveConcat(a, b, threshold);
  }

  // ----- the simulator -----------------------------------------------------------------------

  datatype Directive = Confirm | RuleOut | Starve | Unspecified

  datatype Sample = Sample(vehicle: string, signal: string, value: real, second: nat)

  /** `random.uniform` of the branch the directive selects. */
  predicate DrawInRange(d: Directive, u: real) {
    if d == RuleOut then 0.2 <= u <= 0.5 else 0.05 <= u <= 0.3
  }

  function Generated(d: Directive, threshold: real, u: real): real {
    if d == RuleOut then (if threshold - u > 0.0 then threshold - u else 0.0)
    else if threshold + u < 1.0 then threshold + u else 1.0
  }

  /** Values the directive can produce for a threshold, over all draws. */
  predicate Aligned(d: Directive, threshold: real, value: real) {
    if d == RuleOut then value == 0.0 || 0.0 <= value <= threshold - 0.2
    else value == 1.0 || value >= threshold + 0.05
  }

  /** Twenty rows for each vehicle and signal, one a second, on the directive's side; none if starved. */
  ghost predicate IsSimulation(scope: seq<string>, signals: seq<string>, threshold: real, directive: Directive, rows: seq<Sample>) {
    && |rows| == (if directive == Starve then 0 else 20 * (|scope| * |signals|))
    && (forall r :: r in rows ==>
          r.vehicle in scope && r.signal in signals && r.second < 20 && Aligned(directive, threshold, r.value))
    && (directive != Starve ==> forall i, j, k | 0 <= i < 20 && 0 <= j < |scope| && 0 <= k < |signals| ::
          InRow(rows, scope[j], signals[k], i))
  }

  /** The rows `simulate` inserts. `draw` is the random stream. */
  method Simulate(scope: seq<string>, signals: seq<string>, threshold: real, directive: Directive, draw: nat -> real)
    returns (rows: seq<Sample>)
    requires forall n :: DrawInRange(directive, draw(n))
    ensures IsSimulation(scope, signals, threshold, directive, rows)
  {
    rows := [];
    if scope == [] || signals == [] || directive == Starve {
      return;
    }
    var perSecond := |scope| * |signals|;
    for i := 0 to 20
      invariant |rows| == i * perSecond
      invariant forall r :: r in rows ==>
        r.vehicle in scope && r.signal in signals && r.second < 20 && Aligned(directive, threshold, r.value)
      invariant forall i', j, k | 0 <= i' < i && 0 <= j < |scope| && 0 <= k < |signals| ::
        InRow(rows, scope[j], signals[k], i')
    {
      var second := SimulateSecond(scope, signals, threshold, directive, draw, |rows|, i);
      InRowConcat(rows, second);
      rows := rows + second;
    }
  }

  ghost predicate InRow(rows: seq<Sample>, vehicle: string, signal: string, second: nat) {
    exists r :: r in rows && r.vehicle == vehicle && r.signal == signal && r.second == second
  }

  lemma InRowConcat(a: seq<Sample>, b: seq<Sample>)
    ensures forall v, s, i :: InRow(a, v, s, i) || InRow(b, v, s, i) ==> InRow(a + b, v, s, i)
  {
    forall v, s, i | InRow(a, v, s, i) || InRow(b, v, s, i)
      ensures InRow(a + b, v, s, i)
    {
      var r :| (r in a || r in b) && r.vehicle == v && r.signal == s && r.second == i;
      assert r in a + b;
    }
  }

  /** The two inner loops, for one second of the window. */
  method SimulateSecond(scope: seq<string>, signals: seq<string>, threshold: real, directive: Directive,
                        draw: nat -> real, drawn: nat, second: nat)
    returns (rows: seq<Sample>)
    requires forall n :: DrawInRange(directive, draw(n))
    ensures |rows| == |scope| * |signals|
    ensures forall r :: r in rows ==>
      r.vehicle in scope && r.signal in signals && r.second == second && Aligned(directive, threshold, r.value)
    ensures forall j, k | 0 <= j < |scope| && 0 <= k < |signals| :: InRow(rows, scope[j], signals[k], second)
  {
    rows := [];
    for j := 0 to |scope|
      invariant |rows| == j * |signals|
      invariant forall r :: r in rows ==>
        r.vehicle in scope && r.signal in signals && r.second == second && Aligned(directive, threshold, r.value)
      invariant forall j', k | 0 <= j' < j && 0 <= k < |signals| :: InRow(rows, scope[j'], signals[k], second)
    {
      var one: seq<Sample> := [];
      for k := 0 to |signals|
        invariant |one| == k
        invariant forall r :: r in one ==>
          r.vehicle == scope[j] && r.signal in signals && r.second == second && Aligned(directive, threshold, r.value)
        invariant forall k' | 0 <= k' < k :: InRow(one, scope[j], signals[k'], second)
      {
        var sample := Sample(scope[j], signals[k], Generated(directive, threshold, draw(drawn + |rows| + k)), second);
        assert sample in [sample];
        assert InRow([sample], scope[j], signals[k], second);
        InRowConcat(one, [sample]);
        one := one + [sample];
      }
      InRowConcat(rows, one);
      rows := rows + one;
    }
  }

  // ----- the stored threshold and the outcome -------------------------------------------------

  /** A float bound to a NUMERIC(4,3) column: rounded half up to thousandths. */
  function Stored(threshold: real): real {
    (threshold * 1000.0 + 0.5).Floor as real / 1000.0
  }

  lemma StoredNear(threshold: real)
    requires 0.0 <= threshold <= 1.0
    ensures threshold - 0.0005 <= Stored(threshold) <= threshold + 0.0005
    ensures 0.0 <= Stored(threshold) <= 1.0
    ensures Stored(threshold) > 0.0 <==> threshold >= 0.0005
  {
    var f := (threshold * 1000.0 + 0.5).Floor;
    assert f as real <= threshold * 1000.0 + 0.5 < f as real + 1.0;
    assert 0 <= f <= 1000;
  }

  lemma {:induction false} AllOnOneSide(values: seq<real>, threshold: real, side: bool)
    requires forall i :: 0 <= i < |values| ==> (values[i] >= threshold) == side
    ensures Above(values, threshold) == if side then |values| else 0
  {
    if values != [] { AllOnOneSide(values[1..], threshold, side); }
  }

  /** Telemetry simulated once from the policy's own threshold, then judged against the stored
      one: any non-empty selection of it is confirmed, except that `rule_out` rules out exactly
      when the threshold survives the rounding as a positive number. */
  lemma OutcomeDetermined(directive: Directive, threshold: real, seen: seq<real>)
    requires 0.0 <= threshold <= 1.0 && seen != []
    requires forall i :: 0 <= i < |seen| ==> Aligned(directive, threshold, seen[i])
    ensures Judge(seen, Stored(threshold)) == if directive == RuleOut && threshold >= 0.0005 then RuledOut else Confirmed
  {
    StoredNear(threshold);
    var side := !(directive == RuleOut && threshold >= 0.0005);
    AllOnOneSide(seen, Stored(threshold), side);
  }

  /** What a directive and a threshold come to. */
  function Determined(directive: Directive, threshold: real): Hypothesis {
    if directive == Starve then NoData
    else if directive == RuleOut && threshold >= 0.0005 then RuledOut
    else Confirmed
  }

  /** The rounding is what makes the difference: a positive threshold too small to store turns a
      `rule_out` stream into a confirmation. */
  lemma TinyThresholdConfirms()
    ensures Aligned(RuleOut, 0.0004, 0.0) && Judge([0.0], 0.0004) == RuledOut
    ensures Judge([0.0], Stored(0.0004)) == Confirmed
  {
    assert [0.0][1..] == [];
    OutcomeDetermined(RuleOut, 0.0004, [0.0]);
  }
}
