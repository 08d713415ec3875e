/**
 `RateLimitMiddleware.dispatch`: exemption, authentication, configuration lookup, the Lua call
 with its one NOSCRIPT retry, and the three-way response. Redis, the configuration store and the
 token verifier are the environment: each request carries what they would answer.
 */
module RateLimit {
  import opened Prelude
  import TokenBucket
  import T = TenantConfig

  datatype Auth = NoBearer | BadToken | Tenant(id: string)
  datatype BucketKind = Inbound | Query

  /** The answer to one EVALSHA. `Garbled` is a reply that `int(...)` rejects. */
  datatype Eval = Replied(decision: int, remaining: int, retryMs: int) | Garbled | NoScript | EvalFailed

  datatype Request = Request(
    path: string,
    endpoint: string,          // the normalised metric label
    auth: Auth,
    config: Option<T.Config>,    // None: the configuration lookup raises
    firstLoad: bool,           // SCRIPT LOAD succeeds, if it is issued before the first EVALSHA
    firstEval: Eval,
    secondLoad: bool,
    secondEval: Eval)

  datatype Outcome = Exempt | Unauthenticated | Allow | Reject(retryAfter: int) | Unavailable | Raised
  datatype RedisCall = ScriptLoad | EvalSha

  datatype Decision = Decision(outcome: Outcome, calls: seq<RedisCall>, loaded: bool)

  const EXEMPT_PREFIXES: seq<string> :=
    ["/health", "/ready", "/metrics", "/api/v1/health", "/api/v1/ready", "/api/v1/audit/break-glass"]
  const FINDINGS := "/api/v1/findings"

  predicate IsExempt(path: string) {
    path != FINDINGS && exists i :: 0 <= i < |EXEMPT_PREFIXES| && EXEMPT_PREFIXES[i] <= path
  }

  function BucketFor(path: string): BucketKind {
    if FINDINGS <= path then Inbound else Query
  }

  /** Limits that apply to the request, as (sustained rate, burst). */
  function LimitsFor(kind: BucketKind, c: T.Config): (int, int) {
    if kind == Inbound then (c.inbound.sustainedRps, c.inbound.burst) else (c.query.sustainedRps, c.query.burst)
  }

  /** The script call of one request: the calls issued, the reply if one arrived, and whether
      the script handle is held afterwards. */
  function RunScript(loaded: bool, r: Request): (seq<RedisCall>, Option<Eval>, bool) {
    var first := if loaded then [] else [ScriptLoad];
    if !loaded && !r.firstLoad then (first, None, false)
    else
      match r.firstEval
      case EvalFailed => (first + [EvalSha], None, true)
      case NoScript =>
        if !r.secondLoad then (first + [EvalSha] + [ScriptLoad], None, false)
        else
          (first + [EvalSha] + [ScriptLoad] + [EvalSha],
           if r.secondEval.NoScript? || r.secondEval.EvalFailed? then None else Some(r.secondEval),
           true)
      case reply => (first + [EvalSha], Some(reply), true)
  }

  function Respond(reply: Option<Eval>): Outcome {
    match reply
    case Some(Replied(decision, _, retryMs)) =>
      if decision == 1 then Allow else Reject(TokenBucket.RetryAfterSeconds(retryMs))
    case Some(_) => Raised
    case None => Unavailable
  }

  function Decide(loaded: bool, r: Request): Decision {
    if IsExempt(r.path) then Decision(Exempt, [], loaded)
    else if !r.auth.Tenant? then Decision(Unauthenticated, [], loaded)
    else if r.config.None? then Decision(Raised, [], loaded)
    else
      var (calls, reply, loaded') := RunScript(loaded, r);
      Decision(Respond(reply), calls, loaded')
  }

  /** The request is not exempt, its token verified, its configuration loaded, and the script's own last
      answer was 1. */
  predicate Earned(loaded: bool, r: Request) {
    && !IsExempt(r.path) && r.auth.Tenant? && r.config.Some?
    && (loaded || r.firstLoad)
    && (r.firstEval.NoScript? ==> r.secondLoad)
    && (var last := if r.firstEval.NoScript? then r.secondEval else r.firstEval; last.Replied? && last.decision == 1)
  }

  lemma AllowedIsEarned(loaded: bool, r: Request)
    ensures Decide(loaded, r).outcome == Allow <==> Earned(loaded, r)
  {
  }

  /** A second EVALSHA is the last call, and comes after a NOSCRIPT answer and a fresh SCRIPT LOAD. */
  predicate RetriesOnceReloaded(r: Request, calls: seq<RedisCall>) {
    forall i, j :: 0 <= i < j < |calls| && calls[i] == EvalSha && calls[j] == EvalSha ==>
      r.firstEval.NoScript? && r.secondLoad && j == i + 2 == |calls| - 1 && calls[i + 1] == ScriptLoad
  }

  /** The middleware object: its script handle, its three counters (one multiset element per
      increment, labelled), and how often it called the next handler. */
  class Middleware {
    var loaded: bool
    var decisions: multiset<(string, string, bool)>
    var throttled: multiset<(string, string)>
    var unavailable: multiset<string>
    var passed: nat

    constructor ()
      ensures !loaded && Meter() == NoTraffic
    {
      loaded, passed := false, 0;
      decisions, throttled, unavailable := multiset{}, multiset{}, multiset{};
    }

    ghost function Meter(): Counters
      reads this
    {
      Counters(decisions, throttled, unavailable, passed)
    }

    method EnsureLuaLoaded(loadSucceeds: bool) returns (ok: bool, calls: seq<RedisCall>)
      modifies this`loaded
      ensures calls == if old(loaded) then [] else [ScriptLoad]
      ensures ok == (old(loaded) || loadSucceeds)
      ensures loaded == ok
    {
      if loaded {
        return true, [];
      }
      loaded := loadSucceeds;
      return loadSucceeds, [ScriptLoad];
    }

    /** The guarded part of `dispatch`: load if needed, EVALSHA, and on NOSCRIPT once more. */
    method CallScript(r: Request) returns (reply: Option<Eval>, calls: seq<RedisCall>)
      modifies this`loaded
      ensures (calls, reply, loaded) == RunScript(old(loaded), r)
      ensures RetriesOnceReloaded(r, calls)
    {
      var ok, issued := EnsureLuaLoaded(r.firstLoad);
      calls := issued;
      if !ok {
        return None, calls;
      }
      calls := calls + [EvalSha];
      var answer := r.firstEval;
      if answer.NoScript? {
        loaded := false;
        ok, issued := EnsureLuaLoaded(r.secondLoad);
        calls := calls + issued;
        if !ok {
          return None, calls;
        }
        calls := calls + [EvalSha];
        answer := r.secondEval;
      }
      if answer.NoScript? || answer.EvalFailed? {
        return None, calls;
      }
      return Some(answer), calls;
    }

    method CountAllowed(r: Request)
      requires r.auth.Tenant?
      modifies this`decisions, this`passed
      ensures Meter() == Count(old(Meter()), r, Allow)
    {
      decisions := decisions + multiset{(r.auth.id, r.endpoint, true)};
      passed := passed + 1;
    }

    method CountRejected(r: Request, retryAfter: int)
      requires r.auth.Tenant?
      modifies this`decisions, this`throttled
      ensures Meter() == Count(old(Meter()), r, Reject(retryAfter))
    {
      decisions := decisions + multiset{(r.auth.id, r.endpoint, false)};
      throttled := throttled + multiset{(r.auth.id, r.endpoint)};
    }

    /** The three-way response to the script call. */
    method Conclude(r: Request, reply: Option<Eval>) returns (outcome: Outcome)
      requires r.auth.Tenant?
      modifies this`decisions, this`throttled, this`unavailable, this`passed
      ensures outcome == Respond(reply)
      ensures Meter() == Count(old(Meter()), r, outcome)
      // the least whole number of seconds, at least one, that covers the hint
      ensures outcome.Reject? ==> reply.Some? && reply.value.Replied?
      ensures outcome.Reject? ==>
        forall s :: s >= outcome.retryAfter <==> s >= 1 && 1000 * s >= reply.value.retryMs
    {
      if reply.None? {
        unavailable := unavailable + multiset{r.endpoint};
        return Unavailable;
      }
      if !reply.value.Replied? {
        return Raised;
      }
      if reply.value.decision == 1 {
        CountAllowed(r);
        return Allow;
      }
      var retryAfter := TokenBucket.RetryAfterSeconds(reply.value.retryMs);
      CountRejected(r, retryAfter);
      return Reject(retryAfter);
    }

    /** The part of `dispatch` that talks to Redis. */
    method Throttle(r: Request) returns (outcome: Outcome, calls: seq<RedisCall>)
      requires !IsExempt(r.path) && r.auth.Tenant? && r.config.Some?
      modifies this
      ensures Decision(outcome, calls, loaded) == Decide(old(loaded), r)
      ensures Meter() == Count(old(Meter()), r, outcome)
      ensures RetriesOnceReloaded(r, calls) && outcome != Exempt && outcome != Unauthenticated
    {
      var reply;
      reply, calls := CallScript(r);
      outcome := Conclude(r, reply);
    }

    method Dispatch(r: Request) returns (outcome: Outcome, calls: seq<RedisCall>)
      modifies this
      ensures Decision(outcome, calls, loaded) == Decide(old(loaded), r)
      ensures Meter() == Count(old(Meter()), r, outcome)
      // failure-closed: no pattern of Redis or configuration failures lets a request through
      ensures outcome == Allow <==> Earned(old(loaded), r)
      ensures passed == old(passed) + (if outcome == Exempt || outcome == Allow then 1 else 0)
      ensures RetriesOnceReloaded(r, calls)
      ensures outcome == Exempt || outcome == Unauthenticated ==> calls == []
    {
      AllowedIsEarned(loaded, r);
      calls := [];
      if IsExempt(r.path) {
        passed := passed + 1;
        return Exempt, calls;
      }
      if !r.auth.Tenant? {
        return Unauthenticated, calls;
      }
      if r.config.None? {
        return Raised, calls;
      }
      ghost var before := Meter();
      outcome, calls := Throttle(r);
      CountPasses(before, r, outcome);
    }
  }

  // ----- counters over whole histories ------------------------------------------------------

  datatype Counters = Counters(
    decisions: multiset<(string, string, bool)>,
    throttled: multiset<(string, string)>,
    unavailable: multiset<string>,
    passed: nat)

  const NoTraffic := Counters(multiset{}, multiset{}, multiset{}, 0)

  /** What one finished request adds to the counters. */
  function Count(c: Counters, r: Request, o: Outcome): Counters {
    var who := if r.auth.Tenant? then r.auth.id else "";
    match o
    case Exempt => c.(passed := c.passed + 1)
    case Allow => c.(decisions := c.decisions + multiset{(who, r.endpoint, true)}, passed := c.passed + 1)
    case Reject(_) => c.(decisions := c.decisions + multiset{(who, r.endpoint, false)},
                         throttled := c.throttled + multiset{(who, r.endpoint)})
    case Unavailable => c.(unavailable := c.unavailable + multiset{r.endpoint})
    case _ => c
  }

  /** Outcomes of a history of requests, each met with the handle its predecessors left. */
  function Outcomes(loaded: bool, history: seq<Request>): (os: seq<Outcome>)
    ensures |os| == |history|
    decreases |history|
  {
    if history == [] then []
    else
      var d := Decide(loaded, history[0]);
      [d.outcome] + Outcomes(d.loaded, history[1..])
  }

  function Served(loaded: bool, history: seq<Request>, c: Counters): Counters
    decreases |history|
  {
    if history == [] then c
    else
      var d := Decide(loaded, history[0]);
      Served(d.loaded, history[1..], Count(c, history[0], d.outcome))
  }

  /** A time series of the metrics endpoint, or the number of calls to the next handler. */
  datatype Series =
    | Decided(tenant: string, endpoint: string, allowed: bool)
    | Throttled(tenant: string, endpoint: string)
    | RedisDown(endpoint: string)
    | PassedOn

  function Reading(c: Counters, s: Series): nat {
    match s
    case Decided(t, e, a) => c.decisions[(t, e, a)]
    case Throttled(t, e) => c.throttled[(t, e)]
    case RedisDown(e) => c.unavailable[e]
    case PassedOn => c.passed
  }

  /** The requests a series is meant to count, by how they ended. */
  predicate Belongs(r: Request, o: Outcome, s: Series) {
    match s
    case Decided(t, e, a) => r.auth == Tenant(t) && r.endpoint == e && (if a then o == Allow else o.Reject?)
    case Throttled(t, e) => r.auth == Tenant(t) && r.endpoint == e && o.Reject?
    case RedisDown(e) => r.endpoint == e && o == Unavailable
    case PassedOn => o == Exempt || o == Allow
  }

  function HowMany(history: seq<Request>, os: seq<Outcome>, s: Series): nat
    requires |history| == |os|
  {
    if history == [] then 0
    else (if Belongs(history[0], os[0], s) then 1 else 0) + HowMany(history[1..], os[1..], s)
  }

  lemma CountOne(loaded: bool, r: Request, c: Counters, s: Series)
    ensures var o := Decide(loaded, r).outcome;
      Reading(Count(c, r, o), s) == Reading(c, s) + (if Belongs(r, o, s) then 1 else 0)
  {
    DecideAuth(loaded, r);
    CountReads(c, r, Decide(loaded, r).outcome, s);
  }

  lemma CountPasses(c: Counters, r: Request, o: Outcome)
    ensures Count(c, r, o).passed == c.passed + (if o == Exempt || o == Allow then 1 else 0)
  {
  }

  lemma CountReads(c: Counters, r: Request, o: Outcome, s: Series)
    requires o == Allow || o.Reject? ==> r.auth.Tenant?
    ensures Reading(Count(c, r, o), s) == Reading(c, s) + (if Belongs(r, o, s) then 1 else 0)
  {
  }

  /** Conservation: over any history with any faults, every series reads exactly the number of
      requests that ended the way it counts; in particular the next handler ran exactly for the
      exempt and the allowed ones. */
  lemma {:induction false} CountersConserve(loaded: bool, history: seq<Request>, c: Counters, s: Series)
    ensures Reading(Served(loaded, history, c), s)
         == Reading(c, s) + HowMany(history, Outcomes(loaded, history), s)
    decreases |history|
  {
    if history != [] {
      var d := Decide(loaded, history[0]);
      CountOne(loaded, history[0], c, s);
      assert Outcomes(loaded, history)[1..] == Outcomes(d.loaded, history[1..]);
      CountersConserve(d.loaded, history[1..], Count(c, history[0], d.outcome), s);
    }
  }

  lemma DecideAuth(loaded: bool, r: Request)
    ensures Decide(loaded, r).outcome in {Allow, Unavailable} || Decide(loaded, r).outcome.Reject? ==> r.auth.Tenant?
  {
  }

  // ----- the dispatcher over the real bucket ---------------------------------------------------

  /** One request of a single tenant and bucket kind, at the instant its script would run. */
  datatype Arrival = Arrival(now: int, request: Request, ran: bool)

  /** The call that the request's own configuration asks for. */
  function CallOf(a: Arrival): TokenBucket.Timed
    requires a.request.config.Some?
  {
    var (rps, burst) := LimitsFor(BucketFor(a.request.path), a.request.config.value);
    TokenBucket.Timed(a.now, rps, burst)
  }

  /** A request that gets as far as the script, with limits the table's constraints admit. */
  predicate Proper(a: Arrival) {
    && !IsExempt(a.request.path) && a.request.auth.Tenant? && a.request.config.Some?
    && TokenBucket.Config(CallOf(a).rps, CallOf(a).burst)
  }

  /** The environment's answers are those of the bucket: a reply arrives only if the script ran,
      and then it is the script's. A run whose reply was lost spends a token all the same. */
  ghost predicate Faithful(loaded: bool, stored: Option<TokenBucket.Bucket>, arrivals: seq<Arrival>)
    decreases |arrivals|
  {
    arrivals == [] ||
    (&& Proper(arrivals[0])
     && var a := arrivals[0];
        var (calls, reply, loaded') := RunScript(loaded, a.request);
        var (b, answer) := TokenBucket.Call(stored, a.now, CallOf(a).rps, CallOf(a).burst);
        && (reply.Some? && reply.value.Replied? ==>
              a.ran && reply.value == Replied(if answer.allowed then 1 else 0, answer.remaining, answer.retryAfterMs))
        && Faithful(loaded', if a.ran then Some(b) else stored, arrivals[1..]))
  }

  /** The calls of the script that ran. */
  function Ran(arrivals: seq<Arrival>): seq<TokenBucket.Timed>
    requires forall i :: 0 <= i < |arrivals| ==> arrivals[i].request.config.Some?
  {
    if arrivals == [] then []
    else (if arrivals[0].ran then [CallOf(arrivals[0])] else []) + Ran(arrivals[1..])
  }

  function Passed(loaded: bool, arrivals: seq<Arrival>): nat
    decreases |arrivals|
  {
    if arrivals == [] then 0
    else
      var d := Decide(loaded, arrivals[0].request);
      (if d.outcome == Allow then 1 else 0) + Passed(d.loaded, arrivals[1..])
  }

  lemma {:induction false} FaithfulIsProper(loaded: bool, stored: Option<TokenBucket.Bucket>, arrivals: seq<Arrival>)
    requires Faithful(loaded, stored, arrivals)
    ensures forall i :: 0 <= i < |arrivals| ==> arrivals[i].request.config.Some?
    ensures TokenBucket.Configured(Ran(arrivals))
    decreases |arrivals|
  {
    if arrivals != [] {
      var a := arrivals[0];
      var b := TokenBucket.Call(stored, a.now, CallOf(a).rps, CallOf(a).burst).0;
      FaithfulIsProper(RunScript(loaded, a.request).2, if a.ran then Some(b) else stored, arrivals[1..]);
    }
  }

  /** One arrival: it passes only if the bucket admits its call, and leaves the bucket as the call did. */
  lemma ArrivalPasses(loaded: bool, stored: Option<TokenBucket.Bucket>, arrivals: seq<Arrival>)
    requires arrivals != [] && Faithful(loaded, stored, arrivals)
    ensures var a := arrivals[0];
      var d := Decide(loaded, a.request);
      var (b, answer) := TokenBucket.Call(stored, a.now, CallOf(a).rps, CallOf(a).burst);
      && (d.outcome == Allow ==> a.ran && answer.allowed)
      && Faithful(d.loaded, if a.ran then Some(b) else stored, arrivals[1..])
  {
  }

  lemma {:induction false} PassedIsAdmitted(loaded: bool, stored: Option<TokenBucket.Bucket>, arrivals: seq<Arrival>)
    requires Faithful(loaded, stored, arrivals)
    ensures forall i :: 0 <= i < |arrivals| ==> arrivals[i].request.config.Some?
    ensures TokenBucket.Configured(Ran(arrivals))
    ensures Passed(loaded, arrivals) <= TokenBucket.AdmittedVarying(stored, Ran(arrivals))
    decreases |arrivals|
  {
    FaithfulIsProper(loaded, stored, arrivals);
    if arrivals != [] {
      var a := arrivals[0];
      var b := TokenBucket.Call(stored, a.now, CallOf(a).rps, CallOf(a).burst).0;
      ArrivalPasses(loaded, stored, arrivals);
      PassedIsAdmitted(Decide(loaded, a.request).loaded, if a.ran then Some(b) else stored, arrivals[1..]);
      if a.ran {
        assert Ran(arrivals)[1..] == Ran(arrivals[1..]);
      } else {
        assert Ran(arrivals) == Ran(arrivals[1..]);
      }
    }
  }

  /** Whatever Redis does and however the tenant's limits change, what it gets through the middleware
      is bounded by the limits in force: a full bucket for each change of them, and the rate times the
      time in between. */
  lemma ChangingLimitsHold(loaded: bool, arrivals: seq<Arrival>)
    requires Faithful(loaded, None, arrivals)
    requires forall i :: 0 <= i < |arrivals| ==> arrivals[i].request.config.Some?
    requires var calls := Ran(arrivals);
      calls != [] && TokenBucket.Lawful(calls) && TokenBucket.Nondecreasing(TokenBucket.Readings(calls))
    ensures var calls := Ran(arrivals);
      1000 * Passed(loaded, arrivals) <= 1000 * calls[0].burst + TokenBucket.Allowance(calls[0], calls[0].burst, calls)
  {
    var calls := Ran(arrivals);
    forall i, j | 0 <= i < j < |calls|
      ensures calls[i].now <= calls[j].now
    {
      assert TokenBucket.Readings(calls)[i] <= TokenBucket.Readings(calls)[j];
    }
    TokenBucket.VaryingBound(calls);
    PassedIsAdmitted(loaded, None, arrivals);
  }

  /** While the limits stay, a commensurate one bounds what a tenant gets through over any history
      that starts with an empty key store, also when the readings the requests took of the clock reach
      the script out of order. */
  lemma LimitHolds(loaded: bool, arrivals: seq<Arrival>, last: int, lag: nat, rps: int, burst: int)
    requires TokenBucket.Config(rps, burst) && TokenBucket.Commensurate(rps) && TokenBucket.Tolerates(rps, burst, lag)
    requires Faithful(loaded, None, arrivals)
    requires forall i :: 0 <= i < |arrivals| ==> arrivals[i].request.config.Some?
    requires var calls := Ran(arrivals);
      && calls != [] && TokenBucket.WithinLag(TokenBucket.Readings(calls), lag)
      && forall i :: 0 <= i < |calls| ==> calls[i].rps == rps && calls[i].burst == burst && calls[i].now <= last
    ensures 1000 * Passed(loaded, arrivals) <= 1000 * burst + rps * (last - Ran(arrivals)[0].now)
  {
    var calls := Ran(arrivals);
    PassedIsAdmitted(loaded, None, arrivals);
    TokenBucket.ConstantLimits(None, calls, rps, burst);
    TokenBucket.DisorderedRateBound(TokenBucket.Readings(calls), last, lag, rps, burst);
  }

  lemma {:induction false} DefaultCalls(tenant: string, kind: BucketKind, arrivals: seq<Arrival>)
    requires forall i :: 0 <= i < |arrivals| ==>
      arrivals[i].request.config == Some(T.DefaultConfig(tenant)) && BucketFor(arrivals[i].request.path) == kind
    ensures var (rps, burst) := LimitsFor(kind, T.DefaultConfig(tenant));
      forall i :: 0 <= i < |Ran(arrivals)| ==> Ran(arrivals)[i].rps == rps && Ran(arrivals)[i].burst == burst
  {
    if arrivals != [] {
      DefaultCalls(tenant, kind, arrivals[1..]);
    }
  }

  /** The shipped limits, 2000/4000 inbound and 200/400 for queries, are of that kind: they hold for
      every tenant without a row of its own, with readings up to 1999 milliseconds late. */
  lemma DefaultLimitsHold(tenant: string, kind: BucketKind, loaded: bool, arrivals: seq<Arrival>, last: int)
    requires Faithful(loaded, None, arrivals)
    requires forall i :: 0 <= i < |arrivals| ==>
      arrivals[i].request.config == Some(T.DefaultConfig(tenant)) && BucketFor(arrivals[i].request.path) == kind
    requires var calls := Ran(arrivals);
      && calls != [] && TokenBucket.WithinLag(TokenBucket.Readings(calls), 1999)
      && forall i :: 0 <= i < |calls| ==> calls[i].now <= last
    ensures var (rps, burst) := if kind == Inbound then (2000, 4000) else (200, 400);
      1000 * Passed(loaded, arrivals) <= 1000 * burst + rps * (last - Ran(arrivals)[0].now)
  {
    var (rps, burst) := LimitsFor(kind, T.DefaultConfig(tenant));
    DefaultCalls(tenant, kind, arrivals);
    LimitHolds(loaded, arrivals, last, 1999, rps, burst);
  }
}
