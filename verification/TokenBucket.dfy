/**
 The token bucket of `token_bucket.lua`, one atomic script call at a time, over integers.

 The script keeps whole tokens and a refill timestamp in milliseconds, and moves the
 timestamp forward by the whole milliseconds that the granted tokens "cover". Whether that
 accounting is sound depends on the configured rate, and `RateLawIff` says exactly how.
 */
module TokenBucket {
  import opened Prelude

  /** The Redis hash of one bucket, with the instant at which PEXPIRE drops it. */
  datatype Bucket = Bucket(tokens: int, lastRefill: int, expires: int)

  datatype Reply = Reply(allowed: bool, remaining: int, retryAfterMs: int)

  /** The CHECK constraints of `tenant_config`; the built-in defaults satisfy them too. */
  predicate Config(rps: int, burst: int) {
    1 <= rps <= burst
  }

  function Refill(elapsed: nat, rps: int): nat
    requires 1 <= rps
  {
    MulNat(elapsed, rps);
    elapsed * rps / 1000
  }

  /** Milliseconds by which the timestamp moves when `tokens` are granted. */
  function Covered(tokens: nat, rps: int): nat
    requires 1 <= rps
  {
    DivNat(tokens * 1000, rps);
    tokens * 1000 / rps
  }

  function TtlMs(rps: int, burst: int): nat
    requires Config(rps, burst)
  {
    DivNat(burst * 2000, rps);
    burst * 2000 / rps
  }

  /** The hash the script starts from: a missing or expired key is a fresh, full bucket. */
  function Opened(stored: Option<Bucket>, now: int, burst: int): Bucket {
    match stored
    case Some(b) => if now < b.expires then b else Bucket(burst, now, now)
    case None => Bucket(burst, now, now)
  }

  function Elapsed(b: Bucket, now: int): nat {
    if now < b.lastRefill then 0 else now - b.lastRefill
  }

  function Refilled(b: Bucket, now: int, rps: int, burst: int): Bucket
    requires Config(rps, burst)
  {
    var k := Refill(Elapsed(b, now), rps);
    if k > 0 then b.(tokens := Min(burst, b.tokens + k), lastRefill := b.lastRefill + Covered(k, rps)) else b
  }

  /** One EVALSHA: the stored hash after the call, and the reply. */
  function Call(stored: Option<Bucket>, now: int, rps: int, burst: int): (Bucket, Reply)
    requires Config(rps, burst)
  {
    var b := Refilled(Opened(stored, now, burst), now, rps, burst);
    if b.tokens >= 1 then
      (Bucket(b.tokens - 1, b.lastRefill, now + TtlMs(rps, burst)), Reply(true, b.tokens - 1, 0))
    else
      (b, Reply(false, 0, RetryHint(rps)))
  }

  function RetryHint(rps: int): nat
    requires 1 <= rps
  {
    if 1000 / rps < 1 then 1 else 1000 / rps
  }

  /** `Retry-After` as the middleware derives it from the script's hint. */
  function RetryAfterSeconds(retryMs: int): int {
    Max(1, (retryMs + 999) / 1000)
  }

  /** Number of calls admitted when the script runs at the given instants, in order. */
  function Admitted(stored: Option<Bucket>, times: seq<int>, rps: int, burst: int): nat
    requires Config(rps, burst)
    decreases |times|
  {
    if times == [] then 0
    else
      var (b, reply) := Call(stored, times[0], rps, burst);
      (if reply.allowed then 1 else 0) + Admitted(Some(b), times[1..], rps, burst)
  }

  ghost predicate Nondecreasing(times: seq<int>) {
    forall i, j :: 0 <= i < j < |times| ==> times[i] <= times[j]
  }

  /** The limiter's promise: over any history starting with an empty key store, at most the
      burst plus the sustained rate times the elapsed time is admitted. */
  ghost predicate RateLaw(rps: int, burst: int)
    requires Config(rps, burst)
  {
    forall times: seq<int> | times != [] && Nondecreasing(times) ::
      1000 * Admitted(None, times, rps, burst) <= 1000 * burst + rps * (times[|times| - 1] - times[0])
  }

  /** Rates for which whole tokens are worth whole milliseconds, or the other way round. */
  predicate Commensurate(rps: int)
    requires 1 <= rps
  {
    1000 % rps == 0 || rps % 1000 == 0
  }

  // ----- arithmetic ---------------------------------------------------------------------

  lemma MulNat(a: nat, b: int)
    requires 0 <= b
    ensures 0 <= a * b
  {
  }

  lemma DivNat(a: nat, b: int)
    requires 1 <= b
    ensures 0 <= a / b
  {
  }

  lemma MulLess(x: int, y: int, b: int)
    requires 1 <= b && x * b < y * b
    ensures x < y
  {
  }

  lemma Distribute(r: int, x: int, y: int)
    ensures r * (x + y) == r * x + r * y
    ensures r * (x - y) == r * x - r * y
  {
  }

  lemma MulMono(r: int, x: int, y: int)
    requires 0 <= r && x <= y
    ensures r * x <= r * y
  {
  }

  /** `q` is the quotient as soon as it brackets the dividend. */
  lemma DivBracket(a: int, b: int, q: int)
    requires 1 <= b && q * b <= a < q * b + b
    ensures a / b == q
  {
    var d := a / b;
    assert d * b <= a < (d + 1) * b;
    MulLess(d, q + 1, b);
    MulLess(q, d + 1, b);
  }

  /** With a commensurate rate the timestamp moves by exactly what the tokens are worth. */
  lemma RefillIsExact(elapsed: nat, rps: int)
    requires 1 <= rps && Commensurate(rps)
    ensures Covered(Refill(elapsed, rps), rps) * rps == Refill(elapsed, rps) * 1000
  {
    var k := Refill(elapsed, rps);
    if 1000 % rps == 0 {
      var p := 1000 / rps;
      assert k * 1000 == (k * p) * rps by { assert 1000 == p * rps; }
      DivBracket(k * 1000, rps, k * p);
    } else {
      var q := rps / 1000;
      assert rps == 1000 * q;
      assert elapsed * rps == (elapsed * q) * 1000;
      DivBracket(elapsed * rps, 1000, elapsed * q);
      assert k == elapsed * q;
      assert k * 1000 == elapsed * rps;
      DivBracket(k * 1000, rps, elapsed);
    }
  }

  // ----- the rate law holds for commensurate rates -----------------------------------------

  /** Credit held by a bucket: tokens, less the time already turned into tokens. */
  function Credit(b: Bucket, rps: int): int {
    1000 * b.tokens - rps * b.lastRefill
  }

  /** Facts every stored bucket keeps, where `top` is the latest reading of the clock so far. */
  ghost predicate Sound(b: Bucket, top: int, rps: int, burst: int)
    requires Config(rps, burst)
  {
    && 0 <= b.tokens <= burst
    && b.lastRefill <= top
    // dropping the key never grants more than the refill it replaces would have
    && 1000 * burst <= 1000 * b.tokens + rps * b.expires - rps * b.lastRefill
  }

  /** Readings may lag behind the latest one by less than the time that refills a burst. */
  predicate Tolerates(rps: int, burst: int, lag: nat) {
    rps * (lag + 1) <= 1000 * burst
  }

  /** Refilling never creates credit. */
  lemma RefillKeepsCredit(b: Bucket, now: int, rps: int, burst: int)
    requires Config(rps, burst) && Commensurate(rps) && 0 <= b.tokens
    ensures var r := Refilled(b, now, rps, burst);
      && Credit(r, rps) <= Credit(b, rps)
      && r.lastRefill <= Max(b.lastRefill, now)
      && 0 <= r.tokens <= Max(b.tokens, burst) && r.expires == b.expires
      && (r.tokens < 1 ==> r == b)
  {
    var e := Elapsed(b, now);
    var k := Refill(e, rps);
    RefillIsExact(e, rps);
    var c := Covered(k, rps);
    CoverFits(e, k, c, rps);
    Distribute(rps, b.lastRefill, c);
  }

  /** Exact cover spends no more time than has elapsed. */
  lemma CoverFits(elapsed: nat, tokens: nat, covered: nat, rps: int)
    requires 1 <= rps && tokens == elapsed * rps / 1000 && covered * rps == tokens * 1000
    ensures covered <= elapsed && rps * covered == 1000 * tokens
  {
    assert tokens * 1000 <= elapsed * rps;
    Distribute(rps, elapsed, 1);
    MulLess(covered, elapsed + 1, rps);
  }

  lemma TtlCoversBurst(rps: int, burst: int)
    requires Config(rps, burst)
    ensures rps * TtlMs(rps, burst) + rps > 2000 * burst
    ensures TtlMs(rps, burst) >= 1
  {
    var t := burst * 2000 / rps;
    assert burst * 2000 < (t + 1) * rps;
    assert rps * t == t * rps;
  }

  /** The expiry set by an admitted call pays for the burst that a new key would bring. */
  lemma ExpiryPays(now: int, lastRefill: int, lag: nat, rps: int, burst: int)
    requires Config(rps, burst) && Tolerates(rps, burst, lag) && lastRefill - lag <= now
    ensures 1000 * burst <= rps * (now + TtlMs(rps, burst)) - rps * lastRefill
  {
    var ttl := TtlMs(rps, burst);
    TtlCoversBurst(rps, burst);
    Distribute(rps, now, ttl);
    Distribute(rps, lag, 1);
    Distribute(rps, lastRefill, lag);
    MulMono(rps, lastRefill - lag, now);
  }

  /** Opening a stored bucket never creates credit either, even when its key has expired. */
  lemma OpenKeepsCredit(b: Bucket, now: int, top: int, rps: int, burst: int)
    requires Config(rps, burst) && Sound(b, top, rps, burst)
    ensures var o := Opened(Some(b), now, burst);
      && Credit(o, rps) <= Credit(b, rps) && o.lastRefill <= Max(top, now) && 0 <= o.tokens <= burst
      && (o == b || o == Bucket(burst, now, now))
  {
    if now >= b.expires {
      MulMono(rps, b.expires, now);
    }
  }

  /** A call spends 1000 credit exactly when it is admitted. */
  lemma CallSpends(b: Bucket, now: int, top: int, lag: nat, rps: int, burst: int)
    requires Config(rps, burst) && Commensurate(rps) && Sound(b, top, rps, burst)
    requires Tolerates(rps, burst, lag) && top - lag <= now
    ensures var (b', reply) := Call(Some(b), now, rps, burst);
      && Sound(b', Max(top, now), rps, burst)
      && Credit(b', rps) <= Credit(b, rps) - (if reply.allowed then 1000 else 0)
  {
    OpenKeepsCredit(b, now, top, rps, burst);
    var o := Opened(Some(b), now, burst);
    RefillKeepsCredit(o, now, rps, burst);
    var r := Refilled(o, now, rps, burst);
    ExpiryPays(now, r.lastRefill, lag, rps, burst);
  }

  /** No reading lags behind an earlier one by more than `lag`. */
  ghost predicate WithinLag(times: seq<int>, lag: nat) {
    forall i, j :: 0 <= i < j < |times| ==> times[i] - lag <= times[j]
  }

  lemma {:induction false} AdmittedWithinCredit(b: Bucket, times: seq<int>, top: int, last: int, lag: nat, rps: int, burst: int)
    requires Config(rps, burst) && Commensurate(rps) && Tolerates(rps, burst, lag)
    requires WithinLag(times, lag) && Sound(b, top, rps, burst) && top <= last
    requires forall i :: 0 <= i < |times| ==> top - lag <= times[i] <= last
    ensures 1000 * Admitted(Some(b), times, rps, burst) <= Credit(b, rps) + rps * last
    decreases |times|
  {
    if times == [] {
      MulMono(rps, b.lastRefill, last);
    } else {
      var b' := Call(Some(b), times[0], rps, burst).0;
      CallSpends(b, times[0], top, lag, rps, burst);
      AdmittedWithinCredit(b', times[1..], Max(top, times[0]), last, lag, rps, burst);
      OneMore(b, times, rps, burst);
    }
  }

  lemma OneMore(b: Bucket, times: seq<int>, rps: int, burst: int)
    requires Config(rps, burst) && times != []
    ensures var (b', reply) := Call(Some(b), times[0], rps, burst);
      Admitted(Some(b), times, rps, burst) == (if reply.allowed then 1 else 0) + Admitted(Some(b'), times[1..], rps, burst)
  {
  }

  /** After a refill, less than one token's worth of time is still waiting to be turned in. */
  lemma RefillLeavesLess(b: Bucket, now: int, rps: int, burst: int)
    requires Config(rps, burst) && Commensurate(rps) && b.lastRefill <= now
    ensures rps * now - rps * Refilled(b, now, rps, burst).lastRefill < 1000
  {
    var e := Elapsed(b, now);
    var k := Refill(e, rps);
    var c := Covered(k, rps);
    RefillIsExact(e, rps);
    assert e * rps < k * 1000 + 1000;
    Distribute(rps, now, b.lastRefill);
    Distribute(rps, b.lastRefill, c);
  }

  /** Whatever the bucket held before, its first call in a window leaves at most a full one. */
  lemma CallCaps(b: Bucket, now: int, rps: int, burst: int)
    requires Config(rps, burst) && Commensurate(rps) && Sound(b, now, rps, burst)
    ensures var (b', reply) := Call(Some(b), now, rps, burst);
      Credit(b', rps) + rps * now < 1000 * (burst + 1) - (if reply.allowed then 1000 else 0)
  {
    OpenKeepsCredit(b, now, now, rps, burst);
    var o := Opened(Some(b), now, burst);
    RefillKeepsCredit(o, now, rps, burst);
    RefillLeavesLess(o, now, rps, burst);
  }

  lemma ToleratesOrder(rps: int, burst: int)
    requires Config(rps, burst)
    ensures Tolerates(rps, burst, 0)
  {
  }

  /** Every window of every history: burst plus rate times length, plus less than one token
      that was still accruing when the window opened. */
  lemma WindowBound(b: Bucket, times: seq<int>, rps: int, burst: int)
    requires Config(rps, burst) && Commensurate(rps)
    requires times != [] && Nondecreasing(times) && Sound(b, times[0], rps, burst)
    ensures 1000 * Admitted(Some(b), times, rps, burst)
         < 1000 * (burst + 1) + rps * (times[|times| - 1] - times[0])
  {
    var now, last := times[0], times[|times| - 1];
    ToleratesOrder(rps, burst);
    CallSpends(b, now, now, 0, rps, burst);
    CallCaps(b, now, rps, burst);
    var b' := Call(Some(b), now, rps, burst).0;
    Distribute(rps, last, now);
    AdmittedWithinCredit(b', times[1..], now, last, 0, rps, burst);
    OneMore(b, times, rps, burst);
  }

  /** The bound from an empty key store, with readings of the clock out of order by up to `lag`: burst
      plus the rate times the time from the first reading to the latest. */
  lemma DisorderedRateBound(times: seq<int>, last: int, lag: nat, rps: int, burst: int)
    requires Config(rps, burst) && Commensurate(rps) && Tolerates(rps, burst, lag)
    requires times != [] && WithinLag(times, lag) && forall i :: 0 <= i < |times| ==> times[i] <= last
    ensures 1000 * Admitted(None, times, rps, burst) <= 1000 * burst + rps * (last - times[0])
  {
    var t0 := times[0];
    var full := Bucket(burst, t0, t0);
    assert Opened(None, t0, burst) == full == Opened(Some(full), t0, burst);
    assert Admitted(None, times, rps, burst) == Admitted(Some(full), times, rps, burst);
    AdmittedWithinCredit(full, times, t0, last, lag, rps, burst);
    Distribute(rps, last, t0);
  }

  lemma RateBound(times: seq<int>, rps: int, burst: int)
    requires Config(rps, burst) && Commensurate(rps)
    requires times != [] && Nondecreasing(times)
    ensures 1000 * Admitted(None, times, rps, burst) <= 1000 * burst + rps * (times[|times| - 1] - times[0])
  {
    ToleratesOrder(rps, burst);
    DisorderedRateBound(times, times[|times| - 1], 0, rps, burst);
  }

  lemma RateLawHolds(rps: int, burst: int)
    requires Config(rps, burst) && Commensurate(rps)
    ensures RateLaw(rps, burst)
  {
    forall times: seq<int> | times != [] && Nondecreasing(times)
      ensures 1000 * Admitted(None, times, rps, burst) <= 1000 * burst + rps * (times[|times| - 1] - times[0])
    {
      RateBound(times, rps, burst);
    }
  }

  // ----- limits that change ------------------------------------------------------------------

  /** A call with the limits its request was given. */
  datatype Timed = Timed(now: int, rps: int, burst: int)

  ghost predicate Configured(calls: seq<Timed>) {
    forall i :: 0 <= i < |calls| ==> Config(calls[i].rps, calls[i].burst)
  }

  ghost predicate Lawful(calls: seq<Timed>) {
    Configured(calls) && forall i :: 0 <= i < |calls| ==> Commensurate(calls[i].rps)
  }

  function AdmittedVarying(stored: Option<Bucket>, calls: seq<Timed>): nat
    requires Configured(calls)
    decreases |calls|
  {
    if calls == [] then 0
    else
      var (b, reply) := Call(stored, calls[0].now, calls[0].rps, calls[0].burst);
      (if reply.allowed then 1 else 0) + AdmittedVarying(Some(b), calls[1..])
  }

  /** What the calls may spend beyond what the bucket holds, in thousandths of a token: the rate times
      the elapsed time while the limits stay, and one more full bucket, of the largest burst so far, for
      every change of them. */
  function Allowance(previous: Timed, most: int, calls: seq<Timed>): int
    decreases |calls|
  {
    if calls == [] then 0
    else
      var c := calls[0];
      (if (c.rps, c.burst) == (previous.rps, previous.burst) then c.rps * (c.now - previous.now)
       else 1000 * (Max(most, c.burst) + 1))
      + Allowance(c, Max(most, c.burst), calls[1..])
  }

  /** `credit` pays for what the bucket holds, and for the new bucket that its expiry would bring. */
  ghost predicate Funded(b: Bucket, credit: int, rps: int, burst: int) {
    0 <= b.tokens && Credit(b, rps) <= credit && 1000 * burst <= credit + rps * b.expires
  }

  lemma FundedOpens(b: Bucket, credit: int, now: int, rps: int, burst: int)
    requires Config(rps, burst) && Funded(b, credit, rps, burst)
    ensures Credit(Opened(Some(b), now, burst), rps) <= credit
  {
    if now >= b.expires {
      MulMono(rps, b.expires, now);
    }
  }

  /** What a call does to the bucket it opened. */
  lemma CallOpened(o: Bucket, credit: int, now: int, rps: int, burst: int)
    requires Config(rps, burst) && Commensurate(rps) && 0 <= o.tokens && o.lastRefill <= now
    requires Credit(Refilled(o, now, rps, burst), rps) <= credit
    requires o.tokens == 0 ==> 1000 * burst <= credit + rps * o.expires
    ensures var r := Refilled(o, now, rps, burst);
      var b := if r.tokens >= 1 then Bucket(r.tokens - 1, r.lastRefill, now + TtlMs(rps, burst)) else r;
      && Funded(b, if r.tokens >= 1 then credit - 1000 else credit, rps, burst)
      && b.tokens <= Max(o.tokens, burst) && b.lastRefill <= now
  {
    RefillKeepsCredit(o, now, rps, burst);
    var r := Refilled(o, now, rps, burst);
    ToleratesOrder(rps, burst);
    ExpiryPays(now, r.lastRefill, 0, rps, burst);
  }

  /** Under the same limits a call spends what it admits. */
  lemma SameLimits(b: Bucket, credit: int, now: int, rps: int, burst: int)
    requires Config(rps, burst) && Commensurate(rps) && Funded(b, credit, rps, burst) && b.lastRefill <= now
    ensures var (b', reply) := Call(Some(b), now, rps, burst);
      && Funded(b', if reply.allowed then credit - 1000 else credit, rps, burst)
      && b'.tokens <= Max(b.tokens, burst) && b'.lastRefill <= now
  {
    var o := Opened(Some(b), now, burst);
    FundedOpens(b, credit, now, rps, burst);
    RefillKeepsCredit(o, now, rps, burst);
    CallOpened(o, credit, now, rps, burst);
  }

  /** Under new limits any bucket is worth less than a full one and a token. */
  lemma NewLimits(b: Bucket, now: int, rps: int, burst: int)
    requires Config(rps, burst) && Commensurate(rps) && 0 <= b.tokens && b.lastRefill <= now
    ensures var (b', reply) := Call(Some(b), now, rps, burst);
      var credit := 1000 * (Max(b.tokens, burst) + 1) - rps * now;
      && Funded(b', if reply.allowed then credit - 1000 else credit, rps, burst)
      && b'.tokens <= Max(b.tokens, burst) && b'.lastRefill <= now
  {
    var o := Opened(Some(b), now, burst);
    RefillKeepsCredit(o, now, rps, burst);
    RefillLeavesLess(o, now, rps, burst);
    if o.tokens == 0 {
      MulMono(rps, now, o.expires);
    }
    CallOpened(o, 1000 * (Max(b.tokens, burst) + 1) - rps * now, now, rps, burst);
  }

  lemma FundedMore(b: Bucket, credit: int, more: int, rps: int, burst: int)
    requires Funded(b, credit, rps, burst) && credit <= more
    ensures Funded(b, more, rps, burst)
  {
  }

  lemma {:induction false} VaryingWithinCredit(b: Bucket, credit: int, previous: Timed, most: int, calls: seq<Timed>)
    requires Config(previous.rps, previous.burst) && Lawful(calls)
    requires forall i :: 0 <= i < |calls| ==> previous.now <= calls[i].now
    requires forall i, j :: 0 <= i < j < |calls| ==> calls[i].now <= calls[j].now
    requires Funded(b, credit, previous.rps, previous.burst) && b.tokens <= most && b.lastRefill <= previous.now
    ensures 1000 * AdmittedVarying(Some(b), calls) <= credit + previous.rps * previous.now + Allowance(previous, most, calls)
    decreases |calls|
  {
    if calls == [] {
      MulMono(previous.rps, b.lastRefill, previous.now);
    } else {
      var c := calls[0];
      var most' := Max(most, c.burst);
      var (b', reply) := Call(Some(b), c.now, c.rps, c.burst);
      var spent := if reply.allowed then 1000 else 0;
      if (c.rps, c.burst) == (previous.rps, previous.burst) {
        SameLimits(b, credit, c.now, c.rps, c.burst);
        VaryingWithinCredit(b', credit - spent, c, most', calls[1..]);
        Distribute(c.rps, c.now, previous.now);
      } else {
        NewLimits(b, c.now, c.rps, c.burst);
        var full := 1000 * (most' + 1) - c.rps * c.now;
        FundedMore(b', 1000 * (Max(b.tokens, c.burst) + 1) - c.rps * c.now - spent, full - spent, c.rps, c.burst);
        VaryingWithinCredit(b', full - spent, c, most', calls[1..]);
        MulMono(previous.rps, b.lastRefill, previous.now);
      }
    }
  }

  /** The bound when the limits change in mid-history: the first burst, the rate in force times the
      time, and for every change one more full bucket and less than a token. */
  lemma VaryingBound(calls: seq<Timed>)
    requires calls != [] && Lawful(calls)
    requires forall i, j :: 0 <= i < j < |calls| ==> calls[i].now <= calls[j].now
    ensures 1000 * AdmittedVarying(None, calls) <= 1000 * calls[0].burst + Allowance(calls[0], calls[0].burst, calls)
  {
    var c := calls[0];
    var full := Bucket(c.burst, c.now, c.now);
    assert Opened(None, c.now, c.burst) == full == Opened(Some(full), c.now, c.burst);
    assert AdmittedVarying(None, calls) == AdmittedVarying(Some(full), calls);
    VaryingWithinCredit(full, Credit(full, c.rps), c, c.burst, calls);
  }

  lemma {:induction false} ConstantLimits(stored: Option<Bucket>, calls: seq<Timed>, rps: int, burst: int)
    requires Config(rps, burst) && forall i :: 0 <= i < |calls| ==> calls[i].rps == rps && calls[i].burst == burst
    ensures AdmittedVarying(stored, calls) == Admitted(stored, Readings(calls), rps, burst)
    decreases |calls|
  {
    if calls != [] {
      assert Readings(calls)[1..] == Readings(calls[1..]);
      ConstantLimits(Some(Call(stored, calls[0].now, rps, burst).0), calls[1..], rps, burst);
    }
  }

  function Readings(calls: seq<Timed>): (times: seq<int>)
    ensures |times| == |calls| && forall i :: 0 <= i < |calls| ==> times[i] == calls[i].now
  {
    seq(|calls|, i requires 0 <= i < |calls| => calls[i].now)
  }

  // ----- and fails for every other rate ------------------------------------------------------

  /** `n` instants `start`, `start + step`, ... */
  function Every(start: int, step: int, n: nat): (times: seq<int>)
    ensures |times| == n
    ensures forall i :: 0 <= i < n ==> times[i] == start + i * step
  {
    seq(n, i => start + i * step)
  }

  lemma EveryHead(start: int, step: int, n: nat)
    requires n > 0
    ensures Every(start, step, n)[0] == start
  {
    assert 0 * step == 0;
  }

  lemma EveryTail(start: int, step: int, n: nat)
    requires n > 0
    ensures Every(start, step, n)[1..] == Every(start + step, step, n - 1)
  {
    var l, r := Every(start, step, n)[1..], Every(start + step, step, n - 1);
    forall i | 0 <= i < n - 1
      ensures l[i] == r[i]
    {
      assert (i + 1) * step == i * step + step;
    }
  }

  lemma InstantStep(b: Bucket, now: int, rps: int, burst: int)
    requires Config(rps, burst) && rps > 1000 && rps % 1000 != 0
    requires now == b.lastRefill + 1 && now < b.expires && 0 <= b.tokens <= burst
    ensures var (b', reply) := Call(Some(b), now, rps, burst);
      reply.allowed && b'.lastRefill == b.lastRefill && now < b'.expires && 0 <= b'.tokens <= burst
  {
    var k := Refill(1, rps);
    assert k == rps / 1000 && k >= 1 && k * 1000 < rps;
    DivBracket(k * 1000, rps, 0);
    assert Covered(k, rps) == 0;
    TtlCoversBurst(rps, burst);
  }

  /** Above 1000 requests a second, one millisecond of elapsed time grants at least one token
      and moves the timestamp by nothing, so it grants them again on every call. */
  lemma {:induction false} SameInstantAlwaysAdmits(b: Bucket, now: int, n: nat, rps: int, burst: int)
    requires Config(rps, burst) && rps > 1000 && rps % 1000 != 0
    requires now == b.lastRefill + 1 && now < b.expires && 0 <= b.tokens <= burst
    ensures Admitted(Some(b), Every(now, 0, n), rps, burst) == n
    decreases n
  {
    if n > 0 {
      InstantStep(b, now, rps, burst);
      var (b', reply) := Call(Some(b), now, rps, burst);
      SameInstantAlwaysAdmits(b', now, n - 1, rps, burst);
      EveryStep(b, b', now, 0, n, rps, burst);
    }
  }

  /** One such grant: a token after `1000 / rps + 1` milliseconds, one of which is kept. */
  lemma FractionStep(b: Bucket, rps: int, burst: int)
    requires Config(rps, burst) && rps < 1000 && 1000 % rps != 0
    requires b.tokens == 0 && b.lastRefill + 1000 / rps + 1 < b.expires
    ensures var now := b.lastRefill + 1000 / rps + 1;
      var (b', reply) := Call(Some(b), now, rps, burst);
      reply.allowed && b' == Bucket(0, b.lastRefill + 1000 / rps, now + TtlMs(rps, burst))
  {
    var p := 1000 / rps;
    assert p * rps < 1000 < p * rps + rps;
    assert (p + 1) * rps == p * rps + rps;
    DivBracket((p + 1) * rps, 1000, 1);
    assert Refill(p + 1, rps) == 1 && Covered(1, rps) == p;
  }

  /** At or below 1000 requests a second, tokens are granted every `1000 / rps` whole
      milliseconds: the timestamp forgets the fraction. */
  lemma FractionIsForgotten(b: Bucket, n: nat, rps: int, burst: int)
    requires Config(rps, burst) && rps < 1000 && 1000 % rps != 0
    requires b.tokens == 0 && b.lastRefill + 1000 / rps + 1 < b.expires
    ensures Admitted(Some(b), Every(b.lastRefill + 1000 / rps + 1, 1000 / rps, n), rps, burst) == n
  {
    FractionRun(b, n, 1000 / rps, rps, burst);
  }

  lemma {:induction false} FractionRun(b: Bucket, n: nat, p: int, rps: int, burst: int)
    requires Config(rps, burst) && rps < 1000 && 1000 % rps != 0 && p == 1000 / rps
    requires b.tokens == 0 && b.lastRefill + p + 1 < b.expires
    ensures Admitted(Some(b), Every(b.lastRefill + p + 1, p, n), rps, burst) == n
    decreases n
  {
    if n > 0 {
      var now := b.lastRefill + p + 1;
      var b' := FractionNext(b, p, rps, burst);
      FractionRun(b', n - 1, p, rps, burst);
      EveryStep(b, b', now, p, n, rps, burst);
    }
  }

  lemma FractionNext(b: Bucket, p: int, rps: int, burst: int) returns (b': Bucket)
    requires Config(rps, burst) && rps < 1000 && 1000 % rps != 0 && p == 1000 / rps
    requires b.tokens == 0 && b.lastRefill + p + 1 < b.expires
    ensures b'.tokens == 0 && b'.lastRefill == b.lastRefill + p && b'.lastRefill + p + 1 < b'.expires
    ensures Call(Some(b), b.lastRefill + p + 1, rps, burst).0 == b' && Call(Some(b), b.lastRefill + p + 1, rps, burst).1.allowed
  {
    FractionStep(b, rps, burst);
    DivMono(rps, burst);
    b' := Call(Some(b), b.lastRefill + p + 1, rps, burst).0;
  }

  /** The first of a series of equally spaced calls, if it is admitted. */
  lemma EveryStep(b: Bucket, b': Bucket, now: int, step: int, n: nat, rps: int, burst: int)
    requires Config(rps, burst) && n > 0
    requires Call(Some(b), now, rps, burst).0 == b' && Call(Some(b), now, rps, burst).1.allowed
    ensures Admitted(Some(b), Every(now, step, n), rps, burst) == 1 + Admitted(Some(b'), Every(now + step, step, n - 1), rps, burst)
  {
    EveryTail(now, step, n);
    EveryHead(now, step, n);
    OneMore(b, Every(now, step, n), rps, burst);
  }

  lemma DivMono(rps: int, burst: int)
    requires Config(rps, burst)
    ensures TtlMs(rps, burst) >= 2000
    ensures 1000 / rps <= 1000
  {
    var t := burst * 2000 / rps;
    assert burst * 2000 < (t + 1) * rps;
    MulMono(2000, rps, burst);
    MulLess(2000, t + 1, rps);
    MulLess(1000 / rps, 1001, rps) by {
      assert 1000 / rps * rps <= 1000;
      MulMono(1001, 1, rps);
    }
  }

  /** A burst drained at one instant, followed by anything. */
  lemma {:induction false} BurstAtOnce(b: Bucket, rest: seq<int>, rps: int, burst: int)
    requires Config(rps, burst)
    requires 1 <= b.tokens <= burst && b.lastRefill < b.expires
    ensures Admitted(Some(b), Every(b.lastRefill, 0, b.tokens) + rest, rps, burst)
         == b.tokens + Admitted(Some(Bucket(0, b.lastRefill, b.lastRefill + TtlMs(rps, burst))), rest, rps, burst)
    decreases b.tokens
  {
    var now := b.lastRefill;
    var times := Every(now, 0, b.tokens) + rest;
    DivMono(rps, burst);
    assert Elapsed(b, now) == 0 && Refill(0, rps) == 0;
    var b' := Call(Some(b), now, rps, burst).0;
    assert b' == Bucket(b.tokens - 1, now, now + TtlMs(rps, burst));
    EveryTail(now, 0, b.tokens);
    assert times[1..] == Every(now, 0, b.tokens - 1) + rest;
    if b.tokens == 1 {
      assert times[1..] == rest;
    } else {
      BurstAtOnce(b', rest, rps, burst);
    }
  }

  /** One call at instant 0, then `n` at instant 1. */
  lemma FastRun(n: nat, rps: int, burst: int)
    requires Config(rps, burst) && rps > 1000 && rps % 1000 != 0
    ensures Admitted(None, [0] + Every(1, 0, n), rps, burst) == n + 1
  {
    var times := [0] + Every(1, 0, n);
    DivMono(rps, burst);
    assert Elapsed(Bucket(burst, 0, 0), 0) == 0 && Refill(0, rps) == 0;
    var b := Bucket(burst - 1, 0, TtlMs(rps, burst));
    assert Call(None, 0, rps, burst) == (b, Reply(true, burst - 1, 0));
    SameInstantAlwaysAdmits(b, 1, n, rps, burst);
    assert times[0] == 0 && times[1..] == Every(1, 0, n);
  }

  lemma RateLawFailsFast(rps: int, burst: int)
    requires Config(rps, burst) && rps > 1000 && rps % 1000 != 0
    ensures !RateLaw(rps, burst)
  {
    var n := burst + rps;
    var times := [0] + Every(1, 0, n);
    FastRun(n, rps, burst);
    EveryOrdered(1, 0, n);
    assert times[|times| - 1] == Every(1, 0, n)[n - 1] == 1 && Nondecreasing(times);
    Breaks(times, 1, n + 1, rps, burst);
  }

  /** `rps + 1` grants, each `1000 - rps * p` microtokens too early, gain a whole token. */
  lemma DriftGains(rps: int)
    requires 1 <= rps < 1000 && 1000 % rps != 0
    ensures var p := 1000 / rps; rps * (p + 1 + rps * p) < 1000 * (rps + 1)
  {
    var p := 1000 / rps;
    assert p * rps <= 999;
    Distribute(rps, p + 1, rps * p);
    Distribute(rps, p, 1);
    MulMono(rps, rps * p, 999);
  }

  lemma DriftRun(rps: int, burst: int)
    requires Config(rps, burst) && rps < 1000 && 1000 % rps != 0
    ensures Admitted(None, Every(0, 0, burst) + Every(1000 / rps + 1, 1000 / rps, rps + 1), rps, burst)
         == burst + rps + 1
  {
    var p, m := 1000 / rps, rps + 1;
    var rest := Every(p + 1, p, m);
    var times := Every(0, 0, burst) + rest;
    DivMono(rps, burst);
    var full := Bucket(burst, 0, 1);
    assert times[0] == Every(0, 0, burst)[0] == 0;
    assert Refilled(Bucket(burst, 0, 0), 0, rps, burst) == Bucket(burst, 0, 0);
    assert Refilled(full, 0, rps, burst) == full;
    assert Call(None, 0, rps, burst) == Call(Some(full), 0, rps, burst);
    BurstAtOnce(full, rest, rps, burst);
    FractionIsForgotten(Bucket(0, 0, TtlMs(rps, burst)), m, rps, burst);
  }

  /** A burst at instant 0, then `m` calls from `p + 1` on, one every `p`. */
  lemma DriftTimes(p: nat, m: nat, burst: nat)
    requires 0 < m && 0 < burst
    ensures var times := Every(0, 0, burst) + Every(p + 1, p, m);
      Nondecreasing(times) && times[0] == 0 && times[|times| - 1] == p + 1 + (m - 1) * p
  {
    EveryOrdered(0, 0, burst);
    EveryOrdered(p + 1, p, m);
    EveryHead(0, 0, burst);
    var drain, rest := Every(0, 0, burst), Every(p + 1, p, m);
    assert forall i :: 0 <= i < burst ==> drain[i] == 0;
    assert rest[m - 1] == p + 1 + (m - 1) * p;
  }

  lemma RateLawDrifts(rps: int, burst: int)
    requires Config(rps, burst) && rps < 1000 && 1000 % rps != 0
    ensures !RateLaw(rps, burst)
  {
    var p, m := 1000 / rps, rps + 1;
    var times := Every(0, 0, burst) + Every(p + 1, p, m);
    DriftRun(rps, burst);
    DriftGains(rps);
    DriftTimes(p, m, burst);
    Breaks(times, p + 1 + rps * p, burst + m, rps, burst);
  }

  lemma Breaks(times: seq<int>, last: int, admitted: int, rps: int, burst: int)
    requires Config(rps, burst) && times != [] && Nondecreasing(times)
    requires times[0] == 0 && times[|times| - 1] == last
    requires Admitted(None, times, rps, burst) == admitted
    requires 1000 * admitted > 1000 * burst + rps * last
    ensures !RateLaw(rps, burst)
  {
  }

  lemma EveryOrdered(start: int, step: nat, n: nat)
    ensures Nondecreasing(Every(start, step, n))
    ensures forall i :: 0 <= i < n ==> Every(start, step, n)[i] >= start
  {
    var t := Every(start, step, n);
    forall i, j | 0 <= i <= j < n
      ensures t[i] <= t[j] && t[i] >= start
    {
      MulMono(step, i, j);
      MulMono(step, 0, i);
    }
  }

  /** The limiter keeps its promise for exactly the commensurate rates. */
  lemma RateLawIff(rps: int, burst: int)
    requires Config(rps, burst)
    ensures RateLaw(rps, burst) <==> Commensurate(rps)
  {
    if Commensurate(rps) {
      RateLawHolds(rps, burst);
    } else if rps < 1000 {
      RateLawDrifts(rps, burst);
    } else {
      RateLawFailsFast(rps, burst);
    }
  }

  // ----- the effective rate at or below 1000 requests a second ----------------------------------

  /** Credit with every token priced at the whole milliseconds one token costs. */
  ghost predicate SlowSound(b: Bucket, now: int, rps: int, burst: int)
    requires Config(rps, burst)
  {
    var p := 1000 / rps;
    && 0 <= b.tokens <= burst
    && b.lastRefill <= now
    && p * burst <= p * b.tokens + b.expires - b.lastRefill
  }

  lemma SlowCoversEnough(k: nat, rps: int)
    requires 1 <= rps <= 1000
    ensures k * (1000 / rps) <= Covered(k, rps)
  {
    var p, c := 1000 / rps, Covered(k, rps);
    assert p * rps <= 1000;
    MulMono(k, p * rps, 1000);
    assert (k * p) * rps == k * (p * rps);
    MulLess(k * p, c + 1, rps) by { assert k * 1000 < (c + 1) * rps; }
  }

  /** `k` tokens cover at least `k * p` milliseconds, and never more than have elapsed. */
  lemma SlowCover(e: nat, rps: int)
    requires 1 <= rps <= 1000
    ensures var k := Refill(e, rps); k * (1000 / rps) <= Covered(k, rps) <= e
  {
    var k := Refill(e, rps);
    var c := Covered(k, rps);
    SlowCoversEnough(k, rps);
    MulLess(c, e + 1, rps) by { assert c * rps <= k * 1000 <= e * rps; }
  }

  lemma SlowTtl(rps: int, burst: int)
    requires Config(rps, burst) && rps <= 1000
    ensures 1000 / rps * burst <= TtlMs(rps, burst)
  {
    var p, t := 1000 / rps, TtlMs(rps, burst);
    assert burst * 2000 < (t + 1) * rps;
    MulMono(burst, p * rps, 2000);
    assert (p * burst) * rps == burst * (p * rps);
    MulLess(p * burst, t + 1, rps);
  }

  /** The bookkeeping of one call, with the price `p` of a token as a given. */
  lemma PricedCall(p: nat, b: Bucket, now: int, rps: int, burst: int)
    requires Config(rps, burst)
    requires 0 <= b.tokens <= burst && b.lastRefill <= now
    requires var k := Refill(Elapsed(b, now), rps); k * p <= Covered(k, rps) <= Elapsed(b, now)
    ensures var r := Refilled(b, now, rps, burst);
      && p * r.tokens - r.lastRefill <= p * b.tokens - b.lastRefill
      && 0 <= r.tokens <= burst
      && r.lastRefill <= now
      && (r.tokens < 1 ==> r == b)
      && 0 <= p * r.tokens
      && p * (r.tokens - 1) == p * r.tokens - p
  {
    var k := Refill(Elapsed(b, now), rps);
    SlowSpend(p, b.tokens, k, burst);
  }

  lemma SlowCallSpends(b: Bucket, now: int, rps: int, burst: int)
    requires Config(rps, burst) && rps <= 1000 && SlowSound(b, now, rps, burst)
    ensures var (b', reply) := Call(Some(b), now, rps, burst);
      var p := 1000 / rps;
      && SlowSound(b', now, rps, burst)
      && p * b'.tokens - b'.lastRefill <= p * b.tokens - b.lastRefill - (if reply.allowed then p else 0)
  {
    var p := 1000 / rps;
    var o := Opened(Some(b), now, burst);
    SlowCover(Elapsed(o, now), rps);
    SlowTtl(rps, burst);
    PricedCall(p, o, now, rps, burst);
    SlowReply(p, b, o, now, rps, burst);
  }

  lemma SlowReply(p: nat, b: Bucket, o: Bucket, now: int, rps: int, burst: int)
    requires Config(rps, burst) && o == Opened(Some(b), now, burst)
    requires 0 <= b.tokens <= burst && b.lastRefill <= now
    requires p * burst <= p * b.tokens + b.expires - b.lastRefill
    requires p * burst <= TtlMs(rps, burst)
    requires var r := Refilled(o, now, rps, burst);
      && p * r.tokens - r.lastRefill <= p * o.tokens - o.lastRefill
      && 0 <= r.tokens <= burst && r.lastRefill <= now
      && (r.tokens < 1 ==> r == o)
      && 0 <= p * r.tokens && p * (r.tokens - 1) == p * r.tokens - p
    ensures var (b', reply) := Call(Some(b), now, rps, burst);
      && 0 <= b'.tokens <= burst && b'.lastRefill <= now
      && p * burst <= p * b'.tokens + b'.expires - b'.lastRefill
      && p * b'.tokens - b'.lastRefill <= p * b.tokens - b.lastRefill - (if reply.allowed then p else 0)
  {
    var r := Refilled(o, now, rps, burst);
    assert r.tokens >= 1 ==> p * (r.tokens - 1) >= 0 by { MulMono(p, 1, Max(1, r.tokens)); }
  }

  lemma SlowSpend(p: int, tokens: int, k: nat, burst: int)
    requires 0 <= p && 0 <= tokens <= burst
    ensures p * Min(burst, tokens + k) <= p * tokens + k * p
    ensures p * (Min(burst, tokens + k) - 1) == p * Min(burst, tokens + k) - p
    ensures p * (tokens - 1) == p * tokens - p
    ensures p * tokens >= 0
  {
    MulMono(p, Min(burst, tokens + k), tokens + k);
    Distribute(p, tokens, k);
    Distribute(p, Min(burst, tokens + k), 1);
  }

  lemma {:induction false} SlowAdmitted(b: Bucket, times: seq<int>, rps: int, burst: int)
    requires Config(rps, burst) && rps <= 1000
    requires times != [] && Nondecreasing(times) && SlowSound(b, times[0], rps, burst)
    ensures 1000 / rps * Admitted(Some(b), times, rps, burst)
         <= 1000 / rps * b.tokens + times[|times| - 1] - b.lastRefill
    decreases |times|
  {
    var p := 1000 / rps;
    var (b', reply) := Call(Some(b), times[0], rps, burst);
    SlowCallSpends(b, times[0], rps, burst);
    var tail := Admitted(Some(b'), times[1..], rps, burst);
    Distribute(p, 1, tail);
    MulMono(p, 0, b'.tokens);
    if |times| == 1 {
      assert times[1..] == [] && tail == 0;
    } else {
      assert SlowSound(b', times[1], rps, burst);
      SlowAdmitted(b', times[1..], rps, burst);
    }
  }

  /** For every rate up to 1000: one admission per `1000 / rps` whole milliseconds. */
  lemma EffectiveRate(times: seq<int>, rps: int, burst: int)
    requires Config(rps, burst) && rps <= 1000
    requires times != [] && Nondecreasing(times)
    ensures 1000 / rps * Admitted(None, times, rps, burst)
         <= 1000 / rps * burst + times[|times| - 1] - times[0]
  {
    var full := Bucket(burst, times[0], times[0]);
    assert Opened(None, times[0], burst) == full == Opened(Some(full), times[0], burst);
    assert Admitted(None, times, rps, burst) == Admitted(Some(full), times, rps, burst);
    SlowAdmitted(full, times, rps, burst);
  }

  // ----- what a refused caller is told -----------------------------------------------------------

  /** Waiting the `Retry-After` of a refusal always suffices: if nobody else spends from the
      bucket meanwhile, the next call is admitted, for every rate. */
  lemma RetryAfterSuffices(stored: Option<Bucket>, now: int, later: int, rps: int, burst: int)
    requires Config(rps, burst)
    requires stored.Some? ==> 0 <= stored.value.tokens <= burst && stored.value.lastRefill <= now
    ensures var (b, reply) := Call(stored, now, rps, burst);
      !reply.allowed && later >= now + 1000 * RetryAfterSeconds(reply.retryAfterMs)
      ==> Call(Some(b), later, rps, burst).1.allowed
  {
    var (b, reply) := Call(stored, now, rps, burst);
    if !reply.allowed && later >= now + 1000 * RetryAfterSeconds(reply.retryAfterMs) && later < b.expires {
      var e := later - b.lastRefill;
      MulMono(rps, 1000, e);
      assert Refill(e, rps) >= 1;
    }
  }

  /** The millisecond hint alone suffices, however long the refused bucket has already been
      accruing, exactly when a token costs a whole number of milliseconds, or less than one. */
  lemma RetryHintSufficesIff(rps: int)
    requires 1 <= rps
    ensures (forall waited: nat | Refill(waited, rps) == 0 :: Refill(waited + RetryHint(rps), rps) >= 1)
      <==> 1000 % rps == 0 || rps >= 1000
  {
    var h := RetryHint(rps);
    if 1000 % rps == 0 || rps >= 1000 {
      forall waited: nat | Refill(waited, rps) == 0
        ensures Refill(waited + h, rps) >= 1
      {
        assert h * rps >= 1000;
        MulMono(rps, h, waited + h);
      }
    } else {
      assert Refill(0, rps) == 0;
      assert h * rps < 1000;
      assert Refill(0 + h, rps) == 0;
    }
  }
}
