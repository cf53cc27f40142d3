/**
 * The probe engine: the result record, the retry/backoff driver, the DNS and
 * HTTP per-attempt classification, and the fan-out over a list of targets.
 *
 * A network attempt is not performed here. It is an oracle: `observe(j)` is
 * what the j-th attempt (counting from 0) on one target saw, either a response
 * carrying a protocol code or a transport failure, together with the measured
 * round-trip time. Sleeping is recorded as a ghost log of requested delays.
 */
module Probes {
  import opened Wrappers

  datatype CheckType = Dns | Http {
    /** The `check_type` string stored in a result. */
    function Name(): string {
      match this
      case Dns => "dns"
      case Http => "http"
    }
  }

  /** One probe attempt's outcome, as the frozen `ProbeResult` dataclass. */
  datatype ProbeResult = ProbeResult(
    target: string,
    checkType: CheckType,
    rttMs: real,
    success: bool,
    httpStatus: Option<int>,
    dnsRcode: Option<int>,
    error: Option<string>)

  /** Elapsed wall-clock time; a difference of monotonic clock readings. */
  type Millis = r: real | 0.0 <= r

  /** What the network call of one attempt produced. */
  datatype Outcome =
    | Response(code: int)             // DNS rcode or HTTP status code
    | TransportFailure(message: string) // the text of the raised exception

  datatype Observation = Observation(outcome: Outcome, rttMs: Millis)

  /** RCODE 0, "no error condition" (section 4.1.1 of RFC 1035). */
  const NOERROR: int := 0

  /** The first server-error status code (section 15.6 of RFC 9110). */
  const SERVER_ERROR: int := 500

  /**
   * The record invariant the probers establish: a protocol code only for the
   * matching check type, an error exactly when no protocol code was received,
   * and an error never on a success.
   */
  predicate WellFormed(r: ProbeResult) {
    && 0.0 <= r.rttMs
    && (r.checkType == Dns ==> r.httpStatus == None)
    && (r.checkType == Http ==> r.dnsRcode == None)
    && (r.error.Some? <==> r.httpStatus == None && r.dnsRcode == None)
    && (r.error.Some? ==> !r.success)
  }

  // ---------------------------------------------------------------------------
  // Per-attempt classification (the `_attempt` closures)
  // ---------------------------------------------------------------------------

  /** One DNS attempt against `resolver`, classified. */
  function ClassifyDns(resolver: string, obs: Observation): (r: ProbeResult)
    ensures r.target == resolver && r.checkType == Dns && r.rttMs == obs.rttMs
    ensures r.success <==> obs.outcome == Response(NOERROR)
    ensures r.dnsRcode.Some? <==> obs.outcome.Response?
    ensures obs.outcome.Response? ==> r.dnsRcode.value == obs.outcome.code && r.error == None
    ensures obs.outcome.TransportFailure? ==> r.error == Some(obs.outcome.message)
    ensures WellFormed(r)
  {
    match obs.outcome
    case Response(rcode) =>
      ProbeResult(resolver, Dns, obs.rttMs, rcode == NOERROR, None, Some(rcode), None)
    case TransportFailure(msg) =>
      ProbeResult(resolver, Dns, obs.rttMs, false, None, None, Some(msg))
  }

  /** One HTTP attempt against `url`, classified. */
  function ClassifyHttp(url: string, obs: Observation): (r: ProbeResult)
    ensures r.target == url && r.checkType == Http && r.rttMs == obs.rttMs
    ensures r.success <==> obs.outcome.Response? && obs.outcome.code < SERVER_ERROR
    ensures r.httpStatus.Some? <==> obs.outcome.Response?
    ensures obs.outcome.Response? ==> r.httpStatus.value == obs.outcome.code && r.error == None
    ensures obs.outcome.TransportFailure? ==> r.error == Some(obs.outcome.message)
    ensures WellFormed(r)
  {
    match obs.outcome
    case Response(status) =>
      ProbeResult(url, Http, obs.rttMs, status < SERVER_ERROR, Some(status), None, None)
    case TransportFailure(msg) =>
      ProbeResult(url, Http, obs.rttMs, false, None, None, Some(msg))
  }

  /** The attempt function `run_dns_probe` hands to the retry driver. */
  function DnsAttempts(resolver: string, observe: nat -> Observation): nat -> ProbeResult {
    (j: nat) => ClassifyDns(resolver, observe(j))
  }

  /** The attempt function `run_http_probe` hands to the retry driver. */
  function HttpAttempts(url: string, observe: nat -> Observation): nat -> ProbeResult {
    (j: nat) => ClassifyHttp(url, observe(j))
  }

  // ---------------------------------------------------------------------------
  // Backoff
  // ---------------------------------------------------------------------------

  /** Python's `2 ** e` for an int exponent, exactly. */
  function TwoPow(e: int): (p: real)
    ensures 0.0 < p
    decreases if e < 0 then -e else e
  {
    if e == 0 then 1.0
    else if e > 0 then 2.0 * TwoPow(e - 1)
    else TwoPow(e + 1) / 2.0
  }

  lemma {:induction false} TwoPowMonotone(i: nat, j: nat)
    requires i <= j
    ensures TwoPow(i) <= TwoPow(j)
  {
    if i < j {
      TwoPowMonotone(i, j - 1);
    }
  }

  /** The delay `_sleep_backoff` requests after failed attempt number `attempt`. */
  function Backoff(base: real, maxBackoff: real, attempt: int): (d: real)
    ensures d <= maxBackoff && d <= base * TwoPow(attempt - 1)
    ensures d == maxBackoff || d == base * TwoPow(attempt - 1)
  {
    var grown := base * TwoPow(attempt - 1);
    if maxBackoff < grown then maxBackoff else grown
  }

  /** The delays requested after attempts 1 .. n, in order. */
  function Schedule(base: real, maxBackoff: real, n: nat): (s: seq<real>)
    ensures |s| == n
  {
    if n == 0 then [] else Schedule(base, maxBackoff, n - 1) + [Backoff(base, maxBackoff, n)]
  }

  /** The i-th requested delay is `min(base * 2^i, max)`. */
  lemma {:induction false} ScheduleAt(base: real, maxBackoff: real, n: nat, i: nat)
    requires i < n
    ensures Schedule(base, maxBackoff, n)[i] == Backoff(base, maxBackoff, i + 1)
    ensures Schedule(base, maxBackoff, n)[i] <= maxBackoff
  {
    if i < n - 1 {
      ScheduleAt(base, maxBackoff, n - 1, i);
    }
  }

  /** With a non-negative base, delays never shrink, and each one below the cap doubles the one before. */
  lemma ScheduleGrowth(base: real, maxBackoff: real, n: nat, i: nat)
    requires 0.0 <= base
    requires i + 1 < n
    ensures Schedule(base, maxBackoff, n)[i] <= Schedule(base, maxBackoff, n)[i + 1]
    ensures Schedule(base, maxBackoff, n)[i + 1] < maxBackoff ==>
              Schedule(base, maxBackoff, n)[i + 1] == 2.0 * Schedule(base, maxBackoff, n)[i]
  {
    ScheduleAt(base, maxBackoff, n, i);
    ScheduleAt(base, maxBackoff, n, i + 1);
    TwoPowMonotone(i, i + 1);
    assert TwoPow(i + 1) == 2.0 * TwoPow(i);
    assert base * TwoPow(i) <= base * TwoPow(i + 1);
  }

  // ---------------------------------------------------------------------------
  // What a sleep can raise
  // ---------------------------------------------------------------------------

  /** The exceptions `_sleep_backoff` can raise, named as Python names them. */
  datatype SleepError = OverflowError | ValueError

  /** A call that either returns a value or lets an exception out. */
  datatype Run<T> = Returned(value: T) | Raised(error: SleepError)

  /**
   * 2^1024 is the first power of two above the largest double, so once
   * `attempt - 1` reaches this exponent, `2 ** (attempt - 1)` cannot be
   * converted to float and the multiplication by the base raises OverflowError.
   */
  const FLOAT_EXPONENT_LIMIT: int := 1024

  /** `time.sleep` converts its argument to a signed 64-bit count of nanoseconds. */
  const NANOS_PER_SECOND: real := 1000000000.0
  const SLEEP_LIMIT_NANOS: real := 9223372036854775808.0 // 2^63

  /**
   * What `_sleep_backoff(base, maxBackoff, attempt)` raises, if anything. The
   * power of two may not convert to float; then `time.sleep` refuses a delay
   * outside the 64-bit nanosecond range with OverflowError and a negative one
   * with ValueError.
   */
  function SleepFault(base: real, maxBackoff: real, attempt: int): Option<SleepError> {
    if attempt - 1 >= FLOAT_EXPONENT_LIMIT then Some(OverflowError)
    else
      var nanos := Backoff(base, maxBackoff, attempt) * NANOS_PER_SECOND;
      if nanos < -SLEEP_LIMIT_NANOS || SLEEP_LIMIT_NANOS <= nanos then Some(OverflowError)
      else if nanos < 0.0 then Some(ValueError)
      else None
  }

  /**
   * A negative base or cap makes every sleep raise: every requested delay is
   * negative, so it is ValueError unless an overflow comes first.
   */
  lemma NegativeBackoffFaults(base: real, maxBackoff: real, attempt: int)
    requires base < 0.0 || maxBackoff < 0.0
    ensures Backoff(base, maxBackoff, attempt) < 0.0
    ensures SleepFault(base, maxBackoff, attempt).Some?
    ensures attempt - 1 < FLOAT_EXPONENT_LIMIT &&
            -SLEEP_LIMIT_NANOS <= Backoff(base, maxBackoff, attempt) * NANOS_PER_SECOND ==>
              SleepFault(base, maxBackoff, attempt) == Some(ValueError)
  {
    var p := TwoPow(attempt - 1);
    if base < 0.0 {
      assert base * p < 0.0;
    }
  }

  /** A non-negative base and cap never make a sleep raise ValueError. */
  lemma NonNegativeBackoffNoValueError(base: real, maxBackoff: real, attempt: int)
    requires 0.0 <= base && 0.0 <= maxBackoff
    ensures 0.0 <= Backoff(base, maxBackoff, attempt)
    ensures SleepFault(base, maxBackoff, attempt) != Some(ValueError)
  {
    var p := TwoPow(attempt - 1);
    assert 0.0 <= base * p;
  }

  /**
   * A non-negative base with a non-negative cap below the nanosecond range:
   * no sleep before the float conversion overflows raises.
   */
  lemma SaneBackoffNoFault(base: real, maxBackoff: real, attempt: int)
    requires 0.0 <= base && 0.0 <= maxBackoff
    requires maxBackoff * NANOS_PER_SECOND < SLEEP_LIMIT_NANOS
    requires attempt - 1 < FLOAT_EXPONENT_LIMIT
    ensures SleepFault(base, maxBackoff, attempt) == None
  {
    NonNegativeBackoffNoValueError(base, maxBackoff, attempt);
    var d := Backoff(base, maxBackoff, attempt);
    assert d * NANOS_PER_SECOND <= maxBackoff * NANOS_PER_SECOND;
  }

  // ---------------------------------------------------------------------------
  // The retry driver, specified
  // ---------------------------------------------------------------------------

  /**
   * How many calls the driver makes when attempts j .. last remain and call j
   * returns fn(j): it stops at the first success or after call `last`.
   */
  function CallsFrom(fn: nat -> ProbeResult, j: nat, last: nat): (n: nat)
    requires j <= last
    ensures j < n <= last + 1
    decreases last - j
  {
    if fn(j).success || j == last then j + 1 else CallsFrom(fn, j + 1, last)
  }

  /** How many times `_with_retries` calls `fn` when no sleep raises. */
  function CallsMade(fn: nat -> ProbeResult, retries: int): (n: nat)
    ensures 1 <= n
    ensures retries < 0 ==> n == 1
    ensures 0 <= retries ==> n <= retries + 1
  {
    if retries < 0 then 1 else CallsFrom(fn, 0, retries)
  }

  /** What `_with_retries` returns when no sleep raises: the result of the last call it made. */
  function RetryResult(fn: nat -> ProbeResult, retries: int): ProbeResult {
    fn(CallsMade(fn, retries) - 1)
  }

  /** Every call before the last one failed, and the last one either succeeded or used up the budget. */
  lemma {:induction false} CallsFromStopsAtFirstSuccess(fn: nat -> ProbeResult, j: nat, last: nat)
    requires j <= last
    ensures forall k :: j <= k < CallsFrom(fn, j, last) - 1 ==> !fn(k).success
    ensures fn(CallsFrom(fn, j, last) - 1).success || CallsFrom(fn, j, last) == last + 1
    decreases last - j
  {
    if !fn(j).success && j < last {
      CallsFromStopsAtFirstSuccess(fn, j + 1, last);
    }
  }

  /** The calls made are exactly those up to and including the first success within budget. */
  lemma CallsMadeCharacterized(fn: nat -> ProbeResult, retries: int)
    requires 0 <= retries
    ensures forall k :: 0 <= k < CallsMade(fn, retries) - 1 ==> !fn(k).success
    ensures RetryResult(fn, retries).success || CallsMade(fn, retries) == retries + 1
  {
    CallsFromStopsAtFirstSuccess(fn, 0, retries);
  }

  /** An attempt that always fails is called retries + 1 times and the last result is returned. */
  lemma RetryAllFail(fn: nat -> ProbeResult, retries: int)
    requires 0 <= retries
    requires forall j :: 0 <= j <= retries ==> !fn(j).success
    ensures CallsMade(fn, retries) == retries + 1
    ensures RetryResult(fn, retries) == fn(retries)
  {
    CallsMadeCharacterized(fn, retries);
  }

  /** If the first success is attempt k (counting from 1), exactly k calls are made and that success is returned. */
  lemma RetryFirstSuccess(fn: nat -> ProbeResult, retries: int, k: nat)
    requires 1 <= k <= retries + 1
    requires fn(k - 1).success
    requires forall j :: 0 <= j < k - 1 ==> !fn(j).success
    ensures CallsMade(fn, retries) == k
    ensures RetryResult(fn, retries) == fn(k - 1) && RetryResult(fn, retries).success
  {
    CallsMadeCharacterized(fn, retries);
  }

  /** The driver reports failure exactly when every attempt in the budget failed. */
  lemma RetrySucceedsIff(fn: nat -> ProbeResult, retries: int)
    requires 0 <= retries
    ensures RetryResult(fn, retries).success <==> exists j :: 0 <= j <= retries && fn(j).success
  {
    CallsMadeCharacterized(fn, retries);
  }

  /** The first of sleeps 1 .. n that raises, or n + 1 when none of them does. */
  function FirstFault(base: real, maxBackoff: real, n: nat): (k: nat)
    ensures 1 <= k <= n + 1
    ensures forall N :: 1 <= N < k ==> SleepFault(base, maxBackoff, N) == None
    ensures k <= n ==> SleepFault(base, maxBackoff, k).Some?
  {
    if n == 0 then 1
    else
      var k := FirstFault(base, maxBackoff, n - 1);
      if k < n then k
      else if SleepFault(base, maxBackoff, n).Some? then n
      else n + 1
  }

  /** A position with no raising sleep before it and a raising one at it (or past n) is the first fault. */
  lemma FirstFaultIs(base: real, maxBackoff: real, n: nat, k: nat)
    requires 1 <= k <= n + 1
    requires forall N :: 1 <= N < k ==> SleepFault(base, maxBackoff, N) == None
    requires k <= n ==> SleepFault(base, maxBackoff, k).Some?
    ensures FirstFault(base, maxBackoff, n) == k
  {
  }

  /**
   * How many times `_with_retries` calls `fn`: the calls it would make, cut
   * short by the first sleep that raises.
   */
  function AttemptsMade(fn: nat -> ProbeResult, retries: int, base: real, maxBackoff: real): (n: nat)
    ensures 1 <= n <= CallsMade(fn, retries)
  {
    FirstFault(base, maxBackoff, CallsMade(fn, retries) - 1)
  }

  /**
   * What `_with_retries` does: the sleep after the last attempt made raises, or
   * the result of that attempt is returned.
   */
  function RetryRun(fn: nat -> ProbeResult, retries: int, base: real, maxBackoff: real): Run<ProbeResult> {
    var n := AttemptsMade(fn, retries, base, maxBackoff);
    if n < CallsMade(fn, retries) then Raised(SleepFault(base, maxBackoff, n).value)
    else Returned(RetryResult(fn, retries))
  }

  /**
   * The driver raises exactly when one of the sleeps it would request raises,
   * and then every earlier sleep completed. Otherwise it returns `RetryResult`
   * after all the calls it would make.
   */
  lemma RetryRaisesIff(fn: nat -> ProbeResult, retries: int, base: real, maxBackoff: real)
    ensures RetryRun(fn, retries, base, maxBackoff).Raised? <==>
              exists N :: 1 <= N < CallsMade(fn, retries) && SleepFault(base, maxBackoff, N).Some?
    ensures RetryRun(fn, retries, base, maxBackoff).Raised? ==>
              && Some(RetryRun(fn, retries, base, maxBackoff).error) ==
                 SleepFault(base, maxBackoff, AttemptsMade(fn, retries, base, maxBackoff))
              && forall N :: 1 <= N < AttemptsMade(fn, retries, base, maxBackoff) ==> SleepFault(base, maxBackoff, N) == None
    ensures RetryRun(fn, retries, base, maxBackoff).Returned? ==>
              && RetryRun(fn, retries, base, maxBackoff).value == RetryResult(fn, retries)
              && AttemptsMade(fn, retries, base, maxBackoff) == CallsMade(fn, retries)
  {
    var n := AttemptsMade(fn, retries, base, maxBackoff);
    if n < CallsMade(fn, retries) {
      assert SleepFault(base, maxBackoff, n).Some?;
    }
  }

  /**
   * A non-negative backoff whose cap is in the nanosecond range, with at most
   * 1024 retries: no sleep raises, and the driver returns `RetryResult`.
   */
  lemma RetryReturnsWithSaneBackoff(fn: nat -> ProbeResult, retries: int, base: real, maxBackoff: real)
    requires 0.0 <= base && 0.0 <= maxBackoff
    requires maxBackoff * NANOS_PER_SECOND < SLEEP_LIMIT_NANOS
    requires retries <= FLOAT_EXPONENT_LIMIT
    ensures AttemptsMade(fn, retries, base, maxBackoff) == CallsMade(fn, retries)
    ensures RetryRun(fn, retries, base, maxBackoff) == Returned(RetryResult(fn, retries))
  {
    var calls := CallsMade(fn, retries);
    forall N | 1 <= N < calls
      ensures SleepFault(base, maxBackoff, N) == None
    {
      SaneBackoffNoFault(base, maxBackoff, N);
    }
    FirstFaultIs(base, maxBackoff, calls - 1, calls);
  }

  /**
   * A negative base or cap: once the first attempt fails with a retry left, the
   * first sleep raises, with ValueError unless the delay overflows first.
   */
  lemma RetryNegativeBackoffRaises(fn: nat -> ProbeResult, retries: int, base: real, maxBackoff: real)
    requires base < 0.0 || maxBackoff < 0.0
    requires 1 <= retries && !fn(0).success
    ensures AttemptsMade(fn, retries, base, maxBackoff) == 1
    ensures RetryRun(fn, retries, base, maxBackoff).Raised?
    ensures -SLEEP_LIMIT_NANOS <= Backoff(base, maxBackoff, 1) * NANOS_PER_SECOND ==>
              RetryRun(fn, retries, base, maxBackoff) == Raised(ValueError)
  {
    NegativeBackoffFaults(base, maxBackoff, 1);
    assert CallsMade(fn, retries) == CallsFrom(fn, 1, retries);
    FirstFaultIs(base, maxBackoff, CallsMade(fn, retries) - 1, 1);
  }

  /**
   * A non-negative backoff with more than 1024 retries: if the first 1025
   * attempts all fail, a sleep raises OverflowError, at the latest the one
   * whose factor is 2^1024.
   */
  lemma RetryLongFailureOverflows(fn: nat -> ProbeResult, retries: int, base: real, maxBackoff: real)
    requires 0.0 <= base && 0.0 <= maxBackoff
    requires FLOAT_EXPONENT_LIMIT < retries
    requires forall j :: 0 <= j <= FLOAT_EXPONENT_LIMIT ==> !fn(j).success
    ensures AttemptsMade(fn, retries, base, maxBackoff) <= FLOAT_EXPONENT_LIMIT + 1
    ensures RetryRun(fn, retries, base, maxBackoff) == Raised(OverflowError)
  {
    CallsMadeCharacterized(fn, retries);
    assert !fn(CallsMade(fn, retries) - 1).success ==> CallsMade(fn, retries) == retries + 1;
    assert FLOAT_EXPONENT_LIMIT + 1 < CallsMade(fn, retries);
    assert SleepFault(base, maxBackoff, FLOAT_EXPONENT_LIMIT + 1).Some?;
    NonNegativeBackoffNoValueError(base, maxBackoff, AttemptsMade(fn, retries, base, maxBackoff));
  }

  /** The driver's exit on a success: call a - 1 succeeded after a - 1 completed sleeps. */
  lemma RunEndsAtSuccess(fn: nat -> ProbeResult, retries: int, base: real, maxBackoff: real, a: nat)
    requires 1 <= a <= retries + 1 && fn(a - 1).success
    requires CallsMade(fn, retries) == CallsFrom(fn, a - 1, retries)
    requires forall N :: 1 <= N < a ==> SleepFault(base, maxBackoff, N) == None
    ensures AttemptsMade(fn, retries, base, maxBackoff) == a
    ensures RetryRun(fn, retries, base, maxBackoff) == Returned(fn(a - 1))
  {
    FirstFaultIs(base, maxBackoff, a - 1, a);
  }

  /** The driver's exit on a raising sleep: the sleep after failed call a - 1, with a retry left, raised. */
  lemma RunEndsAtFault(fn: nat -> ProbeResult, retries: int, base: real, maxBackoff: real, a: nat)
    requires 1 <= a <= retries && !fn(a - 1).success
    requires CallsMade(fn, retries) == CallsFrom(fn, a - 1, retries)
    requires forall N :: 1 <= N < a ==> SleepFault(base, maxBackoff, N) == None
    requires SleepFault(base, maxBackoff, a).Some?
    ensures AttemptsMade(fn, retries, base, maxBackoff) == a
    ensures RetryRun(fn, retries, base, maxBackoff) == Raised(SleepFault(base, maxBackoff, a).value)
  {
    assert CallsFrom(fn, a - 1, retries) == CallsFrom(fn, a, retries);
    FirstFaultIs(base, maxBackoff, CallsMade(fn, retries) - 1, a);
  }

  /** The driver's exit after the whole budget: every sleep completed and the last call's result is returned. */
  lemma RunEndsExhausted(fn: nat -> ProbeResult, retries: int, base: real, maxBackoff: real)
    requires 0 <= retries && CallsMade(fn, retries) == retries + 1
    requires forall N :: 1 <= N <= retries ==> SleepFault(base, maxBackoff, N) == None
    ensures AttemptsMade(fn, retries, base, maxBackoff) == retries + 1
    ensures RetryRun(fn, retries, base, maxBackoff) == Returned(fn(retries))
  {
    FirstFaultIs(base, maxBackoff, retries, retries + 1);
  }

  // ---------------------------------------------------------------------------
  // The retry driver, as the source runs it
  // ---------------------------------------------------------------------------

  /**
   * `_with_retries`: call `fn` until it succeeds or `retries + 1` calls were made,
   * sleeping `Backoff(base, maxBackoff, N)` after failed attempt N when another
   * attempt remains; a sleep that raises ends the run with its exception. Call
   * j (from 0) returns fn(j). With a negative budget the loop never runs and
   * the fallback call's result is returned. `sleeps` logs the sleeps completed.
   */
  method WithRetries(fn: nat -> ProbeResult, retries: int, base: real, maxBackoff: real)
    returns (run: Run<ProbeResult>, ghost calls: nat, ghost sleeps: seq<real>)
    ensures run == RetryRun(fn, retries, base, maxBackoff)
    ensures calls == AttemptsMade(fn, retries, base, maxBackoff)
    ensures sleeps == Schedule(base, maxBackoff, calls - 1)
  {
    var attempt: int := 0;
    var lastError: Option<ProbeResult> := None;
    calls, sleeps := 0, [];
    while attempt <= retries
      invariant 0 <= attempt && (attempt > 0 ==> attempt <= retries + 1)
      invariant calls == attempt
      invariant lastError == if attempt == 0 then None else Some(fn(attempt - 1))
      invariant attempt == 0 ==> sleeps == []
      invariant attempt <= retries ==> sleeps == Schedule(base, maxBackoff, attempt)
      invariant 0 <= retries && attempt == retries + 1 ==> sleeps == Schedule(base, maxBackoff, retries)
      invariant forall N :: 1 <= N <= attempt && N <= retries ==> SleepFault(base, maxBackoff, N) == None
      invariant attempt <= retries ==> CallsMade(fn, retries) == CallsFrom(fn, attempt, retries)
      invariant 0 <= retries && attempt == retries + 1 ==> CallsMade(fn, retries) == retries + 1
      decreases retries + 1 - attempt
    {
      var result := fn(attempt);
      attempt := attempt + 1;
      calls := calls + 1;
      if result.success {
        RunEndsAtSuccess(fn, retries, base, maxBackoff, attempt);
        run := Returned(result);
        return;
      }
      lastError := Some(result);
      if attempt <= retries {
        var fault := SleepFault(base, maxBackoff, attempt);
        if fault.Some? {
          RunEndsAtFault(fn, retries, base, maxBackoff, attempt);
          run := Raised(fault.value);
          return;
        }
        sleeps := sleeps + [Backoff(base, maxBackoff, attempt)];
      }
    }
    if lastError.Some? {
      RunEndsExhausted(fn, retries, base, maxBackoff);
      run := Returned(lastError.value);
    } else {
      run := Returned(fn(attempt));
      calls := calls + 1;
    }
  }

  /** The run of a DNS probe: the retry driver over DNS-classified attempts. */
  function DnsRun(resolver: string, observe: nat -> Observation, retries: int, base: real, maxBackoff: real): Run<ProbeResult> {
    RetryRun(DnsAttempts(resolver, observe), retries, base, maxBackoff)
  }

  /** The run of an HTTP probe: the retry driver over HTTP-classified attempts. */
  function HttpRun(url: string, observe: nat -> Observation, retries: int, base: real, maxBackoff: real): Run<ProbeResult> {
    RetryRun(HttpAttempts(url, observe), retries, base, maxBackoff)
  }

  /** `run_dns_probe`: DNS attempts against one resolver under the retry driver. */
  method RunDnsProbe(resolver: string, observe: nat -> Observation, retries: int, base: real, maxBackoff: real)
    returns (run: Run<ProbeResult>, ghost sleeps: seq<real>)
    ensures run == DnsRun(resolver, observe, retries, base, maxBackoff)
    ensures sleeps == Schedule(base, maxBackoff, AttemptsMade(DnsAttempts(resolver, observe), retries, base, maxBackoff) - 1)
    ensures run.Returned? ==> run.value.target == resolver && run.value.checkType == Dns && WellFormed(run.value)
  {
    ghost var calls;
    run, calls, sleeps := WithRetries(DnsAttempts(resolver, observe), retries, base, maxBackoff);
    assert run.Returned? ==> run.value == ClassifyDns(resolver, observe(CallsMade(DnsAttempts(resolver, observe), retries) - 1));
  }

  /** `run_http_probe`: HTTP attempts against one URL under the retry driver. */
  method RunHttpProbe(url: string, observe: nat -> Observation, retries: int, base: real, maxBackoff: real)
    returns (run: Run<ProbeResult>, ghost sleeps: seq<real>)
    ensures run == HttpRun(url, observe, retries, base, maxBackoff)
    ensures sleeps == Schedule(base, maxBackoff, AttemptsMade(HttpAttempts(url, observe), retries, base, maxBackoff) - 1)
    ensures run.Returned? ==> run.value.target == url && run.value.checkType == Http && WellFormed(run.value)
  {
    ghost var calls;
    run, calls, sleeps := WithRetries(HttpAttempts(url, observe), retries, base, maxBackoff);
    assert run.Returned? ==> run.value == ClassifyHttp(url, observe(CallsMade(HttpAttempts(url, observe), retries) - 1));
  }

  /** A DNS probe that returns reports success exactly when some attempt in the budget got RCODE NOERROR. */
  lemma DnsProbeSucceedsIff(resolver: string, observe: nat -> Observation, retries: int, base: real, maxBackoff: real)
    requires 0 <= retries
    requires DnsRun(resolver, observe, retries, base, maxBackoff).Returned?
    ensures DnsRun(resolver, observe, retries, base, maxBackoff).value.success <==>
              exists j :: 0 <= j <= retries && observe(j).outcome == Response(NOERROR)
  {
    var fn := DnsAttempts(resolver, observe);
    RetrySucceedsIff(fn, retries);
    assert forall j :: 0 <= j <= retries ==> (fn(j).success <==> observe(j).outcome == Response(NOERROR));
  }

  /** An HTTP probe that returns reports success exactly when some attempt in the budget got a status below 500. */
  lemma HttpProbeSucceedsIff(url: string, observe: nat -> Observation, retries: int, base: real, maxBackoff: real)
    requires 0 <= retries
    requires HttpRun(url, observe, retries, base, maxBackoff).Returned?
    ensures HttpRun(url, observe, retries, base, maxBackoff).value.success <==>
              exists j :: 0 <= j <= retries && observe(j).outcome.Response? && observe(j).outcome.code < SERVER_ERROR
  {
    var fn := HttpAttempts(url, observe);
    RetrySucceedsIff(fn, retries);
    assert forall j :: 0 <= j <= retries ==>
      (fn(j).success <==> observe(j).outcome.Response? && observe(j).outcome.code < SERVER_ERROR);
  }

  // ---------------------------------------------------------------------------
  // Fan-out
  // ---------------------------------------------------------------------------

  /** The attempts on the i-th target of a fan-out: `observe(i, j)` is its j-th attempt. */
  function TargetObservations(observe: (nat, nat) -> Observation, i: nat): nat -> Observation {
    (j: nat) => observe(i, j)
  }

  /**
   * `run_all_dns`: one retried DNS probe per resolver, in input order. The
   * first probe that raises aborts the fan-out with its exception and no list.
   */
  method RunAllDns(resolvers: seq<string>, observe: (nat, nat) -> Observation, retries: int, base: real, maxBackoff: real)
    returns (run: Run<seq<ProbeResult>>)
    ensures run.Returned? <==> forall i :: 0 <= i < |resolvers| ==>
              DnsRun(resolvers[i], TargetObservations(observe, i), retries, base, maxBackoff).Returned?
    ensures run.Returned? ==> |run.value| == |resolvers|
    ensures run.Returned? ==> forall i :: 0 <= i < |resolvers| ==>
              && DnsRun(resolvers[i], TargetObservations(observe, i), retries, base, maxBackoff) == Returned(run.value[i])
              && run.value[i].target == resolvers[i] && run.value[i].checkType == Dns && WellFormed(run.value[i])
    ensures run.Raised? ==>
              exists k :: 0 <= k < |resolvers| &&
                DnsRun(resolvers[k], TargetObservations(observe, k), retries, base, maxBackoff) == Raised(run.error) &&
                forall i :: 0 <= i < k ==> DnsRun(resolvers[i], TargetObservations(observe, i), retries, base, maxBackoff).Returned?
  {
    var results: seq<ProbeResult> := [];
    for i := 0 to |resolvers|
      invariant |results| == i
      invariant forall k :: 0 <= k < i ==>
                  DnsRun(resolvers[k], TargetObservations(observe, k), retries, base, maxBackoff) == Returned(results[k])
      invariant forall k :: 0 <= k < i ==>
                  results[k].target == resolvers[k] && results[k].checkType == Dns && WellFormed(results[k])
    {
      var r, _ := RunDnsProbe(resolvers[i], TargetObservations(observe, i), retries, base, maxBackoff);
      if r.Raised? {
        run := Raised(r.error);
        return;
      }
      results := results + [r.value];
    }
    run := Returned(results);
  }

  /**
   * `run_all_http`: one retried HTTP probe per URL, in input order. The first
   * probe that raises aborts the fan-out with its exception and no list.
   */
  method RunAllHttp(targets: seq<string>, observe: (nat, nat) -> Observation, retries: int, base: real, maxBackoff: real)
    returns (run: Run<seq<ProbeResult>>)
    ensures run.Returned? <==> forall i :: 0 <= i < |targets| ==>
              HttpRun(targets[i], TargetObservations(observe, i), retries, base, maxBackoff).Returned?
    ensures run.Returned? ==> |run.value| == |targets|
    ensures run.Returned? ==> forall i :: 0 <= i < |targets| ==>
              && HttpRun(targets[i], TargetObservations(observe, i), retries, base, maxBackoff) == Returned(run.value[i])
              && run.value[i].target == targets[i] && run.value[i].checkType == Http && WellFormed(run.value[i])
    ensures run.Raised? ==>
              exists k :: 0 <= k < |targets| &&
                HttpRun(targets[k], TargetObservations(observe, k), retries, base, maxBackoff) == Raised(run.error) &&
                forall i :: 0 <= i < k ==> HttpRun(targets[i], TargetObservations(observe, i), retries, base, maxBackoff).Returned?
  {
    var results: seq<ProbeResult> := [];
    for i := 0 to |targets|
      invariant |results| == i
      invariant forall k :: 0 <= k < i ==>
                  HttpRun(targets[k], TargetObservations(observe, k), retries, base, maxBackoff) == Returned(results[k])
      invariant forall k :: 0 <= k < i ==>
                  results[k].target == targets[k] && results[k].checkType == Http && WellFormed(results[k])
    {
      var r, _ := RunHttpProbe(targets[i], TargetObservations(observe, i), retries, base, maxBackoff);
      if r.Raised? {
        run := Raised(r.error);
        return;
      }
      results := results + [r.value];
    }
    run := Returned(results);
  }
}
