/** The retry policy of `censor_retry` (common/utils.py): up to `max_retries` calls of
    the wrapped operation; a transport error (`aiohttp.ClientError`) is retried after an
    exponential back-off, any other exception ends the loop at once. */
module Retry {
  import opened Strings
  import opened CensorTypes

  /** What one call of the wrapped operation does: it returns a value, raises an
      `aiohttp.ClientError`, or raises anything else (`str(e)` is the message). */
  datatype Attempt<T> = Returned(value: T) | ClientError(message: string) | Raised(message: string)

  /** One HTTP exchange as the detectors see it: a transport failure (an
      `aiohttp.ClientError`: a connection error, or a non-2xx status from
      `raise_for_status`), the expiry of the session's total timeout (which raises
      `asyncio.TimeoutError`, not a `ClientError`), or the decoded JSON reply. */
  datatype HttpOutcome<R> = TransportFailure(message: string) | TimedOut | Received(reply: R)

  /** `str(asyncio.TimeoutError())` */
  const TimeoutMessage := ""

  /** The outcome of the whole retry loop and the number of calls it made. */
  datatype RetryRun<T> = RetryRun(result: Result<T>, calls: nat)

  const UnknownErrorPrefix := "发生未知错误: "

  function ExhaustedMessage(maxRetries: int): string {
    "请求失败，已达到最大重试次数 (" + IntToString(maxRetries) + ")"
  }

  /** `2 ** n` */
  function Pow2(n: nat): (r: nat)
    ensures r >= 1
  {
    if n == 0 then 1 else 2 * Pow2(n - 1)
  }

  /** The loop from attempt number `attempt` on. */
  function RunFrom<T>(maxRetries: int, call: nat -> Attempt<T>, attempt: nat): RetryRun<T>
    decreases maxRetries - attempt
  {
    if attempt >= maxRetries then RetryRun(Err(CensorError(ExhaustedMessage(maxRetries))), attempt)
    else
      match call(attempt)
      case Returned(v) => RetryRun(Ok(v), attempt + 1)
      case ClientError(_) => RunFrom(maxRetries, call, attempt + 1)
      case Raised(m) => RetryRun(Err(CensorError(UnknownErrorPrefix + m)), attempt + 1)
  }

  /** The wrapped operation as the decorator runs it; `call(i)` is what the i-th call does. */
  function Run<T>(maxRetries: int, call: nat -> Attempt<T>): RetryRun<T> {
    RunFrom(maxRetries, call, 0)
  }

  /** The wrapper's loop. `baseDelay` is `base_delay` in whole milliseconds (500 by
      default); `sleeps` lists the back-off delays in the order they are slept. */
  method CensorRetry<T>(maxRetries: int, baseDelay: nat, call: nat -> Attempt<T>)
    returns (result: Result<T>, calls: nat, sleeps: seq<nat>)
    ensures RetryRun(result, calls) == Run(maxRetries, call)
    ensures |sleeps| == if calls == 0 then 0 else calls - 1
    ensures forall i :: 0 <= i < |sleeps| ==> sleeps[i] == baseDelay * Pow2(i)
  {
    var attempt: nat := 0;
    sleeps := [];
    while attempt < maxRetries
      invariant attempt < maxRetries || attempt == 0
      invariant RunFrom(maxRetries, call, attempt) == Run(maxRetries, call)
      invariant |sleeps| == attempt
      invariant forall i :: 0 <= i < attempt ==> sleeps[i] == baseDelay * Pow2(i)
      decreases maxRetries - attempt
    {
      match call(attempt)
      case Returned(v) =>
        result, calls := Ok(v), attempt + 1;
        return;
      case Raised(m) =>
        result, calls := Err(CensorError(UnknownErrorPrefix + m)), attempt + 1;
        return;
      case ClientError(_) =>
        if attempt < maxRetries - 1 {
          sleeps := sleeps + [baseDelay * Pow2(attempt)];
          attempt := attempt + 1;
        } else {
          break;
        }
    }
    result := Err(CensorError(ExhaustedMessage(maxRetries)));
    calls := if maxRetries > 0 then maxRetries else 0;
  }

  /** The shape of every run: the calls before the last one all raised a transport
      error, and the last call decides the outcome. */
  lemma {:induction false} RunFromShape<T>(maxRetries: int, call: nat -> Attempt<T>, attempt: nat)
    requires attempt <= maxRetries || attempt == 0
    ensures var r := RunFrom(maxRetries, call, attempt);
      && (maxRetries <= attempt ==> r == RetryRun(Err(CensorError(ExhaustedMessage(maxRetries))), attempt))
      && (attempt < maxRetries ==> attempt < r.calls <= maxRetries)
      && (forall j :: attempt <= j < r.calls - 1 ==> call(j).ClientError?)
      && (r.calls > attempt ==>
            match call(r.calls - 1)
            case Returned(v) => r.result == Ok(v)
            case Raised(m) => r.result == Err(CensorError(UnknownErrorPrefix + m))
            case ClientError(_) => r.calls == maxRetries && r.result == Err(CensorError(ExhaustedMessage(maxRetries))))
    decreases maxRetries - attempt
  {
    if attempt < maxRetries && call(attempt).ClientError? {
      RunFromShape(maxRetries, call, attempt + 1);
    }
  }

  /** The result of a call that ends the loop. */
  function Settled<T>(a: Attempt<T>): Result<T>
    requires !a.ClientError?
  {
    match a
    case Returned(v) => Ok(v)
    case Raised(m) => Err(CensorError(UnknownErrorPrefix + m))
  }

  /** A first call that is not a transport error decides the run on its own. */
  lemma FirstCallDecides<T>(maxRetries: int, call: nat -> Attempt<T>)
    requires 0 < maxRetries && !call(0).ClientError?
    ensures Run(maxRetries, call) == RetryRun(Settled(call(0)), 1)
  {
  }

  /** At most `max_retries` calls are made, and none when `max_retries <= 0`. */
  lemma RetryCallsBounded<T>(maxRetries: int, call: nat -> Attempt<T>)
    ensures maxRetries <= 0 ==> Run(maxRetries, call).calls == 0
    ensures maxRetries > 0 ==> 1 <= Run(maxRetries, call).calls <= maxRetries
  {
    RunFromShape(maxRetries, call, 0);
  }

  /** A successful run returns the value of its last call unchanged, and every call
      before it raised a transport error. */
  lemma RetryReturnsFirstSuccess<T>(maxRetries: int, call: nat -> Attempt<T>)
    requires Run(maxRetries, call).result.Ok?
    ensures var r := Run(maxRetries, call);
      && r.calls >= 1
      && call(r.calls - 1) == Returned(r.result.value)
      && forall j :: 0 <= j < r.calls - 1 ==> call(j).ClientError?
  {
    RunFromShape(maxRetries, call, 0);
  }

  /** An exception other than a transport error ends the loop at that call, wrapped in a
      `CensorError` that carries its message; no further call is made. */
  lemma RetryStopsOnOtherError<T>(maxRetries: int, call: nat -> Attempt<T>, k: nat, m: string)
    requires k < maxRetries
    requires forall j :: 0 <= j < k ==> call(j).ClientError?
    requires call(k) == Raised(m)
    ensures Run(maxRetries, call) == RetryRun(Err(CensorError(UnknownErrorPrefix + m)), k + 1)
  {
    RunFromShape(maxRetries, call, 0);
  }

  /** When every call raises a transport error, exactly `max(max_retries, 0)` calls are
      made and the retry-exhaustion error is raised. */
  lemma RetryExhausts<T>(maxRetries: int, call: nat -> Attempt<T>)
    requires forall j :: 0 <= j < maxRetries ==> call(j).ClientError?
    ensures Run(maxRetries, call)
         == RetryRun(Err(CensorError(ExhaustedMessage(maxRetries))), if maxRetries > 0 then maxRetries else 0)
  {
    RunFromShape(maxRetries, call, 0);
    var r := Run(maxRetries, call);
    if maxRetries > 0 {
      assert call(r.calls - 1).ClientError?;
    }
  }

  /** A call that raises a transport error `k` times and then returns `v` succeeds with
      `v` after `k + 1` calls when `max_retries >= k + 1`, and is reported as exhausted
      after exactly `max_retries` calls otherwise. */
  lemma RetryTransientFaults<T>(maxRetries: int, call: nat -> Attempt<T>, k: nat, v: T)
    requires forall j :: 0 <= j < k ==> call(j).ClientError?
    requires call(k) == Returned(v)
    ensures maxRetries >= k + 1 ==> Run(maxRetries, call) == RetryRun(Ok(v), k + 1)
    ensures maxRetries <= k ==>
      Run(maxRetries, call) == RetryRun(Err(CensorError(ExhaustedMessage(maxRetries))), if maxRetries > 0 then maxRetries else 0)
  {
    RunFromShape(maxRetries, call, 0);
    if maxRetries <= k {
      RetryExhausts(maxRetries, call);
    }
  }
}
