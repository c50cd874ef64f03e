/**
 * app/utils/errorHandling.ts: `safeAsync`, `withRetry` and
 * `formatErrorResponse`. The awaited function is given as the outcome of
 * each successive call, and the waits of `withRetry` are recorded instead of
 * slept.
 */
module ErrorHandling {
  import opened Wrappers
  import opened Js

  const DefaultErrorMessage := "An error occurred"
  const DefaultUnexpected := "An unexpected error occurred"

  const DefaultMaxRetries := 3
  const DefaultDelayMs := 300
  const DefaultBackoffFactor := 2

  /** `{ data?, error?, status }`. */
  datatype ApiResponse<T> = ApiResponse(data: Option<T>, error: Option<string>, status: int)

  /**
   * `safeAsync`: the data with status 200 when the call succeeds; otherwise
   * status 500 and the thrown `Error`'s message, or `errorMessage` for
   * anything thrown that is not an `Error`.
   */
  function SafeAsync<T>(outcome: Result<T, Thrown>, errorMessage: string): (r: ApiResponse<T>)
    ensures r.status == 200 <==> outcome.Success?
    ensures r.status == 200 || r.status == 500
    ensures outcome.Success? ==> r.data == Some(outcome.value) && r.error.None?
    ensures outcome.Failure? ==> r.data.None? && r.error.Some?
    ensures outcome.Failure? && outcome.error.ErrorObject? ==> r.error == Some(outcome.error.message)
    ensures outcome.Failure? && !outcome.error.ErrorObject? ==> r.error == Some(errorMessage)
  {
    match outcome
    case Success(data) => ApiResponse(Some(data), None, 200)
    case Failure(e) => ApiResponse(None, Some(ErrorMessageOr(e, errorMessage)), 500)
  }

  /** `b` to the power `k`. */
  function Pow(b: int, k: nat): int {
    if k == 0 then 1 else b * Pow(b, k - 1)
  }

  lemma DelayStep(delayMs: int, b: int, k: nat)
    ensures delayMs * Pow(b, k) * b == delayMs * Pow(b, k + 1)
  {
    assert Pow(b, k + 1) == b * Pow(b, k);
  }

  /** The number of calls `withRetry` may make: one more than the retries, none for a negative count. */
  function MaxCalls(maxRetries: int): nat {
    if maxRetries >= 0 then maxRetries + 1 else 0
  }

  /**
   * `withRetry(fn, { maxRetries, delayMs, backoffFactor, retryCondition })`.
   * `fn(k)` is the outcome of the k-th call (from 0). The result is the
   * value of the first call that succeeds, or the error that ended the
   * attempts (`None` when no call was made, where the source throws
   * `undefined`); `calls` counts the calls and `delays` lists the waits in order.
   */
  method WithRetry<T>(fn: nat -> Result<T, Thrown>, maxRetries: int, delayMs: int, backoffFactor: int,
                      retryCondition: Thrown -> bool)
    returns (r: Result<T, Option<Thrown>>, calls: nat, delays: seq<int>)
    ensures calls <= MaxCalls(maxRetries)
    ensures calls == 0 <==> maxRetries < 0
    ensures calls == 0 ==> r == Failure(None) && delays == []
    ensures forall k :: 0 <= k < calls - 1 ==> fn(k).Failure? && retryCondition(fn(k).error)
    ensures calls > 0 ==> (r.Success? <==> fn(calls - 1).Success?)
    ensures r.Success? ==> r.value == fn(calls - 1).value
    ensures calls > 0 && r.Failure? ==> r.error == Some(fn(calls - 1).error)
    ensures calls > 0 && r.Failure? ==> !retryCondition(fn(calls - 1).error) || calls == MaxCalls(maxRetries)
    ensures calls > 0 ==> |delays| == calls - 1
    ensures forall k :: 0 <= k < |delays| ==> delays[k] == delayMs * Pow(backoffFactor, k)
  {
    var lastError: Option<Thrown> := None;
    var currentDelay := delayMs;
    var attempt := 0;
    calls := 0;
    delays := [];
    while attempt <= maxRetries
      invariant 0 <= attempt && calls == attempt
      invariant maxRetries >= 0 ==> attempt <= maxRetries
      invariant maxRetries < 0 ==> attempt == 0
      invariant |delays| == attempt
      invariant forall k :: 0 <= k < attempt ==> fn(k).Failure? && retryCondition(fn(k).error)
      invariant currentDelay == delayMs * Pow(backoffFactor, attempt)
      invariant forall k :: 0 <= k < |delays| ==> delays[k] == delayMs * Pow(backoffFactor, k)
      invariant lastError == (if attempt == 0 then None else Some(fn(attempt - 1).error))
      decreases maxRetries - attempt
    {
      calls := calls + 1;
      var outcome := fn(attempt);
      if outcome.Success? {
        return Success(outcome.value), calls, delays;
      }
      lastError := Some(outcome.error);
      if !retryCondition(outcome.error) {
        return Failure(lastError), calls, delays;
      }
      if attempt == maxRetries {
        break;
      }
      delays := delays + [currentDelay];
      DelayStep(delayMs, backoffFactor, attempt);
      currentDelay := currentDelay * backoffFactor;
      attempt := attempt + 1;
    }
    r := Failure(lastError);
  }

  /** The options object of `withRetry`; a missing option takes its default. */
  datatype RetryOptions = RetryOptions(maxRetries: Option<int>, delayMs: Option<int>, backoffFactor: Option<int>,
                                       retryCondition: Option<Thrown -> bool>)

  /**
   * `withRetry(fn, options)` with the defaults filled in: 3 retries, a first
   * wait of 300 ms, a factor of 2 and every error retried. With all defaults
   * a failing `fn` is called four times with waits of 300, 600 and 1200 ms.
   */
  method WithRetryOptions<T>(fn: nat -> Result<T, Thrown>, options: RetryOptions)
    returns (r: Result<T, Option<Thrown>>, calls: nat, delays: seq<int>)
    ensures options.maxRetries.None? ==> 1 <= calls <= 4
    ensures options.retryCondition.None? && r.Failure? ==> calls == MaxCalls(options.maxRetries.GetOr(DefaultMaxRetries))
    ensures options == RetryOptions(None, None, None, None) && r.Failure? ==> calls == 4 && delays == [300, 600, 1200]
    ensures forall k :: 0 <= k < calls - 1 ==> fn(k).Failure?
    ensures r.Success? ==> calls >= 1 && fn(calls - 1) == Success(r.value)
  {
    var always: Thrown -> bool := _ => true;
    r, calls, delays := WithRetry(fn, options.maxRetries.GetOr(DefaultMaxRetries), options.delayMs.GetOr(DefaultDelayMs),
      options.backoffFactor.GetOr(DefaultBackoffFactor), options.retryCondition.GetOr(always));
    if options == RetryOptions(None, None, None, None) && r.Failure? {
      assert delays[0] == 300 * Pow(2, 0);
      assert delays[1] == 300 * Pow(2, 1);
      assert delays[2] == 300 * Pow(2, 2);
    }
  }

  /** `formatErrorResponse`'s `{ error, status }`. */
  datatype ErrorResponse = ErrorResponse(error: string, status: int)

  /**
   * `formatErrorResponse`: an `Error` gives its message, or the default when
   * the message is empty; a thrown string gives itself; anything else the
   * default. The status is always 500.
   */
  function FormatErrorResponse(error: Thrown, defaultMessage: string): (r: ErrorResponse)
    ensures r.status == 500
    ensures error.ErrorObject? && error.message != "" ==> r.error == error.message
    ensures error.ErrorObject? && error.message == "" ==> r.error == defaultMessage
    ensures error.ThrownString? ==> r.error == error.s
    ensures error.ThrownOther? ==> r.error == defaultMessage
  {
    if error.ErrorObject? then ErrorResponse(MessageOr(error, defaultMessage), 500)
    else if error.ThrownString? then ErrorResponse(error.s, 500)
    else ErrorResponse(defaultMessage, 500)
  }

  /** The message is never empty unless a thrown string or the default is. */
  lemma FormatErrorNonEmpty(error: Thrown, defaultMessage: string)
    requires defaultMessage != ""
    requires error.ThrownString? ==> error.s != ""
    ensures FormatErrorResponse(error, defaultMessage).error != ""
  {
  }
}
