/** `retryWithBackoff` (webui/src/lib/api-retry.ts): run an asynchronous operation up to
    `maxRetries + 1` times, sleeping an exponentially growing, capped delay between attempts.
    The operation is a parameter giving the outcome of its k-th call; sleeping is recorded as the
    list of requested delays. */
module ApiRetry {
  import opened Wrappers

  /** What a call may throw: an `Error` with a message, or any other value. */
  datatype Thrown = ErrorValue(message: string) | OtherValue

  /** The message a `catch` block shows: the error's own message, or `fallback` for any other
      thrown value. */
  function CaughtMessage(t: Thrown, fallback: string): string {
    match t
    case ErrorValue(m) => m
    case OtherValue => fallback
  }

  /** The settled outcome of one call of the operation. */
  datatype Outcome<T> = Resolved(value: T) | Rejected(reason: Thrown)

  /** The options object; every absent field takes its default. */
  datatype RetryOptions = RetryOptions(maxRetries: Option<int>, initialDelay: Option<int>,
                                       maxDelay: Option<int>, backoffFactor: Option<int>)

  /** The options once defaults are applied. */
  datatype RetryConfig = RetryConfig(maxRetries: int, initialDelay: int, maxDelay: int, backoffFactor: int)

  /** What `retryWithBackoff` settles with: a value, or a thrown error message (None stands for
      the `undefined` thrown when no attempt ran). */
  datatype RetryResult<T> = Returned(value: T) | Threw(error: Option<string>)

  function Resolve(o: RetryOptions): (c: RetryConfig)
    ensures o == RetryOptions(None, None, None, None) ==> c == RetryConfig(3, 1000, 10000, 2)
    ensures o.maxRetries.Some? ==> c.maxRetries == o.maxRetries.value
    ensures o.initialDelay.Some? ==> c.initialDelay == o.initialDelay.value
    ensures o.maxDelay.Some? ==> c.maxDelay == o.maxDelay.value
    ensures o.backoffFactor.Some? ==> c.backoffFactor == o.backoffFactor.value
  {
    RetryConfig(o.maxRetries.GetOr(3), o.initialDelay.GetOr(1000), o.maxDelay.GetOr(10000),
                o.backoffFactor.GetOr(2))
  }

  function Pow(b: int, e: nat): int {
    if e == 0 then 1 else b * Pow(b, e - 1)
  }

  function Min(a: int, b: int): int {
    if a <= b then a else b
  }

  /** The delay slept after failed attempt `k` (when it is not the last). */
  function DelayAfter(c: RetryConfig, k: nat): (d: int)
    ensures d <= c.maxDelay
    ensures d == c.maxDelay || d == c.initialDelay * Pow(c.backoffFactor, k)
  {
    Min(c.initialDelay * Pow(c.backoffFactor, k), c.maxDelay)
  }

  /** The error kept from a failure: the `Error` itself, or `Error('Unknown error')`. */
  function ErrorMessage(t: Thrown): string {
    match t
    case ErrorValue(m) => m
    case OtherValue => "Unknown error"
  }

  /** Runs the attempt loop. `calls` is how many times the operation was called, `delays` the
      sleeps requested, in order. */
  method RetryWithBackoff<T>(fn: nat -> Outcome<T>, options: RetryOptions)
    returns (res: RetryResult<T>, calls: nat, delays: seq<int>)
    ensures var c := Resolve(options);
      && (c.maxRetries < 0 ==> calls == 0 && res == Threw(None))
      && (c.maxRetries >= 0 ==> 1 <= calls <= c.maxRetries + 1)
      && (forall k :: 0 <= k < calls - 1 ==> fn(k).Rejected?)
      && (res.Returned? ==> calls >= 1 && fn(calls - 1) == Resolved(res.value))
      && (res.Threw? && c.maxRetries >= 0 ==>
            calls == c.maxRetries + 1 && fn(calls - 1).Rejected? &&
            res.error == Some(ErrorMessage(fn(calls - 1).reason)))
      && |delays| == (if calls == 0 then 0 else calls - 1)
      && (forall k :: 0 <= k < |delays| ==> delays[k] == DelayAfter(c, k) && delays[k] <= c.maxDelay)
  {
    var c := Resolve(options);
    var lastError: Option<string> := None;
    calls := 0;
    delays := [];
    var attempt: nat := 0;
    while attempt <= c.maxRetries
      invariant attempt == calls
      invariant c.maxRetries >= 0 ==> attempt <= c.maxRetries + 1
      invariant c.maxRetries < 0 ==> calls == 0
      invariant forall k :: 0 <= k < calls ==> fn(k).Rejected?
      invariant calls == 0 ==> lastError.None?
      invariant calls > 0 ==> lastError == Some(ErrorMessage(fn(calls - 1).reason))
      invariant |delays| == (if calls == 0 || calls <= c.maxRetries then calls else calls - 1)
      invariant forall k :: 0 <= k < |delays| ==> delays[k] == DelayAfter(c, k)
      decreases c.maxRetries - attempt
    {
      var outcome := fn(attempt);
      calls := calls + 1;
      match outcome {
        case Resolved(v) =>
          res := Returned(v);
          return;
        case Rejected(reason) =>
          lastError := Some(ErrorMessage(reason));
          if attempt < c.maxRetries {
            delays := delays + [DelayAfter(c, attempt)];
          }
      }
      attempt := attempt + 1;
    }
    res := Threw(lastError);
  }

  /** With the defaults, an operation that always fails is called four times, with sleeps of one,
      two and four seconds in between, well under the ten-second cap. */
  lemma DefaultSchedule()
    ensures var c := Resolve(RetryOptions(None, None, None, None));
      c.maxRetries + 1 == 4 && DelayAfter(c, 0) == 1000 && DelayAfter(c, 1) == 2000 && DelayAfter(c, 2) == 4000
  {
    assert Pow(2, 2) == 4;
  }

  /** Past the point where the exponential exceeds the cap, every delay equals the cap. */
  lemma {:induction false} DelaysSaturate(c: RetryConfig, k: nat, j: nat)
    requires c.initialDelay >= 0 && c.backoffFactor >= 1 && k <= j
    requires c.initialDelay * Pow(c.backoffFactor, k) >= c.maxDelay
    ensures DelayAfter(c, j) == c.maxDelay
    decreases j - k
  {
    if j > k {
      DelaysSaturate(c, k, j - 1);
      PowMonotone(c.backoffFactor, j - 1);
      MulMonotone(c.initialDelay, Pow(c.backoffFactor, j - 1), Pow(c.backoffFactor, j));
      assert c.initialDelay * Pow(c.backoffFactor, j - 1) >= c.maxDelay by {
        if k < j - 1 {
          PowGrows(c.backoffFactor, k, j - 1);
          MulMonotone(c.initialDelay, Pow(c.backoffFactor, k), Pow(c.backoffFactor, j - 1));
        }
      }
    }
  }

  lemma PowMonotone(b: int, e: nat)
    requires b >= 1
    ensures 1 <= Pow(b, e) <= Pow(b, e + 1)
    decreases e
  {
    if e > 0 {
      PowMonotone(b, e - 1);
    }
  }

  lemma {:induction false} PowGrows(b: int, e: nat, f: nat)
    requires b >= 1 && e <= f
    ensures Pow(b, e) <= Pow(b, f)
    decreases f - e
  {
    if e < f {
      PowGrows(b, e, f - 1);
      PowMonotone(b, f - 1);
    }
  }

  lemma MulMonotone(a: int, x: int, y: int)
    requires a >= 0 && x <= y
    ensures a * x <= a * y
  {
  }
}
