/** cameraStreamWithReconnect of src/index.js: a retry loop with exponential backoff. */
module Reconnect {
  import opened JsText

  type Error = string

  // How a call of fn, or of onRetry, ends.
  datatype Result<T> = Ok(value: T) | Err(error: Error)

  // fn's answers, call by call from 0.
  type Attempts<!T> = nat -> Result<T>

  // onRetry: what it throws, if anything, when called with an attempt's number.
  type OnRetry = nat -> Option<Error>

  // baseDelayMs * Math.pow(2, n)
  function Delay(base: real, n: nat): real
    decreases n
  {
    if n == 0 then base else 2.0 * Delay(base, n - 1)
  }

  // The loop is over after its k-th call of fn.
  ghost predicate Ends<T>(fn: Attempts<T>, maxAttempts: int, onRetry: Option<OnRetry>, k: nat)
    requires k >= 1
  {
    fn(k - 1).Ok? || k >= maxAttempts || (onRetry.Some? && onRetry.value(k).Some?)
  }

  // What the last call leaves: its value, its error, or the error thrown by onRetry.
  ghost function Final<T>(fn: Attempts<T>, maxAttempts: int, onRetry: Option<OnRetry>, k: nat): Result<T>
    requires k >= 1 && Ends(fn, maxAttempts, onRetry, k)
  {
    if fn(k - 1).Ok? || k >= maxAttempts then fn(k - 1) else Err(onRetry.value(k).value)
  }

  method CameraStreamWithReconnect<T>(fn: Attempts<T>, maxAttempts: int, baseDelayMs: real, onRetry: Option<OnRetry>)
    returns (result: Result<T>, calls: nat, retries: seq<(nat, Error)>, delays: seq<real>)
    ensures calls >= 1 && Ends(fn, maxAttempts, onRetry, calls)
    ensures forall k :: 1 <= k < calls ==> !Ends(fn, maxAttempts, onRetry, k)
    ensures result == Final(fn, maxAttempts, onRetry, calls)
    ensures |delays| == calls - 1 && forall i :: 0 <= i < |delays| ==> delays[i] == Delay(baseDelayMs, i)
    ensures onRetry.None? ==> retries == []
    ensures onRetry.Some? ==>
              |retries| == if fn(calls - 1).Ok? || calls >= maxAttempts then calls - 1 else calls
    ensures forall i :: 0 <= i < |retries| ==> fn(i).Err? && retries[i] == (i + 1, fn(i).error)
  {
    calls, retries, delays := 0, [], [];
    var attempt: nat := 0;
    while true
      invariant calls == attempt == |delays|
      invariant forall k :: 1 <= k <= attempt ==> !Ends(fn, maxAttempts, onRetry, k)
      invariant forall i :: 0 <= i < |delays| ==> delays[i] == Delay(baseDelayMs, i)
      invariant |retries| == if onRetry.Some? then attempt else 0
      invariant forall i :: 0 <= i < |retries| ==> fn(i).Err? && retries[i] == (i + 1, fn(i).error)
      decreases if maxAttempts < 1 then 1 - attempt else maxAttempts - attempt
    {
      result := fn(calls);
      calls := calls + 1;
      if result.Ok? {
        return;
      }
      attempt := attempt + 1;
      if attempt >= maxAttempts {
        return;
      }
      if onRetry.Some? {
        retries := retries + [(attempt, result.error)];
        var thrown := onRetry.value(attempt);
        if thrown.Some? {
          result := Err(thrown.value);
          return;
        }
      }
      delays := delays + [Delay(baseDelayMs, attempt - 1)];
    }
  }

  function Sum(delays: seq<real>): real {
    if delays == [] then 0.0 else Sum(delays[..|delays| - 1]) + delays[|delays| - 1]
  }

  // All sleeps together, in closed form.
  lemma {:induction false} TotalSleep(delays: seq<real>, base: real)
    requires forall i :: 0 <= i < |delays| ==> delays[i] == Delay(base, i)
    ensures Sum(delays) == base * (Power2(|delays|) - 1) as real
  {
    if delays != [] {
      TotalSleep(delays[..|delays| - 1], base);
      DelayIsPower(base, |delays| - 1);
      Doubled(base, Power2(|delays| - 1));
    }
  }

  lemma {:induction false} DelayIsPower(base: real, n: nat)
    ensures Delay(base, n) == base * Power2(n) as real
  {
    if n > 0 {
      DelayIsPower(base, n - 1);
      var p := Power2(n - 1);
      assert Power2(n) as real == 2.0 * p as real;
    }
  }

  lemma Doubled(base: real, p: int)
    ensures base * (p - 1) as real + base * p as real == base * (2 * p - 1) as real
  {
  }

  // With an onRetry that does not throw, the number of calls that Ends picks is the first success or
  // max(1, maxAttempts), whichever comes first, and the error is that of the last call.
  lemma CallsAreFirstSuccess<T>(fn: Attempts<T>, maxAttempts: int, onRetry: Option<OnRetry>, calls: nat)
    requires calls >= 1 && Ends(fn, maxAttempts, onRetry, calls)
    requires forall k :: 1 <= k < calls ==> !Ends(fn, maxAttempts, onRetry, k)
    requires onRetry.Some? ==> forall k :: onRetry.value(k).None?
    ensures calls <= (if maxAttempts < 1 then 1 else maxAttempts)
    ensures forall k :: 0 <= k < calls - 1 ==> fn(k).Err?
    ensures fn(calls - 1).Ok? || calls == if maxAttempts < 1 then 1 else maxAttempts
    ensures Final(fn, maxAttempts, onRetry, calls) == fn(calls - 1)
  {
    if calls >= 2 {
      assert !Ends(fn, maxAttempts, onRetry, calls - 1);
    }
    forall k | 0 <= k < calls - 1
      ensures fn(k).Err?
    {
      assert !Ends(fn, maxAttempts, onRetry, k + 1);
    }
  }
}
