/**
  `ExecuteWithRetryAsync`: a counted loop of at most `MaxRetries` attempts with linear backoff.
  The action is given by what each attempt does (return a value or throw); the delays that would
  be slept are collected instead.
*/
module Retry {

  /** An exception thrown by the search client, by message. */
  datatype ApiError = ApiError(message: string)

  /** What the `i`-th invocation of the action does. */
  datatype Attempt<T> = Returned(value: T) | Threw(error: ApiError)

  /** How the call ends: the action's value, an exception that escapes, or `default(T)`. */
  datatype RetryResult<T> = Succeeded(value: T) | Propagated(error: ApiError) | Default

  /** The delays slept (milliseconds), how many times the action ran, and how the call ended. */
  datatype RetryOutcome<T> = RetryOutcome(delays: seq<int>, invocations: nat, result: RetryResult<T>)

  /**
    The loop from iteration `i` on. A failure is caught (and followed by a delay of
    `delayMs * (i + 1)`) only while `i < maxRetries - 1`; the last attempt's exception escapes.
  */
  function RetryFrom<T>(maxRetries: int, delayMs: int, action: nat -> Attempt<T>, i: nat): RetryOutcome<T>
    decreases maxRetries - i
  {
    if i >= maxRetries then RetryOutcome([], 0, Default)
    else match action(i)
      case Returned(v) => RetryOutcome([], 1, Succeeded(v))
      case Threw(e) =>
        if i < maxRetries - 1 then
          var rest := RetryFrom(maxRetries, delayMs, action, i + 1);
          RetryOutcome([delayMs * (i + 1)] + rest.delays, rest.invocations + 1, rest.result)
        else RetryOutcome([], 1, Propagated(e))
  }

  /** The whole call. */
  function RetryAll<T>(maxRetries: int, delayMs: int, action: nat -> Attempt<T>): RetryOutcome<T> {
    RetryFrom(maxRetries, delayMs, action, 0)
  }

  /** `ExecuteWithRetryAsync(action)` with `MaxRetries` and `RetryDelayMilliseconds`. */
  method ExecuteWithRetry<T>(maxRetries: int, delayMs: int, action: nat -> Attempt<T>)
    returns (outcome: RetryOutcome<T>)
    ensures outcome == RetryAll(maxRetries, delayMs, action)
  {
    var delays: seq<int> := [];
    var i: nat := 0;
    while i < maxRetries
      invariant |delays| == i
      invariant i > 0 ==> i < maxRetries
      invariant RetryAll(maxRetries, delayMs, action) == RetryOutcome(
        delays + RetryFrom(maxRetries, delayMs, action, i).delays,
        i + RetryFrom(maxRetries, delayMs, action, i).invocations,
        RetryFrom(maxRetries, delayMs, action, i).result)
    {
      match action(i)
      case Returned(v) =>
        return RetryOutcome(delays, i + 1, Succeeded(v));
      case Threw(e) =>
        if i < maxRetries - 1 {
          ghost var rest := RetryFrom(maxRetries, delayMs, action, i + 1);
          assert delays + ([delayMs * (i + 1)] + rest.delays) == (delays + [delayMs * (i + 1)]) + rest.delays;
          delays := delays + [delayMs * (i + 1)];
        } else {
          return RetryOutcome(delays, i + 1, Propagated(e));
        }
      i := i + 1;
    }
    outcome := RetryOutcome(delays, i, Default);
  }

  // ---------------------------------------------------------------------------------------------

  /** Attempts before `k` all throw. */
  ghost predicate FailsBefore<T>(action: nat -> Attempt<T>, k: nat) {
    forall j: nat :: j < k ==> action(j).Threw?
  }

  /** The linear backoff delays `d*1, d*2, ..., d*n`. */
  function Backoff(delayMs: int, n: nat): (r: seq<int>)
    ensures |r| == n
    ensures forall j :: 0 <= j < n ==> r[j] == delayMs * (j + 1)
  {
    seq(n, j => delayMs * (j + 1))
  }

  lemma {:induction false} RetryFromFirstSuccess<T>(maxRetries: int, delayMs: int, action: nat -> Attempt<T>, i: nat, k: nat)
    requires i <= k < maxRetries
    requires forall j: nat :: i <= j < k ==> action(j).Threw?
    requires action(k).Returned?
    ensures RetryFrom(maxRetries, delayMs, action, i)
         == RetryOutcome(seq(k - i, j => delayMs * (i + j + 1)), k - i + 1, Succeeded(action(k).value))
    decreases k - i
  {
    if i < k {
      RetryFromFirstSuccess(maxRetries, delayMs, action, i + 1, k);
      var tail := seq(k - (i + 1), j => delayMs * (i + 1 + j + 1));
      assert [delayMs * (i + 1)] + tail == seq(k - i, j => delayMs * (i + j + 1));
    }
  }

  /**
    Success path: when attempt `k` is the first that returns and `k < maxRetries`, the call returns
    its value after `k + 1` invocations and exactly the delays `d*1 .. d*k`.
  */
  lemma RetryFirstSuccess<T>(maxRetries: int, delayMs: int, action: nat -> Attempt<T>, k: nat)
    requires k < maxRetries
    requires FailsBefore(action, k) && action(k).Returned?
    ensures RetryAll(maxRetries, delayMs, action)
         == RetryOutcome(Backoff(delayMs, k), k + 1, Succeeded(action(k).value))
  {
    RetryFromFirstSuccess(maxRetries, delayMs, action, 0, k);
    assert seq(k - 0, j => delayMs * (0 + j + 1)) == Backoff(delayMs, k);
  }

  lemma {:induction false} RetryFromAllFail<T>(maxRetries: int, delayMs: int, action: nat -> Attempt<T>, i: nat)
    requires i < maxRetries
    requires forall j: nat :: i <= j < maxRetries ==> action(j).Threw?
    ensures RetryFrom(maxRetries, delayMs, action, i) == RetryOutcome(
      seq(maxRetries - 1 - i, j => delayMs * (i + j + 1)), maxRetries - i,
      Propagated(action(maxRetries - 1).error))
    decreases maxRetries - i
  {
    if i < maxRetries - 1 {
      RetryFromAllFail(maxRetries, delayMs, action, i + 1);
      var tail := seq(maxRetries - 1 - (i + 1), j => delayMs * (i + 1 + j + 1));
      assert [delayMs * (i + 1)] + tail == seq(maxRetries - 1 - i, j => delayMs * (i + j + 1));
    }
  }

  /**
    Failure path: when all `maxRetries >= 1` attempts throw, the last attempt's exception escapes
    after `maxRetries` invocations and the delays `d*1 .. d*(maxRetries-1)`.
  */
  lemma RetryExhausted<T>(maxRetries: int, delayMs: int, action: nat -> Attempt<T>)
    requires maxRetries >= 1
    requires FailsBefore(action, maxRetries)
    ensures RetryAll(maxRetries, delayMs, action) == RetryOutcome(
      Backoff(delayMs, maxRetries - 1), maxRetries, Propagated(action(maxRetries - 1).error))
  {
    RetryFromAllFail(maxRetries, delayMs, action, 0);
    assert seq(maxRetries - 1 - 0, j => delayMs * (0 + j + 1)) == Backoff(delayMs, maxRetries - 1);
  }

  /** `default` is returned exactly when `maxRetries <= 0`, and then the action never runs. */
  lemma RetryDefaultIff<T>(maxRetries: int, delayMs: int, action: nat -> Attempt<T>)
    ensures RetryAll(maxRetries, delayMs, action).result.Default? <==> maxRetries <= 0
    ensures maxRetries <= 0 ==> RetryAll(maxRetries, delayMs, action) == RetryOutcome([], 0, Default)
  {
    if maxRetries > 0 {
      RetryFromNeverDefault(maxRetries, delayMs, action, 0);
    }
  }

  lemma {:induction false} RetryFromNeverDefault<T>(maxRetries: int, delayMs: int, action: nat -> Attempt<T>, i: nat)
    requires i < maxRetries
    ensures !RetryFrom(maxRetries, delayMs, action, i).result.Default?
    decreases maxRetries - i
  {
    if action(i).Threw? && i < maxRetries - 1 {
      RetryFromNeverDefault(maxRetries, delayMs, action, i + 1);
    }
  }

  /**
    Whatever the action does: it runs at most `maxRetries` times, one delay separates consecutive
    invocations, a value is returned only by the last invocation, and every earlier one threw.
  */
  lemma {:induction false} RetryFromShape<T>(maxRetries: int, delayMs: int, action: nat -> Attempt<T>, i: nat)
    ensures var o := RetryFrom(maxRetries, delayMs, action, i);
      && (i < maxRetries ==> 1 <= o.invocations <= maxRetries - i)
      && (i >= maxRetries ==> o.invocations == 0)
      && |o.delays| == (if o.invocations == 0 then 0 else o.invocations - 1)
      && (forall j :: i <= j < i + |o.delays| ==> action(j).Threw?)
      && (o.result.Succeeded? ==> action(i + o.invocations - 1) == Returned(o.result.value))
      && (o.result.Propagated? ==> action(i + o.invocations - 1) == Threw(o.result.error))
    decreases maxRetries - i
  {
    if i < maxRetries && action(i).Threw? && i < maxRetries - 1 {
      RetryFromShape(maxRetries, delayMs, action, i + 1);
    }
  }

  /** The whole call's shape, from the first attempt. */
  lemma RetryShape<T>(maxRetries: int, delayMs: int, action: nat -> Attempt<T>)
    ensures var o := RetryAll(maxRetries, delayMs, action);
      && o.invocations <= (if maxRetries < 0 then 0 else maxRetries)
      && (o.result.Succeeded? ==>
            FailsBefore(action, o.invocations - 1) && action(o.invocations - 1) == Returned(o.result.value))
  {
    RetryFromShape(maxRetries, delayMs, action, 0);
  }

  /** Fail, fail, succeed with three attempts: the value is returned after delays `[d, 2d]`. */
  lemma RetryExample<T>(delayMs: int, action: nat -> Attempt<T>, v: T)
    requires action(0).Threw? && action(1).Threw? && action(2) == Returned(v)
    ensures RetryAll(3, delayMs, action) == RetryOutcome([delayMs, 2 * delayMs], 3, Succeeded(v))
  {
    RetryFirstSuccess(3, delayMs, action, 2);
  }
}
