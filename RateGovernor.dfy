/**
  The collector's rate governor: a fixed one-minute window with a request counter. `Acquire`
  resets an expired window, makes the caller wait out the rest of a full window, then counts
  the request. Clock readings are parameters and the wait is returned rather than slept.
*/
module RateGovernor {

  /** C# `int`. */
  type Int32 = x: int | -0x8000_0000 <= x < 0x8000_0000

  /** `TimeSpan.FromMinutes(1)` in 100-nanosecond ticks. */
  const TicksPerMinute: int := 600_000_000

  /** `DateTime.MinValue`, the initial window start. */
  const MinValueTicks: int := 0

  function Max(a: int, b: int): int {
    if a < b then b else a
  }

  /** `_requestsThisMinute` and `_lastRequestTime`. */
  datatype Window = Window(requestsThisMinute: int, lastRequestTime: int)

  /** The state after one acquisition, the wait it imposed, and whether it started a new window. */
  datatype Grant = Grant(window: Window, wait: int, newWindow: bool)

  /** The window in force once an expired one has been reset at `now`. */
  function Current(w: Window, now: int): Window {
    if now - w.lastRequestTime > TicksPerMinute then Window(0, now) else w
  }

  /**
    One `WaitForRateLimitAsync` call at clock reading `now`; `nowAfterWait` is the clock read
    again after the wait (the same reading when no wait happened).
  */
  function AcquireStep(w: Window, limit: int, now: int, nowAfterWait: int): Grant {
    var c := Current(w, now);
    if c.requestsThisMinute >= limit then
      var waitTime := TicksPerMinute - (now - c.lastRequestTime);
      Grant(Window(1, nowAfterWait), if waitTime > 0 then waitTime else 0, true)
    else
      Grant(Window(c.requestsThisMinute + 1, c.lastRequestTime), 0, c != w)
  }

  /** The rate governor of one collector instance. */
  class Governor {
    const rateLimitPerMinute: Int32
    var requestsThisMinute: Int32
    var lastRequestTime: int

    /** The counter stays within `1..max(limit, 1)` once used, so `++` never overflows. */
    ghost predicate Valid()
      reads this
    {
      0 <= requestsThisMinute as int <= Max(rateLimitPerMinute as int, 1)
    }

    function State(): Window
      reads this
    {
      Window(requestsThisMinute as int, lastRequestTime)
    }

    constructor (limit: Int32)
      ensures Valid()
      ensures rateLimitPerMinute == limit && State() == Window(0, MinValueTicks)
    {
      rateLimitPerMinute := limit;
      requestsThisMinute := 0;
      lastRequestTime := MinValueTicks;
    }

    /** `WaitForRateLimitAsync`: returns how long the caller is suspended. */
    method Acquire(now: int, nowAfterWait: int) returns (wait: int)
      requires Valid()
      modifies this
      ensures Valid()
      ensures var g := AcquireStep(old(State()), rateLimitPerMinute as int, now, nowAfterWait);
        State() == g.window && wait == g.wait
      ensures 1 <= requestsThisMinute
    {
      if now - lastRequestTime > TicksPerMinute {
        requestsThisMinute := 0;
        lastRequestTime := now;
      }
      wait := 0;
      if requestsThisMinute >= rateLimitPerMinute {
        var waitTime := TicksPerMinute - (now - lastRequestTime);
        if waitTime > 0 {
          wait := waitTime;
        }
        requestsThisMinute := 0;
        lastRequestTime := nowAfterWait;
      }
      requestsThisMinute := requestsThisMinute + 1;
    }
  }

  // ---------------------------------------------------------------------------------------------

  /** From a counter within `0..max(limit, 1)`, the counter afterwards is within `1..max(limit, 1)`. */
  lemma AcquireKeepsBound(w: Window, limit: int, now: int, nowAfterWait: int)
    requires 0 <= w.requestsThisMinute <= Max(limit, 1)
    ensures 1 <= AcquireStep(w, limit, now, nowAfterWait).window.requestsThisMinute <= Max(limit, 1)
  {
  }

  /** A call more than a minute after the window start resets the window to `now` when the limit allows a request. */
  lemma AcquireAfterExpiry(w: Window, limit: int, now: int, nowAfterWait: int)
    requires now - w.lastRequestTime > TicksPerMinute && limit > 0
    ensures AcquireStep(w, limit, now, nowAfterWait) == Grant(Window(1, now), 0, true)
  {
  }

  /**
    A wait happens only when the counter in force has reached the limit; it lasts the rest of the
    window, and the window is then restarted at the clock reading taken after the wait.
  */
  lemma AcquireWaitsOnlyAtLimit(w: Window, limit: int, now: int, nowAfterWait: int)
    requires AcquireStep(w, limit, now, nowAfterWait).wait > 0
    ensures Current(w, now).requestsThisMinute >= limit
    ensures AcquireStep(w, limit, now, nowAfterWait).wait
         == TicksPerMinute - (now - Current(w, now).lastRequestTime)
    ensures AcquireStep(w, limit, now, nowAfterWait).window == Window(1, nowAfterWait)
  {
  }

  /** Below the limit there is no wait and the request is counted in the window in force. */
  lemma AcquireBelowLimit(w: Window, limit: int, now: int, nowAfterWait: int)
    requires Current(w, now).requestsThisMinute < limit
    ensures AcquireStep(w, limit, now, nowAfterWait).wait == 0
    ensures AcquireStep(w, limit, now, nowAfterWait).window
         == Window(Current(w, now).requestsThisMinute + 1, Current(w, now).lastRequestTime)
  {
  }

  /** With a clock that does not run backwards, no wait exceeds one minute. */
  lemma AcquireWaitAtMostOneMinute(w: Window, limit: int, now: int, nowAfterWait: int)
    requires w.lastRequestTime <= now
    ensures 0 <= AcquireStep(w, limit, now, nowAfterWait).wait <= TicksPerMinute
  {
  }

  /**
    The request after `limit` requests in the current window is suspended until the window
    boundary, after which the counter restarts at 1.
  */
  lemma AcquireOverLimitWaitsForBoundary(w: Window, limit: int, now: int, nowAfterWait: int)
    requires limit > 0 && w.requestsThisMinute == limit
    requires w.lastRequestTime <= now <= w.lastRequestTime + TicksPerMinute
    ensures AcquireStep(w, limit, now, nowAfterWait)
         == Grant(Window(1, nowAfterWait), w.lastRequestTime + TicksPerMinute - now, true)
  {
  }

  /** Successive acquisitions at the given pairs of clock readings. */
  function Run(w: Window, limit: int, clocks: seq<(int, int)>): (gs: seq<Grant>)
    ensures |gs| == |clocks|
    decreases |clocks|
  {
    if clocks == [] then []
    else
      var g := AcquireStep(w, limit, clocks[0].0, clocks[0].1);
      [g] + Run(g.window, limit, clocks[1..])
  }

  /**
    The budget: a run of acquisitions none of which starts a new window counts each of them in the
    same window, so together with the requests already counted there they number at most `limit`.
  */
  lemma {:induction false} WindowBudget(w: Window, limit: int, clocks: seq<(int, int)>)
    requires |clocks| > 0
    requires forall k :: 0 <= k < |clocks| ==> !Run(w, limit, clocks)[k].newWindow
    ensures Run(w, limit, clocks)[|clocks| - 1].window
         == Window(w.requestsThisMinute + |clocks|, w.lastRequestTime)
    ensures w.requestsThisMinute + |clocks| <= limit
    decreases |clocks|
  {
    var gs := Run(w, limit, clocks);
    var g := AcquireStep(w, limit, clocks[0].0, clocks[0].1);
    assert gs[0] == g;
    if |clocks| > 1 {
      var rest := Run(g.window, limit, clocks[1..]);
      assert forall k :: 0 <= k < |clocks| - 1 ==> rest[k] == gs[k + 1];
      WindowBudget(g.window, limit, clocks[1..]);
    }
  }
}
