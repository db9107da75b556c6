/** The fixed-window request budget shared by every outbound API call. */
module RateLimit {
  import opened Wrappers

  /** 5000 requests per 5 minutes. */
  const RateLimitRequests: int := 5000
  const RateLimitWindow: int := 300

  /** The two session fields `request_count` and `rate_limit_reset` (seconds). */
  datatype Window = Window(count: int, reset: Option<int>)

  /** The window after one check, and whether the request may proceed. */
  datatype Decision = Decision(window: Window, allowed: bool)

  /** The window rolls when it was never opened or `now` is past its reset instant. */
  predicate Rolls(w: Window, now: int) {
    w.reset.None? || now > w.reset.value
  }

  /** The count stays within the budget. */
  predicate InBudget(w: Window) {
    0 <= w.count <= RateLimitRequests
  }

  /** One `check_rate_limit` call at time `now`. */
  function Step(w: Window, now: int): (d: Decision)
    ensures InBudget(w) ==> InBudget(d.window)
    ensures Rolls(w, now) ==> d.allowed && d.window == Window(1, Some(now + RateLimitWindow))
    ensures Rolls(w, now) && w.reset.Some? ==> d.window.reset.value > w.reset.value
    ensures !Rolls(w, now) ==> (d.allowed <==> w.count < RateLimitRequests)
    ensures !Rolls(w, now) && d.allowed ==> d.window == Window(w.count + 1, w.reset)
    ensures !d.allowed ==> d.window == w
  {
    var w0 := if Rolls(w, now) then Window(0, Some(now + RateLimitWindow)) else w;
    if w0.count >= RateLimitRequests then Decision(w0, false)
    else Decision(w0.(count := w0.count + 1), true)
  }

  /** The window after a run of checks, and each check's answer in order. */
  datatype Trace = Trace(window: Window, results: seq<bool>)

  function Run(w: Window, times: seq<int>): (t: Trace)
    ensures |t.results| == |times|
    decreases |times|
  {
    if times == [] then Trace(w, [])
    else
      var d := Step(w, times[0]);
      var rest := Run(d.window, times[1..]);
      Trace(rest.window, [d.allowed] + rest.results)
  }

  /** Inside one window (no check is past its reset instant), the first
      `RateLimitRequests - count` checks succeed and every later one fails. */
  lemma {:induction false} RunInsideWindow(w: Window, times: seq<int>)
    requires InBudget(w) && w.reset.Some?
    requires forall i :: 0 <= i < |times| ==> times[i] <= w.reset.value
    ensures forall i :: 0 <= i < |times| ==> (Run(w, times).results[i] <==> w.count + i < RateLimitRequests)
    ensures Run(w, times).window.reset == w.reset
    decreases |times|
  {
    if times != [] {
      var d := Step(w, times[0]);
      RunInsideWindow(d.window, times[1..]);
      var rest := Run(d.window, times[1..]);
      assert Run(w, times).results == [d.allowed] + rest.results;
      forall i | 0 <= i < |times|
        ensures Run(w, times).results[i] <==> w.count + i < RateLimitRequests
      {
        if i > 0 {
          assert Run(w, times).results[i] == rest.results[i - 1];
          if d.allowed {
            assert d.window.count == w.count + 1;
          } else {
            assert w.count >= RateLimitRequests;
          }
        }
      }
    }
  }

  /** A fresh window opened at `t0` admits exactly `RateLimitRequests` checks up to its reset
      instant `t0 + 300`: the first check and the next 4999 succeed, the 5001st fails. */
  lemma {:induction false} FreshWindowAdmitsCapacity(w: Window, t0: int, times: seq<int>)
    requires InBudget(w) && Rolls(w, t0)
    requires forall i :: 0 <= i < |times| ==> times[i] <= t0 + RateLimitWindow
    ensures forall i :: 0 <= i <= |times| ==> (Run(w, [t0] + times).results[i] <==> i < RateLimitRequests)
  {
    var d := Step(w, t0);
    assert ([t0] + times)[1..] == times;
    RunInsideWindow(d.window, times);
    var rest := Run(d.window, times);
    assert Run(w, [t0] + times).results == [true] + rest.results;
    forall i | 0 <= i <= |times|
      ensures Run(w, [t0] + times).results[i] <==> i < RateLimitRequests
    {
      if i > 0 {
        assert Run(w, [t0] + times).results[i] == rest.results[i - 1];
      }
    }
  }

  /** The limiter's state in the session. */
  class RateLimiter {
    var requestCount: int
    var rateLimitReset: Option<int>

    ghost predicate Valid()
      reads this
    {
      InBudget(Window(requestCount, rateLimitReset))
    }

    /** The session starts with no window open. */
    constructor ()
      ensures Valid() && requestCount == 0 && rateLimitReset == None
    {
      requestCount := 0;
      rateLimitReset := None;
    }

    /** `check_rate_limit`: roll the window when it has passed, then admit the request and
        count it unless the budget is spent. */
    method CheckRateLimit(now: int) returns (ok: bool)
      requires Valid()
      modifies this
      ensures Valid()
      ensures Decision(Window(requestCount, rateLimitReset), ok) ==
              Step(Window(old(requestCount), old(rateLimitReset)), now)
    {
      if rateLimitReset.None? || now > rateLimitReset.value {
        requestCount := 0;
        rateLimitReset := Some(now + RateLimitWindow);
      }
      if requestCount >= RateLimitRequests {
        return false;
      }
      requestCount := requestCount + 1;
      return true;
    }
  }
}
