/** The fixed-window rate limiter (src/security/rate-limit.ts). Times are integral milliseconds. */
module RateLimit {
  import opened Wrappers
  import opened Sequences

  datatype WindowState = WindowState(count: int, resetAtMs: int)

  datatype Payload = Payload(maxRequests: int, windowSeconds: int, nowMs: int)

  datatype Decision = Decision(allowed: bool, limit: int, remaining: int, resetAtMs: int, retryAfterSeconds: int)

  function Max(a: int, b: int): int { if a >= b then a else b }

  /** `Math.ceil(ms / 1000)`. */
  function CeilSeconds(ms: int): int { (ms + 999) / 1000 }

  function SecondsUntil(resetAtMs: int, nowMs: int): int {
    Max(1, CeilSeconds(resetAtMs - nowMs))
  }

  /** No window is open at `nowMs`: the request starts a new one. */
  predicate Starts(existing: Option<WindowState>, nowMs: int) {
    existing.None? || existing.value.resetAtMs <= nowMs
  }

  function Evaluate(existing: Option<WindowState>, p: Payload): (WindowState, Decision) {
    if Starts(existing, p.nowMs) then
      var resetAtMs := p.nowMs + p.windowSeconds * 1000;
      (WindowState(1, resetAtMs),
       Decision(true, p.maxRequests, Max(0, p.maxRequests - 1), resetAtMs, p.windowSeconds))
    else
      var w := existing.value;
      var nextCount := w.count + 1;
      (WindowState(nextCount, w.resetAtMs),
       Decision(nextCount <= p.maxRequests, p.maxRequests, Max(0, p.maxRequests - nextCount), w.resetAtMs,
                SecondsUntil(w.resetAtMs, p.nowMs)))
  }

  /** The durable object; its input gate makes one `fetch` atomic. */
  class AuthRateLimiter {
    var window: Option<WindowState>

    constructor ()
      ensures window == None
    {
      window := None;
    }

    method Fetch(p: Payload) returns (decision: Decision)
      modifies this
      ensures Some(Evaluate(old(window), p).0) == window && decision == Evaluate(old(window), p).1
    {
      var (state, d) := Evaluate(window, p);
      window := Some(state);
      decision := d;
    }
  }

  // ----- runs under one configuration

  /** The stored window after requests at these times. */
  function Run(m: int, w: int, start: Option<WindowState>, times: seq<int>): Option<WindowState> {
    if times == [] then start else
      var n := |times| - 1;
      Some(Evaluate(Run(m, w, start, times[..n]), Payload(m, w, times[n])).0)
  }

  /** Whether request `i` of the run is allowed. */
  predicate Allowed(m: int, w: int, start: Option<WindowState>, times: seq<int>, i: nat)
    requires i < |times|
  {
    Evaluate(Run(m, w, start, times[..i]), Payload(m, w, times[i])).1.allowed
  }

  /** Whether request `i` opens a window. */
  predicate Opens(m: int, w: int, times: seq<int>, i: nat)
    requires i < |times|
  {
    Starts(Run(m, w, None, times[..i]), times[i])
  }

  /** The last request up to `i` that opened a window. */
  function OpenerOf(m: int, w: int, times: seq<int>, i: nat): (j: nat)
    requires i < |times|
    ensures j <= i && Opens(m, w, times, j)
    ensures forall k :: j < k <= i ==> !Opens(m, w, times, k)
  {
    if Opens(m, w, times, i) then i else
      assert i > 0 by {
        assert times[..0] == [];
      }
      OpenerOf(m, w, times, i - 1)
  }

  /** For any clock: the stored window was opened by the last opener and counts the requests since. */
  lemma {:induction false} WindowCountsSinceOpener(m: int, w: int, times: seq<int>, i: nat)
    requires i < |times|
    ensures var j := OpenerOf(m, w, times, i);
            Run(m, w, None, times[..i + 1]) == Some(WindowState(i - j + 1, times[j] + w * 1000))
  {
    assert times[..i + 1][..i] == times[..i];
    if !Opens(m, w, times, i) {
      assert times[..0] == [];
      WindowCountsSinceOpener(m, w, times, i - 1);
    }
  }

  /**
   For any clock: within one window exactly the first `maxRequests` requests are allowed (the
   opening request always, whatever the limit).
   */
  lemma FirstRequestsOfWindowAllowed(m: int, w: int, times: seq<int>, i: nat)
    requires i < |times|
    ensures Allowed(m, w, None, times, i) <==> i - OpenerOf(m, w, times, i) < Max(1, m)
  {
    if !Opens(m, w, times, i) {
      assert times[..0] == [];
      WindowCountsSinceOpener(m, w, times, i - 1);
    }
  }

  /** For any clock: the next opener comes at least a window length after this one. */
  lemma {:induction false} OpenersAreApart(m: int, w: int, times: seq<int>, j: nat, k: nat)
    requires j < k < |times| && w >= 0
    requires Opens(m, w, times, j) && Opens(m, w, times, k)
    ensures times[k] >= times[j] + w * 1000
    decreases k - j
  {
    var p := OpenerOf(m, w, times, k - 1);
    WindowCountsSinceOpener(m, w, times, k - 1);
    if p > j {
      OpenersAreApart(m, w, times, j, p);
    }
  }

  // ----- arbitrary intervals under a clock that does not run backwards

  function CountAllowed(m: int, w: int, start: Option<WindowState>, times: seq<int>): nat
    decreases |times|
  {
    if times == [] then 0 else
      var (state, d) := Evaluate(start, Payload(m, w, times[0]));
      (if d.allowed then 1 else 0) + CountAllowed(m, w, Some(state), times[1..])
  }

  ghost predicate NonDecreasing(times: seq<int>) {
    forall i, j :: 0 <= i < j < |times| ==> times[i] <= times[j]
  }

  /** With a window of count `c >= 1` in place, what can be allowed before `k` windows after its reset. */
  lemma {:induction false} AllowedBefore(m: int, w: int, s: WindowState, times: seq<int>, k: nat)
    requires m >= 1 && w >= 1 && s.count >= 1 && NonDecreasing(times)
    requires forall i :: 0 <= i < |times| ==> times[i] < s.resetAtMs + k * (w * 1000)
    ensures CountAllowed(m, w, Some(s), times) <= Max(0, m - s.count) + k * m
    decreases |times|
  {
    if times == [] {
      assert k * m >= 0;
    } else {
      var t, rest := times[0], times[1..];
      var next := Evaluate(Some(s), Payload(m, w, t)).0;
      if s.resetAtMs > t {
        AllowedBefore(m, w, next, rest, k);
      } else {
        assert 0 * (w * 1000) == 0;
        assert k > 0;
        assert (k - 1) * (w * 1000) == k * (w * 1000) - w * 1000;
        assert (k - 1) * m == k * m - m;
        AllowedBefore(m, w, next, rest, k - 1);
      }
    }
  }

  /** The requests of `times` that fall in `[from, to)`, as an index range. */
  ghost predicate IsInterval(times: seq<int>, lo: nat, hi: nat, from: int, to: int) {
    && lo <= hi <= |times|
    && (forall i :: 0 <= i < |times| ==> (lo <= i < hi <==> from <= times[i] < to))
  }

  lemma {:induction false} RunCountPositive(m: int, w: int, times: seq<int>)
    requires times != []
    ensures Run(m, w, None, times).Some? && Run(m, w, None, times).value.count >= 1
  {
    if |times| > 1 {
      RunCountPositive(m, w, times[..|times| - 1]);
    }
  }

  lemma IntervalBound(m: int, w: int, times: seq<int>, from: int, k: nat, lo: nat, hi: nat)
    requires m >= 1 && w >= 1 && NonDecreasing(times)
    requires IsInterval(times, lo, hi, from, from + k * (w * 1000))
    ensures CountAllowed(m, w, Run(m, w, None, times[..lo]), times[lo..hi]) <= (k + 1) * m - 1
  {
    var before, middle := times[..lo], times[lo..hi];
    var start := Run(m, w, None, before);
    assert (k + 1) * m == k * m + m && k * m >= 0;
    if middle != [] {
      var t, rest := middle[0], middle[1..];
      assert 0 * (w * 1000) == 0;
      assert from <= t < from + k * (w * 1000);
      assert k > 0;
      if Starts(start, t) {
        var next := Evaluate(start, Payload(m, w, t)).0;
        assert (k - 1) * (w * 1000) == k * (w * 1000) - w * 1000;
        assert (k - 1) * m == k * m - m;
        AllowedBefore(m, w, next, rest, k - 1);
      } else {
        RunCountPositive(m, w, before);
        forall i | 0 <= i < |middle|
          ensures middle[i] < start.value.resetAtMs + k * (w * 1000)
        {
          assert middle[i] == times[lo + i];
        }
        AllowedBefore(m, w, start.value, middle, k);
      }
    }
  }

  /** The allowed requests of a run that arrive in `[from, to)`. */
  ghost function AllowedWithin(m: int, w: int, times: seq<int>, from: int, to: int): set<nat> {
    set i: nat | i < |times| && from <= times[i] < to && Allowed(m, w, None, times, i)
  }

  /** The indices in `[lo, hi)` of allowed requests. */
  ghost function AllowedIndices(m: int, w: int, times: seq<int>, lo: nat, hi: nat): set<nat>
    requires lo <= hi <= |times|
  {
    set i: nat | lo <= i < hi && Allowed(m, w, None, times, i)
  }

  lemma AllowedIndicesStep(m: int, w: int, times: seq<int>, lo: nat, hi: nat)
    requires lo < hi <= |times|
    ensures |AllowedIndices(m, w, times, lo, hi)| ==
            (if Allowed(m, w, None, times, lo) then 1 else 0) + |AllowedIndices(m, w, times, lo + 1, hi)|
  {
    var rest := AllowedIndices(m, w, times, lo + 1, hi);
    assert lo !in rest;
    assert AllowedIndices(m, w, times, lo, hi) == if Allowed(m, w, None, times, lo) then {lo} + rest else rest;
  }

  lemma {:induction false} AllowedIndicesCount(m: int, w: int, times: seq<int>, lo: nat, hi: nat)
    requires lo <= hi <= |times|
    ensures |AllowedIndices(m, w, times, lo, hi)| == CountAllowed(m, w, Run(m, w, None, times[..lo]), times[lo..hi])
    decreases hi - lo
  {
    if lo == hi {
      assert AllowedIndices(m, w, times, lo, hi) == {};
    } else {
      AllowedIndicesCount(m, w, times, lo + 1, hi);
      assert times[..lo + 1][..lo] == times[..lo] && times[lo..hi][1..] == times[lo + 1..hi];
      AllowedIndicesStep(m, w, times, lo, hi);
    }
  }

  lemma {:induction false} IntervalExists(times: seq<int>, from: int, to: int) returns (lo: nat, hi: nat)
    requires NonDecreasing(times)
    ensures IsInterval(times, lo, hi, from, to)
  {
    lo := 0;
    while lo < |times| && times[lo] < from
      invariant lo <= |times| && forall i :: 0 <= i < lo ==> times[i] < from
    {
      lo := lo + 1;
    }
    hi := lo;
    while hi < |times| && times[hi] < to
      invariant lo <= hi <= |times| && forall i :: lo <= i < hi ==> from <= times[i] < to
    {
      hi := hi + 1;
    }
  }

  /**
   With a non-decreasing clock, any half-open interval of `k` window lengths holds fewer than
   `(k + 1) * maxRequests` allowed requests, in any run.
   */
  lemma AllowedInAnyInterval(m: int, w: int, times: seq<int>, from: int, k: nat)
    requires m >= 1 && w >= 1 && NonDecreasing(times)
    ensures |AllowedWithin(m, w, times, from, from + k * (w * 1000))| <= (k + 1) * m - 1
  {
    var to := from + k * (w * 1000);
    var lo, hi := IntervalExists(times, from, to);
    IntervalBound(m, w, times, from, k, lo, hi);
    AllowedIndicesCount(m, w, times, lo, hi);
    assert AllowedWithin(m, w, times, from, to) == AllowedIndices(m, w, times, lo, hi);
  }

  // ----- the interval bound is attained

  /** `n` full bursts, one at the start of each window from `t` on. */
  function Bursts(m: nat, w: nat, t: int, n: nat): seq<int>
    decreases n
  {
    if n == 0 then [] else Copies(t, m) + Bursts(m, w, t + w * 1000, n - 1)
  }

  lemma {:induction false} CopiesAllowed(m: int, w: int, s: WindowState, t: int, n: nat, rest: seq<int>)
    requires t < s.resetAtMs && s.count + n <= m
    ensures CountAllowed(m, w, Some(s), Copies(t, n) + rest) ==
            n + CountAllowed(m, w, Some(WindowState(s.count + n, s.resetAtMs)), rest)
    decreases n
  {
    if n == 0 {
      assert Copies(t, n) + rest == rest;
    } else {
      assert (Copies(t, n) + rest)[1..] == Copies(t, n - 1) + rest;
      CopiesAllowed(m, w, WindowState(s.count + 1, s.resetAtMs), t, n - 1, rest);
    }
  }

  lemma OpeningStep(m: int, w: int, s: WindowState, t: int, rest: seq<int>)
    requires s.resetAtMs <= t
    ensures CountAllowed(m, w, Some(s), [t] + rest) == 1 + CountAllowed(m, w, Some(WindowState(1, t + w * 1000)), rest)
  {
    assert ([t] + rest)[1..] == rest;
  }

  lemma {:induction false} BurstsAllowed(m: nat, w: nat, s: WindowState, n: nat)
    requires m >= 1 && w >= 1
    ensures CountAllowed(m, w, Some(s), Bursts(m, w, s.resetAtMs, n)) == n * m
    decreases n
  {
    if n > 0 {
      var t := s.resetAtMs;
      var rest := Bursts(m, w, t + w * 1000, n - 1);
      assert Copies(t, m) + rest == [t] + (Copies(t, m - 1) + rest);
      OpeningStep(m, w, s, t, Copies(t, m - 1) + rest);
      CopiesAllowed(m, w, WindowState(1, t + w * 1000), t, m - 1, rest);
      BurstsAllowed(m, w, WindowState(m, t + w * 1000), n - 1);
      assert n * m == (n - 1) * m + m;
    }
  }

  lemma {:induction false} BurstTimes(m: nat, w: nat, t: int, n: nat)
    requires w >= 1
    ensures NonDecreasing(Bursts(m, w, t, n))
    ensures forall i :: 0 <= i < |Bursts(m, w, t, n)| ==> t <= Bursts(m, w, t, n)[i] < t + n * (w * 1000)
    decreases n
  {
    if n > 0 {
      BurstTimes(m, w, t + w * 1000, n - 1);
      assert n * (w * 1000) == (n - 1) * (w * 1000) + w * 1000;
      assert (n - 1) * (w * 1000) >= 0;
    }
  }

  /** One request, a nearly full window just before its reset, then full bursts. */
  function TightRun(m: nat, w: nat, k: nat): seq<int>
    requires m >= 1
  {
    [0] + (Copies(w * 1000 - 1, m - 1) + Bursts(m, w, w * 1000, k))
  }

  lemma TightRunTimes(m: nat, w: nat, k: nat)
    requires m >= 1 && w >= 1 && k >= 1
    ensures NonDecreasing(TightRun(m, w, k))
    ensures IsInterval(TightRun(m, w, k), 1, |TightRun(m, w, k)|, w * 1000 - 1, w * 1000 - 1 + k * (w * 1000))
  {
    var reset, bursts := w * 1000, Bursts(m, w, w * 1000, k);
    var middle := Copies(reset - 1, m - 1) + bursts;
    BurstTimes(m, w, reset, k);
    BurstsEnd(m, w, reset, k);
    assert k * (w * 1000) == (k - 1) * (w * 1000) + w * 1000 && (k - 1) * (w * 1000) >= 0;
    assert forall i :: 0 <= i < |middle| ==> reset - 1 <= middle[i] < reset - 1 + k * (w * 1000);
    assert forall i :: 0 < i < |TightRun(m, w, k)| ==> TightRun(m, w, k)[i] == middle[i - 1];
  }

  lemma TightRunCount(m: nat, w: nat, k: nat)
    requires m >= 1 && w >= 1
    ensures var times := TightRun(m, w, k);
            CountAllowed(m, w, Run(m, w, None, times[..1]), times[1..|times|]) == (k + 1) * m - 1
  {
    var times, reset, bursts := TightRun(m, w, k), w * 1000, Bursts(m, w, w * 1000, k);
    assert times[..1] == [0] && [0][..0] == [];
    assert times[1..|times|] == Copies(reset - 1, m - 1) + bursts;
    assert Run(m, w, None, times[..1]) == Some(WindowState(1, reset));
    CopiesAllowed(m, w, WindowState(1, reset), reset - 1, m - 1, bursts);
    BurstsAllowed(m, w, WindowState(m, reset), k);
    assert (k + 1) * m == k * m + m;
  }

  /** For every limit, window length and `k >= 1` some run reaches the bound of AllowedInAnyInterval. */
  lemma IntervalBoundIsTight(m: nat, w: nat, k: nat) returns (times: seq<int>, from: int)
    requires m >= 1 && w >= 1 && k >= 1
    ensures NonDecreasing(times)
    ensures |AllowedWithin(m, w, times, from, from + k * (w * 1000))| == (k + 1) * m - 1
  {
    times, from := TightRun(m, w, k), w * 1000 - 1;
    TightRunTimes(m, w, k);
    TightRunCount(m, w, k);
    AllowedIndicesCount(m, w, times, 1, |times|);
    assert AllowedWithin(m, w, times, from, from + k * (w * 1000)) == AllowedIndices(m, w, times, 1, |times|);
  }

  /** The last burst is at the start of its window. */
  lemma {:induction false} BurstsEnd(m: nat, w: nat, t: int, n: nat)
    requires w >= 1 && n >= 1
    ensures forall i :: 0 <= i < |Bursts(m, w, t, n)| ==> Bursts(m, w, t, n)[i] <= t + (n - 1) * (w * 1000)
    decreases n
  {
    if n > 1 {
      BurstsEnd(m, w, t + w * 1000, n - 1);
      assert (n - 1) * (w * 1000) == (n - 2) * (w * 1000) + w * 1000;
      assert (n - 2) * (w * 1000) >= 0;
    } else {
      assert Bursts(m, w, t + w * 1000, 0) == [];
      assert 0 * (w * 1000) == 0;
    }
  }

  // ----- Retry-After

  /** Requests before the reset are counted and leave the reset alone. */
  lemma {:induction false} CountedUntilReset(m: int, w: int, s: WindowState, times: seq<int>)
    requires forall i :: 0 <= i < |times| ==> times[i] < s.resetAtMs
    ensures Run(m, w, Some(s), times) == Some(WindowState(s.count + |times|, s.resetAtMs))
  {
    if times != [] {
      CountedUntilReset(m, w, s, times[..|times| - 1]);
    }
  }

  /**
   A decision tells the truth about the future: of the requests before its reset exactly the first
   `remaining` are allowed, and a request at or after the reset is allowed again.
   */
  lemma DecisionIsExact(existing: Option<WindowState>, p: Payload, more: seq<int>, i: nat, later: int)
    requires var s := Evaluate(existing, p).0; forall k :: 0 <= k < |more| ==> more[k] < s.resetAtMs
    requires i < |more|
    ensures var (s, d) := Evaluate(existing, p);
            && d.limit == p.maxRequests && d.resetAtMs == s.resetAtMs && d.remaining >= 0
            && (Allowed(p.maxRequests, p.windowSeconds, Some(s), more, i) <==> i < d.remaining)
            && (later >= d.resetAtMs ==>
                  Evaluate(Run(p.maxRequests, p.windowSeconds, Some(s), more),
                           Payload(p.maxRequests, p.windowSeconds, later)).1.allowed)
  {
    var s := Evaluate(existing, p).0;
    assert forall k :: 0 <= k < i ==> more[..i][k] == more[k];
    CountedUntilReset(p.maxRequests, p.windowSeconds, s, more[..i]);
    CountedUntilReset(p.maxRequests, p.windowSeconds, s, more);
  }

  /** Requests that come before the reset of a full window are denied and leave the reset alone. */
  lemma DeniedUntilReset(m: int, w: int, s: WindowState, times: seq<int>)
    requires s.count >= m
    requires forall i :: 0 <= i < |times| ==> times[i] < s.resetAtMs
    ensures Run(m, w, Some(s), times) == Some(WindowState(s.count + |times|, s.resetAtMs))
    ensures forall i :: 0 <= i < |times| ==> !Allowed(m, w, Some(s), times, i)
  {
    CountedUntilReset(m, w, s, times);
    forall i | 0 <= i < |times|
      ensures !Allowed(m, w, Some(s), times, i)
    {
      CountedUntilReset(m, w, s, times[..i]);
    }
  }

  /**
   After a denial with Retry-After `r`: whoever else is denied meanwhile, a request `r` seconds
   later is allowed; and `r` is the least positive number of seconds that reaches the reset, so
   when `r > 1` a request one second earlier is still denied.
   */
  lemma RetryAfterIsSoundAndTight(existing: Option<WindowState>, p: Payload, meanwhile: seq<int>, later: int)
    requires !Evaluate(existing, p).1.allowed
    requires var s := Evaluate(existing, p).0; forall i :: 0 <= i < |meanwhile| ==> meanwhile[i] < s.resetAtMs
    ensures var (s, d) := Evaluate(existing, p);
            var stored := Run(p.maxRequests, p.windowSeconds, Some(s), meanwhile);
            var next := Evaluate(stored, Payload(p.maxRequests, p.windowSeconds, later)).1;
            && d.retryAfterSeconds >= 1
            && (later >= p.nowMs + 1000 * d.retryAfterSeconds ==> next.allowed)
            && (d.retryAfterSeconds > 1 && later <= p.nowMs + 1000 * (d.retryAfterSeconds - 1) ==> !next.allowed)
  {
    var (s, d) := Evaluate(existing, p);
    DeniedUntilReset(p.maxRequests, p.windowSeconds, s, meanwhile);
    CeilSecondsIs(s.resetAtMs - p.nowMs);
  }

  lemma CeilSecondsIs(ms: int)
    ensures 1000 * (CeilSeconds(ms) - 1) < ms <= 1000 * CeilSeconds(ms)
  {
  }
}
