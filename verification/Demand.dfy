/**
Window-based task demand: windows of fixed length advance with the clock, busy
time is split at their boundaries and scaled, and the windows' totals go through
a short history that the demand is taken from.
*/
module Demand {
  import opened Common

  const RAVG_HIST_SIZE_MAX: nat := 5
  const MIN_WINDOW: nat := 10_000_000
  const MAX_WINDOW: nat := 1_000_000_000
  const TWO31: int := 0x8000_0000
  const TWO32: nat := 0x1_0000_0000
  const TWO63: nat := 0x8000_0000_0000_0000
  const TWO64: nat := 0x1_0000_0000_0000_0000
  const EXITING_TASK_MARKER: nat := 0xdeaddead

  datatype Policy = Recent | Max | Avg | MaxRecentAvg

  datatype Config = Config(window: nat, histSize: nat, policy: Policy,
                           maxPossibleFreq: nat, maxPossibleEfficiency: nat) {
    predicate Ok() {
      && MIN_WINDOW <= window <= MAX_WINDOW && 1 <= histSize <= RAVG_HIST_SIZE_MAX
      // unsigned int; and efficiencies times 1024 are ints
      && 0 < maxPossibleFreq < TWO32 && 0 < maxPossibleEfficiency < 0x20_0000
    }
  }

  // ----- the window -----

  /** A value kept in an int. */
  function ToInt(x: int): int { (x + TWO31) % TWO32 - TWO31 }

  predicate IsInt(x: int) { -TWO31 <= x < TWO31 }

  /** update_window_start. */
  method UpdateWindowStart(windowStart: nat, wallclock: nat, window: nat) returns (ws: nat)
    requires MIN_WINDOW <= window <= MAX_WINDOW && windowStart <= wallclock < TWO63
    ensures FullWindows(wallclock - windowStart, window) < TWO31 ==> ws <= wallclock < ws + window
    ensures FullWindows(wallclock - windowStart, window) < TWO31 ==>
      exists k :: 0 <= k && ws == Boundary(windowStart, window, k)
    ensures FullWindows(wallclock - windowStart, window) >= TWO31 ==> !(ws <= wallclock < ws + window)
    ensures ws < TWO64
  {
    var delta := wallclock - windowStart;
    if delta < window {
      QuotientSmall(delta, window);
      assert windowStart == Boundary(windowStart, window, 0);
      return windowStart;
    }
    var nr := ToInt(delta / window);
    ws := U64(windowStart + nr * window);
    WindowAdvances(windowStart, wallclock, window);
  }

  function Boundary(start: nat, window: nat, k: int): int { start + k * window }

  lemma {:induction false} QuotientSmall(delta: nat, window: nat)
    requires delta < window
    ensures delta / window == 0
  {
  }

  /** The window catches up with the clock unless more than 2^31 windows have passed. */
  lemma {:induction false} WindowAdvances(start: nat, clock: nat, window: nat)
    requires MIN_WINDOW <= window <= MAX_WINDOW && start + window <= clock < TWO63
    ensures var q := (clock - start) / window;
            var ws := U64(start + ToInt(q) * window);
            && (q < TWO31 ==> ws == Boundary(start, window, q) && ws <= clock < ws + window)
            && (q >= TWO31 ==> !(ws <= clock < ws + window))
  {
    var q := (clock - start) / window;
    assert clock - start == q * window + (clock - start) % window;
    IntOf(q);
    hide ToInt, U64;
    if q < TWO31 { InWord(start + q * window); } else { StaysBehind(start, clock, window, q, ToInt(q)); }
  }

  /** The int that keeps a quotient. */
  lemma {:induction false} IntOf(q: nat)
    ensures q < TWO31 ==> ToInt(q) == q
    ensures q >= TWO31 ==> -TWO31 <= ToInt(q) <= q - TWO32
  {
  }

  lemma {:induction false} InWord(x: int)
    ensures 0 <= x < TWO64 ==> U64(x) == x
    ensures 0 <= x + TWO64 < TWO64 ==> U64(x) == x + TWO64
  {
  }

  /** With too few windows added, the window start is behind the clock, or wraps to far ahead of it. */
  lemma {:induction false} StaysBehind(start: nat, clock: nat, window: nat, q: nat, n: int)
    requires MIN_WINDOW <= window <= MAX_WINDOW && start + q * window <= clock < TWO63
    requires -TWO31 <= n <= q - TWO32
    ensures var ws := U64(start + n * window); !(ws <= clock < ws + window)
  {
    var x := start + n * window;
    MulLe(n, q - TWO32, window);
    assert (q - TWO32) * window == q * window - TWO32 * window;
    MulLe(-TWO31, n, window);
    MulLe(window, MAX_WINDOW, TWO31);
    hide U64;
    InWord(x);
  }

  // ----- scaling -----

  datatype Speed = Speed(curFreq: nat, maxFreq: nat, maxPossibleFreq: nat, efficiency: nat)

  /** The frequencies and efficiencies of a CPU are within their recorded maxima. */
  predicate SpeedOk(c: Config, v: Speed) {
    v.maxPossibleFreq <= c.maxPossibleFreq && v.efficiency <= c.maxPossibleEfficiency
  }

  function Freq(c: Config, v: Speed): nat {
    if v.curFreq > c.maxPossibleFreq || (v.curFreq == v.maxFreq && v.maxFreq < v.maxPossibleFreq) then v.maxPossibleFreq
    else v.curFreq
  }

  /** The efficiency relative to the best, rounded up, in 1024ths. */
  function Factor(c: Config, v: Speed): nat
    requires c.Ok()
  {
    (v.efficiency * 1024 + c.maxPossibleEfficiency - 1) / c.maxPossibleEfficiency
  }

  /** The time at full frequency, rounded up. */
  function AtFullFreq(delta: nat, c: Config, v: Speed): nat
    requires c.Ok()
  {
    (delta * Freq(c, v) + c.maxPossibleFreq - 1) / c.maxPossibleFreq
  }

  /** The same, in 64 bits. */
  function AtFullFreq64(delta: nat, c: Config, v: Speed): nat
    requires c.Ok()
  {
    U64(delta * Freq(c, v) + c.maxPossibleFreq - 1) / c.maxPossibleFreq
  }

  function U64(x: int): nat { x % TWO64 }

  /** scale_exec_time. */
  function ScaleExecTime(delta: nat, c: Config, v: Speed): nat
    requires c.Ok()
  {
    U64(AtFullFreq64(delta, c, v) * Factor(c, v)) / 1024
  }

  /** Scaled time is in proportion to the speed: to the CPU's frequency against the highest of all, where a CPU at its
      capped maximum or with an unknown frequency counts as running at its own highest, rounded up; and to its
      efficiency against the best, in 1024ths, rounded up; and then down to whole nanoseconds. */
  lemma {:induction false} ScaleIsProportional(delta: nat, c: Config, v: Speed)
    requires c.Ok() && SpeedOk(c, v) && delta <= c.window
    ensures var capped := v.curFreq > c.maxPossibleFreq || (v.curFreq == v.maxFreq && v.maxFreq < v.maxPossibleFreq);
      var f := if capped then v.maxPossibleFreq else v.curFreq;
      exists d: nat, sf: nat ::
        && IsCeiling(d, delta * f, c.maxPossibleFreq)
        && IsCeiling(sf, v.efficiency * 1024, c.maxPossibleEfficiency)
        && 1024 * ScaleExecTime(delta, c, v) <= d * sf < 1024 * (ScaleExecTime(delta, c, v) + 1)
  {
    var d, sf := AtFullFreq(delta, c, v), Factor(c, v);
    assert IsCeiling(d, delta * Freq(c, v), c.maxPossibleFreq) by { CeilingIs(delta * Freq(c, v), c.maxPossibleFreq); }
    assert IsCeiling(sf, v.efficiency * 1024, c.maxPossibleEfficiency) by {
      CeilingIs(v.efficiency * 1024, c.maxPossibleEfficiency);
    }
    hide ScaleExecTime, AtFullFreq, Factor, IsCeiling;
    ScaleShrinks(delta, c, v);
    WholePart(d * sf);
  }

  lemma {:induction false} WholePart(x: nat)
    ensures 1024 * (x / 1024) <= x < 1024 * (x / 1024 + 1)
  {
  }

  /** `x` is `a` divided by `m`, rounded up. */
  predicate IsCeiling(x: nat, a: nat, m: nat) { a <= m * x < a + m }

  lemma {:induction false} CeilingIs(a: nat, m: nat)
    requires m > 0
    ensures (a + m - 1) / m >= 0 && IsCeiling((a + m - 1) / m, a, m)
  {
    var x := (a + m - 1) / m;
    assert a + m - 1 == x * m + (a + m - 1) % m;
  }

  /** The 64-bit product is the time at full frequency if and only if it fits. */
  lemma {:induction false} ProductIsExactIff(delta: nat, c: Config, v: Speed)
    requires c.Ok()
    ensures AtFullFreq64(delta, c, v) == AtFullFreq(delta, c, v) <==> delta * Freq(c, v) + c.maxPossibleFreq - 1 < TWO64
  {
    var x: nat, m: nat := delta * Freq(c, v) + c.maxPossibleFreq - 1, c.maxPossibleFreq;
    WrapLowers(x, m);
  }

  lemma {:induction false} WrapLowers(x: nat, m: nat)
    requires 0 < m < TWO32
    ensures U64(x) / m == x / m <==> x < TWO64
  {
    var y := U64(x);
    assert y <= x && (x >= TWO64 ==> y <= x - TWO64);
    if x >= TWO64 {
      var q := y / m;
      assert q * m <= y && x < (x / m) * m + m;
      if x / m == q { assert false; }
    }
  }

  /** Of up to a window of time, no product wraps, and rounding up twice on the way never makes it longer. */
  lemma {:induction false} ScaleShrinks(delta: nat, c: Config, v: Speed)
    requires c.Ok() && SpeedOk(c, v) && delta <= c.window
    ensures ScaleExecTime(delta, c, v) == AtFullFreq(delta, c, v) * Factor(c, v) / 1024 <= delta
  {
    var f, m := Freq(c, v), c.maxPossibleFreq;
    var d, sf := AtFullFreq(delta, c, v), Factor(c, v);
    MulLe(f, m, delta);
    assert d <= delta by { CeilAtMost(delta * f, m, delta); }
    assert sf <= 1024 by {
      MulLe(v.efficiency, c.maxPossibleEfficiency, 1024);
      CeilAtMost(v.efficiency * 1024, c.maxPossibleEfficiency, 1024);
    }
    MulLe(delta, MAX_WINDOW, m);
    ProductIsExactIff(delta, c, v);
    MulLe(d, delta, sf);
    MulLe(sf, 1024, delta);
    Thousandths(d * sf, delta);
  }

  lemma {:induction false} ScaleAtMost(delta: nat, c: Config, v: Speed)
    requires c.Ok() && SpeedOk(c, v) && delta <= c.window
    ensures ScaleExecTime(delta, c, v) <= delta
  {
    hide ScaleExecTime, AtFullFreq, Factor;
    ScaleShrinks(delta, c, v);
  }

  lemma {:induction false} Thousandths(x: nat, delta: nat)
    requires x <= delta * 1024 && delta <= MAX_WINDOW
    ensures U64(x) == x && x / 1024 <= delta
  {
  }

  lemma {:induction false} ScaleNothing(c: Config, v: Speed)
    requires c.Ok()
    ensures ScaleExecTime(0, c, v) == 0
  {
    var m := c.maxPossibleFreq;
    assert 0 * Freq(c, v) == 0;
    assert U64(m - 1) / m == 0;
    assert 0 * Factor(c, v) == 0;
  }

  lemma {:induction false} CeilAtMost(a: nat, m: nat, q: nat)
    requires 0 < m && a <= m * q
    ensures (a + m - 1) / m <= q
  {
    var x := (a + m - 1) / m;
    assert x * m <= a + m - 1;
    if x > q { MulLe(q + 1, x, m); }
  }

  // ----- the history -----

  /** The shift register: `n` copies of `x` enter at the front of the first `size` places; the rest stays. */
  function Pushed(h: seq<nat>, x: nat, n: nat, size: nat): seq<nat> {
    seq(|h|, i requires 0 <= i < |h| => if i >= size then h[i] else if i < n then x else h[i - n])
  }

  function SumOf(h: seq<nat>, lo: nat, hi: nat): nat
    requires hi <= |h|
    decreases hi - lo
  {
    if lo >= hi then 0 else h[lo] + SumOf(h, lo + 1, hi)
  }

  function MaxOf(h: seq<nat>, lo: nat, hi: nat): nat
    requires hi <= |h|
    decreases hi - lo
  {
    if lo >= hi then 0 else Larger(h[lo], MaxOf(h, lo + 1, hi))
  }

  function Larger(a: nat, b: nat): nat { if a > b then a else b }

  /** Pushing `n` samples at once is pushing them one by one. */
  lemma {:induction false} PushedOneByOne(h: seq<nat>, x: nat, n: nat, size: nat)
    ensures Pushed(h, x, n + 1, size) == Pushed(Pushed(h, x, n, size), x, 1, size)
  {
  }

  lemma {:induction false} SplitRange(h: seq<nat>, lo: nat, mid: nat, hi: nat)
    requires lo <= mid <= hi <= |h|
    ensures SumOf(h, lo, hi) == SumOf(h, lo, mid) + SumOf(h, mid, hi)
    ensures MaxOf(h, lo, hi) == Larger(MaxOf(h, lo, mid), MaxOf(h, mid, hi))
    decreases mid - lo
  {
    if lo < mid { SplitRange(h, lo + 1, mid, hi); }
  }

  /** The demand, by the policy in force. */
  function DemandOf(policy: Policy, runtime: nat, max: nat, avg: nat): nat {
    match policy
    case Recent => runtime
    case Max => max
    case Avg => avg
    case MaxRecentAvg => Larger(avg, runtime)
  }

  function Lesser(a: nat, b: nat): nat { if a < b then a else b }

  /** Where a negative number of samples sends the shift of the history out of its array. For the lowest numbers the
      index wraps to a negative one instead, and nothing moves. */
  predicate Leaves(samples: int, size: nat) { size - TWO31 <= samples < 0 }

  /** The first loop of update_history: the old samples move up, in place. `inRange` is false if the loop leaves the
      array, reading behind it or writing before it; the model stops there. */
  method ShiftHistory(hist: array<nat>, ghost g: seq<nat>, samples: int, size: nat, ghost w: nat)
    returns (inRange: bool, sum: nat, max: nat)
    requires 0 < size <= RAVG_HIST_SIZE_MAX <= hist.Length == |g|
    requires IsInt(samples) && samples != 0 && AtMost(hist[..], w)
    requires forall i :: 0 < samples <= i < size ==> g[i] == hist[i - samples]
    modifies hist
    ensures AtMost(hist[..], w) && (inRange <==> !Leaves(samples, size))
    ensures samples > 0 ==>
      forall i :: 0 <= i < hist.Length ==> hist[i] == if samples <= i < size then g[i] else old(hist[i])
    ensures samples > 0 ==>
      var mid := Lesser(samples, size); sum == SumOf(g, mid, size) && max == MaxOf(g, mid, size)
    ensures samples < size - TWO31 ==> hist[..] == old(hist[..]) && sum == max == 0
  {
    inRange, sum, max := true, 0, 0;
    EmptyRange(g, size);
    hide SumOf, MaxOf, ToInt;
    var widx: int := size - 1;
    var ridx: int := ToInt(widx - samples);
    IndexWraps(samples, size);
    if ridx >= 0 { inRange, sum, max := ShiftLoop(hist, g, samples, size, w); }
  }

  /** `h` is `was` with the places above `widx` already those of `g`. */
  ghost predicate MovedTo(h: seq<nat>, was: seq<nat>, g: seq<nat>, widx: int, size: nat) {
    && |h| == |was| == |g|
    && forall i :: 0 <= i < |h| ==> h[i] == if widx < i < size then g[i] else was[i]
  }

  lemma {:induction false} MoveOne(h: seq<nat>, was: seq<nat>, g: seq<nat>, widx: nat, ridx: nat, size: nat)
    requires MovedTo(h, was, g, widx, size) && ridx < widx < size <= |h| && g[widx] == was[ridx]
    ensures h[ridx] == g[widx] && MovedTo(h[widx := h[ridx]], was, g, widx - 1, size)
  {
  }

  /** The loop, once it is entered. */
  method ShiftLoop(hist: array<nat>, ghost g: seq<nat>, samples: int, size: nat, ghost w: nat)
    returns (inRange: bool, sum: nat, max: nat)
    requires 0 < size <= hist.Length == |g| && samples != 0 && samples < size && AtMost(hist[..], w)
    requires forall i :: 0 < samples <= i < size ==> g[i] == hist[i - samples]
    modifies hist
    ensures AtMost(hist[..], w) && (inRange <==> samples > 0)
    ensures samples > 0 ==> MovedTo(hist[..], old(hist[..]), g, samples - 1, size)
    ensures samples > 0 ==> sum == SumOf(g, samples, size) && max == MaxOf(g, samples, size)
  {
    inRange, sum, max := true, 0, 0;
    EmptyRange(g, size);
    hide SumOf, MaxOf, AtMost, MovedTo;
    ghost var was := hist[..];
    NoneMoved(was, g, size);
    var widx: int := size - 1;
    var ridx: int := widx - samples;
    while ridx >= 0
      invariant ridx == widx - samples && -1 <= widx < size && AtMost(hist[..], w)
      invariant samples > 0 ==> samples <= widx + 1 && MovedTo(hist[..], was, g, widx, size)
      invariant samples > 0 ==> sum == SumOf(g, widx + 1, size) && max == MaxOf(g, widx + 1, size)
    {
      if ridx >= hist.Length || widx < 0 { return false, sum, max; }
      ghost var h := hist[..];
      MovedAtMost(h, widx, ridx, w);
      if samples > 0 {
        RangeStarts(g, widx, size);
        MoveOne(h, was, g, widx, ridx, size);
      }
      hist[widx] := hist[ridx];
      assert hist[..] == h[widx := h[ridx]];
      sum := sum + hist[widx];
      if hist[widx] > max { max := hist[widx]; }
      widx, ridx := widx - 1, ridx - 1;
    }
  }

  lemma {:induction false} NoneMoved(h: seq<nat>, g: seq<nat>, size: nat)
    requires |h| == |g|
    ensures MovedTo(h, h, g, size - 1, size)
  {
  }

  lemma {:induction false} MovedAtMost(h: seq<nat>, to: nat, from: nat, w: nat)
    requires AtMost(h, w) && to < |h| && from < |h|
    ensures AtMost(h[to := h[from]], w)
  {
  }

  /** The first index read: an int, which wraps exactly for the lowest numbers of samples. */
  lemma {:induction false} IndexWraps(samples: int, size: nat)
    requires 0 < size <= RAVG_HIST_SIZE_MAX && IsInt(samples)
    ensures samples >= size - TWO31 ==> ToInt(size - 1 - samples) == size - 1 - samples
    ensures samples < size - TWO31 ==> ToInt(size - 1 - samples) < 0
  {
  }

  lemma {:induction false} EmptyRange(h: seq<nat>, hi: nat)
    requires hi <= |h|
    ensures SumOf(h, hi, hi) == 0 && MaxOf(h, hi, hi) == 0
  {
  }

  lemma {:induction false} RangeStarts(h: seq<nat>, lo: nat, hi: nat)
    requires lo < hi <= |h|
    ensures SumOf(h, lo, hi) == h[lo] + SumOf(h, lo + 1, hi)
    ensures MaxOf(h, lo, hi) == if h[lo] > MaxOf(h, lo + 1, hi) then h[lo] else MaxOf(h, lo + 1, hi)
  {
  }

  predicate AtMost(h: seq<nat>, w: nat) { forall i :: 0 <= i < |h| ==> h[i] <= w }

  /** How many places the new samples take. */
  function Places(samples: int, size: nat): nat { if samples < 0 then 0 else Lesser(samples, size) }

  /** The second loop: the new samples enter at the front. */
  method FillHistory(hist: array<nat>, runtime: nat, samples: int, size: nat, sum0: nat, max0: nat, ghost g: seq<nat>)
    returns (sum: nat, max: nat)
    requires size <= hist.Length == |g| && forall i :: 0 <= i < Places(samples, size) ==> g[i] == runtime
    modifies hist
    ensures forall i :: 0 <= i < hist.Length ==> hist[i] == if i < Places(samples, size) then runtime else old(hist[i])
    ensures var mid := Places(samples, size); sum == SumOf(g, 0, mid) + sum0 && max == Larger(MaxOf(g, 0, mid), max0)
  {
    sum, max := sum0, max0;
    var widx := 0;
    while widx < samples && widx < size
      invariant 0 <= widx <= Places(samples, size)
      invariant forall i :: 0 <= i < hist.Length ==> hist[i] == if i < widx then runtime else old(hist[i])
      invariant sum == SumOf(g, 0, widx) + sum0 && max == Larger(MaxOf(g, 0, widx), max0)
    {
      hist[widx] := runtime;
      sum := sum + hist[widx];
      if hist[widx] > max { max := hist[widx]; }
      SplitRange(g, 0, widx, widx + 1);
      widx := widx + 1;
    }
  }

  function Average(sum: nat, n: nat): nat
    requires n > 0
  {
    sum / n
  }

  /** The demand that update_history derives from the new history. */
  function NewDemand(c: Config, h: seq<nat>, runtime: nat): nat
    requires 0 < c.histSize <= |h|
  {
    DemandOf(c.policy, runtime, MaxOf(h, 0, c.histSize), Average(SumOf(h, 0, c.histSize), c.histSize))
  }

  /** Samples within a window give a demand within it. */
  lemma {:induction false} DemandBounded(c: Config, h: seq<nat>, runtime: nat)
    requires 0 < c.histSize <= |h| && runtime <= c.window && forall i :: 0 <= i < |h| ==> h[i] <= c.window
    ensures NewDemand(c, h, runtime) <= c.window
  {
    BoundedRange(h, 0, c.histSize, c.window);
    AvgAtMost(SumOf(h, 0, c.histSize), c.histSize, c.window);
  }

  /** The two loops of update_history: a shift register, with the sum and the maximum of what it then holds; and
      nothing at all if the index wraps. */
  method PushHistory(hist: array<nat>, runtime: nat, samples: int, size: nat, ghost w: nat)
    returns (inRange: bool, sum: nat, max: nat)
    requires 0 < size <= RAVG_HIST_SIZE_MAX <= hist.Length && IsInt(samples) && samples != 0 && AtMost(hist[..], w)
    modifies hist
    ensures inRange <==> !Leaves(samples, size)
    ensures samples > 0 ==> hist[..] == Pushed(old(hist[..]), runtime, samples, size)
    ensures samples > 0 ==> sum == SumOf(hist[..], 0, size) && max == MaxOf(hist[..], 0, size)
    ensures samples < size - TWO31 ==> hist[..] == old(hist[..]) && sum == max == 0
    ensures samples < 0 ==> AtMost(hist[..], w)
  {
    ghost var g := if samples > 0 then Pushed(hist[..], runtime, samples, size) else hist[..];
    inRange, sum, max := ShiftHistory(hist, g, samples, size, w);
    if inRange {
      sum, max := FillHistory(hist, runtime, samples, size, sum, max, g);
      if samples > 0 { SplitRange(g, 0, Lesser(samples, size), size); }
      assert hist[..] == g;
    }
  }

  // ----- the task -----

  /** The sample bound: no sum or maximum of samples up to `w` leads above it. */
  lemma {:induction false} BoundedRange(h: seq<nat>, lo: nat, hi: nat, w: nat)
    requires lo <= hi <= |h| && forall i :: lo <= i < hi ==> h[i] <= w
    ensures SumOf(h, lo, hi) <= (hi - lo) * w && MaxOf(h, lo, hi) <= w
    decreases hi - lo
  {
    if lo < hi {
      BoundedRange(h, lo + 1, hi, w);
      assert (hi - lo) * w == (hi - (lo + 1)) * w + w;
    }
  }

  lemma {:induction false} AvgAtMost(sum: nat, n: nat, w: nat)
    requires 0 < n && sum <= n * w
    ensures Average(sum, n) <= w
  {
    var q := sum / n;
    assert q * n <= sum;
    if q > w { MulLe(w + 1, q, n); }
  }

  /** What is recorded about a task. */
  datatype Ravg = Ravg(hist: seq<nat>, sum: nat, demand: nat)

  function FullWindows(delta: nat, window: nat): nat
    requires window > 0
  {
    delta / window
  }

  /** What is left of `delta` after the full windows. */
  function Rest(delta: nat, window: nat): nat
    requires window > 0
  {
    delta % window
  }

  /** Where in its window a time lies, were windows to begin at 0. */
  function Phase(time: nat, window: nat): nat
    requires window > 0
  {
    time % window
  }

  lemma {:induction false} RestIs(delta: nat, window: nat)
    requires window > 0
    ensures delta - FullWindows(delta, window) * window == Rest(delta, window) < window
  {
  }

  /** Samples enter the history unless they are empty. */
  function Sampled(h: seq<nat>, runtime: nat, samples: nat, size: nat): (h': seq<nat>)
    ensures |h'| == |h|
  {
    if runtime == 0 || samples == 0 then h else Pushed(h, runtime, samples, size)
  }

  /** The sample of the mark's own window, for busy time that began `delta` before the current window. */
  function FirstSample(c: Config, v: Speed, sum: nat, delta: nat): nat
    requires c.Ok()
  {
    Lesser(sum + ScaleExecTime(Rest(delta, c.window), c, v), c.window)
  }

  /** The history after it: that sample, then one for every full window. */
  function BusyHistory(c: Config, v: Speed, h: seq<nat>, sum: nat, delta: nat): (h': seq<nat>)
    requires c.Ok()
    ensures |h'| == |h|
  {
    Sampled(Sampled(h, FirstSample(c, v, sum, delta), 1, c.histSize),
            ScaleExecTime(c.window, c, v), FullWindows(delta, c.window), c.histSize)
  }

  /** The last nonempty one of these samples, or 0. */
  function LastSample(c: Config, v: Speed, sum: nat, delta: nat): nat
    requires c.Ok()
  {
    if FullWindows(delta, c.window) > 0 && ScaleExecTime(c.window, c, v) > 0 then ScaleExecTime(c.window, c, v)
    else FirstSample(c, v, sum, delta)
  }

  /** How the time from `mark` to `clock` is accounted, when the current window began at `ws`. */
  function Account(c: Config, v: Speed, busy: bool, mark: nat, ws: nat, clock: nat, r: Ravg): Ravg
    requires c.Ok() && mark <= clock && ws <= clock && |r.hist| == RAVG_HIST_SIZE_MAX
  {
    if mark >= ws then
      // within the current window
      r.(sum := if busy then Lesser(r.sum + ScaleExecTime(clock - mark, c, v), c.window) else r.sum)
    else if !busy then
      // only the window that has ended is closed
      var h := Sampled(r.hist, r.sum, 1, c.histSize);
      Ravg(h, 0, if r.sum == 0 then r.demand else NewDemand(c, h, r.sum))
    else
      var h := BusyHistory(c, v, r.hist, r.sum, ws - mark);
      var last := LastSample(c, v, r.sum, ws - mark);
      Ravg(h, ScaleExecTime(clock - ws, c, v), if last == 0 then r.demand else NewDemand(c, h, last))
  }

  // ----- one call is a call at every boundary -----

  /** `k` windows of busy time from the boundary `b` on, accounted at every boundary. */
  function Stepwise(c: Config, v: Speed, r: Ravg, b: nat, k: nat): (r': Ravg)
    requires c.Ok() && |r.hist| == RAVG_HIST_SIZE_MAX
    ensures |r'.hist| == RAVG_HIST_SIZE_MAX
    decreases k
  {
    if k == 0 then r
    else Stepwise(c, v, Account(c, v, true, b, b + c.window, b + c.window, r), b + c.window, k - 1)
  }

  /** Accounting a whole window, from a boundary to the next. */
  lemma {:induction false} WindowStep(c: Config, v: Speed, r: Ravg, b: nat)
    requires c.Ok() && |r.hist| == RAVG_HIST_SIZE_MAX && r.sum == 0
    ensures var s := ScaleExecTime(c.window, c, v);
            var h := Sampled(r.hist, s, 1, c.histSize);
            Account(c, v, true, b, b + c.window, b + c.window, r)
              == Ravg(h, 0, if s == 0 then r.demand else NewDemand(c, h, s))
  {
    assert FullWindows(c.window, c.window) == 1 && Rest(c.window, c.window) == 0;
    hide ScaleExecTime, NewDemand, Pushed;
    ScaleNothing(c, v);
    assert FirstSample(c, v, 0, c.window) == 0;
  }

  /** What `k` whole windows leave: as many equal samples. */
  lemma {:induction false} StepwiseIs(c: Config, v: Speed, r: Ravg, b: nat, k: nat)
    requires c.Ok() && |r.hist| == RAVG_HIST_SIZE_MAX && r.sum == 0
    ensures var s := ScaleExecTime(c.window, c, v);
            var h := Sampled(r.hist, s, k, c.histSize);
            Stepwise(c, v, r, b, k) == Ravg(h, 0, if k == 0 || s == 0 then r.demand else NewDemand(c, h, s))
    decreases k
  {
    hide ScaleExecTime, NewDemand, Pushed, Account;
    if k > 0 {
      WindowStep(c, v, r, b);
      StepwiseIs(c, v, Account(c, v, true, b, b + c.window, b + c.window, r), b + c.window, k - 1);
      PushedOneMore(r.hist, ScaleExecTime(c.window, c, v), k - 1, c.histSize);
    }
  }

  lemma {:induction false} PushedOneMore(h: seq<nat>, x: nat, n: nat, size: nat)
    ensures Pushed(h, x, n + 1, size) == Pushed(Pushed(h, x, 1, size), x, n, size)
  {
    var once := Pushed(h, x, 1, size);
    assert n == 0 ==> forall i :: 0 <= i < |h| ==> Pushed(once, x, 0, size)[i] == once[i];
  }

  /** The rest of the mark's own window. */
  lemma {:induction false} FirstStep(c: Config, v: Speed, r: Ravg, mark: nat, b: nat)
    requires c.Ok() && mark <= b < mark + c.window && |r.hist| == RAVG_HIST_SIZE_MAX && (mark == b ==> r.sum == 0)
    ensures var first := Lesser(r.sum + ScaleExecTime(b - mark, c, v), c.window);
            var h := Sampled(r.hist, first, 1, c.histSize);
            Account(c, v, true, mark, b, b, r) == Ravg(h, 0, if first == 0 then r.demand else NewDemand(c, h, first))
  {
    hide ScaleExecTime, NewDemand, Pushed, FullWindows, Rest;
    ScaleNothing(c, v);
    WithinWindow(b - mark, c.window);
  }

  lemma {:induction false} WithinWindow(delta: nat, window: nat)
    requires delta < window
    ensures FullWindows(delta, window) == 0 && Rest(delta, window) == delta
  {
  }

  /** Nothing is left over at a boundary. */
  lemma {:induction false} EmptyAtBoundary(c: Config, v: Speed, busy: bool, mark: nat, ws: nat, r: Ravg)
    requires c.Ok() && mark <= ws && |r.hist| == RAVG_HIST_SIZE_MAX && (mark == ws ==> r.sum == 0)
    ensures Account(c, v, busy, mark, ws, ws, r).sum == 0
  {
    ScaleNothing(c, v);
    hide ScaleExecTime, NewDemand, Pushed;
  }

  /** Busy time over any number of windows, accounted by one call, comes to the same history, sum and demand as if a
      call had been made at every window boundary on the way. */
  lemma {:induction false} OneCallIsStepwise(c: Config, v: Speed, r: Ravg, mark: nat, ws: nat, clock: nat)
    requires c.Ok() && SpeedOk(c, v) && mark < ws <= clock < ws + c.window && |r.hist| == RAVG_HIST_SIZE_MAX
    requires Rest(ws - mark, c.window) == 0 ==> r.sum == 0
    ensures var n := FullWindows(ws - mark, c.window);
            var b := ws - n * c.window;
            && mark <= b
            && Account(c, v, true, mark, ws, clock, r)
                 == Account(c, v, true, ws, ws, clock, Stepwise(c, v, Account(c, v, true, mark, b, b, r), b, n))
  {
    hide ScaleExecTime, NewDemand, Pushed, FullWindows, Rest, Account, Stepwise;
    var n := FullWindows(ws - mark, c.window);
    RestIs(ws - mark, c.window);
    StepwiseFrom(c, v, r, mark, ws, clock, ws - n * c.window, n);
  }

  lemma {:induction false} StepwiseFrom(c: Config, v: Speed, r: Ravg, mark: nat, ws: nat, clock: nat, b: nat, n: nat)
    requires c.Ok() && SpeedOk(c, v) && mark < ws <= clock < ws + c.window && |r.hist| == RAVG_HIST_SIZE_MAX
    requires mark <= b < mark + c.window && n == FullWindows(ws - mark, c.window)
    requires b - mark == Rest(ws - mark, c.window)
    requires mark == b ==> r.sum == 0
    ensures Account(c, v, true, mark, ws, clock, r)
      == Account(c, v, true, ws, ws, clock, Stepwise(c, v, Account(c, v, true, mark, b, b, r), b, n))
  {
    hide ScaleExecTime, NewDemand, Pushed, FullWindows, Rest, Stepwise;
    var first := Account(c, v, true, mark, b, b, r);
    FirstStep(c, v, r, mark, b);
    StepwiseIs(c, v, first, b, n);
    ScaleAtMost(clock - ws, c, v);
  }

  // ----- more than 2^31 windows -----

  /** What update_task_demand charges to the mark's own window, `delta` before the current one. */
  function FirstPiece(delta: nat, window: nat): int
    requires window > 0
  {
    delta - ToInt(FullWindows(delta, window)) * window
  }

  /** The busy time is cut at the window boundaries if and only if fewer than 2^31 full windows have passed: otherwise
      at least 2^32 windows are charged to the first. */
  lemma {:induction false} PiecesAreRightIff(delta: nat, window: nat)
    requires window > 0
    ensures 0 <= FirstPiece(delta, window) < window <==> FullWindows(delta, window) < TWO31
    ensures FullWindows(delta, window) < TWO31 ==> FirstPiece(delta, window) == Rest(delta, window)
    ensures FullWindows(delta, window) >= TWO31 ==> FirstPiece(delta, window) >= TWO32 * window
  {
    var q := delta / window;
    var n := ToInt(q);
    assert delta == q * window + delta % window;
    if q >= TWO31 {
      assert n <= q - TWO32;
      MulLe(n, q - TWO32, window);
      assert (q - TWO32) * window == q * window - TWO32 * window;
    }
  }

  /** The history leaves its array if and only if the number of full windows, of which an int keeps the low 32 bits,
      lies at least the history's size above 2^31 there, and busy windows are not empty. */
  lemma {:induction false} StraysIff(c: Config, v: Speed, mark: nat, ws: nat)
    requires c.Ok()
    ensures Strays(c, v, mark, ws) <==>
      && mark < ws && FullWindows(ws - mark, c.window) % TWO32 >= TWO31 + c.histSize
      && ScaleExecTime(c.window, c, v) > 0
  {
    hide ScaleExecTime, FullWindows;
  }

  /** Inputs: 2^32 - 1 full windows are -1 samples, and stray; exactly 2^31 are the lowest number of all, for which the
      index wraps and nothing moves. */
  lemma {:induction false} LongSleeps(c: Config, v: Speed, mark: nat)
    requires c.Ok()
    ensures var ws := mark + (TWO32 - 1) * c.window;
      ToInt(FullWindows(ws - mark, c.window)) == -1 && (Strays(c, v, mark, ws) <==> ScaleExecTime(c.window, c, v) > 0)
    ensures var ws := mark + TWO31 * c.window;
      ToInt(FullWindows(ws - mark, c.window)) == -TWO31 && !Strays(c, v, mark, ws)
  {
    hide ScaleExecTime;
    Multiple(TWO32 - 1, c.window);
    Multiple(TWO31, c.window);
  }

  lemma {:induction false} Multiple(k: nat, w: nat)
    requires w > 0
    ensures k * w / w == k
  {
    var q := k * w / w;
    assert q * w <= k * w < q * w + w;
    if q < k { MulLe(q + 1, k, w); } else if k < q { MulLe(k + 1, q, w); }
  }

  /** Fewer than 2^31 whole windows lie between the mark and the current window. */
  predicate Few(c: Config, mark: nat, ws: nat)
    requires c.Ok()
  {
    mark < ws ==> FullWindows(ws - mark, c.window) < TWO31
  }

  /** Their number comes out so negative that the history leaves its array, and they are not empty. */
  predicate Strays(c: Config, v: Speed, mark: nat, ws: nat)
    requires c.Ok()
  {
    mark < ws && Leaves(ToInt(FullWindows(ws - mark, c.window)), c.histSize) && ScaleExecTime(c.window, c, v) > 0
  }

  lemma {:induction false} FewNeverStray(c: Config, v: Speed, mark: nat, ws: nat)
    requires c.Ok()
    ensures Few(c, mark, ws) ==> !Strays(c, v, mark, ws)
  {
    hide FullWindows, ScaleExecTime;
  }

  lemma {:induction false} FewWindows(delta: nat, window: nat)
    requires MIN_WINDOW <= window <= MAX_WINDOW
    ensures FullWindows(delta, window) < TWO31 ==>
      && ToInt(FullWindows(delta, window)) == FullWindows(delta, window)
      && U64(FirstPiece(delta, window)) == Rest(delta, window) < window
  {
    PiecesAreRightIff(delta, window);
  }

  /** What update_history leaves, unless it leaves the array. */
  function Updated(c: Config, r: Ravg, runtime: nat, samples: int): (r': Ravg)
    requires c.Ok() && |r.hist| == RAVG_HIST_SIZE_MAX
    ensures |r'.hist| == RAVG_HIST_SIZE_MAX
  {
    if runtime == 0 || samples == 0 then r
    else if samples > 0 then
      var h := Pushed(r.hist, runtime, samples, c.histSize);
      Ravg(h, 0, NewDemand(c, h, runtime))
    else
      // the index has wrapped: the samples are lost, and the demand is that of an empty history
      Ravg(r.hist, 0, DemandOf(c.policy, runtime, 0, 0))
  }

  /** What the demand is to be after samples of `runtime` have entered the history, by the policy in force. */
  ghost predicate IsDemand(policy: Policy, demand: nat, h: seq<nat>, size: nat, runtime: nat)
    requires 0 < size <= |h|
  {
    match policy
    case Recent => demand == runtime
    case Max => (exists i :: 0 <= i < size && h[i] == demand) && forall i :: 0 <= i < size ==> h[i] <= demand
    case Avg => IsAverage(demand, SumOf(h, 0, size), size)
    case MaxRecentAvg =>
      && (demand == runtime || IsAverage(demand, SumOf(h, 0, size), size))
      && runtime <= demand && SumOf(h, 0, size) < size * (demand + 1)
  }

  /** The mean of `n` samples, rounded down. */
  predicate IsAverage(avg: nat, sum: nat, n: nat) { n * avg <= sum < n * (avg + 1) }

  lemma {:induction false} NewDemandIs(c: Config, h: seq<nat>, runtime: nat)
    requires 0 < c.histSize <= |h|
    ensures IsDemand(c.policy, NewDemand(c, h, runtime), h, c.histSize, runtime)
  {
    var n, sum := c.histSize, SumOf(h, 0, c.histSize);
    MaxIs(h, 0, n);
    AverageIs(sum, n);
    var avg := Average(sum, n);
    if avg < runtime { MulLe(avg + 1, runtime + 1, n); }
    hide SumOf, MaxOf, Average;
  }

  lemma {:induction false} AverageIs(sum: nat, n: nat)
    requires n > 0
    ensures IsAverage(Average(sum, n), sum, n)
  {
  }

  lemma {:induction false} MaxIs(h: seq<nat>, lo: nat, hi: nat)
    requires lo < hi <= |h|
    ensures exists i :: lo <= i < hi && h[i] == MaxOf(h, lo, hi)
    ensures forall i :: lo <= i < hi ==> h[i] <= MaxOf(h, lo, hi)
    decreases hi - lo
  {
    if lo + 1 < hi { MaxIs(h, lo + 1, hi); } else { assert h[lo] == MaxOf(h, lo, hi); }
  }

  /** What add_to_task_demand leaves. */
  function Charged(c: Config, v: Speed, r: Ravg, delta: nat): Ravg
    requires c.Ok()
  {
    r.(sum := Lesser((r.sum + ScaleExecTime(delta, c, v)) % TWO32, c.window))
  }

  /** The accounting in machine integers, `delta` before the current window and up to it. */
  function Closed(c: Config, v: Speed, r: Ravg, delta: nat): (r': Ravg)
    requires c.Ok() && |r.hist| == RAVG_HIST_SIZE_MAX
    ensures |r'.hist| == RAVG_HIST_SIZE_MAX
  {
    var first := Charged(c, v, r, U64(FirstPiece(delta, c.window)));
    Updated(c, Updated(c, first, first.sum, 1), ScaleExecTime(c.window, c, v), ToInt(FullWindows(delta, c.window)))
  }

  /** The accounting in machine integers, for any times. */
  function AccountInt(c: Config, v: Speed, busy: bool, mark: nat, ws: nat, clock: nat, r: Ravg): Ravg
    requires c.Ok() && mark <= clock && |r.hist| == RAVG_HIST_SIZE_MAX
  {
    if !busy then if mark < ws then Updated(c, r, r.sum, 1) else r
    else if mark >= ws then Charged(c, v, r, clock - mark)
    else Charged(c, v, Closed(c, v, r, ws - mark), U64(clock - ws))
  }

  lemma {:induction false} ChargedIs(c: Config, v: Speed, r: Ravg, delta: nat)
    requires c.Ok() && SpeedOk(c, v) && r.sum <= c.window && delta <= c.window
    ensures Charged(c, v, r, delta) == r.(sum := Lesser(r.sum + ScaleExecTime(delta, c, v), c.window))
  {
    hide ScaleExecTime;
    ScaleAtMost(delta, c, v);
  }

  lemma {:induction false} ClosedIs(c: Config, v: Speed, r: Ravg, mark: nat, ws: nat)
    requires c.Ok() && SpeedOk(c, v) && r.sum <= c.window && |r.hist| == RAVG_HIST_SIZE_MAX
    requires mark < ws && FullWindows(ws - mark, c.window) < TWO31
    ensures Closed(c, v, r, ws - mark) == Account(c, v, true, mark, ws, ws, r)
  {
    var delta := ws - mark;
    hide ScaleExecTime, Pushed, NewDemand, ToInt, FullWindows, Rest, FirstPiece, U64;
    FewWindows(delta, c.window);
    ScaleNothing(c, v);
    ChargedIs(c, v, r, Rest(delta, c.window));
  }

  /** With fewer than 2^31 windows passed, machine integers account as specified. */
  lemma {:induction false} IntIsAccount(c: Config, v: Speed, busy: bool, mark: nat, ws: nat, clock: nat, r: Ravg)
    requires c.Ok() && SpeedOk(c, v) && r.sum <= c.window && |r.hist| == RAVG_HIST_SIZE_MAX
    requires mark <= clock && ws <= clock < ws + c.window && Few(c, mark, ws)
    ensures AccountInt(c, v, busy, mark, ws, clock, r) == Account(c, v, busy, mark, ws, clock, r)
  {
    hide ScaleExecTime, Updated, FullWindows, Closed, Account;
    if busy && mark < ws {
      BusyAccount(c, v, mark, ws, clock, r);
    } else {
      hide Few;
      SimpleAccount(c, v, busy, mark, ws, clock, r);
    }
  }

  lemma {:induction false} SimpleAccount(c: Config, v: Speed, busy: bool, mark: nat, ws: nat, clock: nat, r: Ravg)
    requires c.Ok() && SpeedOk(c, v) && r.sum <= c.window && |r.hist| == RAVG_HIST_SIZE_MAX
    requires mark <= clock && ws <= clock < ws + c.window && !(busy && mark < ws)
    ensures AccountInt(c, v, busy, mark, ws, clock, r) == Account(c, v, busy, mark, ws, clock, r)
  {
    hide ScaleExecTime, Pushed, NewDemand;
    if busy { ChargedIs(c, v, r, clock - mark); }
  }

  lemma {:induction false} BusyAccount(c: Config, v: Speed, mark: nat, ws: nat, clock: nat, r: Ravg)
    requires c.Ok() && SpeedOk(c, v) && r.sum <= c.window && |r.hist| == RAVG_HIST_SIZE_MAX
    requires mark < ws <= clock < ws + c.window && Few(c, mark, ws)
    ensures AccountInt(c, v, true, mark, ws, clock, r) == Account(c, v, true, mark, ws, clock, r)
  {
    hide ScaleExecTime, FullWindows, Closed, BusyHistory, LastSample, NewDemand;
    ClosedIs(c, v, r, mark, ws);
    ScaleNothing(c, v);
    ScaleAtMost(clock - ws, c, v);
    ChargedIs(c, v, Account(c, v, true, mark, ws, ws, r), clock - ws);
    InWord(clock - ws);
  }

  class Task {
    const hist: array<nat>
    var sum: nat
    var demand: nat
    var markStart: nat

    constructor ()
      ensures Valid(MIN_WINDOW) && markStart == 0 && sum == 0 && fresh(hist)
    {
      hist := new nat[RAVG_HIST_SIZE_MAX](_ => 0);
      sum, demand, markStart := 0, 0, 0;
    }

    /** Nothing exceeds one window: no 32-bit field can overflow. */
    ghost predicate Valid(window: nat)
      reads this, hist
    {
      && hist.Length == RAVG_HIST_SIZE_MAX && window <= MAX_WINDOW
      && sum <= window && demand <= window && forall i :: 0 <= i < hist.Length ==> hist[i] <= window
    }

    ghost function Value(): Ravg
      reads this, hist
    {
      Ravg(hist[..], sum, demand)
    }

    /** Nothing is left over at a window boundary, where windows begin at times that are `phase` modulo the window. */
    ghost predicate Settled(window: nat, phase: nat)
      requires window > 0
      reads this
    {
      markStart == 0 || Phase(markStart, window) == phase ==> sum == 0
    }

    /** A sample within the window is never taken for the marker of an exiting task. */
    lemma {:induction false} NeverLooksExiting(window: nat)
      requires Valid(window)
      ensures hist[0] != EXITING_TASK_MARKER
    {
    }

    /** update_history, for a task that is neither idle nor exiting. */
    method UpdateHistory(c: Config, runtime: nat, samples: int) returns (inRange: bool)
      requires c.Ok() && Valid(c.window) && runtime <= c.window && IsInt(samples)
      modifies this, hist
      ensures Valid(c.window) && markStart == old(markStart)
      ensures inRange <==> runtime == 0 || !Leaves(samples, c.histSize)
      ensures inRange ==> Value() == Updated(c, old(Value()), runtime, samples)
      ensures runtime > 0 && samples > 0 ==> IsDemand(c.policy, demand, hist[..], c.histSize, runtime)
      ensures inRange && runtime > 0 && samples < 0 ==>
        demand == if c.policy.Recent? || c.policy.MaxRecentAvg? then runtime else 0
    {
      if runtime == 0 || samples == 0 { return true; }
      var total, max;
      inRange, total, max := PushHistory(hist, runtime, samples, c.histSize, c.window);
      if inRange {
        sum := 0;
        DemandBounded(c, hist[..], runtime);
        NewDemandIs(c, hist[..], runtime);
        NoAverage(c.histSize);
        demand := DemandOf(c.policy, runtime, max, Average(total, c.histSize));
      }
    }

    /** add_to_task_demand: a 32-bit addition, which does not wrap for up to a window of time; the sum saturates at
        the window. */
    method AddToTaskDemand(c: Config, v: Speed, delta: nat)
      requires c.Ok() && SpeedOk(c, v) && Valid(c.window)
      modifies `sum
      ensures Valid(c.window)
      ensures Value() == Charged(c, v, old(Value()), delta)
      ensures delta <= c.window ==> sum == Lesser(old(sum) + ScaleExecTime(delta, c, v), c.window)
    {
      hide ScaleExecTime;
      if delta <= c.window { ScaleAtMost(delta, c, v); }
      sum := (sum + ScaleExecTime(delta, c, v)) % TWO32;
      if sum > c.window { sum := c.window; }
    }

    /** update_task_demand: the busy time since the mark is cut at the window boundaries. What falls into the
        mark's own window closes that window's sample, the full windows in between are samples of their own,
        and only what falls into the current window is left in `sum`. So it is if fewer than 2^31 windows have
        passed; otherwise machine integers decide, and nothing exceeds a window as long as the history stays in
        its array. */
    method UpdateTaskDemand(c: Config, v: Speed, busy: bool, windowStart: nat, wallclock: nat) returns (inRange: bool)
      requires c.Ok() && SpeedOk(c, v) && Valid(c.window) && windowStart < TWO64 && markStart <= wallclock < TWO63
      modifies this, hist
      ensures Valid(c.window) && markStart == old(markStart)
      ensures inRange <==> !(busy && Strays(c, v, markStart, windowStart))
      ensures inRange ==> Value() == AccountInt(c, v, busy, markStart, windowStart, wallclock, old(Value()))
      ensures windowStart <= wallclock < windowStart + c.window && Few(c, markStart, windowStart) ==>
        inRange && Value() == Account(c, v, busy, markStart, windowStart, wallclock, old(Value()))
    {
      hide ScaleExecTime, Updated, FullWindows, ToInt, Closed, Account;
      FewNeverStray(c, v, markStart, windowStart);
      if windowStart <= wallclock < windowStart + c.window && Few(c, markStart, windowStart) {
        IntIsAccount(c, v, busy, markStart, windowStart, wallclock, Value());
      }
      var newWindow := markStart < windowStart;
      if !busy {
        inRange := true;
        if newWindow { inRange := UpdateHistory(c, sum, 1); }
        return;
      }
      if !newWindow {
        AddToTaskDemand(c, v, wallclock - markStart);
        return true;
      }
      inRange := AccountWindows(c, v, windowStart);
      if inRange { AddToTaskDemand(c, v, U64(wallclock - windowStart)); }
    }

    /** The part of update_task_demand before the current window. */
    method AccountWindows(c: Config, v: Speed, windowStart: nat) returns (inRange: bool)
      requires c.Ok() && SpeedOk(c, v) && Valid(c.window) && markStart < windowStart < TWO64
      modifies this, hist
      ensures Valid(c.window) && markStart == old(markStart)
      ensures inRange <==> !Strays(c, v, markStart, windowStart)
      ensures inRange ==> Value() == Closed(c, v, old(Value()), windowStart - markStart)
    {
      hide ScaleExecTime, Pushed, NewDemand, FullWindows, U64;
      var delta := windowStart - markStart;
      var nrFullWindows := ToInt(FullWindows(delta, c.window));
      AddToTaskDemand(c, v, U64(windowStart - nrFullWindows * c.window - markStart));
      inRange := UpdateHistory(c, sum, 1);
      if nrFullWindows != 0 {
        ScaleAtMost(c.window, c, v);
        inRange := UpdateHistory(c, ScaleExecTime(c.window, c, v), nrFullWindows);
      }
    }
  }

  lemma {:induction false} NoAverage(n: nat)
    requires n > 0
    ensures Average(0, n) == 0
  {
  }

  /** An event of a task, at a speed of its CPU. */
  datatype Event = Event(task: Task, busy: bool, wallclock: nat, speed: Speed)

  class RunQueue {
    var windowStart: nat
    var speed: Speed

    constructor (windowStart: nat, speed: Speed)
      ensures this.windowStart == windowStart && this.speed == speed
    {
      this.windowStart, this.speed := windowStart, speed;
    }

    /** The event comes after 2^31 windows or more without one of the run queue, or of the task. */
    predicate Late(c: Config, p: Task, wallclock: nat)
      requires c.window > 0
      reads this, p
    {
      || (windowStart <= wallclock && FullWindows(wallclock - windowStart, c.window) >= TWO31)
      || (p.markStart != 0 && p.markStart <= wallclock && FullWindows(wallclock - p.markStart, c.window) >= TWO31)
    }

    /** update_task_ravg, for a clock that does not go back: the window start stays on its grid and within one
        window of the clock if and only if fewer than 2^31 windows have passed. */
    method UpdateTaskRavg(c: Config, p: Task, busy: bool, wallclock: nat) returns (inRange: bool)
      requires c.Ok() && SpeedOk(c, speed) && p.Valid(c.window)
      requires windowStart <= wallclock < TWO63 && p.markStart <= wallclock
      modifies `windowStart, p, p.hist
      ensures p.Valid(c.window)
      ensures old(windowStart) == 0 ==>
        inRange && windowStart == 0 && p.markStart == old(p.markStart) && p.Value() == old(p.Value())
      ensures old(windowStart) != 0 ==>
        (windowStart <= wallclock < windowStart + c.window <==>
         FullWindows(wallclock - old(windowStart), c.window) < TWO31)
      ensures old(windowStart) != 0 && FullWindows(wallclock - old(windowStart), c.window) < TWO31 ==>
        exists k :: 0 <= k && windowStart == Boundary(old(windowStart), c.window, k)
      ensures old(windowStart) != 0 && inRange ==> p.markStart == wallclock
      ensures old(windowStart) != 0 && old(p.markStart) == 0 ==> inRange && p.Value() == old(p.Value())
      ensures old(windowStart) != 0 && old(p.markStart) != 0 && !old(Late(c, p, wallclock)) ==>
        && inRange && windowStart <= wallclock
        && p.Value() == Account(c, speed, busy, old(p.markStart), windowStart, wallclock, old(p.Value()))
    {
      hide Account, AccountInt, FullWindows, Strays, ToInt;
      if windowStart == 0 { return true; }
      windowStart := UpdateWindowStart(windowStart, wallclock, c.window);
      inRange := true;
      if p.markStart != 0 {
        if p.markStart <= windowStart <= wallclock {
          SmallerQuotient(windowStart - p.markStart, wallclock - p.markStart, c.window);
        }
        inRange := p.UpdateTaskDemand(c, speed, busy, windowStart, wallclock);
      }
      if inRange { p.markStart := wallclock; }
    }

    /** An event that is not late, on the grid of windows that began at `start`. */
    method OneEvent(c: Config, e: Event, ghost start: nat, ghost steps: nat) returns (ghost more: nat)
      requires c.Ok() && windowStart != 0 && windowStart <= e.wallclock && Possible(c, e)
      requires !Late(c, e.task, e.wallclock) && e.task.Settled(c.window, Phase(start, c.window))
      requires windowStart == Boundary(start, c.window, steps)
      modifies this, e.task, e.task.hist
      ensures e.task.Valid(c.window) && e.task.Settled(c.window, Phase(start, c.window))
      ensures e.task.markStart == e.wallclock
      ensures windowStart == Boundary(start, c.window, steps + more) != 0
      ensures windowStart <= e.wallclock < windowStart + c.window
    {
      hide Account, Boundary, Phase, FullWindows;
      ghost var ws, mark, was := windowStart, e.task.markStart, e.task.Value();
      speed := e.speed;
      var inRange := UpdateTaskRavg(c, e.task, e.busy, e.wallclock);
      more :| 0 <= more && windowStart == Boundary(ws, c.window, more);
      SumOfSteps(start, c.window, steps, more);
      SamePhase(start, c.window, steps);
      Settles(c, e.speed, e.busy, mark, ws, windowStart, e.wallclock, was);
    }

    /** Any sequence of events of any tasks, at any speeds, up to the first late one: the window start stays on the
        grid of the first one and within a window of the clock, nothing exceeds a window, and nothing is left over at a
        boundary. */
    method RunEvents(c: Config, events: seq<Event>) returns (n: nat)
      requires c.Ok() && windowStart != 0
      requires forall k :: 0 <= k < |events| ==> windowStart <= events[k].wallclock && Possible(c, events[k])
      requires forall k :: 0 <= k < |events| ==> events[k].task.Settled(c.window, Phase(windowStart, c.window))
      requires forall j, k :: 0 <= j < k < |events| ==> events[j].wallclock <= events[k].wallclock
      requires forall j, k :: 0 <= j < |events| && 0 <= k < |events| && events[j].task != events[k].task ==>
        events[j].task.hist != events[k].task.hist
      modifies this, set k | 0 <= k < |events| :: events[k].task, set k | 0 <= k < |events| :: events[k].task.hist
      ensures n <= |events| && (n < |events| ==> Late(c, events[n].task, events[n].wallclock))
      ensures forall k :: 0 <= k < |events| ==> events[k].task.Valid(c.window)
      ensures forall k :: 0 <= k < |events| ==> events[k].task.Settled(c.window, Phase(old(windowStart), c.window))
      ensures exists k :: 0 <= k && windowStart == Boundary(old(windowStart), c.window, k)
      ensures n > 0 ==> windowStart <= events[n - 1].wallclock < windowStart + c.window
    {
      hide Boundary, Phase, FullWindows, RunQueue.Late, SpeedOk, Task.Valid, Task.Settled;
      n := 0;
      ghost var start, phase, steps: nat := windowStart, Phase(windowStart, c.window), 0;
      NoSteps(start, c.window);
      while n < |events|
        invariant n <= |events| && windowStart == Boundary(start, c.window, steps) != 0
        invariant forall k :: 0 <= k < |events| ==>
          events[k].task.Valid(c.window) && events[k].task.Settled(c.window, phase)
        invariant forall k :: n <= k < |events| ==> windowStart <= events[k].wallclock && Possible(c, events[k])
        invariant n > 0 ==> windowStart <= events[n - 1].wallclock < windowStart + c.window
      {
        if Late(c, events[n].task, events[n].wallclock) { return; }
        ghost var more := OneEvent(c, events[n], start, steps);
        steps := steps + more;
        n := n + 1;
      }
    }
  }

  lemma {:induction false} NoSteps(start: nat, w: nat)
    ensures Boundary(start, w, 0) == start
  {
  }

  lemma {:induction false} SumOfSteps(start: nat, w: nat, k: nat, m: nat)
    ensures 0 <= Boundary(start, w, k) <= Boundary(start, w, k + m)
    ensures Boundary(Boundary(start, w, k), w, m) == Boundary(start, w, k + m)
  {
  }

  /** An event that may come: its clock has not gone back. */
  ghost predicate Possible(c: Config, e: Event)
    reads e.task, e.task.hist
  {
    e.task.Valid(c.window) && e.task.markStart <= e.wallclock < TWO63 && SpeedOk(c, e.speed)
  }

  /** What an event that is not late leaves at a boundary: nothing. */
  lemma {:induction false} Settles(c: Config, v: Speed, busy: bool, mark: nat, start: nat, ws: nat, clock: nat, r: Ravg)
    requires c.Ok() && mark <= clock && ws <= clock < ws + c.window && |r.hist| == RAVG_HIST_SIZE_MAX
    requires exists k :: 0 <= k && ws == Boundary(start, c.window, k)
    ensures Phase(ws, c.window) == Phase(start, c.window)
    ensures var phase := Phase(start, c.window);
      (Phase(mark, c.window) == phase ==> r.sum == 0) && Phase(clock, c.window) == phase ==>
        Account(c, v, busy, mark, ws, clock, r).sum == 0
  {
    hide Account, Phase, Boundary;
    var k :| 0 <= k && ws == Boundary(start, c.window, k);
    SamePhase(start, c.window, k);
    if Phase(clock, c.window) == Phase(start, c.window) {
      OnlyStart(ws, clock, c.window);
      if Phase(mark, c.window) == Phase(start, c.window) ==> r.sum == 0 { EmptyAtBoundary(c, v, busy, mark, ws, r); }
    }
  }

  lemma {:induction false} SamePhase(start: nat, w: nat, k: nat)
    requires w > 0
    ensures Boundary(start, w, k) >= 0 && Phase(Boundary(start, w, k), w) == Phase(start, w)
  {
    var q := start / w;
    assert Boundary(start, w, k) == (q + k) * w + start % w;
    Remainder((q + k), start % w, w);
  }

  lemma {:induction false} Remainder(q: nat, x: nat, w: nat)
    requires x < w
    ensures (q * w + x) % w == x
  {
    var y := q * w + x;
    var p := y / w;
    assert y == p * w + y % w;
    if p < q { MulLe(p + 1, q, w); } else if q < p { MulLe(q + 1, p, w); }
  }

  lemma {:induction false} OnlyStart(ws: nat, clock: nat, w: nat)
    requires 0 < w && ws <= clock < ws + w && Phase(clock, w) == Phase(ws, w)
    ensures clock == ws
  {
    var p, q := ws / w, clock / w;
    assert ws == p * w + ws % w && clock == q * w + clock % w;
    if p < q { MulLe(p + 1, q, w); } else if q < p { MulLe(q + 1, p, w); }
  }

  lemma {:induction false} SmallerQuotient(a: nat, b: nat, w: nat)
    requires a <= b && w > 0
    ensures FullWindows(a, w) <= FullWindows(b, w)
  {
    var q := b / w;
    assert b < q * w + w;
    if a / w > q { MulLe(q + 1, a / w, w); }
  }
}
