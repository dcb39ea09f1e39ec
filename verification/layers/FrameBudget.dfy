/**
 The sliding window of frame times, its counters and its nearest-rank percentiles
 (packages/cesium-kit/src/frameBudget.ts), in exact arithmetic.
 */
module FrameBudget {
  import opened Prelude
  import opened Sorting

  // ----- what happened -----

  /** A frame at a time, the monitor attached to a scene, or everything reset. */
  datatype FrameEvent = FrameAt(ms: real) | Attached | WasReset

  datatype Monitor = Monitor(frameTimes: seq<real>, lastFrame: Option<real>, totalFrames: nat, breaches: nat)

  const NEW: Monitor := Monitor([], None, 0, 0)

  function Max(a: real, b: real): real { if a >= b then a else b }

  /** The last n items. */
  function Last(s: seq<real>, n: nat): (r: seq<real>)
    ensures |r| == if |s| <= n then |s| else n
  {
    if |s| <= n then s else s[|s| - n..]
  }

  /** The deltas of all frames since the last reset; the first frame after a reset or an attachment has none. */
  function Deltas(events: seq<FrameEvent>): seq<real> {
    if events == [] then []
    else
      var front, e := events[..|events| - 1], events[|events| - 1];
      match e
      case WasReset => []
      case Attached => Deltas(front)
      case FrameAt(t) =>
        match Previous(front)
        case None => Deltas(front)
        case Some(p) => Deltas(front) + [Max(0.0, t - p)]
  }

  /** The time of the frame before, unless there was a reset or an attachment since. */
  function Previous(events: seq<FrameEvent>): Option<real> {
    if events == [] then None
    else
      match events[|events| - 1]
      case FrameAt(t) => Some(t)
      case _ => None
  }

  function Frames(events: seq<FrameEvent>): nat {
    if events == [] then 0
    else
      match events[|events| - 1]
      case WasReset => 0
      case Attached => Frames(events[..|events| - 1])
      case FrameAt(_) => Frames(events[..|events| - 1]) + 1
  }

  function CountAbove(s: seq<real>, limit: real): nat {
    if s == [] then 0 else CountAbove(s[..|s| - 1], limit) + if s[|s| - 1] > limit then 1 else 0
  }

  /** What the monitor should hold after some events. */
  function Observed(events: seq<FrameEvent>, window: nat, budget: real): Monitor {
    Monitor(Last(Deltas(events), window), Previous(events), Frames(events), CountAbove(Deltas(events), budget))
  }

  // ----- one step at a time -----

  function Record(m: Monitor, t: real, window: nat, budget: real): (Monitor, real) {
    match m.lastFrame
    case None => (m.(lastFrame := Some(t), totalFrames := m.totalFrames + 1), 0.0)
    case Some(p) =>
      var delta := Max(0.0, t - p);
      var pushed := m.frameTimes + [delta];
      (Monitor(if |pushed| > window then pushed[1..] else pushed, Some(t), m.totalFrames + 1,
               m.breaches + if delta > budget then 1 else 0),
       delta)
  }

  function Step(m: Monitor, e: FrameEvent, window: nat, budget: real): Monitor {
    match e
    case FrameAt(t) => Record(m, t, window, budget).0
    case Attached => m.(lastFrame := None)
    case WasReset => NEW
  }

  function Run(events: seq<FrameEvent>, window: nat, budget: real): Monitor {
    if events == [] then NEW
    else Step(Run(events[..|events| - 1], window, budget), events[|events| - 1], window, budget)
  }

  lemma LastSnoc(s: seq<real>, x: real, n: nat)
    ensures var pushed := Last(s, n) + [x]; Last(s + [x], n) == if |pushed| > n then pushed[1..] else pushed
  {
  }

  lemma CountSnoc(s: seq<real>, x: real, limit: real)
    ensures CountAbove(s + [x], limit) == CountAbove(s, limit) + if x > limit then 1 else 0
  {
    assert (s + [x])[..|s|] == s;
  }

  lemma RecordPushes(deltas: seq<real>, p: real, t: real, frames: nat, window: nat, budget: real)
    ensures var delta := Max(0.0, t - p);
      Record(Monitor(Last(deltas, window), Some(p), frames, CountAbove(deltas, budget)), t, window, budget).0
        == Monitor(Last(deltas + [delta], window), Some(t), frames + 1, CountAbove(deltas + [delta], budget))
  {
    var delta := Max(0.0, t - p);
    LastSnoc(deltas, delta, window);
    CountSnoc(deltas, delta, budget);
  }

  lemma ObservedFrame(front: seq<FrameEvent>, t: real)
    ensures var events := front + [FrameAt(t)];
      && Previous(events) == Some(t) && Frames(events) == Frames(front) + 1
      && Deltas(events) == (match Previous(front)
          case None => Deltas(front)
          case Some(p) => Deltas(front) + [Max(0.0, t - p)])
  {
    assert (front + [FrameAt(t)])[..|front|] == front;
  }

  lemma RecordingIsObserved(front: seq<FrameEvent>, t: real, window: nat, budget: real)
    ensures Record(Observed(front, window, budget), t, window, budget).0 == Observed(front + [FrameAt(t)], window, budget)
  {
    ObservedFrame(front, t);
    var deltas, frames := Deltas(front), Frames(front);
    match Previous(front)
    case None =>
    case Some(p) => RecordPushes(deltas, p, t, frames, window, budget);
  }

  /**
   Over any run the buffer holds exactly the last deltas that fit the window, and the breaches count every delta over
   the budget since the last reset, also those that left the window.
   */
  lemma {:induction false} BufferHoldsTheLastDeltas(events: seq<FrameEvent>, window: nat, budget: real)
    ensures Run(events, window, budget) == Observed(events, window, budget)
  {
    if events != [] {
      var front, e := events[..|events| - 1], events[|events| - 1];
      BufferHoldsTheLastDeltas(front, window, budget);
      if e.FrameAt? {
        assert events == front + [FrameAt(e.ms)];
        RecordingIsObserved(front, e.ms, window, budget);
      }
    }
  }

  // ----- percentiles -----

  function Ascending(s: seq<real>): (r: seq<real>)
    ensures |r| == |s|
  {
    Sorted(Rising, s)
  }

  /** The nearest rank: the smallest r with r / n >= p / 100, at least 1. */
  function RankOf(p: nat, n: nat): nat
    requires n > 0
  {
    var r := (p * n + 99) / 100;
    if r < 1 then 1 else if r > n then n else r
  }

  /** `getPercentile`. */
  function Percentile(sorted: seq<real>, p: nat): real {
    if sorted == [] then 0.0 else sorted[RankOf(p, |sorted|) - 1]
  }

  /** How many samples satisfy a test. */
  function Count(s: seq<real>, test: real -> bool): nat {
    if s == [] then 0 else (if test(s[0]) then 1 else 0) + Count(s[1..], test)
  }

  lemma {:induction false} CountInserted(x: real, s: seq<real>, test: real -> bool)
    ensures Count(Insert(Rising, x, s), test) == Count(s, test) + if test(x) then 1 else 0
  {
    if s == [] || x < s[0] {
      assert ([x] + s)[1..] == s;
    } else {
      CountInserted(x, s[1..], test);
      assert ([s[0]] + Insert(Rising, x, s[1..]))[1..] == Insert(Rising, x, s[1..]);
    }
  }

  lemma {:induction false} CountLast(s: seq<real>, test: real -> bool)
    requires s != []
    ensures Count(s, test) == Count(s[..|s| - 1], test) + if test(s[|s| - 1]) then 1 else 0
  {
    if |s| > 1 {
      CountLast(s[1..], test);
      assert s[1..][..|s| - 2] == s[..|s| - 1][1..];
    } else {
      assert s[1..] == [] && s[..0] == [];
    }
  }

  /** Sorting loses and adds no sample. */
  lemma {:induction false} SortingKeepsCounts(s: seq<real>, test: real -> bool)
    ensures Count(Ascending(s), test) == Count(s, test)
  {
    if s != [] {
      SortingKeepsCounts(s[..|s| - 1], test);
      CountInserted(s[|s| - 1], Ascending(s[..|s| - 1]), test);
      CountLast(s, test);
    }
  }

  lemma {:induction false} CountIsAtLeast(s: seq<real>, test: real -> bool, r: nat)
    requires r <= |s| && forall i :: 0 <= i < r ==> test(s[i])
    ensures Count(s, test) >= r
  {
    if r > 0 { CountIsAtLeast(s[1..], test, r - 1); }
  }

  lemma {:induction false} CountIsAtMost(s: seq<real>, test: real -> bool, r: nat)
    requires r <= |s| && forall i :: r <= i < |s| ==> !test(s[i])
    ensures Count(s, test) <= r
  {
    if s != [] {
      CountIsAtMost(s[1..], test, if r > 0 then r - 1 else 0);
    }
  }

  function AtMost(v: real): real -> bool { x => x <= v }

  function Below(v: real): real -> bool { x => x < v }

  lemma RankSplitsSorted(sorted: seq<real>, r: nat, v: real)
    requires InOrder(Rising, sorted) && 1 <= r <= |sorted| && v == sorted[r - 1]
    ensures Count(sorted, AtMost(v)) >= r && Count(sorted, Below(v)) < r
  {
    CountIsAtLeast(sorted, AtMost(v), r);
    CountIsAtMost(sorted, Below(v), r - 1);
  }

  /** Around the sample of a rank, counted from 1, in ascending order. */
  lemma RankSplitsSamples(samples: seq<real>, r: nat, v: real)
    requires 1 <= r <= |samples| && v == Ascending(samples)[r - 1]
    ensures Count(samples, AtMost(v)) >= r && Count(samples, Below(v)) < r
  {
    SortedIsInOrder(Rising, samples);
    RankSplitsSorted(Ascending(samples), r, v);
    SortingKeepsCounts(samples, AtMost(v));
    SortingKeepsCounts(samples, Below(v));
  }

  /** The rank of p percent is the least that is at least p percent of the number of samples. */
  lemma RanksAreNearest(p: nat, n: nat)
    requires 1 <= p <= 100 && n > 0
    ensures 1 <= RankOf(p, n) <= n
    ensures 100 * (RankOf(p, n) - 1) < p * n <= 100 * RankOf(p, n)
  {
    ProductsGrow(1, p, n);
    ProductsGrow(p, 100, n);
  }

  /** At least p percent of the samples are at or below their percentile, and fewer than p percent are below it. */
  lemma PercentilesAreNearestRank(samples: seq<real>, p: nat)
    requires samples != [] && 1 <= p <= 100
    ensures var v := Percentile(Ascending(samples), p);
      100 * Count(samples, AtMost(v)) >= p * |samples| && 100 * Count(samples, Below(v)) < p * |samples|
  {
    RanksAreNearest(p, |samples|);
    RankSplitsSamples(samples, RankOf(p, |samples|), Percentile(Ascending(samples), p));
  }

  lemma RanksGrow(p: nat, q: nat, n: nat)
    requires p <= q && n > 0
    ensures RankOf(p, n) <= RankOf(q, n)
  {
    ProductsGrow(p, q, n);
    var a, b := p * n + 99, q * n + 99;
    assert a / 100 <= b / 100;
  }

  lemma ProductsGrow(p: nat, q: nat, n: nat)
    requires p <= q
    ensures p * n <= q * n
  {
  }

  /** Percentiles grow with what they are of: p50 <= p95 <= p99. */
  lemma PercentilesGrow(samples: seq<real>, p: nat, q: nat)
    requires p <= q
    ensures Percentile(Ascending(samples), p) <= Percentile(Ascending(samples), q)
  {
    if samples != [] {
      SortedIsInOrder(Rising, samples);
      RanksGrow(p, q, |samples|);
    }
  }

  // ----- reported figures -----

  /** `Number(x.toFixed(d))` for a scale of 10 or 100: the nearest multiple, the larger of two. */
  function Fixed(x: real, scale: real): real
    requires scale > 0.0
  {
    (x * scale + 0.5).Floor as real / scale
  }

  /** A number of steps of a scale is the nearest to a figure, and the larger of two that are as near. */
  predicate IsNearest(n: int, x: real, scale: real) {
    n as real - 0.5 <= x * scale < n as real + 0.5
  }

  /** A rounded figure is a multiple of the scale's step, and the nearest. */
  lemma FixedIsNearest(x: real, scale: real)
    requires scale > 0.0
    ensures exists n: int :: IsNearest(n, x, scale) && Fixed(x, scale) == n as real / scale
  {
    var n := (x * scale + 0.5).Floor;
    assert IsNearest(n, x, scale) && Fixed(x, scale) == n as real / scale;
  }

  lemma ProductGrows(a: real, b: real, c: real)
    requires a <= b && c >= 0.0
    ensures a * c <= b * c
  {
    assert (b - a) * c >= 0.0;
  }

  lemma FixedGrows(a: real, b: real, scale: real)
    requires a <= b && scale > 0.0
    ensures Fixed(a, scale) <= Fixed(b, scale)
  {
    ProductGrows(a, b, scale);
    var m, n := (a * scale + 0.5).Floor, (b * scale + 0.5).Floor;
    assert m <= n;
    ProductGrows(m as real, n as real, 1.0 / scale);
    assert m as real / scale == m as real * (1.0 / scale) && n as real / scale == n as real * (1.0 / scale);
  }

  function SumOf(s: seq<real>): real { if s == [] then 0.0 else SumOf(s[..|s| - 1]) + s[|s| - 1] }

  lemma {:induction false} SumLiesBetween(s: seq<real>, low: real, high: real)
    requires forall i :: 0 <= i < |s| ==> low <= s[i] <= high
    ensures |s| as real * low <= SumOf(s) <= |s| as real * high
  {
    if s != [] {
      SumLiesBetween(s[..|s| - 1], low, high);
      var n := (|s| - 1) as real;
      assert |s| as real == n + 1.0;
      assert (n + 1.0) * low == n * low + low && (n + 1.0) * high == n * high + high;
    }
  }

  function Average(s: seq<real>): real
    requires s != []
  {
    SumOf(s) / |s| as real
  }

  lemma QuotientLiesBetween(n: real, sum: real, low: real, high: real)
    requires n > 0.0 && n * low <= sum <= n * high
    ensures low <= sum / n <= high
  {
    var q := sum / n;
    assert q * n == sum;
    assert n * (q - low) == sum - n * low && n * (high - q) == n * high - sum;
  }

  /** The average lies between the least and the greatest sample. */
  lemma AverageLiesBetween(s: seq<real>, low: real, high: real)
    requires s != [] && forall i :: 0 <= i < |s| ==> low <= s[i] <= high
    ensures low <= Average(s) <= high
  {
    SumLiesBetween(s, low, high);
    QuotientLiesBetween(|s| as real, SumOf(s), low, high);
  }

  function Elapsed(now: real, start: real): real { Max(0.001, (now - start) / 1000.0) }

  function Instantaneous(delta: real): real {
    if delta > 0.0 then (if 1000.0 / delta <= 240.0 then 1000.0 / delta else 240.0) else 60.0
  }

  function BreachRate(breaches: nat, frames: nat): real {
    if frames > 0 then breaches as real / frames as real * 100.0 else 0.0
  }

  /** What the rates mean: frames per second from milliseconds, capped at 240, and breaches per hundred frames. */
  lemma RatesMean(delta: real, breaches: nat, frames: nat, now: real, start: real)
    ensures delta >= 1000.0 / 240.0 ==> Instantaneous(delta) * delta == 1000.0
    ensures 0.0 < delta < 1000.0 / 240.0 ==> Instantaneous(delta) == 240.0
    ensures delta <= 0.0 ==> Instantaneous(delta) == 60.0
    ensures frames > 0 ==> BreachRate(breaches, frames) * frames as real == 100.0 * breaches as real
    ensures now - start >= 1.0 ==> Elapsed(now, start) * 1000.0 == now - start
    ensures now - start < 1.0 ==> Elapsed(now, start) == 0.001
  {
    if delta > 0.0 {
      var rate := 1000.0 / delta;
      assert rate * delta == 1000.0;
      CappedRate(delta, rate);
    }
    if frames > 0 { PercentOf(breaches as real, frames as real); }
  }

  lemma CappedRate(delta: real, rate: real)
    requires delta > 0.0 && rate * delta == 1000.0
    ensures rate <= 240.0 <==> delta >= 1000.0 / 240.0
  {
    if rate <= 240.0 { ProductGrows(rate, 240.0, delta); } else { ProductGrowsStrictly(240.0, rate, delta); }
  }

  lemma PercentOf(x: real, n: real)
    requires n > 0.0
    ensures x / n * 100.0 * n == 100.0 * x
  {
    assert x / n * n == x;
  }

  datatype Metrics = Metrics(totalFrames: nat, elapsedSec: real, instantaneousFps: real, averageFps: real, min: real, max: real,
                             avg: real, p50: real, p95: real, p99: real, breaches: nat, breachRate: real)

  lemma ProductGrowsStrictly(a: real, b: real, c: real)
    requires a < b && c > 0.0
    ensures a * c < b * c
  {
    assert (b - a) * c > 0.0;
    assert (b - a) * c == b * c - a * c;
  }

  /** What is at most a target after rounding to a scale. */
  lemma FixedAtMost(x: real, target: real, scale: real)
    requires scale > 0.0
    ensures Fixed(x, scale) <= target <==> (x * scale + 0.5).Floor <= (target * scale).Floor
  {
    var n := (x * scale + 0.5).Floor;
    var f := n as real / scale;
    assert f * scale == n as real;
    if f <= target { ProductGrows(f, target, scale); } else { ProductGrowsStrictly(target, f, scale); }
  }

  /** The verdict of a report: the rounded 95th percentile of the window against the target. */
  predicate OnTarget(samples: seq<real>, target: real) {
    (Percentile(Ascending(samples), 95) * 100.0 + 0.5).Floor <= (target * 100.0).Floor
  }

  lemma {:induction false} NothingAbove(s: seq<real>, limit: real)
    requires forall i :: 0 <= i < |s| ==> s[i] <= limit
    ensures CountAbove(s, limit) == 0
  {
    if s != [] { NothingAbove(s[..|s| - 1], limit); }
  }

  predicate Within(samples: seq<real>, target: real) {
    samples != [] && forall i :: 0 <= i < |samples| ==> samples[i] <= target
  }

  predicate Beyond(samples: seq<real>, target: real) {
    samples != [] && forall i :: 0 <= i < |samples| ==> samples[i] > target
  }

  /** A target that rounds down to hundredths: the report is lenient with it. */
  predicate RoundsDown(target: real) {
    (target * 100.0 + 0.5).Floor <= (target * 100.0).Floor
  }

  lemma PercentileOfOne(x: real)
    ensures Percentile(Ascending([x]), 95) == x
  {
    assert [x][..0] == [];
  }

  lemma PercentileIsASample(samples: seq<real>)
    requires samples != []
    ensures Percentile(Ascending(samples), 95) in samples
  {
    SortedIsInOrder(Rising, samples);
    var sorted := Ascending(samples);
    assert sorted[RankOf(95, |samples|) - 1] in sorted;
  }

  lemma LenientTargetsPass(samples: seq<real>, target: real)
    requires RoundsDown(target) && Within(samples, target)
    ensures OnTarget(samples, target)
  {
    PercentileIsASample(samples);
    var p := Percentile(Ascending(samples), 95);
    assert p * 100.0 + 0.5 <= target * 100.0 + 0.5;
    assert (p * 100.0 + 0.5).Floor <= (target * 100.0 + 0.5).Floor;
  }

  /** Every window within a target passes its report exactly when the target rounds down to hundredths. */
  lemma WindowsWithinPassExactly(target: real)
    ensures (forall samples :: Within(samples, target) ==> OnTarget(samples, target)) <==> RoundsDown(target)
  {
    if RoundsDown(target) {
      forall samples | Within(samples, target) ensures OnTarget(samples, target) { LenientTargetsPass(samples, target); }
    } else {
      PercentileOfOne(target);
      assert Within([target], target) && !OnTarget([target], target);
    }
  }

  /** A frame between a target and the next value that would round up. */
  function JustBeyond(target: real): real {
    (target + ((target * 100.0).Floor as real + 0.5) / 100.0) / 2.0
  }

  lemma JustBeyondPasses(target: real)
    requires RoundsDown(target)
    ensures Beyond([JustBeyond(target)], target) && OnTarget([JustBeyond(target)], target)
  {
    var f, x := (target * 100.0).Floor, JustBeyond(target);
    assert target * 100.0 + 0.5 < f as real + 1.0;
    assert x * 100.0 == (target * 100.0 + f as real + 0.5) / 2.0;
    assert x > target && x * 100.0 + 0.5 < f as real + 1.0;
    assert (x * 100.0 + 0.5).Floor <= f;
    PercentileOfOne(x);
  }

  lemma StrictTargetsFail(samples: seq<real>, target: real)
    requires !RoundsDown(target) && Beyond(samples, target)
    ensures !OnTarget(samples, target)
  {
    PercentileIsASample(samples);
    var p := Percentile(Ascending(samples), 95);
    assert p * 100.0 + 0.5 > target * 100.0 + 0.5;
    assert (p * 100.0 + 0.5).Floor >= (target * 100.0 + 0.5).Floor;
  }

  /** Some window of frames all beyond a target passes its report exactly when the target rounds down, too. */
  lemma WindowsBeyondPassExactly(target: real)
    ensures (exists samples :: Beyond(samples, target) && OnTarget(samples, target)) <==> RoundsDown(target)
  {
    if RoundsDown(target) {
      JustBeyondPasses(target);
    } else {
      forall samples | Beyond(samples, target) ensures !OnTarget(samples, target) { StrictTargetsFail(samples, target); }
    }
  }

  /** For no target is the report exact: it fails some window within the target or passes one beyond it. */
  lemma ReportsAreNeverExact(target: real)
    ensures exists samples :: (Within(samples, target) && !OnTarget(samples, target)) || (Beyond(samples, target) && OnTarget(samples, target))
  {
    WindowsWithinPassExactly(target);
    WindowsBeyondPassExactly(target);
  }

  /** Frames that take exactly the default target breach nothing, and yet the report on them does not pass. */
  lemma SteadyFramesOnTargetFail(samples: seq<real>)
    requires samples != [] && forall i :: 0 <= i < |samples| ==> samples[i] == 16.666
    ensures CountAbove(samples, 16.666) == 0 && !OnTarget(samples, 16.666)
  {
    NothingAbove(samples, 16.666);
    PercentileIsASample(samples);
  }

  class FrameBudgetMonitor {
    const window: nat
    const budget: real
    var frameTimes: seq<real>
    var lastFrameTimestamp: Option<real>
    var totalFrames: nat
    var breachCount: nat
    var startTime: real

    ghost function State(): Monitor
      reads this
    {
      Monitor(frameTimes, lastFrameTimestamp, totalFrames, breachCount)
    }

    constructor (window: nat, budget: real, now: real)
      ensures State() == NEW && this.window == window && this.budget == budget && startTime == now
    {
      this.window, this.budget, startTime := window, budget, now;
      frameTimes, lastFrameTimestamp, totalFrames, breachCount := [], None, 0, 0;
    }

    method RecordFrame(timestamp: real) returns (delta: real)
      modifies this
      ensures (State(), delta) == Record(old(State()), timestamp, window, budget) && startTime == old(startTime)
    {
      totalFrames := totalFrames + 1;
      if lastFrameTimestamp.None? {
        lastFrameTimestamp := Some(timestamp);
        return 0.0;
      }
      delta := Max(0.0, timestamp - lastFrameTimestamp.value);
      lastFrameTimestamp := Some(timestamp);
      frameTimes := frameTimes + [delta];
      if |frameTimes| > window {
        frameTimes := frameTimes[1..];
      }
      if delta > budget {
        breachCount := breachCount + 1;
      }
    }

    method AttachToScene(now: real)
      modifies this
      ensures State() == Step(old(State()), Attached, window, budget) && startTime == now
    {
      startTime := now;
      lastFrameTimestamp := None;
    }

    method Reset(now: real)
      modifies this
      ensures State() == Step(old(State()), WasReset, window, budget) && startTime == now
    {
      startTime := now;
      frameTimes := [];
      lastFrameTimestamp := None;
      totalFrames := 0;
      breachCount := 0;
    }

    /** The rolling metrics: a loop for sum, minimum and maximum, percentiles from a sorted copy, all rounded. */
    method GetMetrics(now: real) returns (m: Metrics)
      ensures m.totalFrames == totalFrames && m.breaches == breachCount && m.elapsedSec == Elapsed(now, startTime)
      ensures frameTimes == [] ==>
        m == Metrics(totalFrames, m.elapsedSec, 0.0, 0.0, 0.0, 0.0, 0.0, 0.0, 0.0, 0.0, breachCount, 0.0)
      ensures frameTimes != [] ==>
        && (exists min, max :: min in frameTimes && max in frameTimes && m.min == Fixed(min, 100.0) && m.max == Fixed(max, 100.0)
              && forall i :: 0 <= i < |frameTimes| ==> min <= frameTimes[i] <= max)
        && m.avg == Fixed(Average(frameTimes), 100.0)
        && m.p50 == Fixed(Percentile(Ascending(frameTimes), 50), 100.0)
        && m.p95 == Fixed(Percentile(Ascending(frameTimes), 95), 100.0)
        && m.p99 == Fixed(Percentile(Ascending(frameTimes), 99), 100.0)
        && m.min <= m.avg <= m.max && m.p50 <= m.p95 <= m.p99
      ensures frameTimes != [] ==>
        && m.instantaneousFps == Fixed(Instantaneous(frameTimes[|frameTimes| - 1]), 10.0)
        && m.averageFps == Fixed(totalFrames as real / m.elapsedSec, 10.0)
        && m.breachRate == Fixed(BreachRate(breachCount, totalFrames), 100.0)
    {
      var samples, elapsed := frameTimes, Elapsed(now, startTime);
      if samples == [] {
        return Metrics(totalFrames, elapsed, 0.0, 0.0, 0.0, 0.0, 0.0, 0.0, 0.0, 0.0, breachCount, 0.0);
      }
      var sum, min, max := Totals(samples);
      var avg := sum / |samples| as real;
      var sorted := Sort(Rising, samples);
      var p50, p95, p99 := Percentile(sorted, 50), Percentile(sorted, 95), Percentile(sorted, 99);
      PercentilesGrow(samples, 50, 95);
      PercentilesGrow(samples, 95, 99);
      AverageLiesBetween(samples, min, max);
      FixedGrows(min, avg, 100.0);
      FixedGrows(avg, max, 100.0);
      FixedGrows(p50, p95, 100.0);
      FixedGrows(p95, p99, 100.0);
      m := Metrics(totalFrames, elapsed, Fixed(Instantaneous(samples[|samples| - 1]), 10.0), Fixed(totalFrames as real / elapsed, 10.0),
                   Fixed(min, 100.0), Fixed(max, 100.0), Fixed(avg, 100.0), Fixed(p50, 100.0), Fixed(p95, 100.0), Fixed(p99, 100.0),
                   breachCount, Fixed(BreachRate(breachCount, totalFrames), 100.0));
    }
  }

  /** `getReport`. */
  method GetReport(monitor: FrameBudgetMonitor, now: real) returns (passed: bool, m: Metrics)
    ensures passed <==> monitor.totalFrames > 0 && m.p95 <= monitor.budget
    ensures monitor.frameTimes != [] ==> (passed <==> monitor.totalFrames > 0 && OnTarget(monitor.frameTimes, monitor.budget))
  {
    m := monitor.GetMetrics(now);
    passed := m.totalFrames > 0 && m.p95 <= monitor.budget;
    FixedAtMost(Percentile(Ascending(monitor.frameTimes), 95), monitor.budget, 100.0);
  }

  method Totals(samples: seq<real>) returns (sum: real, min: real, max: real)
    requires samples != []
    ensures sum == SumOf(samples) && min in samples && max in samples
    ensures forall i :: 0 <= i < |samples| ==> min <= samples[i] <= max
  {
    sum, min, max := 0.0, samples[0], samples[0];
    for i := 0 to |samples|
      invariant sum == SumOf(samples[..i])
      invariant min in samples && max in samples
      invariant forall j :: 0 <= j < i ==> min <= samples[j] <= max
    {
      var v := samples[i];
      assert samples[..i + 1][..i] == samples[..i];
      sum := sum + v;
      if v < min {
        min := v;
      }
      if v > max {
        max := v;
      }
    }
    assert samples[..|samples|] == samples;
  }
}
