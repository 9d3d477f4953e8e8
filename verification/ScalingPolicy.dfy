/** Desired scale from in-flight concurrency (`pkg/leaf/autoscaling/policy.go`). Floats are reals. */
module ScalingPolicy {
  import opened Options
  import opened ScalingWindow

  const MIN_SCALE_TARGET: real := 0.01
  const DEFAULT_STABLE_WINDOW: nat := 6000000000
  const DEFAULT_PANIC_WINDOW: nat := 2000000000
  const DEFAULT_PANIC_THRESHOLD: real := 2.0
  const DEFAULT_UP_RATE: real := 1000.0
  const DEFAULT_DOWN_RATE: real := 2.0

  datatype Config = Config(
    scaleToZeroAfter: int, unlimitedTarget: nat, utilization: real, coldStartPanic: bool, dirigent: bool,
    stableWindow: int, panicWindow: int, panicThreshold: real, upRate: real, downRate: real)

  /** The scale part of a function spec, if it has one. */
  datatype Spec = NoScale | Scale(maxConcurrency: nat, targetConcurrency: nat, minInstances: nat, maxInstances: nat, idleTimeout: int)

  function StableWindow(c: Config): nat { if c.stableWindow > 0 then c.stableWindow else DEFAULT_STABLE_WINDOW }
  function PanicWindow(c: Config): nat { if c.panicWindow > 0 then c.panicWindow else DEFAULT_PANIC_WINDOW }
  function Threshold(c: Config): real { if c.panicThreshold > 0.0 then c.panicThreshold else DEFAULT_PANIC_THRESHOLD }
  function UpRate(c: Config): real { if c.upRate > 0.0 then c.upRate else DEFAULT_UP_RATE }
  function DownRate(c: Config): real { if c.downRate > 0.0 then c.downRate else DEFAULT_DOWN_RATE }

  function Ceil(x: real): int { if x.Floor as real == x then x.Floor else x.Floor + 1 }

  function NormalizeUtilization(v: real): (u: real)
    ensures 0.0 < u <= 1.0
  {
    if v <= 0.0 then 1.0
    else
      var x := if v > 1.0 then v / 100.0 else v;
      if x <= 0.0 || x > 1.0 then 1.0 else x
  }

  function MinReal(a: real, b: real): real { if a < b then a else b }

  /** The concurrency one instance should carry, before utilization. */
  function TotalTarget(f: Spec, defaultTotal: nat): (t: real)
    ensures t >= 1.0
  {
    var maxCC := if f.NoScale? then 1 else f.maxConcurrency;
    var annotated := if f.NoScale? then 0 else f.targetConcurrency;
    if maxCC == 0 then (if annotated > 0 then annotated as real else if defaultTotal > 0 then defaultTotal as real else 1.0)
    else if annotated > 0 then MinReal(annotated as real, maxCC as real)
    else maxCC as real
  }

  function Scaled(total: real, u: real): (x: real)
    requires total >= 0.0 && 0.0 < u <= 1.0
    ensures x <= total && (u == 1.0 ==> x == total)
  {
    total * u
  }

  /** resolveScaleTarget. */
  function ScaleTarget(f: Spec, defaultTotal: nat, utilization: real): (t: real)
    ensures t >= MIN_SCALE_TARGET
  {
    var t := Scaled(TotalTarget(f, defaultTotal), NormalizeUtilization(utilization));
    if t < MIN_SCALE_TARGET then MIN_SCALE_TARGET else t
  }

  /** The target never asks more of an instance than its hard limit or its annotated target, and
      without either, and without headroom, it is the default. */
  lemma TargetWithinLimits(f: Spec, defaultTotal: nat, utilization: real)
    ensures var t := ScaleTarget(f, defaultTotal, utilization);
            && (f.Scale? && f.maxConcurrency > 0 ==> t <= f.maxConcurrency as real)
            && (f.Scale? && f.targetConcurrency > 0 ==> t <= f.targetConcurrency as real)
            && (f.NoScale? ==> t <= 1.0)
            && (f.Scale? && f.maxConcurrency == 0 && f.targetConcurrency == 0 && defaultTotal > 0 && utilization <= 0.0 ==> t == defaultTotal as real)
  {
    var total := TotalTarget(f, defaultTotal);
    assert ScaleTarget(f, defaultTotal, utilization) <= total;
    assert f.Scale? && f.maxConcurrency > 0 ==> total <= f.maxConcurrency as real;
    assert f.Scale? && f.targetConcurrency > 0 ==> total <= f.targetConcurrency as real;
  }

  function CeilDiv(value: real, divisor: real): (r: nat)
    ensures value > 0.0 && divisor > 0.0 ==> r >= 1
  {
    if value <= 0.0 || divisor <= 0.0 then 0
    else
      assert value / divisor > 0.0;
      Ceil(value / divisor)
  }

  function ClampBetween(value: nat, min: nat, max: nat): nat {
    var v := if value < min then min else value;
    if max > 0 && v > max then max else v
  }

  function Min(a: nat, b: nat): nat { if a < b then a else b }
  function Max(a: nat, b: nat): nat { if a < b then b else a }

  /** ready, and the limits of one decision. */
  function Ready(current: nat): nat { if current == 0 then 1 else current }

  function ScaleUpLimit(c: Config, ready: nat): (r: nat)
    requires ready >= 1
    ensures r >= 1
  {
    assert UpRate(c) * ready as real > 0.0;
    Ceil(UpRate(c) * ready as real)
  }

  function ScaleDownLimit(c: Config, ready: nat): nat {
    assert ready as real / DownRate(c) >= 0.0;
    (ready as real / DownRate(c)).Floor
  }

  // --------------------------------------------------------------- one decision

  datatype State = State(window: Window, inPanic: bool, panicStarted: int, maxPanic: nat)

  /** Everything one call sees. */
  datatype Input = Input(spec: Spec, current: nat, inFlight: nat, now: int)

  ghost predicate Usable(c: Config, s: State) {
    |s.window.buckets| <= MaxBuckets(StableWindow(c)) && (s.window.buckets != [] ==> 0 <= s.window.head < |s.window.buckets|)
  }

  function Recorded(c: Config, s: State, x: Input): (w: Window)
    requires Usable(c, s)
    ensures Usable(c, s.(window := w))
  {
    Record(s.window, x.inFlight as real, x.now, MaxBuckets(StableWindow(c)))
  }

  function Demand(c: Config, w: Window, x: Input, window: nat): nat
    requires w.buckets != [] ==> 0 <= w.head < |w.buckets|
  {
    ClampBetween(CeilDiv(AverageOf(w, window), ScaleTarget(x.spec, c.unlimitedTarget, c.utilization)),
                 ScaleDownLimit(c, Ready(x.current)), ScaleUpLimit(c, Ready(x.current)))
  }

  function Instant(c: Config, x: Input): nat {
    ClampBetween(CeilDiv(x.inFlight as real, ScaleTarget(x.spec, c.unlimitedTarget, c.utilization)), 0, ScaleUpLimit(c, Ready(x.current)))
  }

  predicate Over(c: Config, panic: nat, current: nat) {
    panic as real / Ready(current) as real >= Threshold(c)
  }

  /** The panic memory after a decision whose panic demand is `panic`. */
  function Panicked(c: Config, s: State, panic: nat, x: Input): State {
    if Over(c, panic, x.current) then s.(inPanic := true, panicStarted := x.now, maxPanic := Max(s.maxPanic, panic))
    else if s.inPanic && s.panicStarted + StableWindow(c) < x.now then s.(inPanic := false, panicStarted := 0, maxPanic := 0)
    else s
  }

  /** dirigentDesired. */
  function Desired(c: Config, s: State, x: Input): (State, nat)
    requires Usable(c, s)
  {
    var w := Recorded(c, s, x);
    var stable := Demand(c, w, x, StableWindow(c));
    var panic := Demand(c, w, x, PanicWindow(c));
    var s' := Panicked(c, s.(window := w), panic, x);
    (s', Max(if s'.inPanic then Max(Max(stable, panic), s'.maxPanic) else stable, Instant(c, x)))
  }

  /** The panic demand of one call. */
  function PanicDemand(c: Config, s: State, x: Input): nat
    requires Usable(c, s)
  {
    Demand(c, Recorded(c, s, x), x, PanicWindow(c))
  }

  /** Every output is between what one decision may take away and what it may add, or the panic
      memory; and it covers the demand of the moment up to what one decision may add. */
  lemma OutputBounds(c: Config, s: State, x: Input)
    requires Usable(c, s)
    ensures var (s', out) := Desired(c, s, x);
            var up := ScaleUpLimit(c, Ready(x.current));
            && Min(ScaleDownLimit(c, Ready(x.current)), up) <= out <= Max(up, s'.maxPanic)
            && out >= Min(CeilDiv(x.inFlight as real, ScaleTarget(x.spec, c.unlimitedTarget, c.utilization)), up)
            && (x.inFlight > 0 ==> out >= 1)
  {
  }

  // ---------------------------------------------------------------------- runs

  ghost predicate Stepped(c: Config, ss: seq<State>, xs: seq<Input>, i: nat)
    requires i < |xs| && |ss| == |xs| + 1
  {
    Usable(c, ss[i]) && ss[i + 1] == Desired(c, ss[i], xs[i]).0
  }

  ghost predicate IsRun(c: Config, ss: seq<State>, xs: seq<Input>) {
    |ss| == |xs| + 1 && ss[0] == State(Window([], 0, None), false, 0, 0) && forall i :: 0 <= i < |xs| ==> Stepped(c, ss, xs, i)
  }

  function Events(xs: seq<Input>): seq<Event> {
    if xs == [] then [] else Events(xs[..|xs| - 1]) + [Event(xs[|xs| - 1].inFlight as real, xs[|xs| - 1].now)]
  }

  lemma {:induction false} RunWindow(c: Config, ss: seq<State>, xs: seq<Input>, i: nat)
    requires IsRun(c, ss, xs) && i < |ss|
    ensures ss[i].window == RecordAll(Events(xs[..i]), MaxBuckets(StableWindow(c)))
  {
    if i == 0 {
    } else {
      RunWindow(c, ss, xs, i - 1);
      assert Stepped(c, ss, xs, i - 1);
      assert xs[..i][..i - 1] == xs[..i - 1];
      var es := Events(xs[..i]);
      assert es[..|es| - 1] == Events(xs[..i - 1]);
    }
  }

  /** In any run, the averages a decision uses are means over the period samples of all demand
      recorded so far, this call's included. */
  lemma RunAverage(c: Config, ss: seq<State>, xs: seq<Input>, i: nat, window: nat)
    requires IsRun(c, ss, xs) && i < |xs|
    ensures Usable(c, ss[i])
    ensures var k := MaxBuckets(StableWindow(c));
            var samples := HistoryOf(Events(xs[..i + 1])).samples;
            var periods := if window / PERIOD < 1 then 1 else window / PERIOD;
            var n := if periods < k && periods < |samples| then periods else if k < |samples| then k else |samples|;
            n <= |samples| && AverageOf(Recorded(c, ss[i], xs[i]), window) == if n == 0 then 0.0 else SumLast(samples, n) / n as real
  {
    assert Stepped(c, ss, xs, i);
    RunWindow(c, ss, xs, i + 1);
    assert ss[i + 1].window == Recorded(c, ss[i], xs[i]);
    AverageIsMeanOfHistory(Events(xs[..i + 1]), StableWindow(c), window);
  }

  /** While a panic lasts its memory only grows. */
  lemma {:induction false} PanicGrows(c: Config, ss: seq<State>, xs: seq<Input>, i: nat, j: nat)
    requires IsRun(c, ss, xs) && i <= j < |ss| && forall k :: i < k <= j ==> ss[k].inPanic
    ensures ss[i].maxPanic <= ss[j].maxPanic
    decreases j
  {
    if i == j {
    } else {
      PanicGrows(c, ss, xs, i, j - 1);
      assert Stepped(c, ss, xs, j - 1);
    }
  }

  /** Within one panic episode no output falls below a panic demand that was over the threshold. */
  lemma PanicRemembers(c: Config, ss: seq<State>, xs: seq<Input>, i: nat, j: nat)
    requires IsRun(c, ss, xs) && i <= j < |xs| && forall k :: i < k <= j + 1 ==> ss[k].inPanic
    requires Usable(c, ss[i]) && Over(c, PanicDemand(c, ss[i], xs[i]), xs[i].current)
    ensures Usable(c, ss[j]) && Desired(c, ss[j], xs[j]).1 >= PanicDemand(c, ss[i], xs[i])
  {
    assert Stepped(c, ss, xs, i) && Stepped(c, ss, xs, j);
    PanicGrows(c, ss, xs, i + 1, j + 1);
  }

  /** An episode ends only a full stable window after its last demand over the threshold. */
  lemma PanicLasts(c: Config, ss: seq<State>, xs: seq<Input>, i: nat, j: nat)
    requires IsRun(c, ss, xs) && i < j < |xs| && Usable(c, ss[i]) && Over(c, PanicDemand(c, ss[i], xs[i]), xs[i].current)
    requires forall k :: i <= k <= j ==> xs[i].now <= xs[k].now <= xs[i].now + StableWindow(c)
    ensures ss[j + 1].inPanic && ss[j + 1].panicStarted >= xs[i].now
    decreases j
  {
    assert Stepped(c, ss, xs, i) && Stepped(c, ss, xs, j);
    if j > i + 1 { PanicLasts(c, ss, xs, i, j - 1); }
  }

  // -------------------------------------------------------------- desired scale

  datatype Signals = Signals(
    ready: nat, pendingStarts: nat, logicalScale: Option<nat>, inFlight: nat, highWater: nat, lastActivity: Option<int>)

  datatype Reason = FromZero | Optimistic | ColdStartPanic | InFlight | Zero | ToZero | Idle

  function Current(c: Config, g: Signals): nat {
    if c.dirigent && g.logicalScale.Some? then g.logicalScale.value else if c.dirigent then g.ready + g.pendingStarts else g.ready
  }

  function Observed(g: Signals): nat { Max(g.inFlight, g.highWater) }

  function IdleAfter(c: Config, f: Spec): int { if f.Scale? && f.idleTimeout > 0 then f.idleTimeout else c.scaleToZeroAfter }

  function ClampDesired(f: Spec, desired: nat): nat {
    if f.NoScale? then desired
    else
      var d := Max(desired, f.minInstances);
      if f.maxInstances > 0 then Min(d, f.maxInstances) else d
  }

  /** The unclamped decision of DesiredScale, with the state it leaves. */
  function Decide(c: Config, s: State, f: Spec, g: Signals, now: int): (State, nat, Reason)
    requires Usable(c, s)
  {
    var current, demand := Current(c, g), Observed(g);
    if demand > 0 then
      if c.dirigent && current == 0 then (s, 1, FromZero)
      else if c.dirigent then var (s', d) := Desired(c, s, Input(f, current, demand, now)); (s', d, Optimistic)
      else if c.coldStartPanic && (f.NoScale? || f.maxConcurrency == 1) then (s, Max(demand, current), ColdStartPanic)
      else var (s', d) := Desired(c, s, Input(f, current, demand, now)); (s', d, InFlight)
    else if current == 0 then (s, 0, Zero)
    else if g.lastActivity.Some? && now - g.lastActivity.value >= IdleAfter(c, f) then (s, 0, ToZero)
    else var (s', d) := Desired(c, s, Input(f, current, 0, now)); (s', if d == 0 then 1 else d, Idle)
  }

  /** Demand keeps at least one instance; without demand the scale falls to zero exactly if it
      already is zero or the idle timeout has passed; and the spec's limits always hold. */
  lemma ScaleMeetsDemand(c: Config, s: State, f: Spec, g: Signals, now: int)
    requires Usable(c, s)
    ensures var (s', d, reason) := Decide(c, s, f, g, now);
            && (d == 0 <==> Observed(g) == 0 && (Current(c, g) == 0 || (g.lastActivity.Some? && now - g.lastActivity.value >= IdleAfter(c, f))))
            && (Observed(g) > 0 ==> ClampDesired(f, d) >= 1)
            && (f.Scale? && f.maxInstances > 0 ==> ClampDesired(f, d) <= f.maxInstances)
            && (f.Scale? && (f.maxInstances == 0 || f.minInstances <= f.maxInstances) ==> ClampDesired(f, d) >= f.minInstances)
  {
    if Observed(g) > 0 { OutputBounds(c, s, Input(f, Current(c, g), Observed(g), now)); }
  }

  // -------------------------------------------------------------------- object

  class DirigentState {
    var buckets: seq<real>
    var windowHead: int
    var lastSample: Option<int>
    var inPanic: bool
    var panicStarted: int
    var maxPanicInstances: nat

    ghost function Value(): State
      reads this
    {
      State(Window(buckets, windowHead, lastSample), inPanic, panicStarted, maxPanicInstances)
    }

    constructor ()
      ensures Value() == State(Window([], 0, None), false, 0, 0)
    {
      buckets, windowHead, lastSample, inPanic, panicStarted, maxPanicInstances := [], 0, None, false, 0, 0;
    }

    /** record, in place. */
    method RecordSample(value: real, now: int, stableWindow: nat)
      requires |buckets| <= MaxBuckets(stableWindow) && (buckets != [] ==> 0 <= windowHead < |buckets|)
      modifies `buckets, `windowHead, `lastSample
      ensures Window(buckets, windowHead, lastSample)
                == Record(Window(old(buckets), old(windowHead), old(lastSample)), value, now, MaxBuckets(stableWindow))
    {
      if lastSample.None? || now - lastSample.value >= PERIOD || |buckets| == 0 {
        var maxBuckets := MaxBuckets(stableWindow);
        if |buckets| < maxBuckets {
          buckets := buckets + [value];
          windowHead := |buckets| - 1;
        } else {
          windowHead := (windowHead + 1) % maxBuckets;
          buckets := buckets[windowHead := value];
        }
        lastSample := Some(now);
        return;
      }
      buckets := buckets[windowHead := value];
    }

    /** average: a walk back from the head, wrapping at the start. */
    method Average(window: nat) returns (mean: real)
      requires buckets != [] ==> 0 <= windowHead < |buckets|
      ensures mean == AverageOf(Value().window, window)
    {
      if |buckets| == 0 { return 0.0; }
      var count := window / PERIOD;
      if count < 1 { count := 1; }
      if count > |buckets| { count := |buckets|; }
      var sum := 0.0;
      var idx := windowHead;
      var i := 0;
      while i < count
        invariant 0 <= i <= count == Covered(Value().window, window) && idx == Back(windowHead, i, |buckets|)
        invariant sum == SumBack(Value().window, i)
      {
        sum := sum + buckets[idx];
        idx := idx - 1;
        if idx < 0 { idx := |buckets| - 1; }
        i := i + 1;
      }
      mean := sum / count as real;
    }

    method UpdatePanic(c: Config, desiredPanic: nat, x: Input)
      modifies `inPanic, `panicStarted, `maxPanicInstances
      ensures Value() == Panicked(c, old(Value()), desiredPanic, x)
    {
      if desiredPanic as real / Ready(x.current) as real >= Threshold(c) {
        inPanic, panicStarted := true, x.now;
        if desiredPanic > maxPanicInstances { maxPanicInstances := desiredPanic; }
      } else if inPanic && panicStarted + StableWindow(c) < x.now {
        inPanic, panicStarted, maxPanicInstances := false, 0, 0;
      }
    }

    /** dirigentDesired, with the panic fields updated in place. */
    method DirigentDesired(c: Config, x: Input) returns (desired: nat)
      requires Usable(c, Value())
      modifies this
      ensures Usable(c, Value()) && (Value(), desired) == Desired(c, old(Value()), x)
    {
      RecordSample(x.inFlight as real, x.now, StableWindow(c));
      var target := ScaleTarget(x.spec, c.unlimitedTarget, c.utilization);
      var stableAvg := Average(StableWindow(c));
      var panicAvg := Average(PanicWindow(c));
      var ready := Ready(x.current);
      var up, down := ScaleUpLimit(c, ready), ScaleDownLimit(c, ready);
      var desiredStable := ClampBetween(CeilDiv(stableAvg, target), down, up);
      var desiredPanic := ClampBetween(CeilDiv(panicAvg, target), down, up);
      var desiredInstant := ClampBetween(CeilDiv(x.inFlight as real, target), 0, up);
      UpdatePanic(c, desiredPanic, x);
      desired := desiredStable;
      if inPanic {
        if desired < desiredPanic { desired := desiredPanic; }
        if desired < maxPanicInstances { desired := maxPanicInstances; }
      }
      if desired < desiredInstant { desired := desiredInstant; }
    }
  }
}
