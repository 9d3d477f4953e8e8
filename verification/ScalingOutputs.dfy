/** The outputs of the scaling policy from the recorded demand, with every rate, window and target written out. */
module ScalingOutputs {
  import opened Options
  import opened ScalingPolicy
  import opened ScalingWindow

  // ------------------------------------------------------------------- samples

  /** A demand starts a new sample if it is the first or comes two seconds or more after the last sample
      began; otherwise it replaces the last sample. */
  lemma SampleRule(es: seq<Event>, e: Event)
    ensures var h, h' := HistoryOf(es), HistoryOf(es + [e]);
            && (h.samples == [] <==> h.last.None?)
            && (if h.samples == [] || e.now - h.last.value >= 2_000_000_000
                then h'.samples == h.samples + [e.value] && h'.last == Some(e.now)
                else h'.samples == h.samples[..|h.samples| - 1] + [e.value] && h'.last == h.last)
  {
    var w := RecordAll(es, 1);
    assert (es + [e])[..|es|] == es;
  }

  /** The mean of the last samples lies between any bounds of theirs. */
  lemma {:induction false} SumBetween(samples: seq<real>, n: nat, lo: real, hi: real)
    requires n <= |samples| && forall k :: |samples| - n <= k < |samples| ==> lo <= samples[k] <= hi
    ensures n as real * lo <= SumLast(samples, n) <= n as real * hi
  {
    if n == 0 {
    } else {
      SumBetween(samples, n - 1, lo, hi);
      assert n as real * lo == (n - 1) as real * lo + lo && n as real * hi == (n - 1) as real * hi + hi;
    }
  }

  // ------------------------------------------------------------ target and limits

  /** The concurrency an instance should carry: the annotated target within the hard limit, or the hard limit,
      or the default where there is none, times the utilization, which may be given in percent. */
  lemma TargetExactly(f: Spec, defaultTotal: nat, utilization: real, total: nat, u: real)
    requires total == if f.NoScale? then 1
                      else if f.maxConcurrency == 0
                      then (if f.targetConcurrency > 0 then f.targetConcurrency else if defaultTotal > 0 then defaultTotal else 1)
                      else if 0 < f.targetConcurrency < f.maxConcurrency then f.targetConcurrency else f.maxConcurrency
    requires u == if 0.0 < utilization <= 1.0 then utilization else if 1.0 < utilization <= 100.0 then utilization / 100.0 else 1.0
    ensures ScaleTarget(f, defaultTotal, utilization) == if total as real * u < 0.01 then 0.01 else total as real * u
  {
    UtilizationExactly(utilization);
    assert TotalTarget(f, defaultTotal) == total as real;
    assert Scaled(total as real, u) == total as real * u;
  }

  lemma UtilizationExactly(v: real)
    ensures NormalizeUtilization(v) == if 0.0 < v <= 1.0 then v else if 1.0 < v <= 100.0 then v / 100.0 else 1.0
  {
  }

  ghost predicate IsCeil(x: real, n: int) { (n - 1) as real < x <= n as real }
  ghost predicate IsFloor(x: real, n: int) { n as real <= x < (n + 1) as real }

  /** One decision goes at most up to the current scale, at least one, times the up rate, and at most down to
      it divided by the down rate. */
  lemma LimitsExactly(c: Config, current: nat)
    ensures var ready := if current == 0 then 1 else current;
            var up, down := if c.upRate > 0.0 then c.upRate else 1000.0, if c.downRate > 0.0 then c.downRate else 2.0;
            && IsCeil(up * ready as real, ScaleUpLimit(c, Ready(current)))
            && IsFloor(ready as real / down, ScaleDownLimit(c, Ready(current)))
  {
  }

  /** The number of instances for a demand, before limits. */
  lemma InstancesExactly(value: real, target: real)
    requires target > 0.0
    ensures if value <= 0.0 then CeilDiv(value, target) == 0 else IsCeil(value / target, CeilDiv(value, target))
  {
  }

  // ------------------------------------------------------------------- outputs

  /** A number of instances forced between the limits of one decision, the upper one last. */
  function Between(n: nat, down: nat, up: nat): nat {
    if n > up || down > up then up else if n < down then down else n
  }

  /** What one decision weighs: the limits, and the instances for the mean demand of the stable and of the
      panic window and for the demand of the moment. */
  datatype Weights = Weights(up: nat, down: nat, stable: nat, panic: nat, instant: nat)

  ghost predicate Weighs(c: Config, x: Input, stableMean: real, panicMean: real, m: Weights) {
    var ready := if x.current == 0 then 1 else x.current;
    var target := ScaleTarget(x.spec, c.unlimitedTarget, c.utilization);
    && m.up >= 1 && IsCeil((if c.upRate > 0.0 then c.upRate else 1000.0) * ready as real, m.up)
    && IsFloor(ready as real / (if c.downRate > 0.0 then c.downRate else 2.0), m.down)
    && (if stableMean <= 0.0 then m.stable == 0 else IsCeil(stableMean / target, m.stable))
    && (if panicMean <= 0.0 then m.panic == 0 else IsCeil(panicMean / target, m.panic))
    && (if x.inFlight == 0 then m.instant == 0 else IsCeil(x.inFlight as real / target, m.instant))
  }

  ghost function WeightsOf(c: Config, x: Input, stableMean: real, panicMean: real): Weights {
    var target := ScaleTarget(x.spec, c.unlimitedTarget, c.utilization);
    Weights(ScaleUpLimit(c, Ready(x.current)), ScaleDownLimit(c, Ready(x.current)), CeilDiv(stableMean, target),
            CeilDiv(panicMean, target), CeilDiv(x.inFlight as real, target))
  }

  lemma WeightsFit(c: Config, x: Input, stableMean: real, panicMean: real)
    ensures Weighs(c, x, stableMean, panicMean, WeightsOf(c, x, stableMean, panicMean))
  {
    var target := ScaleTarget(x.spec, c.unlimitedTarget, c.utilization);
    LimitsExactly(c, x.current);
    InstancesExactly(stableMean, target);
    InstancesExactly(panicMean, target);
    InstancesExactly(x.inFlight as real, target);
  }

  lemma WeightsAreUnique(c: Config, x: Input, stableMean: real, panicMean: real, m: Weights, m': Weights)
    requires Weighs(c, x, stableMean, panicMean, m) && Weighs(c, x, stableMean, panicMean, m')
    ensures m == m'
  {
  }

  /** A decision panics if its panic demand is at least the threshold times the current scale; a panic ends once
      a stable window has passed since the last such demand. Outside a panic the output is the stable demand,
      inside it the largest of that, the panic demand and the panic memory; in both cases, if that is
      larger, what the demand of the moment asks for within the upper limit. */
  lemma OutputExactly(c: Config, s: State, x: Input, m: Weights)
    requires Usable(c, s)
    requires var w := Recorded(c, s, x);
             Weighs(c, x, AverageOf(w, StableWindow(c)), AverageOf(w, PanicWindow(c)), m)
    ensures var (s', out) := Desired(c, s, x);
            var ready := if x.current == 0 then 1 else x.current;
            var stable, panic := Between(m.stable, m.down, m.up), Between(m.panic, m.down, m.up);
            var over := panic as real / ready as real >= if c.panicThreshold > 0.0 then c.panicThreshold else 2.0;
            var window := if c.stableWindow > 0 then c.stableWindow else 6_000_000_000;
            var ends := !over && s.inPanic && s.panicStarted + window < x.now;
            && s'.inPanic == (over || (s.inPanic && !ends))
            && s'.panicStarted == (if over then x.now else if ends then 0 else s.panicStarted)
            && s'.maxPanic == (if over then Max(s.maxPanic, panic) else if ends then 0 else s.maxPanic)
            && out == Max(if s'.inPanic then Max(Max(stable, panic), s'.maxPanic) else stable, Min(m.instant, m.up))
  {
    var w := Recorded(c, s, x);
    var stableMean, panicMean := AverageOf(w, StableWindow(c)), AverageOf(w, PanicWindow(c));
    WeightsFit(c, x, stableMean, panicMean);
    WeightsAreUnique(c, x, stableMean, panicMean, m, WeightsOf(c, x, stableMean, panicMean));
  }

  // ---------------------------------------------------------------------- runs

  /** The mean of the samples a window covers, of those the buffer keeps: one per two seconds of the window, at
      least one, at most as many as there are. */
  ghost function MeanOf(samples: seq<real>, stableWindow: int, window: int): real {
    var k := if stableWindow / 2_000_000_000 < 1 then 1 else stableWindow / 2_000_000_000;
    var periods := if window / 2_000_000_000 < 1 then 1 else window / 2_000_000_000;
    var n := if periods < k && periods < |samples| then periods else if k < |samples| then k else |samples|;
    if n <= 0 then 0.0 else SumLast(samples, n) / n as real
  }

  /** In every run the means are those of all demand recorded so far, over the configured windows or six and two
      seconds; so OutputExactly gives the output of every decision from the run's inputs. */
  lemma RunWeights(c: Config, ss: seq<State>, xs: seq<Input>, i: nat) returns (m: Weights)
    requires IsRun(c, ss, xs) && i < |xs|
    ensures Usable(c, ss[i])
    ensures var samples := HistoryOf(Events(xs[..i + 1])).samples;
            var stable := if c.stableWindow > 0 then c.stableWindow else 6_000_000_000;
            var panic := if c.panicWindow > 0 then c.panicWindow else 2_000_000_000;
            Weighs(c, xs[i], MeanOf(samples, stable, stable), MeanOf(samples, stable, panic), m)
    ensures var w := Recorded(c, ss[i], xs[i]);
            Weighs(c, xs[i], AverageOf(w, StableWindow(c)), AverageOf(w, PanicWindow(c)), m)
  {
    RunAverage(c, ss, xs, i, StableWindow(c));
    RunAverage(c, ss, xs, i, PanicWindow(c));
    var w := Recorded(c, ss[i], xs[i]);
    m := WeightsOf(c, xs[i], AverageOf(w, StableWindow(c)), AverageOf(w, PanicWindow(c)));
    WeightsFit(c, xs[i], AverageOf(w, StableWindow(c)), AverageOf(w, PanicWindow(c)));
  }

  // -------------------------------------------------------------- desired scale

  /** The decision case by case: with demand, one from zero under strict admission, the demand itself in the
      cold-start mode of functions without concurrency, and the output above otherwise; without demand,
      zero if there is nothing or the idle time has passed, and otherwise that output but at least one. */
  lemma DecideExactly(c: Config, s: State, f: Spec, g: Signals, now: int)
    requires Usable(c, s)
    ensures var (s', d, reason) := Decide(c, s, f, g, now);
            var current := if !c.dirigent then g.ready else if g.logicalScale.Some? then g.logicalScale.value else g.ready + g.pendingStarts;
            var demand := if g.highWater > g.inFlight then g.highWater else g.inFlight;
            var idle := if f.Scale? && f.idleTimeout > 0 then f.idleTimeout else c.scaleToZeroAfter;
            var out := Desired(c, s, Input(f, current, demand, now)).1;
            d == if demand > 0 && c.dirigent && current == 0 then 1
                 else if demand > 0 && !c.dirigent && c.coldStartPanic && (f.NoScale? || f.maxConcurrency == 1)
                 then (if demand < current then current else demand)
                 else if demand > 0 then out
                 else if current == 0 || (g.lastActivity.Some? && now - g.lastActivity.value >= idle) then 0
                 else if out == 0 then 1 else out
  {
  }

  /** Only the rules that average move the state. */
  lemma DecideMoves(c: Config, s: State, f: Spec, g: Signals, now: int, x: Input)
    requires Usable(c, s) && x == Input(f, Current(c, g), Observed(g), now)
    ensures var (s', d, reason) := Decide(c, s, f, g, now);
            s' == if reason == Optimistic || reason == InFlight || reason == Idle then Desired(c, s, x).0 else s
  {
  }

  /** The spec's bounds change a decision only as far as they must, the upper one last. */
  lemma ClampExactly(f: Spec, desired: nat)
    ensures ClampDesired(f, desired)
              == if f.NoScale? then desired
                 else if f.maxInstances > 0 && (desired > f.maxInstances || f.minInstances > f.maxInstances) then f.maxInstances
                 else if desired < f.minInstances then f.minInstances else desired
  {
  }
}
