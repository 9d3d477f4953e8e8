/** The sample window of `pkg/leaf/autoscaling/policy.go`: a circular buffer with one value per
    scaling period. Times are in nanoseconds, values are reals. */
module ScalingWindow {
  import opened Options

  const PERIOD: int := 2000000000

  /** Window: buckets, the position of the newest, and when its period began. */
  datatype Window = Window(buckets: seq<real>, head: int, last: Option<int>)

  function MaxBuckets(stableWindow: nat): (k: nat)
    ensures k >= 1
  {
    if stableWindow / PERIOD < 1 then 1 else stableWindow / PERIOD
  }

  predicate StartsPeriod(last: Option<int>, now: int) { last.None? || now - last.value >= PERIOD }

  /** record. */
  function Record(w: Window, value: real, now: int, k: nat): Window
    requires k >= 1 && (w.buckets != [] ==> 0 <= w.head < |w.buckets|) && |w.buckets| <= k
  {
    if StartsPeriod(w.last, now) || w.buckets == [] then
      if |w.buckets| < k then Window(w.buckets + [value], |w.buckets|, Some(now))
      else
        var head := (w.head + 1) % k;
        Window(w.buckets[head := value], head, Some(now))
    else w.(buckets := w.buckets[w.head := value])
  }

  // ------------------------------------------------------------ whole history

  datatype Event = Event(value: real, now: int)

  /** The history without a buffer: one sample per period, the last value seen in it. */
  datatype History = History(samples: seq<real>, last: Option<int>)

  function Observe(h: History, e: Event): History {
    if StartsPeriod(h.last, e.now) then History(h.samples + [e.value], Some(e.now))
    else if h.samples == [] then h
    else h.(samples := h.samples[|h.samples| - 1 := e.value])
  }

  function HistoryOf(es: seq<Event>): History {
    if es == [] then History([], None) else Observe(HistoryOf(es[..|es| - 1]), es[|es| - 1])
  }

  /** The sum of the last `n` samples. */
  function SumLast(samples: seq<real>, n: nat): real
    requires n <= |samples|
  {
    if n == 0 then 0.0 else SumLast(samples, n - 1) + samples[|samples| - n]
  }

  /** The position `i` steps back from the head. */
  function Back(head: int, i: int, len: int): int { if i <= head then head - i else head - i + len }

  /** The buffer holds the newest samples, newest at the head and older ones behind it. */
  ghost predicate Holds(w: Window, h: History, k: nat) {
    && k >= 1 && w.last == h.last && (h.last.None? <==> h.samples == [])
    && |w.buckets| == (if |h.samples| < k then |h.samples| else k)
    && (w.buckets != [] ==> 0 <= w.head < |w.buckets|) && (0 < |w.buckets| < k ==> w.head == |w.buckets| - 1)
    && (forall i :: 0 <= i < |w.buckets| ==> w.buckets[Back(w.head, i, |w.buckets|)] == h.samples[|h.samples| - 1 - i])
  }

  lemma HeadWraps(head: int, k: nat)
    requires 0 <= head < k
    ensures (head + 1) % k == if head + 1 < k then head + 1 else 0
  {
  }

  /** A full buffer overwrites its oldest sample. */
  lemma WrapHolds(w: Window, h: History, e: Event, k: nat)
    requires Holds(w, h, k) && StartsPeriod(w.last, e.now) && |w.buckets| == k
    ensures Holds(Record(w, e.value, e.now, k), Observe(h, e), k)
  {
    var w', h' := Record(w, e.value, e.now, k), Observe(h, e);
    HeadWraps(w.head, k);
    forall i | 0 <= i < k ensures w'.buckets[Back(w'.head, i, k)] == h'.samples[|h'.samples| - 1 - i] {
      if i > 0 {
        assert Back(w'.head, i, k) == Back(w.head, i - 1, k);
        assert h'.samples[|h'.samples| - 1 - i] == h.samples[|h.samples| - 1 - (i - 1)];
      }
    }
  }

  lemma GrowHolds(w: Window, h: History, e: Event, k: nat)
    requires Holds(w, h, k) && StartsPeriod(w.last, e.now) && |w.buckets| < k
    ensures Holds(Record(w, e.value, e.now, k), Observe(h, e), k)
  {
    var w', h' := Record(w, e.value, e.now, k), Observe(h, e);
    forall i | 0 <= i < |w'.buckets| ensures w'.buckets[Back(w'.head, i, |w'.buckets|)] == h'.samples[|h'.samples| - 1 - i] {
      if i > 0 { assert Back(w.head, i - 1, |w.buckets|) == |w.buckets| - i; }
    }
  }

  lemma RecordHolds(w: Window, h: History, e: Event, k: nat)
    requires Holds(w, h, k)
    ensures Holds(Record(w, e.value, e.now, k), Observe(h, e), k)
  {
    if StartsPeriod(w.last, e.now) {
      if |w.buckets| < k { GrowHolds(w, h, e, k); } else { WrapHolds(w, h, e, k); }
    } else {
      var w', h' := Record(w, e.value, e.now, k), Observe(h, e);
      forall i | 0 <= i < |w'.buckets| ensures w'.buckets[Back(w'.head, i, |w'.buckets|)] == h'.samples[|h'.samples| - 1 - i] {
        if i > 0 { assert Back(w.head, i, |w.buckets|) != w.head; }
      }
    }
  }

  function RecordAll(es: seq<Event>, k: nat): (w: Window)
    requires k >= 1
    ensures Holds(w, HistoryOf(es), k)
  {
    if es == [] then Window([], 0, None)
    else
      var w := RecordAll(es[..|es| - 1], k);
      RecordHolds(w, HistoryOf(es[..|es| - 1]), es[|es| - 1], k);
      Record(w, es[|es| - 1].value, es[|es| - 1].now, k)
  }

  /** How many samples a window covers. */
  function Covered(w: Window, window: nat): nat {
    var count := if window / PERIOD < 1 then 1 else window / PERIOD;
    if count > |w.buckets| then |w.buckets| else count
  }

  function AverageOf(w: Window, window: nat): real
    requires w.buckets != [] ==> 0 <= w.head < |w.buckets|
  {
    if w.buckets == [] then 0.0 else SumBack(w, Covered(w, window)) / Covered(w, window) as real
  }

  function SumBack(w: Window, n: nat): real
    requires n <= |w.buckets| && (w.buckets != [] ==> 0 <= w.head < |w.buckets|)
  {
    if n == 0 then 0.0 else SumBack(w, n - 1) + w.buckets[Back(w.head, n - 1, |w.buckets|)]
  }

  lemma {:induction false} SumBackIsSumLast(w: Window, h: History, k: nat, n: nat)
    requires Holds(w, h, k) && n <= |w.buckets|
    ensures SumBack(w, n) == SumLast(h.samples, n)
  {
    if n == 0 {
    } else {
      SumBackIsSumLast(w, h, k, n - 1);
    }
  }

  /** Whatever was recorded, the average over a window is the mean of the last period samples of
      the whole history: as many as the window has periods, are kept, or exist. */
  lemma AverageIsMeanOfHistory(es: seq<Event>, stableWindow: nat, window: nat)
    ensures var k := MaxBuckets(stableWindow);
            var samples := HistoryOf(es).samples;
            var periods := if window / PERIOD < 1 then 1 else window / PERIOD;
            var n := if periods < k && periods < |samples| then periods else if k < |samples| then k else |samples|;
            n <= |samples| && AverageOf(RecordAll(es, k), window) == if n == 0 then 0.0 else SumLast(samples, n) / n as real
  {
    var k := MaxBuckets(stableWindow);
    var w := RecordAll(es, k);
    SumBackIsSumLast(w, HistoryOf(es), k, Covered(w, window));
  }
}
