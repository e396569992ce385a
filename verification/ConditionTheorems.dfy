// Pruning the history is invisible, and what a sustained condition really demands.
module ConditionTheorems {
  import opened Decimals
  import opened Options
  import opened Conditions

  // ---------- pruned against full history ----------

  predicate Monotone(history: seq<Sample>) {
    forall i, j :: 0 <= i < j < |history| ==> history[i].ts <= history[j].ts
  }

  /** The history kept while the stream's prices arrive one by one. */
  function Pruned(stream: seq<Sample>, keepSeconds: int): seq<Sample> {
    if stream == [] then []
    else
      var n := |stream| - 1;
      Updated(Pruned(stream[..n], keepSeconds), stream[n].price, stream[n].ts, keepSeconds)
  }

  lemma FilteredPush(history: seq<Sample>, sample: Sample, start: Option<real>)
    ensures Filtered(history + [sample], start) ==
      Filtered(history, start) + if InWindow(sample, start) then [sample] else []
  {
    assert (history + [sample])[..|history|] == history;
  }

  lemma {:induction false} FilteredAppend(a: seq<Sample>, b: seq<Sample>, start: Option<real>)
    ensures Filtered(a + b, start) == Filtered(a, start) + Filtered(b, start)
  {
    if b == [] {
      assert a + b == a;
    } else {
      var n := |b| - 1;
      assert a + b == (a + b[..n]) + [b[n]];
      FilteredAppend(a, b[..n], start);
      FilteredPush(a + b[..n], b[n], start);
    }
  }

  /** Dropping samples older than the cutoff does not change a window that starts at or after it. */
  lemma {:induction false} DropOldKeepsWindow(history: seq<Sample>, now: real, keepSeconds: int, start: real)
    requires start >= now - keepSeconds as real
    ensures Filtered(DropOld(history, now, keepSeconds), Some(start)) == Filtered(history, Some(start))
  {
    if history != [] && now - history[0].ts > keepSeconds as real {
      DropOldKeepsWindow(history[1..], now, keepSeconds, start);
      assert history == [history[0]] + history[1..];
      FilteredAppend([history[0]], history[1..], Some(start));
      assert Filtered([history[0]], Some(start)) == [];
    }
  }

  /** Slicing the pruned history gives the slice of the whole stream. */
  lemma {:induction false} PrunedKeepsWindow(stream: seq<Sample>, keepSeconds: int, start: real)
    requires Monotone(stream)
    requires stream != [] ==> start >= stream[|stream| - 1].ts - keepSeconds as real
    ensures Filtered(Pruned(stream, keepSeconds), Some(start)) == Filtered(stream, Some(start))
  {
    if stream != [] {
      var n := |stream| - 1;
      var earlier := stream[..n];
      var sample := stream[n];
      PrunedKeepsWindow(earlier, keepSeconds, start);
      assert stream == earlier + [sample];
      var before := Pruned(earlier, keepSeconds);
      FilteredPush(before, sample, Some(start));
      FilteredPush(earlier, sample, Some(start));
      DropOldKeepsWindow(before + [sample], sample.ts, keepSeconds, start);
    }
  }

  predicate IsSustained(kind: Kind) {
    kind in {SustainedGe, SustainedLe, SustainedBetween}
  }

  /** The window the condition looks at starts within the kept history, or it looks at none. */
  predicate WindowKept(condition: Condition, stream: seq<Sample>, keepSeconds: int, now: real, since: Option<real>) {
    if stream == [] || condition.kind in {PriceGe, PriceLe, PriceBetween, OtherKind} then true
    else if condition.timerSeconds <= 0 && !IsSustained(condition.kind) then true
    else
      var start := WindowStart(condition.timerSeconds, now, since);
      start.Some? && start.value >= stream[|stream| - 1].ts - keepSeconds as real
  }

  /** Evaluating on the pruned history is evaluating on the whole price stream. */
  lemma PruningIsInvisible(condition: Condition, price: real, previous: Option<real>, stream: seq<Sample>,
                           keepSeconds: int, now: real, since: Option<real>)
    requires Monotone(stream)
    requires WindowKept(condition, stream, keepSeconds, now, since)
    ensures Holds(condition, price, previous, Pruned(stream, keepSeconds), now, since)
      == Holds(condition, price, previous, stream, now, since)
  {
    if stream != [] {
      var start := WindowStart(condition.timerSeconds, now, since);
      hide Filtered, Pruned, Soft, Hard, SampleRatio, WindowStart, Monotone;
      if start.Some? && start.value >= stream[|stream| - 1].ts - keepSeconds as real {
        PrunedKeepsWindow(stream, keepSeconds, start.value);
      }
    }
  }

  /** In particular for every timer from one second up to the kept history, read at or after the last price. */
  lemma TimerWithinHistoryIsKept(condition: Condition, stream: seq<Sample>, keepSeconds: int, now: real, since: Option<real>)
    requires 0 < condition.timerSeconds <= keepSeconds
    requires stream != [] ==> stream[|stream| - 1].ts <= now
    ensures WindowKept(condition, stream, keepSeconds, now, since)
  {
  }

  lemma {:induction false} DropOldIsRecent(history: seq<Sample>, now: real, keepSeconds: int)
    requires Monotone(history)
    ensures Monotone(DropOld(history, now, keepSeconds))
    ensures forall sample :: sample in DropOld(history, now, keepSeconds) ==>
      sample in history && now - sample.ts <= keepSeconds as real
  {
    if history != [] && now - history[0].ts > keepSeconds as real {
      DropOldIsRecent(history[1..], now, keepSeconds);
    }
  }

  /** What is kept lies in the stream, in order, and is no older than the bound. */
  lemma {:induction false} PrunedIsRecent(stream: seq<Sample>, keepSeconds: int)
    requires Monotone(stream)
    ensures Monotone(Pruned(stream, keepSeconds))
    ensures forall sample :: sample in Pruned(stream, keepSeconds) ==>
      sample in stream && stream[|stream| - 1].ts - sample.ts <= keepSeconds as real
  {
    if stream != [] {
      var n := |stream| - 1;
      var before := Pruned(stream[..n], keepSeconds);
      PrunedIsRecent(stream[..n], keepSeconds);
      assert Sample(stream[n].ts, stream[n].price) == stream[n];
      forall i | 0 <= i < |before| ensures before[i].ts <= stream[n].ts {
        assert before[i] in stream[..n];
      }
      DropOldIsRecent(before + [stream[n]], stream[n].ts, keepSeconds);
    }
  }

  /** The bound on the timer is exact: a sustained condition with a longer timer is never met. */
  lemma LongTimerIsNeverMet(condition: Condition, price: real, previous: Option<real>, stream: seq<Sample>,
                            keepSeconds: int, now: real, since: Option<real>)
    requires IsSustained(condition.kind) && condition.timerSeconds > keepSeconds && condition.timerSeconds > 0
    requires Monotone(stream) && stream != [] && now == stream[|stream| - 1].ts
    ensures !Holds(condition, price, previous, Pruned(stream, keepSeconds), now, since)
  {
    var kept := Pruned(stream, keepSeconds);
    PrunedIsRecent(stream, keepSeconds);
    FilteredIsMonotone(kept, WindowStart(condition.timerSeconds, now, since));
    hide Filtered, Pruned, Soft, Hard, SampleRatio;
    var samples := HistorySlice(kept, condition.timerSeconds, now, since);
    if samples != [] {
      assert samples[0] in kept;
      assert now - samples[0].ts <= keepSeconds as real;
    }
  }

  /** A price that every sustained condition accepts strictly. */
  function Accepted(condition: Condition): real {
    if condition.kind == SustainedBetween then Sorted(condition.low, condition.high).0 else condition.level
  }

  /** Though on the whole stream every such condition is met by some prices. */
  lemma LongTimerWouldBeMet(condition: Condition)
    requires IsSustained(condition.kind) && LevelFits(condition) && condition.timerSeconds > 0
    ensures
      var timer := condition.timerSeconds as real;
      var stream := [Sample(0.0, Accepted(condition)), Sample(timer, Accepted(condition))];
      Monotone(stream) && Holds(condition, Accepted(condition), None, stream, timer, None)
  {
    var timer := condition.timerSeconds as real;
    var first, second := Sample(0.0, Accepted(condition)), Sample(timer, Accepted(condition));
    var stream := [first, second];
    assert stream == [first] + [second] && [] + [first] == [first];
    FilteredPush([first], second, Some(0.0));
    FilteredPush([], first, Some(0.0));
    assert HistorySlice(stream, condition.timerSeconds, timer, None) == stream;
    StrictIsSoft(condition, Accepted(condition));
    assert Hard(condition, stream);
  }

  // ---------- what a sustained condition demands ----------

  /** Tolerance widens what is accepted, unless it is applied to a negative level. */
  predicate LevelFits(condition: Condition) {
    condition.kind in {SustainedGe, SustainedLe} ==> condition.level >= 0.0 || Tolerance(condition) == 0.0
  }

  lemma FloorIsBelow(level: real, bps: real)
    requires level >= 0.0 && bps >= 0.0
    ensures LevelFloor(level, bps) <= level <= LevelCeiling(level, bps)
  {
    assert level * (bps / 10000.0) >= 0.0;
    assert level * (1.0 - bps / 10000.0) == level - level * (bps / 10000.0);
    assert level * (1.0 + bps / 10000.0) == level + level * (bps / 10000.0);
  }

  lemma FloorIsAbove(level: real, bps: real)
    requires level < 0.0 && bps > 0.0
    ensures LevelFloor(level, bps) > level > LevelCeiling(level, bps)
  {
    var t := bps / 10000.0;
    assert t > 0.0;
    assert level * t < 0.0;
    assert level * (1.0 - t) == level - level * t;
    assert level * (1.0 + t) == level + level * t;
  }

  lemma BandContains(low: real, high: real, bps: real)
    requires bps >= 0.0
    ensures
      var (lo, hi) := Sorted(low, high);
      Band(low, high, bps).0 <= lo && hi <= Band(low, high, bps).1
  {
    var (lo, hi) := Sorted(low, high);
    PadIsPositive(Max(Max(Abs(lo), Abs(hi)), 1.0), bps);
  }

  lemma PadIsPositive(size: real, bps: real)
    requires size >= 1.0 && bps >= 0.0
    ensures size * bps / 10000.0 >= 0.0
  {
    assert size * bps >= 0.0;
  }

  lemma StrictIsSoft(condition: Condition, price: real)
    requires IsSustained(condition.kind) && LevelFits(condition)
    requires Strict(condition, price)
    ensures Soft(condition, price)
  {
    if condition.kind == SustainedBetween {
      BandContains(condition.low, condition.high, Tolerance(condition));
    } else if condition.level >= 0.0 {
      FloorIsBelow(condition.level, Tolerance(condition));
    }
  }

  lemma {:induction false} AllSoftHits(condition: Condition, samples: seq<Sample>)
    requires forall i :: 0 <= i < |samples| ==> Soft(condition, samples[i].price)
    ensures Hits(condition, samples) == |samples|
  {
    if samples != [] {
      AllSoftHits(condition, samples[..|samples| - 1]);
    }
  }

  /** A window that is hard throughout always reaches the ratio. */
  lemma HardReachesRatio(condition: Condition, samples: seq<Sample>)
    requires IsSustained(condition.kind) && LevelFits(condition)
    requires samples != [] && Hard(condition, samples)
    ensures SampleRatio(condition, samples) >= MinRatio(condition)
  {
    forall i | 0 <= i < |samples| ensures Soft(condition, samples[i].price) {
      StrictIsSoft(condition, samples[i].price);
    }
    AllSoftHits(condition, samples);
    assert SampleRatio(condition, samples) == 1.0 by {
      hide Hits;
      WholeRatio(|samples| as real);
    }
    hide SampleRatio, Hits, Soft, Strict, Hard;
  }

  lemma WholeRatio(n: real)
    requires n > 0.0
    ensures n / n == 1.0
  {
  }

  lemma {:induction false} FilteredIsMonotone(history: seq<Sample>, start: Option<real>)
    requires Monotone(history)
    ensures Monotone(Filtered(history, start))
    ensures forall sample :: sample in Filtered(history, start) <==> sample in history && InWindow(sample, start)
  {
    if history != [] {
      var n := |history| - 1;
      FilteredIsMonotone(history[..n], start);
      var before := Filtered(history[..n], start);
      assert history == history[..n] + [history[n]];
      forall i | 0 <= i < |before| ensures before[i].ts <= history[n].ts {
        assert before[i] in history[..n];
      }
    }
  }

  /** Some sample of the window lies within the clock slack of its left edge. */
  predicate ReachesLeftEdge(samples: seq<Sample>, now: real, timerSeconds: int) {
    exists i :: 0 <= i < |samples| && samples[i].ts <= now - timerSeconds as real + CLOCK_SLACK
  }

  /**
    * A sustained condition with a timer is true exactly when the observation is
    * old enough, a sample lies at the window's left edge, the latest price is on
    * side and enough samples are. The strict test never decides.
    */
  lemma SustainedExactly(condition: Condition, price: real, previous: Option<real>, history: seq<Sample>,
                         now: real, since: Option<real>)
    requires IsSustained(condition.kind) && LevelFits(condition)
    requires condition.timerSeconds > 0 && Monotone(history)
    ensures
      var samples := HistorySlice(history, condition.timerSeconds, now, since);
      Holds(condition, price, previous, history, now, since)
      <==>
      && (since.Some? ==> now - since.value >= condition.timerSeconds as real)
      && ReachesLeftEdge(samples, now, condition.timerSeconds)
      && Soft(condition, price)
      && SampleRatio(condition, samples) >= MinRatio(condition)
  {
    var samples := HistorySlice(history, condition.timerSeconds, now, since);
    FilteredIsMonotone(history, WindowStart(condition.timerSeconds, now, since));
    if samples != [] && Hard(condition, samples) {
      HardReachesRatio(condition, samples);
    }
    hide HistorySlice, Soft, Hard, SampleRatio, MinRatio, Filtered;
    if samples != [] {
      EarliestDecides(samples, now, condition.timerSeconds);
    }
  }

  lemma EarliestDecides(samples: seq<Sample>, now: real, timerSeconds: int)
    requires samples != [] && Monotone(samples)
    ensures now - samples[0].ts + CLOCK_SLACK >= timerSeconds as real <==> ReachesLeftEdge(samples, now, timerSeconds)
  {
  }

  function Copies(sample: Sample, n: nat): (samples: seq<Sample>)
    ensures |samples| == n && forall i :: 0 <= i < n ==> samples[i] == sample
  {
    seq(n, i => sample)
  }

  lemma {:induction false} NoHits(condition: Condition, samples: seq<Sample>)
    requires forall i :: 0 <= i < |samples| ==> !Soft(condition, samples[i].price)
    ensures Hits(condition, samples) == 0
  {
    if samples != [] {
      NoHits(condition, samples[..|samples| - 1]);
    }
  }

  lemma {:induction false} AllInWindow(history: seq<Sample>, start: Option<real>)
    requires forall i :: 0 <= i < |history| ==> InWindow(history[i], start)
    ensures Filtered(history, start) == history
  {
    if history != [] {
      var n := |history| - 1;
      AllInWindow(history[..n], start);
      assert history == history[..n] + [history[n]];
    }
  }

  /** The price at the edge of what the tolerance leaves. */
  function EdgePrice(condition: Condition): real {
    if condition.kind == SustainedGe then LevelFloor(condition.level, Tolerance(condition))
    else LevelCeiling(condition.level, Tolerance(condition))
  }

  /** Enough samples that one among them falls short of the ratio. */
  function Outnumber(ratio: real): (n: nat)
    requires 0.0 < ratio <= 1.0
    ensures 1.0 / (n + 1) as real < ratio
  {
    var q := 1.0 / ratio;
    assert q * ratio == 1.0;
    Reciprocal(ratio, q);
    var n: nat := q.Floor;
    OneOver(ratio, q, (n + 1) as real);
    n
  }

  lemma Reciprocal(ratio: real, q: real)
    requires ratio > 0.0 && q * ratio == 1.0
    ensures q > 0.0
  {
  }

  lemma TimesOrdered(a: real, b: real, m: real)
    requires a >= b && m > 0.0
    ensures a * m >= b * m
  {
    assert a * m - b * m == (a - b) * m;
  }

  lemma OneOver(ratio: real, q: real, m: real)
    requires ratio > 0.0 && q * ratio == 1.0 && m > q > 0.0
    ensures 1.0 / m < ratio
  {
    var r := 1.0 / m;
    assert r * m == 1.0;
    assert (m - q) * ratio > 0.0;
    assert (m - q) * ratio == m * ratio - 1.0;
    if r >= ratio {
      TimesOrdered(r, ratio, m);
      assert false;
    }
  }

  /** The price stays at the level, and then reaches the edge of the tolerance. */
  function NegativeStream(condition: Condition): (history: seq<Sample>)
    ensures history != []
  {
    Copies(Sample(0.0, condition.level), Outnumber(MinRatio(condition)))
    + [Sample(Max(0.0, condition.timerSeconds as real), EdgePrice(condition))]
  }

  /**
    * The level restriction is exact. With a negative level and a tolerance the
    * strict test does decide, because there the tolerance narrows what is
    * accepted: the condition holds though too few samples are within it.
    */
  lemma HardDecidesForNegativeLevels(condition: Condition)
    requires condition.kind in {SustainedGe, SustainedLe}
    requires !LevelFits(condition)
    ensures
      var history := NegativeStream(condition);
      var now := history[|history| - 1].ts;
      && Monotone(history)
      && SampleRatio(condition, HistorySlice(history, condition.timerSeconds, now, None)) < MinRatio(condition)
      && Holds(condition, history[|history| - 1].price, None, history, now, None)
  {
    NegativePrices(condition);
    NegativeStreamFacts(condition);
    var history := NegativeStream(condition);
    hide Soft, Hits, SampleRatio, Filtered, MinRatio, NegativeStream, EdgePrice, Hard, InWindow, Monotone,
         LevelFloor, LevelCeiling, Strict, LevelFits, Tolerance;
    AllInWindow(history, WindowStart(condition.timerSeconds, history[|history| - 1].ts, None));
    NegativeRatio(condition, history);
    MetByHard(condition, history);
  }

  /** A window that reaches back to its left edge and is strict throughout meets a sustained condition. */
  lemma MetByHard(condition: Condition, history: seq<Sample>)
    requires IsSustained(condition.kind) && history != []
    requires
      var last := history[|history| - 1];
      && HistorySlice(history, condition.timerSeconds, last.ts, None) == history
      && last.ts - history[0].ts >= condition.timerSeconds as real
      && Soft(condition, last.price) && Hard(condition, history)
    ensures Holds(condition, history[|history| - 1].price, None, history, history[|history| - 1].ts, None)
  {
    hide Soft, Hard, SampleRatio, MinRatio, HistorySlice;
  }

  /** The stream lies within the window ending with it, and every price is strictly on side. */
  lemma NegativeStreamFacts(condition: Condition)
    requires Strict(condition, condition.level) && Strict(condition, EdgePrice(condition))
    ensures
      var history := NegativeStream(condition);
      var last := history[|history| - 1];
      && Monotone(history) && Hard(condition, history) && last.price == EdgePrice(condition)
      && last.ts - history[0].ts >= condition.timerSeconds as real
      && forall i :: 0 <= i < |history| ==> InWindow(history[i], WindowStart(condition.timerSeconds, last.ts, None))
  {
    hide LevelFloor, LevelCeiling, Strict, Outnumber, MinRatio, EdgePrice;
  }

  /** The level is strictly on side but outside the tolerance; its edge is both. */
  lemma NegativePrices(condition: Condition)
    requires condition.kind in {SustainedGe, SustainedLe} && !LevelFits(condition)
    ensures Strict(condition, condition.level) && !Soft(condition, condition.level)
    ensures Strict(condition, EdgePrice(condition)) && Soft(condition, EdgePrice(condition))
  {
    FloorIsAbove(condition.level, Tolerance(condition));
    hide LevelFloor, LevelCeiling;
  }

  lemma NegativeRatio(condition: Condition, history: seq<Sample>)
    requires !Soft(condition, condition.level) && Soft(condition, EdgePrice(condition))
    requires history == NegativeStream(condition)
    ensures SampleRatio(condition, history) < MinRatio(condition)
  {
    hide LevelFloor, LevelCeiling, Soft, Outnumber, MinRatio, EdgePrice;
    var n := |history| - 1;
    NoHits(condition, history[..n]);
    assert Hits(condition, history) == 1;
  }
}
