// Resampling in two steps is resampling in one, and loses nothing.
module ResampleTheorems {
  import opened Sorting
  import opened Resample

  // ---------- the tower law ----------

  lemma NestedFloors(ts: int, small: nat, factor: nat)
    requires small > 0 && factor > 0
    ensures small * factor > 0
    ensures Floor(Floor(ts, small), small * factor) == Floor(ts, small * factor)
  {
    var w := small * 60000;
    var q := ts / w;
    MulPositive(small, factor);
    BigBucket(small, factor);
    FloorDivides(q, factor, w, ts % w);
    assert ts == q * w + ts % w;
    FloorDivides(q, factor, w, 0);
  }

  lemma MulPositive(a: nat, b: nat)
    requires a > 0 && b > 0
    ensures a * b > 0
  {
  }

  lemma BigBucket(small: nat, factor: nat)
    ensures small * factor * 60000 == factor * (small * 60000)
  {
  }

  /** q*w + r lies in the same multiple of factor*w as q*w. */
  lemma FloorDivides(q: int, factor: nat, w: nat, r: nat)
    requires factor > 0 && w > 0 && r < w
    ensures factor * w > 0
    ensures (q * w + r) / (factor * w) == q / factor
  {
    var d, m := q / factor, q % factor;
    MulPositive(factor, w);
    assert q == d * factor + m;
    assert q * w == d * (factor * w) + m * w by {
      Distribute(d, factor, m, w);
    }
    assert 0 <= m * w + r < factor * w by {
      TimesMonotone(m, factor, w);
      TimesMonotone(0, m, w);
    }
    QuotientIs(q * w + r, d, factor * w, m * w + r);
  }

  lemma Distribute(d: int, factor: int, m: int, w: int)
    ensures (d * factor + m) * w == d * (factor * w) + m * w
  {
  }

  lemma QuotientIs(n: int, d: int, w: int, r: int)
    requires w > 0 && 0 <= r < w && n == d * w + r
    ensures n / w == d
  {
    var e := n / w;
    assert n == e * w + n % w;
    TimesMonotone(d, e, w);
    TimesMonotone(e, d, w);
  }

  lemma PushOnto(older: seq<Bar>, last: Bar, bar: Bar, minutes: nat)
    requires minutes > 0 && last.ts == Floor(bar.ts, minutes)
    ensures Push(older + [last], bar, minutes) == older + [Merge(last, bar)]
  {
    assert (older + [last])[..|older|] == older;
  }

  lemma PushNew(candles: seq<Bar>, bar: Bar, minutes: nat)
    requires minutes > 0
    requires candles != [] ==> LastStart(candles) != Floor(bar.ts, minutes)
    ensures Push(candles, bar, minutes) == candles + [bar.(ts := Floor(bar.ts, minutes))]
  {
  }

  /** Pushing a merged candle is pushing its two parts in turn. */
  lemma PushMerged(candles: seq<Bar>, a: Bar, b: Bar, minutes: nat)
    requires minutes > 0
    requires Floor(a.ts, minutes) == Floor(b.ts, minutes)
    ensures Push(Push(candles, a, minutes), b, minutes) == Push(candles, Merge(a, b), minutes)
  {
    hide Floor, Push;
    var start := Floor(a.ts, minutes);
    if candles != [] && LastStart(candles) == start {
      var older, last := candles[..|candles| - 1], candles[|candles| - 1];
      assert candles == older + [last];
      PushOnto(older, last, a, minutes);
      PushOnto(older, Merge(last, a), b, minutes);
      PushOnto(older, last, Merge(a, b), minutes);
      MergeAssociates(last, a, b);
    } else {
      PushNew(candles, a, minutes);
      PushOnto(candles, a.(ts := start), b, minutes);
      PushNew(candles, Merge(a, b), minutes);
    }
  }

  lemma PushShifted(candles: seq<Bar>, bar: Bar, ts: int, minutes: nat)
    requires minutes > 0 && Floor(ts, minutes) == Floor(bar.ts, minutes)
    ensures Push(candles, bar.(ts := ts), minutes) == Push(candles, bar, minutes)
  {
    hide Floor;
  }

  lemma {:induction false} StreamingTower(bars: seq<Bar>, small: nat, factor: nat)
    requires small > 0 && factor > 0
    ensures small * factor > 0
    ensures Candles(Candles(bars, small), small * factor) == Candles(bars, small * factor)
  {
    MulPositive(small, factor);
    if bars != [] {
      var init, bar := bars[..|bars| - 1], bars[|bars| - 1];
      StreamingTower(init, small, factor);
      NestedFloors(bar.ts, small, factor);
      StreamingTowerStep(init, bar, small, small * factor);
    }
  }

  lemma {:induction false} StreamingTowerStep(bars: seq<Bar>, bar: Bar, small: nat, big: nat)
    requires small > 0 && big > 0
    requires Floor(Floor(bar.ts, small), big) == Floor(bar.ts, big)
    requires Candles(Candles(bars, small), big) == Candles(bars, big)
    ensures Candles(Push(Candles(bars, small), bar, small), big) == Push(Candles(bars, big), bar, big)
  {
    var inner := Candles(bars, small);
    var n := |inner| - 1;
    var start := Floor(bar.ts, small);
    hide Candles, Floor;
    if inner != [] && inner[n].ts == start {
      var older := inner[..n];
      assert inner == older + [inner[n]];
      CandlesPush(older, inner[n], big);
      CandlesPush(older, Merge(inner[n], bar), big);
      PushMerged(Candles(older, big), inner[n], bar, big);
    } else {
      CandlesPush(inner, bar.(ts := start), big);
      PushShifted(Candles(inner, big), bar, start, big);
    }
  }

  lemma IncreasingIsOrdered(bars: seq<Bar>)
    requires Increasing(bars)
    ensures Ordered(Time, bars)
  {
  }

  /** The output is strictly increasing in time whenever bars are grouped. */
  lemma ResampledIncreases(bars: seq<Bar>, minutes: nat)
    requires minutes > 0
    ensures Ordered(Time, Resampled(bars, minutes))
    ensures minutes > 1 ==> Increasing(Resampled(bars, minutes))
  {
    SortIsStable(Time, bars);
    if minutes > 1 {
      CandlesIncrease(Sort(Time, bars), minutes);
      IncreasingIsOrdered(Resampled(bars, minutes));
    }
  }

  /** Resampling to a small and then to an enclosing timeframe is resampling to the larger one. */
  lemma TowerLaw(bars: seq<Bar>, small: nat, factor: nat)
    requires small > 0 && factor > 0
    ensures small * factor > 0
    ensures Resampled(Resampled(bars, small), small * factor) == Resampled(bars, small * factor)
  {
    MulPositive(small, factor);
    ResampledIncreases(bars, small);
    SortOfOrdered(Time, Resampled(bars, small));
    if small > 1 {
      StreamingTower(Sort(Time, bars), small, factor);
      FactorKeepsAboveOne(small, factor);
    }
  }

  lemma FactorKeepsAboveOne(small: nat, factor: nat)
    requires small > 1 && factor > 0
    ensures small * factor > 1
  {
  }

  /** Each supported timeframe divides every longer one, so the law holds between any two of them. */
  lemma SupportedTower(bars: seq<Bar>, small: nat, big: nat)
    requires small in {1, 5, 15, 30, 60} && big in {1, 5, 15, 30, 60} && small <= big
    ensures Resampled(Resampled(bars, small), big) == Resampled(bars, big)
  {
    var factor := big / small;
    assert big == small * factor;
    TowerLaw(bars, small, factor);
  }

  // ---------- what each candle contains ----------

  /** A bucket starts at a whole number of intervals, no later than its bars and less than an interval before. */
  lemma BucketStartIsExact(ts: int, minutes: nat, start: int)
    requires minutes > 0
    ensures start == Floor(ts, minutes) <==>
      start % (minutes * 60000) == 0 && start <= ts < start + minutes * 60000
  {
    var w := minutes * 60000;
    var q := ts / w;
    assert ts == q * w + ts % w;
    WholeMultiple(q, w);
    if start % w == 0 && start <= ts < start + w {
      var p := start / w;
      assert start == p * w;
      QuotientIs(ts, p, w, ts - start);
    }
  }

  lemma WholeMultiple(q: int, w: int)
    requires w > 0
    ensures (q * w) % w == 0
  {
    QuotientIs(q * w, q, w, 0);
    assert q * w == (q * w) / w * w + (q * w) % w;
  }

  /** The bars of one bucket, in order. */
  function InBucket(bars: seq<Bar>, start: int, minutes: nat): seq<Bar>
    requires minutes > 0
  {
    if bars == [] then []
    else
      var n := |bars| - 1;
      InBucket(bars[..n], start, minutes) + if Floor(bars[n].ts, minutes) == start then [bars[n]] else []
  }

  lemma {:induction false} EmptyBucket(bars: seq<Bar>, start: int, minutes: nat)
    requires minutes > 0
    requires forall i :: 0 <= i < |bars| ==> Floor(bars[i].ts, minutes) != start
    ensures InBucket(bars, start, minutes) == []
  {
    if bars != [] {
      EmptyBucket(bars[..|bars| - 1], start, minutes);
    }
  }

  /** The candle summarises exactly the bars of its bucket, of which there is at least one. */
  ghost predicate Fits(candle: Bar, bars: seq<Bar>, minutes: nat)
    requires minutes > 0
  {
    var bucket := InBucket(bars, candle.ts, minutes);
    bucket != [] && candle == Summary(bucket, candle.ts)
  }

  predicate HasCandle(candles: seq<Bar>, start: int) {
    exists j :: 0 <= j < |candles| && candles[j].ts == start
  }

  /** Every candle summarises its bucket, and every bar's bucket has a candle. */
  ghost predicate Describes(candles: seq<Bar>, bars: seq<Bar>, minutes: nat)
    requires minutes > 0
  {
    && (forall j :: 0 <= j < |candles| ==> Fits(candles[j], bars, minutes))
    && (forall i :: 0 <= i < |bars| ==> HasCandle(candles, Floor(bars[i].ts, minutes)))
  }

  lemma InBucketPush(bars: seq<Bar>, bar: Bar, start: int, minutes: nat)
    requires minutes > 0
    ensures InBucket(bars + [bar], start, minutes) ==
      InBucket(bars, start, minutes) + if Floor(bar.ts, minutes) == start then [bar] else []
  {
    assert (bars + [bar])[..|bars|] == bars;
  }

  lemma FitsElsewhere(candle: Bar, bars: seq<Bar>, bar: Bar, minutes: nat)
    requires minutes > 0
    requires Fits(candle, bars, minutes) && candle.ts != Floor(bar.ts, minutes)
    ensures Fits(candle, bars + [bar], minutes)
  {
    InBucketPush(bars, bar, candle.ts, minutes);
    hide InBucket, Summary, Floor;
    assert InBucket(bars, candle.ts, minutes) + [] == InBucket(bars, candle.ts, minutes);
  }

  lemma FitsMerged(candle: Bar, bars: seq<Bar>, bar: Bar, minutes: nat)
    requires minutes > 0
    requires Fits(candle, bars, minutes) && candle.ts == Floor(bar.ts, minutes)
    ensures Fits(Merge(candle, bar), bars + [bar], minutes)
  {
    InBucketPush(bars, bar, candle.ts, minutes);
    SummaryMerges(InBucket(bars, candle.ts, minutes), bar, candle.ts);
  }

  lemma FitsNew(candles: seq<Bar>, bars: seq<Bar>, bar: Bar, minutes: nat)
    requires minutes > 0
    requires Describes(candles, bars, minutes)
    requires !HasCandle(candles, Floor(bar.ts, minutes))
    ensures Fits(bar.(ts := Floor(bar.ts, minutes)), bars + [bar], minutes)
  {
    var start := Floor(bar.ts, minutes);
    EmptyBucket(bars, start, minutes);
    InBucketPush(bars, bar, start, minutes);
    SummaryOfOne(bar, start);
  }

  lemma {:induction false} DescribesPush(candles: seq<Bar>, bars: seq<Bar>, bar: Bar, minutes: nat)
    requires minutes > 0
    requires Describes(candles, bars, minutes) && Increasing(candles)
    requires candles != [] ==> LastStart(candles) <= Floor(bar.ts, minutes)
    ensures Describes(Push(candles, bar, minutes), bars + [bar], minutes)
  {
    hide Floor, Fits, Push;
    var start := Floor(bar.ts, minutes);
    var older := candles;
    if candles != [] && LastStart(candles) == start {
      var last := candles[|candles| - 1];
      older := candles[..|candles| - 1];
      assert candles == older + [last];
      PushOnto(older, last, bar, minutes);
      FitsMerged(last, bars, bar, minutes);
    } else {
      PushNew(candles, bar, minutes);
      FitsNew(candles, bars, bar, minutes);
    }
    forall j | 0 <= j < |older| ensures Fits(older[j], bars + [bar], minutes) {
      FitsElsewhere(older[j], bars, bar, minutes);
    }
    CoveredPush(candles, bars, bar, minutes);
  }

  lemma CoveredPush(candles: seq<Bar>, bars: seq<Bar>, bar: Bar, minutes: nat)
    requires minutes > 0
    requires Describes(candles, bars, minutes)
    ensures
      var all := bars + [bar];
      forall i :: 0 <= i < |all| ==> HasCandle(Push(candles, bar, minutes), Floor(all[i].ts, minutes))
  {
    hide Floor, Fits, HasCandle;
    PushKeepsStarts(candles, bar, minutes);
  }

  lemma PushKeepsStarts(candles: seq<Bar>, bar: Bar, minutes: nat)
    requires minutes > 0
    ensures HasCandle(Push(candles, bar, minutes), Floor(bar.ts, minutes))
    ensures forall start :: HasCandle(candles, start) ==> HasCandle(Push(candles, bar, minutes), start)
  {
    hide Floor;
    var pushed := Push(candles, bar, minutes);
    assert pushed[|pushed| - 1].ts == Floor(bar.ts, minutes);
    forall start | HasCandle(candles, start) ensures HasCandle(pushed, start) {
      var j :| 0 <= j < |candles| && candles[j].ts == start;
      assert pushed[j].ts == candles[j].ts;
    }
  }

  lemma NextBarIsLater(bars: seq<Bar>, minutes: nat)
    requires minutes > 0 && Ordered(Time, bars) && |bars| > 1
    ensures Floor(bars[|bars| - 2].ts, minutes) <= Floor(bars[|bars| - 1].ts, minutes)
  {
    assert Time(bars[|bars| - 2]) <= Time(bars[|bars| - 1]);
    FloorMonotone(bars[|bars| - 2].ts, bars[|bars| - 1].ts, minutes);
  }

  lemma {:induction false} CandlesDescribe(bars: seq<Bar>, minutes: nat)
    requires minutes > 0 && Ordered(Time, bars)
    ensures Describes(Candles(bars, minutes), bars, minutes)
  {
    hide Floor, Fits, HasCandle, Push;
    if bars != [] {
      var n := |bars| - 1;
      CandlesDescribe(bars[..n], minutes);
      CandlesIncrease(bars[..n], minutes);
      if n > 0 {
        NextBarIsLater(bars, minutes);
      }
      hide Describes;
      DescribesPush(Candles(bars[..n], minutes), bars[..n], bars[n], minutes);
      assert bars[..n] + [bars[n]] == bars;
    }
  }

  predicate HighReached(bars: seq<Bar>, high: real) {
    exists i :: 0 <= i < |bars| && bars[i].high == high
  }

  predicate LowReached(bars: seq<Bar>, low: real) {
    exists i :: 0 <= i < |bars| && bars[i].low == low
  }

  lemma {:induction false} MaxHighIsMaximum(bars: seq<Bar>)
    requires bars != []
    ensures forall i :: 0 <= i < |bars| ==> bars[i].high <= MaxHigh(bars)
    ensures HighReached(bars, MaxHigh(bars))
  {
    var n := |bars| - 1;
    if MaxHigh(bars) == bars[n].high {
      assert HighReached(bars, bars[n].high);
    }
    if n > 0 {
      MaxHighIsMaximum(bars[..n]);
      if MaxHigh(bars) != bars[n].high {
        var i :| 0 <= i < n && bars[..n][i].high == MaxHigh(bars[..n]);
        assert bars[i].high == MaxHigh(bars);
      }
    }
  }

  lemma {:induction false} MinLowIsMinimum(bars: seq<Bar>)
    requires bars != []
    ensures forall i :: 0 <= i < |bars| ==> MinLow(bars) <= bars[i].low
    ensures LowReached(bars, MinLow(bars))
  {
    var n := |bars| - 1;
    if MinLow(bars) == bars[n].low {
      assert LowReached(bars, bars[n].low);
    }
    if n > 0 {
      MinLowIsMinimum(bars[..n]);
      if MinLow(bars) != bars[n].low {
        var i :| 0 <= i < n && bars[..n][i].low == MinLow(bars[..n]);
        assert bars[i].low == MinLow(bars);
      }
    }
  }

  /**
    * The bar opens and closes with the bucket's first and last bar, and its
    * high and low are the exact extremes of the bucket.
    */
  predicate Covers(candle: Bar, bucket: seq<Bar>) {
    && bucket != []
    && candle.open == bucket[0].open && candle.close == bucket[|bucket| - 1].close
    && candle.symbol == bucket[|bucket| - 1].symbol && candle.volume == Volume(bucket)
    && (candle.quoteOnly <==> forall i :: 0 <= i < |bucket| ==> bucket[i].quoteOnly)
    && (forall i :: 0 <= i < |bucket| ==> bucket[i].high <= candle.high && candle.low <= bucket[i].low)
    && HighReached(bucket, candle.high) && LowReached(bucket, candle.low)
  }

  lemma SummaryCovers(bucket: seq<Bar>, start: int)
    requires bucket != []
    ensures Covers(Summary(bucket, start), bucket)
  {
    MaxHighIsMaximum(bucket);
    MinLowIsMinimum(bucket);
    hide MaxHigh, MinLow, HighReached, LowReached;
  }

  /** Candle j covers the bars of its bucket, taken in the order of time. */
  lemma ExactExtremes(bars: seq<Bar>, minutes: nat, j: nat)
    requires minutes > 1 && j < |Resampled(bars, minutes)|
    ensures
      var candle := Resampled(bars, minutes)[j];
      Covers(candle, InBucket(Sort(Time, bars), candle.ts, minutes))
  {
    var sorted := Sort(Time, bars);
    SortIsStable(Time, bars);
    CandlesDescribe(sorted, minutes);
    hide Sort, Candles, InBucket, Covers, Summary;
    var candle := Resampled(bars, minutes)[j];
    assert Fits(candle, sorted, minutes);
    SummaryCovers(InBucket(sorted, candle.ts, minutes), candle.ts);
  }

  // ---------- conservation ----------

  lemma VolumePush(bars: seq<Bar>, bar: Bar)
    ensures Volume(bars + [bar]) == Volume(bars) + bar.volume
  {
    assert (bars + [bar])[..|bars|] == bars;
  }

  lemma PushAddsVolume(candles: seq<Bar>, bar: Bar, minutes: nat)
    requires minutes > 0
    ensures Volume(Push(candles, bar, minutes)) == Volume(candles) + bar.volume
  {
    hide Floor, Push, Volume;
    var start := Floor(bar.ts, minutes);
    if candles != [] && LastStart(candles) == start {
      var older, last := candles[..|candles| - 1], candles[|candles| - 1];
      assert candles == older + [last];
      PushOnto(older, last, bar, minutes);
      VolumePush(older, last);
      VolumePush(older, Merge(last, bar));
    } else {
      PushNew(candles, bar, minutes);
      VolumePush(candles, bar.(ts := start));
    }
  }

  lemma {:induction false} CandlesKeepVolume(bars: seq<Bar>, minutes: nat)
    requires minutes > 0
    ensures Volume(Candles(bars, minutes)) == Volume(bars)
  {
    hide Push;
    if bars != [] {
      var n := |bars| - 1;
      CandlesKeepVolume(bars[..n], minutes);
      PushAddsVolume(Candles(bars[..n], minutes), bars[n], minutes);
    }
  }

  lemma {:induction false} InsertAddsVolume(bars: seq<Bar>, bar: Bar)
    ensures Volume(Insert(Time, bars, bar)) == Volume(bars) + bar.volume
  {
    VolumePush(bars, bar);
    if bars != [] && Time(bars[|bars| - 1]) > Time(bar) {
      var n := |bars| - 1;
      InsertAddsVolume(bars[..n], bar);
      VolumePush(Insert(Time, bars[..n], bar), bars[n]);
    }
  }

  lemma {:induction false} SortKeepsVolume(bars: seq<Bar>)
    ensures Volume(Sort(Time, bars)) == Volume(bars)
  {
    if bars != [] {
      var n := |bars| - 1;
      SortKeepsVolume(bars[..n]);
      InsertAddsVolume(Sort(Time, bars[..n]), bars[n]);
    }
  }

  /** The total volume survives resampling. */
  lemma VolumeIsConserved(bars: seq<Bar>, minutes: nat)
    requires minutes > 0
    ensures Volume(Resampled(bars, minutes)) == Volume(bars)
  {
    SortKeepsVolume(bars);
    CandlesKeepVolume(Sort(Time, bars), minutes);
  }
}
