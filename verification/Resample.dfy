// Resampling price bars into larger bars.
module Resample {
  import opened Options
  import opened Sorting
  import opened Texts

  datatype Bar = Bar(ts: int, open: real, high: real, low: real, close: real,
                     volume: real, symbol: string, quoteOnly: bool)

  /** The supported timeframes, in minutes. */
  function MinutesOf(timeframe: string): (minutes: Option<nat>)
    ensures minutes.Some? ==> minutes.value in {1, 5, 15, 30, 60}
    ensures Lower(Strip(timeframe)) == "1h" <==> minutes == Some(60)
    ensures forall m :: m in {1, 5, 15, 30} ==> (minutes == Some(m) <==> Lower(Strip(timeframe)) == Minutes(m))
  {
    var name := Lower(Strip(timeframe));
    if name == "1m" then Some(1)
    else if name == "5m" then Some(5)
    else if name == "15m" then Some(15)
    else if name == "30m" then Some(30)
    else if name == "1h" then Some(60)
    else None
  }

  /** How a number of minutes below an hour is written. */
  function Minutes(m: nat): string {
    if m == 1 then "1m" else if m == 5 then "5m" else if m == 15 then "15m" else if m == 30 then "30m" else ""
  }

  /** The start of the bucket: a whole number of intervals, at or before the time. */
  function Floor(ts: int, minutes: nat): (start: int)
    requires minutes > 0
  {
    ts / (minutes * 60000) * (minutes * 60000)
  }

  const Time: Bar -> int := (bar: Bar) => bar.ts

  predicate Increasing(bars: seq<Bar>) {
    forall i, j :: 0 <= i < j < |bars| ==> bars[i].ts < bars[j].ts
  }

  // ---------- one larger bar ----------

  function MaxHigh(bars: seq<Bar>): real
    requires bars != []
  {
    var last := bars[|bars| - 1].high;
    if |bars| == 1 then last
    else var rest := MaxHigh(bars[..|bars| - 1]); if rest < last then last else rest
  }

  function MinLow(bars: seq<Bar>): real
    requires bars != []
  {
    var last := bars[|bars| - 1].low;
    if |bars| == 1 then last
    else var rest := MinLow(bars[..|bars| - 1]); if last < rest then last else rest
  }

  function Volume(bars: seq<Bar>): real {
    if bars == [] then 0.0 else Volume(bars[..|bars| - 1]) + bars[|bars| - 1].volume
  }

  predicate AllQuoteOnly(bars: seq<Bar>) {
    forall i :: 0 <= i < |bars| ==> bars[i].quoteOnly
  }

  function Summary(chunk: seq<Bar>, start: int): Bar
    requires chunk != []
  {
    var last := chunk[|chunk| - 1];
    Bar(start, chunk[0].open, MaxHigh(chunk), MinLow(chunk), last.close, Volume(chunk), last.symbol, AllQuoteOnly(chunk))
  }

  /** The bar covering a and then b. */
  function Merge(a: Bar, b: Bar): Bar {
    Bar(a.ts, a.open, if a.high < b.high then b.high else a.high, if b.low < a.low then b.low else a.low,
        b.close, a.volume + b.volume, b.symbol, a.quoteOnly && b.quoteOnly)
  }

  lemma MergeAssociates(a: Bar, b: Bar, c: Bar)
    ensures Merge(Merge(a, b), c) == Merge(a, Merge(b, c))
  {
  }

  lemma SummaryMerges(chunk: seq<Bar>, bar: Bar, start: int)
    requires chunk != []
    ensures Summary(chunk + [bar], start) == Merge(Summary(chunk, start), bar)
  {
    var all := chunk + [bar];
    assert all[..|chunk|] == chunk && all[|chunk|] == bar;
    assert AllQuoteOnly(all) == (AllQuoteOnly(chunk) && bar.quoteOnly) by {
      if AllQuoteOnly(all) {
        assert forall i :: 0 <= i < |chunk| ==> all[i] == chunk[i];
      }
    }
  }

  lemma SummaryOfOne(bar: Bar, start: int)
    ensures Summary([bar], start) == bar.(ts := start)
  {
    assert [bar][..0] == [];
    assert Volume([bar]) == 0.0 + bar.volume;
    assert AllQuoteOnly([bar]) == bar.quoteOnly by {
      assert [bar][0] == bar;
    }
  }

  // ---------- the streaming specification ----------

  function Push(candles: seq<Bar>, bar: Bar, minutes: nat): seq<Bar>
    requires minutes > 0
  {
    var start := Floor(bar.ts, minutes);
    var n := |candles| - 1;
    if candles != [] && candles[n].ts == start then candles[..n] + [Merge(candles[n], bar)]
    else candles + [bar.(ts := start)]
  }

  /** One pass over ordered bars. */
  function Candles(bars: seq<Bar>, minutes: nat): seq<Bar>
    requires minutes > 0
  {
    if bars == [] then []
    else Push(Candles(bars[..|bars| - 1], minutes), bars[|bars| - 1], minutes)
  }

  function Resampled(bars: seq<Bar>, minutes: nat): seq<Bar>
    requires minutes > 0
  {
    if minutes == 1 then Sort(Time, bars) else Candles(Sort(Time, bars), minutes)
  }

  lemma CandlesPush(bars: seq<Bar>, bar: Bar, minutes: nat)
    requires minutes > 0
    ensures Candles(bars + [bar], minutes) == Push(Candles(bars, minutes), bar, minutes)
  {
    assert (bars + [bar])[..|bars|] == bars;
  }

  lemma FloorMonotone(a: int, b: int, minutes: nat)
    requires minutes > 0
    ensures a <= b ==> Floor(a, minutes) <= Floor(b, minutes)
    ensures Floor(a, minutes) <= a < Floor(a, minutes) + minutes * 60000
  {
    var w := minutes * 60000;
    if a <= b {
      QuotientMonotone(a, b, w);
    }
    assert a == a / w * w + a % w;
  }

  lemma TimesNonNegative(a: int, b: int)
    requires a >= 0 && b >= 0
    ensures a * b >= 0
  {
  }

  lemma TimesMonotone(x: int, y: int, w: int)
    requires w > 0
    ensures x <= y ==> x * w <= y * w
    ensures x < y ==> x * w + w <= y * w
  {
    if x < y {
      TimesNonNegative(y - x - 1, w);
      TimesDistribute(y, x, w);
    }
  }

  lemma TimesDistribute(y: int, x: int, w: int)
    ensures (y - x - 1) * w == y * w - x * w - w
  {
  }

  lemma QuotientMonotone(a: int, b: int, w: int)
    requires w > 0 && a <= b
    ensures a / w * w <= b / w * w
  {
    var p, q := a / w, b / w;
    assert a == p * w + a % w && b == q * w + b % w;
    TimesMonotone(p, q, w);
    TimesMonotone(q, p, w);
  }

  /** The start of the bucket that is being filled. */
  function LastStart(candles: seq<Bar>): int
    requires candles != []
  {
    candles[|candles| - 1].ts
  }

  lemma PushKeepsIncreasing(candles: seq<Bar>, bar: Bar, minutes: nat)
    requires minutes > 0 && Increasing(candles)
    requires candles != [] ==> LastStart(candles) <= Floor(bar.ts, minutes)
    ensures Increasing(Push(candles, bar, minutes))
    ensures Push(candles, bar, minutes) != [] && LastStart(Push(candles, bar, minutes)) == Floor(bar.ts, minutes)
  {
    hide Floor;
  }

  /** The candles increase strictly and the last one is the last bar's. */
  lemma {:induction false} CandlesIncrease(bars: seq<Bar>, minutes: nat)
    requires minutes > 0 && Ordered(Time, bars)
    ensures Increasing(Candles(bars, minutes))
    ensures bars == [] <==> Candles(bars, minutes) == []
    ensures bars != [] ==> LastStart(Candles(bars, minutes)) == Floor(bars[|bars| - 1].ts, minutes)
  {
    if bars != [] {
      var n := |bars| - 1;
      CandlesIncrease(bars[..n], minutes);
      if n > 0 {
        assert Time(bars[n - 1]) <= Time(bars[n]);
        FloorMonotone(bars[n - 1].ts, bars[n].ts, minutes);
      }
      hide Floor, Push;
      PushKeepsIncreasing(Candles(bars[..n], minutes), bars[n], minutes);
    }
  }

  // ---------- the algorithm ----------

  predicate Ascending(keys: seq<int>) {
    forall i, j :: 0 <= i < j < |keys| ==> keys[i] < keys[j]
  }

  /** Groups the sorted bars into buckets and summarises each bucket; no such timeframe, no result. */
  method ResampleBars(bars: seq<Bar>, timeframe: string) returns (output: Option<seq<Bar>>)
    ensures MinutesOf(timeframe) == None ==> output == None
    ensures MinutesOf(timeframe) != None ==> output == Some(Resampled(bars, MinutesOf(timeframe).value))
  {
    hide Sort, Candles, MinutesOf;
    var found := MinutesOf(timeframe);
    if found == None {
      return None;
    }
    var minutes := found.value;
    var sorted := Sort(Time, bars);
    if minutes == 1 {
      return Some(sorted);
    }
    SortIsStable(Time, bars);
    var buckets, keys := Group(sorted, minutes);
    var bigger := Summarize(buckets, keys, Candles(sorted, minutes));
    output := Some(bigger);
  }

  method Summarize(buckets: map<int, seq<Bar>>, keys: seq<int>, ghost candles: seq<Bar>) returns (output: seq<Bar>)
    requires Grouped(buckets, keys, candles)
    ensures output == candles
  {
    hide Summary;
    output := [];
    for i := 0 to |keys|
      invariant output == candles[..i]
    {
      output := output + [Summary(buckets[keys[i]], keys[i])];
    }
  }

  /** The buckets and their starts in ascending order. */
  ghost predicate Grouped(buckets: map<int, seq<Bar>>, keys: seq<int>, candles: seq<Bar>) {
    && |keys| == |candles|
    && (forall start :: start in buckets <==> start in keys)
    && (forall i :: 0 <= i < |keys| ==> keys[i] == candles[i].ts)
    && (forall i :: 0 <= i < |keys| ==> keys[i] in buckets && buckets[keys[i]] != []
                                        && Summary(buckets[keys[i]], keys[i]) == candles[i])
  }

  method Group(sorted: seq<Bar>, minutes: nat) returns (buckets: map<int, seq<Bar>>, keys: seq<int>)
    requires minutes > 0 && Ordered(Time, sorted)
    ensures Grouped(buckets, keys, Candles(sorted, minutes))
    ensures Ascending(keys)
  {
    buckets, keys := map[], [];
    assert sorted[..0] == [];
    for i := 0 to |sorted|
      invariant Grouped(buckets, keys, Candles(sorted[..i], minutes))
    {
      var start := Floor(sorted[i].ts, minutes);
      assert sorted[..i + 1] == sorted[..i] + [sorted[i]];
      hide Floor, Grouped, Push, Candles;
      CandlesPush(sorted[..i], sorted[i], minutes);
      NextBucketIsLater(sorted, i, minutes);
      GroupPush(buckets, keys, Candles(sorted[..i], minutes), sorted[i], minutes);
      if start in buckets {
        buckets := buckets[start := buckets[start] + [sorted[i]]];
      } else {
        buckets := buckets[start := [sorted[i]]];
        keys := keys + [start];
      }
    }
    assert sorted[..|sorted|] == sorted;
    CandlesIncrease(sorted, minutes);
  }

  lemma NextBucketIsLater(sorted: seq<Bar>, i: nat, minutes: nat)
    requires minutes > 0 && Ordered(Time, sorted) && i < |sorted|
    ensures
      var candles := Candles(sorted[..i], minutes);
      Increasing(candles) && (candles != [] ==> LastStart(candles) <= Floor(sorted[i].ts, minutes))
  {
    CandlesIncrease(sorted[..i], minutes);
    hide Candles, Floor;
    if i > 0 {
      assert Time(sorted[i - 1]) <= Time(sorted[i]);
      FloorMonotone(sorted[i - 1].ts, sorted[i].ts, minutes);
    }
  }

  lemma GroupPush(buckets: map<int, seq<Bar>>, keys: seq<int>, candles: seq<Bar>, bar: Bar, minutes: nat)
    requires minutes > 0
    requires Grouped(buckets, keys, candles) && Increasing(candles)
    requires candles != [] ==> candles[|candles| - 1].ts <= Floor(bar.ts, minutes)
    ensures
      var start := Floor(bar.ts, minutes);
      if start in buckets then
        Grouped(buckets[start := buckets[start] + [bar]], keys, Push(candles, bar, minutes))
      else
        Grouped(buckets[start := [bar]], keys + [start], Push(candles, bar, minutes))
  {
    var start := Floor(bar.ts, minutes);
    hide Summary, Merge, Floor;
    if start in buckets {
      var n := |keys| - 1;
      assert keys[n] == start;
      SummaryMerges(buckets[start], bar, start);
    } else {
      SummaryOfOne(bar, start);
    }
  }
}
