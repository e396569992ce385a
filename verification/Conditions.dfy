// Price conditions over a sliding window of samples.
module Conditions {
  import opened Decimals
  import opened Options

  datatype Kind =
    | PriceGe | PriceLe | PriceBetween
    | CrossAbove | CrossBelow
    | SustainedGe | SustainedLe | SustainedBetween
    | OtherKind

  datatype Condition = Condition(
    kind: Kind, level: real, low: real, high: real,
    timerSeconds: int, toleranceBps: real, minRatio: real)

  datatype Sample = Sample(ts: real, price: real)

  const DEFAULT_MIN_RATIO := 0.85
  const CLOCK_SLACK := 0.000000001

  // ---------- the price history ----------

  function DropOld(history: seq<Sample>, now: real, keepSeconds: int): seq<Sample> {
    if history != [] && now - history[0].ts > keepSeconds as real then DropOld(history[1..], now, keepSeconds)
    else history
  }

  function Updated(history: seq<Sample>, price: real, now: real, keepSeconds: int): seq<Sample> {
    DropOld(history + [Sample(now, price)], now, keepSeconds)
  }

  // ---------- the window ----------

  /** The earliest time in the window; none when it is unbounded. */
  function WindowStart(timerSeconds: int, now: real, since: Option<real>): Option<real> {
    if timerSeconds > 0 then
      var left := now - timerSeconds as real;
      Some(if since.Some? && since.value > left then since.value else left)
    else since
  }

  predicate InWindow(sample: Sample, start: Option<real>) {
    start == None || sample.ts >= start.value
  }

  function Filtered(history: seq<Sample>, start: Option<real>): seq<Sample> {
    if history == [] then []
    else
      var n := |history| - 1;
      Filtered(history[..n], start) + if InWindow(history[n], start) then [history[n]] else []
  }

  function HistorySlice(history: seq<Sample>, timerSeconds: int, now: real, since: Option<real>): seq<Sample> {
    Filtered(history, WindowStart(timerSeconds, now, since))
  }

  // ---------- tolerances ----------

  function Tolerance(condition: Condition): (bps: real)
    ensures bps >= 0.0
  {
    if condition.toleranceBps > 0.0 then condition.toleranceBps else 0.0
  }

  function MinRatio(condition: Condition): (ratio: real)
    ensures 0.0 < ratio <= 1.0
    ensures 0.0 < condition.minRatio <= 1.0 ==> ratio == condition.minRatio
    ensures condition.minRatio <= 0.0 ==> ratio == DEFAULT_MIN_RATIO
    ensures condition.minRatio > 1.0 ==> ratio == 1.0
  {
    var raw := if condition.minRatio <= 0.0 then DEFAULT_MIN_RATIO else condition.minRatio;
    if raw > 1.0 then 1.0 else raw
  }

  function LevelFloor(level: real, bps: real): real {
    level * (1.0 - bps / 10000.0)
  }

  function LevelCeiling(level: real, bps: real): real {
    level * (1.0 + bps / 10000.0)
  }

  function Sorted(a: real, b: real): (real, real) {
    if b < a then (b, a) else (a, b)
  }

  function Band(low: real, high: real, bps: real): (real, real) {
    var (lo, hi) := Sorted(low, high);
    if lo <= 0.0 && hi <= 0.0 then (lo, hi)
    else
      var pad := Max(Max(Abs(lo), Abs(hi)), 1.0) * bps / 10000.0;
      (lo - pad, hi + pad)
  }

  /** The prices a condition accepts once its tolerance is applied. */
  predicate Soft(condition: Condition, price: real) {
    var bps := Tolerance(condition);
    match condition.kind
    case PriceGe | CrossAbove | SustainedGe => price >= LevelFloor(condition.level, bps)
    case PriceLe | CrossBelow | SustainedLe => price <= LevelCeiling(condition.level, bps)
    case PriceBetween | SustainedBetween =>
      var (lo, hi) := Band(condition.low, condition.high, bps);
      lo <= price <= hi
    case OtherKind => false
  }

  /** The prices a sustained condition accepts without tolerance. */
  predicate Strict(condition: Condition, price: real) {
    match condition.kind
    case SustainedGe => price >= condition.level
    case SustainedLe => price <= condition.level
    case SustainedBetween =>
      var (lo, hi) := Sorted(condition.low, condition.high);
      lo <= price <= hi
    case _ => false
  }

  function Hits(condition: Condition, samples: seq<Sample>): (hits: nat)
    ensures hits <= |samples|
  {
    if samples == [] then 0
    else
      var n := |samples| - 1;
      Hits(condition, samples[..n]) + if Soft(condition, samples[n].price) then 1 else 0
  }

  function SampleRatio(condition: Condition, samples: seq<Sample>): real {
    if samples == [] then 0.0 else Hits(condition, samples) as real / |samples| as real
  }

  predicate Hard(condition: Condition, samples: seq<Sample>) {
    forall i :: 0 <= i < |samples| ==> Strict(condition, samples[i].price)
  }

  // ---------- crossings ----------

  predicate StepUp(previous: real, price: real, level: real) {
    previous < level <= price
  }

  predicate StepDown(previous: real, price: real, level: real) {
    previous > level >= price
  }

  predicate CrossesAbove(samples: seq<Sample>, level: real) {
    exists i :: 0 < i < |samples| && StepUp(samples[i - 1].price, samples[i].price, level)
  }

  predicate CrossesBelow(samples: seq<Sample>, level: real) {
    exists i :: 0 < i < |samples| && StepDown(samples[i - 1].price, samples[i].price, level)
  }

  method CrossedAboveInSamples(samples: seq<Sample>, level: real) returns (crossed: bool)
    ensures crossed == CrossesAbove(samples, level)
  {
    var previous: Option<real> := None;
    for i := 0 to |samples|
      invariant previous == if i == 0 then None else Some(samples[i - 1].price)
      invariant forall j :: 0 < j < i ==> !StepUp(samples[j - 1].price, samples[j].price, level)
    {
      var price := samples[i].price;
      if previous.Some? && previous.value < level <= price {
        assert StepUp(samples[i - 1].price, samples[i].price, level);
        return true;
      }
      previous := Some(price);
    }
    crossed := false;
  }

  method CrossedBelowInSamples(samples: seq<Sample>, level: real) returns (crossed: bool)
    ensures crossed == CrossesBelow(samples, level)
  {
    var previous: Option<real> := None;
    for i := 0 to |samples|
      invariant previous == if i == 0 then None else Some(samples[i - 1].price)
      invariant forall j :: 0 < j < i ==> !StepDown(samples[j - 1].price, samples[j].price, level)
    {
      var price := samples[i].price;
      if previous.Some? && previous.value > level >= price {
        assert StepDown(samples[i - 1].price, samples[i].price, level);
        return true;
      }
      previous := Some(price);
    }
    crossed := false;
  }

  // ---------- what it means for a condition to be met ----------

  /** Ten-thousandths of x, the tolerance; a negative setting counts as none. */
  function Slack(condition: Condition, x: real): real {
    if condition.toleranceBps > 0.0 then x * condition.toleranceBps / 10000.0 else 0.0
  }

  /** The price has reached the level from below, to within the tolerance. */
  predicate AtOrAbove(condition: Condition, price: real) {
    price >= condition.level - Slack(condition, condition.level)
  }

  predicate AtOrBelow(condition: Condition, price: real) {
    price <= condition.level + Slack(condition, condition.level)
  }

  function Magnitude(x: real): real {
    if x >= 0.0 then x else -x
  }

  /** The larger magnitude of the ends, and at least one. */
  function RangeScale(condition: Condition): (scale: real)
    ensures scale >= 1.0 && scale >= Magnitude(condition.low) && scale >= Magnitude(condition.high)
    ensures scale == 1.0 || scale == Magnitude(condition.low) || scale == Magnitude(condition.high)
  {
    var larger := if Magnitude(condition.low) >= Magnitude(condition.high) then Magnitude(condition.low)
                  else Magnitude(condition.high);
    if larger >= 1.0 then larger else 1.0
  }

  /** The price lies between the ends in either order, widened by the tolerance if one of them is positive. */
  predicate WithinRange(condition: Condition, price: real) {
    var widen := if condition.low > 0.0 || condition.high > 0.0 then Slack(condition, RangeScale(condition)) else 0.0;
    && (price >= condition.low - widen || price >= condition.high - widen)
    && (price <= condition.low + widen || price <= condition.high + widen)
  }

  /** The side of its level or range on which a condition wants the price. */
  predicate OnSide(condition: Condition, price: real) {
    match condition.kind
    case PriceGe | CrossAbove | SustainedGe => AtOrAbove(condition, price)
    case PriceLe | CrossBelow | SustainedLe => AtOrBelow(condition, price)
    case PriceBetween | SustainedBetween => WithinRange(condition, price)
    case OtherKind => false
  }

  /** The positions of the samples that are on side. */
  ghost function OnSideAt(condition: Condition, samples: seq<Sample>): set<int> {
    set i | 0 <= i < |samples| && OnSide(condition, samples[i].price)
  }

  /** A price that satisfies a sustained condition without any tolerance. */
  predicate Outright(condition: Condition, price: real) {
    match condition.kind
    case SustainedGe => condition.level <= price
    case SustainedLe => condition.level >= price
    case SustainedBetween =>
      (condition.low <= price || condition.high <= price) && (price <= condition.low || price <= condition.high)
    case _ => false
  }

  predicate StepsAcross(condition: Condition, before: real, after: real) {
    if condition.kind == CrossAbove then before < condition.level && condition.level <= after
    else before > condition.level && condition.level >= after
  }

  /**
    * The condition is met, given the samples of its window: at once by its side
    * of the price; by a step across the level, now or, with a timer and two
    * samples, anywhere in the window; or by a window that reaches back far
    * enough and is on side throughout or for the ratio asked.
    */
  ghost predicate Meets(condition: Condition, price: real, previous: Option<real>, samples: seq<Sample>,
                        now: real, since: Option<real>)
  {
    match condition.kind
    case PriceGe | PriceLe | PriceBetween => OnSide(condition, price)
    case CrossAbove | CrossBelow =>
      if condition.timerSeconds > 0 && |samples| >= 2 then
        && OnSide(condition, price)
        && exists i :: 0 < i < |samples| && StepsAcross(condition, samples[i - 1].price, samples[i].price)
      else previous.Some? && StepsAcross(condition, previous.value, price)
    case SustainedGe | SustainedLe | SustainedBetween =>
      && samples != [] && OnSide(condition, price)
      && (condition.timerSeconds > 0 ==>
            && (since.Some? ==> since.value + condition.timerSeconds as real <= now)
            && samples[0].ts <= now - condition.timerSeconds as real + 0.000000001)
      && ((forall i :: 0 <= i < |samples| ==> Outright(condition, samples[i].price))
          || |OnSideAt(condition, samples)| as real >= MinRatio(condition) * |samples| as real)
    case OtherKind => false
  }

  lemma SlackScales(x: real, bps: real)
    ensures x * (1.0 - bps / 10000.0) == x - x * bps / 10000.0
    ensures x * (1.0 + bps / 10000.0) == x + x * bps / 10000.0
  {
    var t := bps / 10000.0;
    assert x * bps / 10000.0 == x * t;
  }

  lemma SlackIsTolerance(condition: Condition, x: real)
    ensures x * Tolerance(condition) / 10000.0 == Slack(condition, x)
  {
    if condition.toleranceBps <= 0.0 {
      assert x * 0.0 == 0.0;
    }
  }

  lemma SoftIsOnSide(condition: Condition, price: real)
    ensures Soft(condition, price) <==> OnSide(condition, price)
  {
    LevelSides(condition);
    RangeIsBand(condition, price);
    hide Band, WithinRange, LevelFloor, LevelCeiling, Slack, Tolerance;
  }

  lemma LevelSides(condition: Condition)
    ensures LevelFloor(condition.level, Tolerance(condition)) == condition.level - Slack(condition, condition.level)
    ensures LevelCeiling(condition.level, Tolerance(condition)) == condition.level + Slack(condition, condition.level)
  {
    SlackScales(condition.level, Tolerance(condition));
    SlackIsTolerance(condition, condition.level);
    hide Tolerance, Slack;
  }

  lemma RangeIsBand(condition: Condition, price: real)
    ensures
      var (lo, hi) := Band(condition.low, condition.high, Tolerance(condition));
      lo <= price <= hi <==> WithinRange(condition, price)
  {
    BandIsWidened(condition.low, condition.high, Tolerance(condition), RangeScale(condition), Slack(condition, RangeScale(condition))) by {
      SlackIsTolerance(condition, RangeScale(condition));
      hide Tolerance, Slack;
    }
    SlackIsPositive(condition, RangeScale(condition));
    hide RangeScale, Band, Tolerance, Slack;
  }

  lemma SlackIsPositive(condition: Condition, scale: real)
    requires scale >= 1.0
    ensures Slack(condition, scale) >= 0.0
  {
    if condition.toleranceBps > 0.0 {
      assert scale * condition.toleranceBps > 0.0;
    }
  }

  /** The band is the ordered ends, widened when one of them is positive. */
  lemma BandIsWidened(low: real, high: real, bps: real, scale: real, slack: real)
    requires scale * bps / 10000.0 == slack
    requires scale == Max(Max(Abs(low), Abs(high)), 1.0)
    ensures
      var widen := if low > 0.0 || high > 0.0 then slack else 0.0;
      Band(low, high, bps) == ((if low <= high then low else high) - widen, (if low <= high then high else low) + widen)
  {
    var (lo, hi) := Sorted(low, high);
    assert Max(Max(Abs(lo), Abs(hi)), 1.0) == scale;
  }

  lemma {:induction false} HitsAreOnSide(condition: Condition, samples: seq<Sample>)
    ensures |OnSideAt(condition, samples)| == Hits(condition, samples)
  {
    if samples != [] {
      var n := |samples| - 1;
      HitsAreOnSide(condition, samples[..n]);
      SoftIsOnSide(condition, samples[n].price);
      hide Soft, OnSide;
      var before := OnSideAt(condition, samples[..n]);
      assert forall i :: 0 <= i < n ==> samples[..n][i] == samples[i];
      assert OnSideAt(condition, samples) == if OnSide(condition, samples[n].price) then before + {n} else before;
    }
  }

  lemma ShareReaches(hits: real, total: real, ratio: real)
    requires total > 0.0
    ensures hits / total >= ratio <==> hits >= ratio * total
  {
    var share := hits / total;
    assert share * total == hits;
    if share >= ratio {
      assert (share - ratio) * total >= 0.0;
    } else {
      assert (ratio - share) * total > 0.0;
    }
  }

  lemma RatioIsShare(condition: Condition, samples: seq<Sample>)
    requires samples != []
    ensures SampleRatio(condition, samples) >= MinRatio(condition)
      <==> |OnSideAt(condition, samples)| as real >= MinRatio(condition) * |samples| as real
  {
    HitsAreOnSide(condition, samples);
    ShareReaches(Hits(condition, samples) as real, |samples| as real, MinRatio(condition));
    hide Hits, MinRatio, OnSideAt;
  }

  lemma StrictIsOutright(condition: Condition, price: real)
    ensures Strict(condition, price) <==> Outright(condition, price)
  {
  }

  /** Evaluating a condition is asking whether it is met. */
  lemma HoldsWhenMet(condition: Condition, price: real, previous: Option<real>, history: seq<Sample>,
                     now: real, since: Option<real>)
    ensures Holds(condition, price, previous, history, now, since)
      <==> Meets(condition, price, previous, HistorySlice(history, condition.timerSeconds, now, since), now, since)
  {
    var samples := HistorySlice(history, condition.timerSeconds, now, since);
    hide HistorySlice, SustainedHolds;
    if condition.kind in {SustainedGe, SustainedLe, SustainedBetween} {
      SustainedMatches(condition, price, previous, samples, now, since);
      hide Meets;
    } else if condition.kind in {CrossAbove, CrossBelow} {
      CrossingMatches(condition, price, previous, samples, now, since);
      hide Meets, CrossingHolds;
    } else {
      SoftIsOnSide(condition, price);
      hide Soft, OnSide;
    }
  }

  lemma SustainedMatches(condition: Condition, price: real, previous: Option<real>, samples: seq<Sample>,
                         now: real, since: Option<real>)
    requires condition.kind in {SustainedGe, SustainedLe, SustainedBetween}
    ensures SustainedHolds(condition, price, samples, now, since) <==> Meets(condition, price, previous, samples, now, since)
  {
    SoftIsOnSide(condition, price);
    if samples != [] {
      RatioIsShare(condition, samples);
    }
    HardIsOutright(condition, samples);
    hide Soft, OnSide, SampleRatio, MinRatio, OnSideAt, Hard, Outright;
  }

  lemma HardIsOutright(condition: Condition, samples: seq<Sample>)
    ensures Hard(condition, samples) <==> forall i :: 0 <= i < |samples| ==> Outright(condition, samples[i].price)
  {
    forall i | 0 <= i < |samples|
      ensures Strict(condition, samples[i].price) <==> Outright(condition, samples[i].price)
    {
      StrictIsOutright(condition, samples[i].price);
    }
    hide Strict, Outright;
  }

  lemma CrossingMatches(condition: Condition, price: real, previous: Option<real>, samples: seq<Sample>,
                        now: real, since: Option<real>)
    requires condition.kind in {CrossAbove, CrossBelow}
    ensures CrossingHolds(condition, price, previous, samples) <==> Meets(condition, price, previous, samples, now, since)
  {
    SoftIsOnSide(condition, price);
    CrossingsMatch(condition, samples);
    hide Soft, OnSide, CrossesAbove, CrossesBelow;
  }

  lemma CrossingsMatch(condition: Condition, samples: seq<Sample>)
    ensures condition.kind == CrossAbove ==>
      (CrossesAbove(samples, condition.level) <==>
       exists i :: 0 < i < |samples| && StepsAcross(condition, samples[i - 1].price, samples[i].price))
    ensures condition.kind == CrossBelow ==>
      (CrossesBelow(samples, condition.level) <==>
       exists i :: 0 < i < |samples| && StepsAcross(condition, samples[i - 1].price, samples[i].price))
  {
    if condition.kind == CrossAbove {
      forall i | 0 < i < |samples|
        ensures StepUp(samples[i - 1].price, samples[i].price, condition.level)
          <==> StepsAcross(condition, samples[i - 1].price, samples[i].price)
      {
      }
    } else if condition.kind == CrossBelow {
      forall i | 0 < i < |samples|
        ensures StepDown(samples[i - 1].price, samples[i].price, condition.level)
          <==> StepsAcross(condition, samples[i - 1].price, samples[i].price)
      {
      }
    }
    hide StepUp, StepDown, StepsAcross;
  }

  /** The window holds, in their order, exactly the samples no older than the timer and no earlier than the start. */
  lemma {:induction false} WindowIsExact(history: seq<Sample>, timerSeconds: int, now: real, since: Option<real>) returns (at: seq<nat>)
    ensures
      var samples := HistorySlice(history, timerSeconds, now, since);
      && |at| == |samples|
      && (forall k :: 0 <= k < |at| ==> at[k] < |history| && samples[k] == history[at[k]])
      && (forall k, l :: 0 <= k < l < |at| ==> at[k] < at[l])
      && (forall i :: 0 <= i < |history| ==> (i in at <==>
            && (timerSeconds > 0 ==> history[i].ts + timerSeconds as real >= now)
            && (since.Some? ==> history[i].ts >= since.value)))
  {
    at := [];
    if history != [] {
      var n := |history| - 1;
      at := WindowIsExact(history[..n], timerSeconds, now, since);
      if InWindow(history[n], WindowStart(timerSeconds, now, since)) {
        at := at + [n];
      }
    }
  }

  // ---------- evaluation ----------

  /** Whether a crossing condition holds given its window. */
  predicate CrossingHolds(condition: Condition, price: real, previous: Option<real>, samples: seq<Sample>)
    requires condition.kind in {CrossAbove, CrossBelow}
  {
    var crossedNow := previous.Some? &&
      if condition.kind == CrossAbove then StepUp(previous.value, price, condition.level)
      else StepDown(previous.value, price, condition.level);
    if condition.timerSeconds <= 0 || |samples| < 2 then crossedNow
    else
      && (if condition.kind == CrossAbove then CrossesAbove(samples, condition.level)
          else CrossesBelow(samples, condition.level))
      && Soft(condition, price)
  }

  /** Enough time has passed since observation began. */
  predicate SinceGate(condition: Condition, now: real, since: Option<real>) {
    since.Some? && condition.timerSeconds > 0 ==> now - since.value >= condition.timerSeconds as real
  }

  /** Whether a sustained condition holds given its window. */
  predicate SustainedHolds(condition: Condition, price: real, samples: seq<Sample>, now: real, since: Option<real>) {
    && SinceGate(condition, now, since)
    && samples != []
    && (condition.timerSeconds > 0 ==> now - samples[0].ts + CLOCK_SLACK >= condition.timerSeconds as real)
    && Soft(condition, price)
    && (Hard(condition, samples) || SampleRatio(condition, samples) >= MinRatio(condition))
  }

  predicate Holds(condition: Condition, price: real, previous: Option<real>, history: seq<Sample>,
                  now: real, since: Option<real>)
  {
    var samples := HistorySlice(history, condition.timerSeconds, now, since);
    match condition.kind
    case PriceGe | PriceLe | PriceBetween => Soft(condition, price)
    case CrossAbove | CrossBelow => CrossingHolds(condition, price, previous, samples)
    case SustainedGe | SustainedLe | SustainedBetween => SustainedHolds(condition, price, samples, now, since)
    case OtherKind => false
  }

  method EvaluateCondition(condition: Condition, price: real, previous: Option<real>, history: seq<Sample>,
                           now: real, since: Option<real>) returns (met: bool)
    ensures met == Holds(condition, price, previous, history, now, since)
    ensures met <==> Meets(condition, price, previous, HistorySlice(history, condition.timerSeconds, now, since), now, since)
  {
    HoldsWhenMet(condition, price, previous, history, now, since);
    hide Meets, HistorySlice, Soft, Hard, SampleRatio, MinRatio;
    match condition.kind {
      case PriceGe | PriceLe | PriceBetween =>
        return Soft(condition, price);
      case CrossAbove =>
        var crossedNow := previous.Some? && previous.value < condition.level <= price;
        if condition.timerSeconds <= 0 {
          return crossedNow;
        }
        var samples := HistorySlice(history, condition.timerSeconds, now, since);
        if |samples| < 2 {
          return crossedNow;
        }
        var crossed := CrossedAboveInSamples(samples, condition.level);
        return crossed && Soft(condition, price);
      case CrossBelow =>
        var crossedNow := previous.Some? && previous.value > condition.level >= price;
        if condition.timerSeconds <= 0 {
          return crossedNow;
        }
        var samples := HistorySlice(history, condition.timerSeconds, now, since);
        if |samples| < 2 {
          return crossedNow;
        }
        var crossed := CrossedBelowInSamples(samples, condition.level);
        return crossed && Soft(condition, price);
      case _ =>
        if since.Some? && condition.timerSeconds > 0 && now - since.value < condition.timerSeconds as real {
          return false;
        }
        var samples := HistorySlice(history, condition.timerSeconds, now, since);
        if samples == [] {
          return false;
        }
        if condition.timerSeconds > 0 && now - samples[0].ts + CLOCK_SLACK < condition.timerSeconds as real {
          return false;
        }
        if condition.kind == OtherKind {
          return false;
        }
        return Soft(condition, price) &&
               (Hard(condition, samples) || SampleRatio(condition, samples) >= MinRatio(condition));
    }
  }
}
