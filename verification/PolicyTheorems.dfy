// What the policy's decisions mean: sizes are the best affordable ones, entries
// pay for themselves, exits shrink the hedge, and neither provokes a correction.
module PolicyTheorems {
  import opened Decimals
  import opened Models
  import opened Options
  import opened Texts
  import opened Policy

  /** q respects the hedge ratio, the notional cap and (where asked) the margin on hand. */
  ghost predicate Affordable(config: Config, snapshot: Snapshot, q: real, withMargin: bool)
    requires config.Valid()
  {
    && 0.0 <= q <= Abs(snapshot.primary.size) * config.hedgeRatio
    && (config.maxHedgeNotional > 0.0 ==> q * snapshot.funding.markPrice <= config.maxHedgeNotional)
    && (withMargin ==> MarginSuffices(config, snapshot, q))
  }

  /** At the leverage assumed, q times the safety margin fits into what lies beyond the reserve. */
  predicate MarginSuffices(config: Config, snapshot: Snapshot, q: real) {
    q == 0.0
    || q * snapshot.funding.markPrice * config.marginSafety
       <= (snapshot.hedge.withdrawable - config.minAvailableMargin) * config.leverage
  }

  /** q is the largest affordable size the exchange can represent. */
  ghost predicate IsBestSize(config: Config, snapshot: Snapshot, q: real, withMargin: bool)
    requires config.Valid()
  {
    && OnLattice(q, snapshot.funding.decimals)
    && Affordable(config, snapshot, q, withMargin)
    && forall x: real ::
         OnLattice(x, snapshot.funding.decimals) && Affordable(config, snapshot, x, withMargin) ==> x <= q
  }

  lemma QuotientBound(x: real, c: real, m: real)
    requires m > 0.0
    ensures x <= c / m <==> x * m <= c
    ensures c >= 0.0 ==> c / m >= 0.0
  {
    var y := c / m;
    assert y * m == c;
  }

  lemma MarginAlgebra(q: real, b: real, l: real, m: real, s: real)
    requires l > 0.0 && m > 0.0 && s >= 1.0
    ensures q <= b * l / m / s <==> q * m / l * s <= b
    ensures b >= 0.0 ==> b * l / m / s >= 0.0
  {
    var bl := b * l;
    QuotientBound(q, bl / m, s);
    QuotientBound(q * s, bl, m);
    QuotientBound(0.0, bl, m);
    var r := q * m / l;
    assert r * l == q * m;
    assert (r * s) * l == (r * l) * s;
    assert (q * s) * m == (q * m) * s;
    ScaleOrder(r * s, b, l);
  }

  lemma MarginScaled(q: real, b: real, l: real, m: real, s: real)
    requires l > 0.0 && m > 0.0 && s >= 1.0
    ensures q * m / l * s <= b <==> q * m * s <= b * l
  {
    var r := q * m / l;
    assert r * l == q * m;
    assert (r * s) * l == (r * l) * s;
    ScaleOrder(r * s, b, l);
  }

  lemma PositiveNeed(q: real, m: real, s: real)
    requires q > 0.0 && m > 0.0 && s >= 1.0
    ensures q * m * s > 0.0
  {
  }

  lemma MarginMeaning(config: Config, snapshot: Snapshot, q: real)
    requires config.Valid() && snapshot.Valid() && q >= 0.0
    ensures RequiredMargin(config, snapshot, q) <= MarginBudget(config, snapshot) <==> MarginSuffices(config, snapshot, q)
  {
    var m, l, s := snapshot.funding.markPrice, config.leverage, config.marginSafety;
    var spare := snapshot.hedge.withdrawable - config.minAvailableMargin;
    MarginScaled(q, MarginBudget(config, snapshot), l, m, s);
    if q > 0.0 {
      PositiveNeed(q, m, s);
      ScaleOrder(spare, 0.0, l);
    }
  }

  lemma MarginCapBound(config: Config, snapshot: Snapshot, q: real)
    requires config.Valid() && snapshot.Valid()
    ensures q <= MarginQuantityCap(config, snapshot)
            <==> RequiredMargin(config, snapshot, q) <= MarginBudget(config, snapshot)
    ensures MarginQuantityCap(config, snapshot) >= 0.0
  {
    MarginAlgebra(q, MarginBudget(config, snapshot), config.leverage, snapshot.funding.markPrice, config.marginSafety);
  }

  lemma AffordableUpToCap(config: Config, snapshot: Snapshot, withMargin: bool, q: real)
    requires config.Valid() && snapshot.Valid()
    ensures Affordable(config, snapshot, q, withMargin) <==> 0.0 <= q <= SizeCap(config, snapshot, withMargin)
  {
    QuotientBound(q, config.maxHedgeNotional, snapshot.funding.markPrice);
    MarginCapBound(config, snapshot, q);
    if q >= 0.0 {
      MarginMeaning(config, snapshot, q);
    }
    hide MarginQuantityCap, RequiredMargin, MarginBudget, MarginSuffices;
  }

  lemma SizeCapNonNegative(config: Config, snapshot: Snapshot, withMargin: bool)
    requires config.Valid() && snapshot.Valid()
    ensures SizeCap(config, snapshot, withMargin) >= 0.0
  {
    var z := Abs(snapshot.primary.size);
    assert z * config.hedgeRatio >= 0.0;
    QuotientBound(0.0, config.maxHedgeNotional, snapshot.funding.markPrice);
    MarginCapBound(config, snapshot, 0.0);
  }

  lemma TargetQuantityIsBest(config: Config, snapshot: Snapshot, withMargin: bool)
    requires config.Valid() && snapshot.Valid()
    ensures IsBestSize(config, snapshot, TargetQuantity(config, snapshot, withMargin), withMargin)
  {
    var cap := SizeCap(config, snapshot, withMargin);
    SizeCapNonNegative(config, snapshot, withMargin);
    QuantizeDownIsGreatestLatticePoint(cap, snapshot.funding.decimals);
    AffordableUpToCap(config, snapshot, withMargin, TargetQuantity(config, snapshot, withMargin));
    forall x: real | OnLattice(x, snapshot.funding.decimals) && Affordable(config, snapshot, x, withMargin)
      ensures x <= TargetQuantity(config, snapshot, withMargin)
    {
      AffordableUpToCap(config, snapshot, withMargin, x);
    }
  }

  lemma TargetSizeShape(config: Config, snapshot: Snapshot, withMargin: bool)
    requires config.Valid() && snapshot.Valid()
    ensures TargetQuantity(config, snapshot, withMargin) >= 0.0
    ensures snapshot.primary.size != 0.0 ==>
              Abs(TargetSize(config, snapshot, withMargin)) == TargetQuantity(config, snapshot, withMargin)
    ensures TargetSize(config, snapshot, withMargin) != 0.0 ==>
              Sign(TargetSize(config, snapshot, withMargin)) == -Sign(snapshot.primary.size)
  {
    TargetQuantityIsBest(config, snapshot, withMargin);
  }

  /** Once the size is rounded under the margin cap, the later margin gate never fires. */
  lemma MarginGateNeverFires(config: Config, snapshot: Snapshot, now: Instant, cycle: Option<Cycle>)
    requires config.Valid() && snapshot.Valid()
    ensures Evaluate(config, snapshot, now, cycle).reason != InsufficientMargin
  {
    if snapshot.hedge.position.size == 0.0 && snapshot.primary.size != 0.0 {
      TargetQuantityIsBest(config, snapshot, true);
      TargetSizeShape(config, snapshot, true);
      MarginMeaning(config, snapshot, TargetQuantity(config, snapshot, true));
    }
    hide TargetQuantity, MarginSuffices, RoundTripCost, HedgeCredit, PrimaryDebit;
  }

  /** The primary pays at the next settlement. */
  predicate PrimaryPays(snapshot: Snapshot) {
    snapshot.primary.size * snapshot.funding.rate > 0.0
  }

  /** Funding rate magnitude times oracle price: what one unit pays or earns. */
  function UnitFunding(snapshot: Snapshot): real {
    snapshot.funding.oraclePrice * Abs(snapshot.funding.rate)
  }

  /** What q units earn on the side opposite a paying primary. */
  function Earnings(snapshot: Snapshot, q: real): real {
    q * UnitFunding(snapshot)
  }

  /** The data are neither ahead of the clock nor stale, and the settlement is near but not too near. */
  predicate EntryWindow(config: Config, snapshot: Snapshot, now: Instant) {
    var funding := snapshot.funding;
    && funding.observedAt <= now + Seconds(config.maxClockSkewSeconds)
    && now <= funding.observedAt + Seconds(config.maxDataAgeSeconds)
    && now + Seconds(config.openCutoffSeconds) < funding.nextFundingAt
    && funding.nextFundingAt <= now + Seconds(config.openLeadSeconds)
  }

  /** Every condition under which a new hedge of best size q is worth opening. */
  predicate Openable(config: Config, snapshot: Snapshot, now: Instant, q: real) {
    var funding := snapshot.funding;
    && Lower(snapshot.primary.address) != Lower(snapshot.hedge.position.address)
    && snapshot.hedge.position.size == 0.0
    && !snapshot.hedge.unknownOrders
    && funding.marketDataAvailable
    && Abs(snapshot.primary.size) * funding.oraclePrice >= config.minPositionNotional
    && PrimaryPays(snapshot)
    && EntryWindow(config, snapshot, now)
    && (snapshot.hedge.kind.Subaccount? && config.requireVerifiedSubaccount ==> snapshot.hedge.ownershipVerified)
    && snapshot.hedge.marginVerified
    && (':' in snapshot.symbol ==> snapshot.hedge.feeFormulaVerified || config.extraFeeRateKnown)
    && q > 0.0
    && q * funding.markPrice >= config.minHedgeNotional
    && Earnings(snapshot, q) - Charges(config, snapshot, q) >= config.minExpectedSaving
  }

  /** What one execution of q units is charged: the taker fee, the market's extra fee, and slippage. */
  function ExecutionCharge(config: Config, snapshot: Snapshot, q: real): real {
    var notional := q * snapshot.funding.markPrice;
    notional * snapshot.hedge.takerFeeRate + notional * config.extraFeeRate + notional * config.slippageRate
  }

  /** Opening q units and closing them again, with one risk buffer, scaled by the safety factor. */
  function Charges(config: Config, snapshot: Snapshot, q: real): real {
    var opening, closing := ExecutionCharge(config, snapshot, q), ExecutionCharge(config, snapshot, q);
    (opening + closing + q * snapshot.funding.markPrice * config.riskBufferRate) * config.costSafety
  }

  /** The round trip is charged as two executions and one buffer. */
  lemma RoundTripIsTwoExecutions(config: Config, snapshot: Snapshot, q: real)
    ensures RoundTripCost(config, snapshot, q) == Charges(config, snapshot, q)
  {
    TwiceDistributes(q * snapshot.funding.markPrice, snapshot.hedge.takerFeeRate, config.extraFeeRate,
                     config.slippageRate, config.riskBufferRate);
  }

  lemma TwiceDistributes(n: real, a: real, b: real, c: real, d: real)
    ensures n * (2.0 * (a + b + c) + d) == (n * a + n * b + n * c) + (n * a + n * b + n * c) + n * d
  {
  }

  lemma PaymentIsSignedProduct(size: real, funding: Funding)
    ensures FundingPayment(size, funding) == size * funding.oraclePrice * funding.rate
  {
    assert Abs(size) * Sign(size) == size;
    assert FundingPayment(size, funding) == (Abs(size) * Sign(size)) * (funding.oraclePrice * funding.rate);
  }

  lemma DebitMeaning(snapshot: Snapshot)
    requires snapshot.Valid()
    ensures PrimaryPays(snapshot) <==> PrimaryDebit(snapshot) > 0.0
    ensures PrimaryPays(snapshot) ==> PrimaryDebit(snapshot) == Abs(snapshot.primary.size) * UnitFunding(snapshot)
  {
    var z, o, r := snapshot.primary.size, snapshot.funding.oraclePrice, snapshot.funding.rate;
    PaymentIsSignedProduct(z, snapshot.funding);
    assert z * o * r == o * (z * r);
    ProductSign(o, z * r);
    if PrimaryPays(snapshot) {
      ProductSign(z, r);
      assert z * r == Abs(z) * Abs(r);
      assert o * (z * r) == Abs(z) * (o * Abs(r));
    }
  }

  lemma ProductSign(a: real, b: real)
    ensures a * b > 0.0 <==> (a > 0.0 && b > 0.0) || (a < 0.0 && b < 0.0)
  {
  }

  lemma CreditMeaning(snapshot: Snapshot, size: real)
    requires snapshot.Valid() && PrimaryPays(snapshot)
    requires size != 0.0 && Sign(size) == -Sign(snapshot.primary.size)
    ensures HedgeCredit(size, snapshot) == Abs(size) * UnitFunding(snapshot)
  {
    var o, r := snapshot.funding.oraclePrice, snapshot.funding.rate;
    ProductSign(snapshot.primary.size, r);
    PaymentIsSignedProduct(size, snapshot.funding);
    assert size * r == -(Abs(size) * Abs(r));
    assert size * o * r == o * (size * r);
    assert o * (Abs(size) * Abs(r)) == Abs(size) * (o * Abs(r));
    assert Abs(size) * Abs(r) >= 0.0;
    assert o * (Abs(size) * Abs(r)) >= 0.0;
  }

  lemma CostFigures(config: Config, snapshot: Snapshot, q: real)
    requires config.Valid() && snapshot.Valid() && Affordable(config, snapshot, q, true)
    ensures Notional(snapshot, q) == q * snapshot.funding.markPrice
    ensures RoundTripCost(config, snapshot, q) == Charges(config, snapshot, q)
    ensures RequiredMargin(config, snapshot, q) <= MarginBudget(config, snapshot)
  {
    RoundTripIsTwoExecutions(config, snapshot, q);
    MarginMeaning(config, snapshot, q);
    hide RoundTripCost, Charges, RequiredMargin, MarginBudget, MarginSuffices;
  }

  /** The figures of a flat account that would hedge q, in economic terms. */
  lemma EntryFigures(config: Config, snapshot: Snapshot, q: real)
    requires config.Valid() && snapshot.Valid()
    requires snapshot.hedge.position.size == 0.0 && snapshot.primary.size != 0.0
    requires IsBestSize(config, snapshot, q, true)
    ensures var f := FiguresFor(config, snapshot);
            && f.targetQty == q == Abs(f.targetSize)
            && (q > 0.0 ==> Sign(f.targetSize) == -Sign(snapshot.primary.size))
            && (f.primaryDebit > 0.0 <==> PrimaryPays(snapshot))
            && (PrimaryPays(snapshot) ==> f.primaryDebit == Earnings(snapshot, Abs(snapshot.primary.size)))
            && (PrimaryPays(snapshot) && q > 0.0 ==> f.hedgeCredit == Earnings(snapshot, q))
            && f.notional == q * snapshot.funding.markPrice
            && f.roundTripCost == Charges(config, snapshot, q)
            && f.requiredMargin == RequiredMargin(config, snapshot, q) <= MarginBudget(config, snapshot)
  {
    hide HedgeCredit, PrimaryDebit, RoundTripCost, RequiredMargin, UnitFunding, PrimaryPays, TargetQuantity, TargetSize,
         Charges, MarginSuffices, MarginBudget, QuantizeDown, SizeCap;
    CostFigures(config, snapshot, q);
    TargetQuantityIsBest(config, snapshot, true);
    TargetSizeShape(config, snapshot, true);
    DebitMeaning(snapshot);
    if PrimaryPays(snapshot) && q > 0.0 {
      CreditMeaning(snapshot, TargetSize(config, snapshot, true));
    }
  }

  lemma UnitFundingNonNegative(snapshot: Snapshot)
    requires snapshot.Valid()
    ensures UnitFunding(snapshot) >= 0.0
  {
  }

  lemma FlatPrimaryPaysNothing(snapshot: Snapshot)
    ensures snapshot.primary.size == 0.0 ==> !PrimaryPays(snapshot)
  {
  }

  lemma FractionBound(q: real, z: real, ratio: real)
    requires q <= z * ratio && z >= 0.0 && ratio <= 1.0
    ensures q <= z
  {
    UnitScale(ratio, 1.0, z);
  }

  /** A hedge is opened exactly when the gates hold for the best affordable size. */
  lemma OpensExactlyWhenWorthwhile(config: Config, snapshot: Snapshot, now: Instant, cycle: Option<Cycle>, q: real)
    requires config.Valid() && snapshot.Valid()
    requires IsBestSize(config, snapshot, q, true)
    ensures Evaluate(config, snapshot, now, cycle).action.OpenHedge?
            <==> OnlyActive(cycle).None? && Openable(config, snapshot, now, q)
  {
    hide FiguresFor, Charges, Earnings, PrimaryPays, IsBestSize;

    if snapshot.primary.size == 0.0 {
      FlatPrimaryPaysNothing(snapshot);
    } else if snapshot.hedge.position.size == 0.0 {
      EntryFigures(config, snapshot, q);
    }
  }

  lemma UnitScale(a: real, b: real, u: real)
    requires a <= b && u >= 0.0
    ensures a * u <= b * u
  {
  }

  /** Every opened hedge opposes the primary, is affordable, and leaves the primary better off. */
  lemma OpenIsSound(config: Config, snapshot: Snapshot, now: Instant, cycle: Option<Cycle>)
    requires config.Valid() && snapshot.Valid()
    requires Evaluate(config, snapshot, now, cycle).action.OpenHedge?
    ensures var d := Evaluate(config, snapshot, now, cycle);
            && d.delta == d.targetSize && d.delta != 0.0 && !d.reduceOnly && d.currentSize == 0.0
            && Sign(d.delta) == -Sign(snapshot.primary.size)
            && IsBestSize(config, snapshot, Abs(d.delta), true)
            && Abs(d.delta) <= Abs(snapshot.primary.size)
            && d.primaryDebit == Earnings(snapshot, Abs(snapshot.primary.size))
            && d.hedgeCredit == Earnings(snapshot, Abs(d.delta)) <= d.primaryDebit
            && d.roundTripCost == Charges(config, snapshot, Abs(d.delta))
            && d.primaryDebit - d.hedgeCredit + d.roundTripCost <= d.primaryDebit - config.minExpectedSaving
            && d.key == KeyFor(config, snapshot, snapshot.funding.nextFundingAt)
            && OnlyActive(cycle).None?
            && Openable(config, snapshot, now, Abs(d.delta))
  {
    hide FiguresFor, Charges, Earnings, RequiredMargin, TargetQuantity, MarginSuffices, PrimaryPays;
    var q := TargetQuantity(config, snapshot, true);
    TargetQuantityIsBest(config, snapshot, true);
    OpensExactlyWhenWorthwhile(config, snapshot, now, cycle, q);
    EntryFigures(config, snapshot, q);
    EarnsNoMore(config, snapshot, q);
    hide IsBestSize, EntryWindow;
  }

  /** The best size is no larger than the primary, and earns no more than the primary pays. */
  lemma EarnsNoMore(config: Config, snapshot: Snapshot, q: real)
    requires config.Valid() && snapshot.Valid() && IsBestSize(config, snapshot, q, true)
    ensures 0.0 <= q <= Abs(snapshot.primary.size)
    ensures Earnings(snapshot, q) <= Earnings(snapshot, Abs(snapshot.primary.size))
  {
    var z := Abs(snapshot.primary.size);
    FractionBound(q, z, config.hedgeRatio);
    UnitFundingNonNegative(snapshot);
    UnitScale(q, z, UnitFunding(snapshot));
    hide UnitFunding, MarginSuffices;
  }

  /** An exit is reduce-only and moves the hedge strictly toward zero without crossing it. */
  lemma ExitShrinks(config: Config, snapshot: Snapshot, now: Instant, cycle: Option<Cycle>)
    requires config.Valid() && snapshot.Valid()
    requires Evaluate(config, snapshot, now, cycle).action in {CloseHedge, AdjustHedge}
    ensures var d := Evaluate(config, snapshot, now, cycle);
            && d.reduceOnly && OnlyActive(cycle).Some? && SameIdentity(config, cycle.value, snapshot)
            && d.currentSize == snapshot.hedge.position.size != 0.0
            && Sign(d.delta) == -Sign(d.currentSize)
            && 0.0 < Abs(d.delta) <= Abs(d.currentSize)
            && Abs(d.currentSize + d.delta) == Abs(d.currentSize) - Abs(d.delta)
            && (d.action.CloseHedge? ==> d.currentSize + d.delta == 0.0)
            && (d.action.AdjustHedge? ==> d.currentSize + d.delta == TargetSize(config, snapshot, false))
  {
    TargetSizeShape(config, snapshot, false);
  }

  /** The policy waits only for an unconfirmed settlement of a live hedge. */
  lemma WaitIsUnconfirmed(config: Config, snapshot: Snapshot, now: Instant, cycle: Option<Cycle>)
    requires config.Valid() && snapshot.Valid()
    requires Evaluate(config, snapshot, now, cycle).action.WaitForFunding?
    ensures OnlyActive(cycle).Some? && SameIdentity(config, cycle.value, snapshot)
    ensures !snapshot.hedge.fundingConfirmed && cycle.value.fundingConfirmedAt.None?
    ensures snapshot.hedge.position.size != 0.0 && !snapshot.hedge.unknownOrders
    ensures now < cycle.value.settlementAt + Seconds(config.confirmationTimeoutSeconds)
  {
  }

  /** The gates of waiting for a live hedge, in terms of what the policy is given. */
  predicate WaitGates(config: Config, snapshot: Snapshot, now: Instant, cycle: Cycle)
    requires config.Valid() && snapshot.Valid()
  {
    var current := snapshot.hedge.position.size;
    && snapshot.primary.size != 0.0 && Sign(current) == -Sign(snapshot.primary.size)
    && snapshot.funding.marketDataAvailable && PrimaryPays(snapshot)
    && Abs(current) <= TargetQuantity(config, snapshot, false) + Quantum(snapshot.funding.decimals) / 2.0
    && !snapshot.hedge.fundingConfirmed && cycle.fundingConfirmedAt.None?
    && now < cycle.settlementAt + Seconds(config.confirmationTimeoutSeconds)
    && !snapshot.hedge.unknownOrders
  }

  /** A live hedge of its own cycle waits exactly when all the gates hold. */
  lemma WaitsExactly(config: Config, snapshot: Snapshot, now: Instant, cycle: Cycle)
    requires config.Valid() && snapshot.Valid()
    requires Lower(snapshot.primary.address) != Lower(snapshot.hedge.position.address)
    requires cycle.Active() && SameIdentity(config, cycle, snapshot)
    requires snapshot.hedge.position.size != 0.0
    ensures Evaluate(config, snapshot, now, Some(cycle)).action.WaitForFunding?
            <==> WaitGates(config, snapshot, now, cycle)
    ensures Evaluate(config, snapshot, now, Some(cycle)).action in {CloseHedge, AdjustHedge, WaitForFunding}
  {
    DebitMeaning(snapshot);
    TargetSizeShape(config, snapshot, false);
    hide TargetSize, TargetQuantity, PrimaryDebit, PrimaryPays, Quantum, Lower, RoundTripCost, HedgeCredit, RequiredMargin;
  }

  /** A trim is called for: the hedge opposes a paying primary but exceeds its size by more than half a quantum. */
  predicate TrimGates(config: Config, snapshot: Snapshot)
    requires config.Valid() && snapshot.Valid()
  {
    var current := snapshot.hedge.position.size;
    && snapshot.primary.size != 0.0 && Sign(current) == -Sign(snapshot.primary.size)
    && snapshot.funding.marketDataAvailable && PrimaryPays(snapshot)
    && Abs(current) > TargetQuantity(config, snapshot, false) + Quantum(snapshot.funding.decimals) / 2.0
  }

  /** The snapshot is of the record's own symbol, accounts, network and account kind. */
  predicate OwnRecord(config: Config, cycle: Cycle, snapshot: Snapshot) {
    && snapshot.symbol == cycle.symbol && config.network == cycle.network && config.hedgeKind == cycle.hedgeKind
    && Lower(snapshot.primary.address) == Lower(cycle.primaryAddress)
    && Lower(snapshot.hedge.position.address) == Lower(cycle.hedgeAddress)
  }

  /** Why nothing can be done safely without a person. */
  predicate RecoveryGates(config: Config, snapshot: Snapshot, active: Option<Cycle>) {
    || Lower(snapshot.primary.address) == Lower(snapshot.hedge.position.address)
    || (active.Some? && !OwnRecord(config, active.value, snapshot))
    || (if snapshot.hedge.position.size != 0.0 then active.None?
        else snapshot.hedge.unknownOrders
             || (active.Some? && (active.value.status.Hedged? || active.value.status.AwaitingFunding?)))
  }

  /** Each action is decided exactly under its gates; opening is told apart by the economics alone. */
  lemma ActionExactly(config: Config, snapshot: Snapshot, now: Instant, cycle: Option<Cycle>)
    requires config.Valid() && snapshot.Valid()
    ensures var action := Evaluate(config, snapshot, now, cycle).action;
            var active := OnlyActive(cycle);
            var tracked := !RecoveryGates(config, snapshot, active) && snapshot.hedge.position.size != 0.0;
            && (action.DemandRecovery? <==> RecoveryGates(config, snapshot, active))
            && (action.AdjustHedge? <==> tracked && TrimGates(config, snapshot))
            && (action.WaitForFunding? <==> tracked && WaitGates(config, snapshot, now, active.value))
            && (action.CloseHedge? <==> tracked && !TrimGates(config, snapshot) && !WaitGates(config, snapshot, now, active.value))
            && (snapshot.hedge.position.size == 0.0 && active.Some? && !RecoveryGates(config, snapshot, active) ==> action.Hold?)
  {
    DebitMeaning(snapshot);
    TargetSizeShape(config, snapshot, false);
    hide TargetSize, TargetQuantity, PrimaryDebit, PrimaryPays, Quantum, Lower, RoundTripCost, HedgeCredit, RequiredMargin;
  }

  /** Past the confirmation timeout a tracked hedge is always being reduced. */
  lemma ForcedExit(config: Config, snapshot: Snapshot, now: Instant, cycle: Cycle)
    requires config.Valid() && snapshot.Valid()
    requires Lower(snapshot.primary.address) != Lower(snapshot.hedge.position.address)
    requires cycle.Active() && SameIdentity(config, cycle, snapshot)
    requires snapshot.hedge.position.size != 0.0
    requires now >= cycle.settlementAt + Seconds(config.confirmationTimeoutSeconds)
    ensures Evaluate(config, snapshot, now, Some(cycle)).action in {CloseHedge, AdjustHedge}
  {
  }

  /** The two snapshots agree on everything that sets the uncapped size. */
  predicate SameSizing(a: Snapshot, b: Snapshot) {
    && a.primary.size == b.primary.size
    && a.funding.markPrice == b.funding.markPrice
    && a.funding.decimals == b.funding.decimals
  }

  lemma UncappedCapDominates(config: Config, before: Snapshot, after: Snapshot, withMargin: bool)
    requires config.Valid() && before.Valid() && after.Valid() && SameSizing(before, after)
    ensures SizeCap(config, before, withMargin) <= SizeCap(config, after, false)
  {
    hide MarginQuantityCap;
  }

  /** The size kept by an open hedge is never below the size offered to a flat account. */
  lemma UncappedDominates(config: Config, before: Snapshot, after: Snapshot, withMargin: bool)
    requires config.Valid() && before.Valid() && after.Valid() && SameSizing(before, after)
    ensures Abs(TargetSize(config, before, withMargin)) <= Abs(TargetSize(config, after, false))
  {
    hide SizeCap, QuantizeDown, IsBestSize;
    UncappedCapDominates(config, before, after, withMargin);
    QuantizeDownMonotone(SizeCap(config, before, withMargin), SizeCap(config, after, false), after.funding.decimals);
    TargetSizeShape(config, before, withMargin);
    TargetSizeShape(config, after, false);
    hide TargetQuantity;
  }

  lemma AdjustMeans(config: Config, snapshot: Snapshot, now: Instant, cycle: Option<Cycle>)
    requires config.Valid() && snapshot.Valid()
    requires Evaluate(config, snapshot, now, cycle).action.AdjustHedge?
    ensures snapshot.hedge.position.size != 0.0
    ensures Abs(snapshot.hedge.position.size) > Abs(TargetSize(config, snapshot, false))
  {
  }

  /** Whatever part of an opening order fills, the policy does not want to trim it. */
  lemma OpeningIsStable(config: Config, before: Snapshot, openedAt: Instant, prior: Option<Cycle>,
                        after: Snapshot, now: Instant, cycle: Option<Cycle>)
    requires config.Valid() && before.Valid() && after.Valid()
    requires Evaluate(config, before, openedAt, prior).action.OpenHedge?
    requires SameSizing(before, after)
    requires var ordered := Evaluate(config, before, openedAt, prior).delta;
             Sign(after.hedge.position.size) == Sign(ordered) && Abs(after.hedge.position.size) <= Abs(ordered)
    ensures !Evaluate(config, after, now, cycle).action.AdjustHedge?
  {
    OpenIsSound(config, before, openedAt, prior);
    UncappedDominates(config, before, after, true);
    if Evaluate(config, after, now, cycle).action.AdjustHedge? {
      AdjustMeans(config, after, now, cycle);
    }
  }

  /** After a trim fills completely there is nothing left to trim. */
  lemma TrimmingConverges(config: Config, before: Snapshot, trimmed: Instant, prior: Option<Cycle>,
                          after: Snapshot, now: Instant, cycle: Option<Cycle>)
    requires config.Valid() && before.Valid() && after.Valid()
    requires Evaluate(config, before, trimmed, prior).action.AdjustHedge?
    requires SameSizing(before, after)
    requires after.hedge.position.size
             == before.hedge.position.size + Evaluate(config, before, trimmed, prior).delta
    ensures !Evaluate(config, after, now, cycle).action.AdjustHedge?
  {
    ExitShrinks(config, before, trimmed, prior);
    UncappedDominates(config, before, after, false);
    if Evaluate(config, after, now, cycle).action.AdjustHedge? {
      AdjustMeans(config, after, now, cycle);
    }
  }

  /** On representable sizes the half-quantum dead band tolerates nothing. */
  lemma DeadBandIsExact(config: Config, snapshot: Snapshot, withMargin: bool, current: real)
    requires config.Valid() && snapshot.Valid() && snapshot.primary.size != 0.0
    requires OnLattice(current, snapshot.funding.decimals)
    ensures var target := TargetSize(config, snapshot, withMargin);
            Abs(current) > Abs(target) + Quantum(snapshot.funding.decimals) / 2.0 <==> Abs(current) > Abs(target)
  {
    TargetQuantityIsBest(config, snapshot, withMargin);
    TargetSizeShape(config, snapshot, withMargin);
    LatticeAbs(current, snapshot.funding.decimals);
    var target := Abs(TargetSize(config, snapshot, withMargin));
    if Abs(current) > target {
      LatticeGap(target, Abs(current), snapshot.funding.decimals);
    }
  }
}
