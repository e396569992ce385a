// The pure hedge policy: sizing, funding economics and the decision ladder.
module Policy {
  import opened Decimals
  import opened Models
  import opened Options
  import opened Texts

  /** The quantity before rounding: the ratio, then the notional cap, then (if flat) the margin cap. */
  function UncappedQuantity(config: Config, snapshot: Snapshot): real
    requires snapshot.Valid()
  {
    var qty := Abs(snapshot.primary.size) * config.hedgeRatio;
    if config.maxHedgeNotional > 0.0
    then Min(qty, config.maxHedgeNotional / snapshot.funding.markPrice)
    else qty
  }

  function MarginBudget(config: Config, snapshot: Snapshot): real {
    Max(0.0, snapshot.hedge.withdrawable - config.minAvailableMargin)
  }

  function MarginQuantityCap(config: Config, snapshot: Snapshot): real
    requires config.Valid() && snapshot.Valid()
  {
    MarginBudget(config, snapshot) * config.leverage / snapshot.funding.markPrice / config.marginSafety
  }

  function SizeCap(config: Config, snapshot: Snapshot, applyMarginCap: bool): real
    requires config.Valid() && snapshot.Valid()
  {
    var qty := UncappedQuantity(config, snapshot);
    if applyMarginCap then Min(qty, MarginQuantityCap(config, snapshot)) else qty
  }

  function TargetQuantity(config: Config, snapshot: Snapshot, applyMarginCap: bool): real
    requires config.Valid() && snapshot.Valid()
  {
    QuantizeDown(SizeCap(config, snapshot, applyMarginCap), snapshot.funding.decimals)
  }

  function TargetSize(config: Config, snapshot: Snapshot, applyMarginCap: bool): real
    requires config.Valid() && snapshot.Valid()
  {
    -Sign(snapshot.primary.size) * TargetQuantity(config, snapshot, applyMarginCap)
  }

  /** What a position pays (positive) or receives (negative) at the next settlement. */
  function FundingPayment(size: real, funding: Funding): real {
    Abs(size) * funding.oraclePrice * funding.rate * Sign(size)
  }

  function PrimaryDebit(snapshot: Snapshot): real {
    Max(0.0, FundingPayment(snapshot.primary.size, snapshot.funding))
  }

  function HedgeCredit(size: real, snapshot: Snapshot): real {
    Max(0.0, -FundingPayment(size, snapshot.funding))
  }

  function Notional(snapshot: Snapshot, qty: real): real {
    qty * snapshot.funding.markPrice
  }

  function RoundTripCost(config: Config, snapshot: Snapshot, qty: real): real {
    Notional(snapshot, qty)
    * (2.0 * (snapshot.hedge.takerFeeRate + config.extraFeeRate + config.slippageRate) + config.riskBufferRate)
    * config.costSafety
  }

  function RequiredMargin(config: Config, snapshot: Snapshot, qty: real): real
    requires config.Valid()
  {
    Notional(snapshot, qty) / config.leverage * config.marginSafety
  }

  function KeyFor(config: Config, snapshot: Snapshot, settlement: Instant): CycleKey {
    CycleKey(config.network, Lower(snapshot.primary.address), Lower(snapshot.hedge.position.address),
             snapshot.symbol, Millis(settlement))
  }

  predicate SameIdentity(config: Config, cycle: Cycle, snapshot: Snapshot) {
    && cycle.symbol == snapshot.symbol
    && Lower(cycle.primaryAddress) == Lower(snapshot.primary.address)
    && Lower(cycle.hedgeAddress) == Lower(snapshot.hedge.position.address)
    && cycle.network == config.network
    && cycle.hedgeKind == config.hedgeKind
  }

  /** Everything the ladder compares, computed before it is climbed. */
  datatype Figures = Figures(
    targetSize: real,
    targetQty: real,
    primaryDebit: real,
    hedgeCredit: real,
    notional: real,
    roundTripCost: real,
    requiredMargin: real)

  function FiguresFor(config: Config, snapshot: Snapshot): Figures
    requires config.Valid() && snapshot.Valid()
  {
    var current := snapshot.hedge.position.size;
    var target := TargetSize(config, snapshot, current == 0.0);
    var size := if current != 0.0 then current else target;
    Figures(
      target,
      TargetQuantity(config, snapshot, current == 0.0),
      PrimaryDebit(snapshot),
      HedgeCredit(size, snapshot),
      Notional(snapshot, Abs(size)),
      RoundTripCost(config, snapshot, Abs(size)),
      RequiredMargin(config, snapshot, Abs(size)))
  }

  datatype Choice = Choice(action: Action, reason: Reason, delta: real, reduceOnly: bool)

  function Exit(current: real, reason: Reason): Choice {
    Choice(CloseHedge, reason, -current, true)
  }

  function Refuse(reason: Reason): Choice {
    Choice(Hold, reason, 0.0, false)
  }

  /** The part of the ladder for a non-zero hedge with an active cycle. */
  function ChooseForHedge(config: Config, snapshot: Snapshot, now: Instant, cycle: Cycle, f: Figures): Choice {
    var current := snapshot.hedge.position.size;
    if snapshot.primary.size == 0.0 then Exit(current, PrimaryIsFlat)
    else if Sign(current) != -Sign(snapshot.primary.size) then Exit(current, DirectionNoLongerOpposes)
    else if !snapshot.funding.marketDataAvailable then Exit(current, MarketDataUnavailableForHedge)
    else if f.primaryDebit <= 0.0 then Exit(current, FundingReversed)
    else if Abs(current) > Abs(f.targetSize) + Quantum(snapshot.funding.decimals) / 2.0 then
      Choice(AdjustHedge, HedgeExceedsAllowedRatio, f.targetSize - current, true)
    else if snapshot.hedge.fundingConfirmed || cycle.fundingConfirmedAt.Some? then
      Exit(current, FundingRecordConfirmed)
    else if now >= cycle.settlementAt + Seconds(config.confirmationTimeoutSeconds) then
      Exit(current, ConfirmationTimeout)
    else if snapshot.hedge.unknownOrders then Exit(current, UnknownOrderShutdown)
    else
      Choice(WaitForFunding,
             if now >= cycle.settlementAt then AwaitingFundingRecord else OpenBeforeSettlement, 0.0, false)
  }

  /** The part of the ladder for a flat hedge whose cycle is still active. */
  function ChooseForFlatCycle(cycle: Cycle): Choice {
    match cycle.status
    case CloseSubmitted | ClosePartial => Refuse(FlatAfterCloseSubmission)
    case OpenSubmitted | OpenPartial => Refuse(AwaitingOpenReconciliation)
    case Hedged | AwaitingFunding => Choice(DemandRecovery, TrackedHedgeDisappeared, 0.0, false)
    case _ => Refuse(ActiveCycleWithoutHedge)
  }

  /** The gates in front of a new hedge, first failure first. */
  function ChooseForEntry(config: Config, snapshot: Snapshot, now: Instant, f: Figures): Choice {
    var funding := snapshot.funding;
    var age := now - funding.observedAt;
    var left := funding.nextFundingAt - now;
    if snapshot.primary.size == 0.0 then Refuse(PrimaryIsFlat)
    else if !funding.marketDataAvailable then Refuse(MarketDataUnavailable)
    else if Abs(snapshot.primary.size) * funding.oraclePrice < config.minPositionNotional then
      Refuse(PrimaryBelowMinimumNotional)
    else if age + Seconds(config.maxClockSkewSeconds) < 0 then Refuse(FundingDataInFuture)
    else if age > Seconds(config.maxDataAgeSeconds) then Refuse(FundingDataStale)
    else if f.primaryDebit <= 0.0 then Refuse(NoFundingOwed)
    else if left > Seconds(config.openLeadSeconds) then Refuse(OutsideOpenWindow)
    else if left <= Seconds(config.openCutoffSeconds) then Refuse(TooLateToOpen)
    else if snapshot.hedge.kind.Subaccount? && config.requireVerifiedSubaccount
            && !snapshot.hedge.ownershipVerified then Refuse(OwnershipNotVerified)
    else if !snapshot.hedge.marginVerified then Refuse(MarginNotVerified)
    else if ':' in snapshot.symbol && !(snapshot.hedge.feeFormulaVerified || config.extraFeeRateKnown) then
      Refuse(ExtraFeeRateUnknown)
    else if f.targetQty == 0.0 then Refuse(NoMarginForAnyHedge)
    else if f.notional < config.minHedgeNotional then Refuse(BelowMinimumHedgeNotional)
    else if f.requiredMargin > MarginBudget(config, snapshot) then Refuse(InsufficientMargin)
    else if f.hedgeCredit - f.roundTripCost < config.minExpectedSaving then Refuse(CostNotCovered)
    else Choice(OpenHedge, CostEffective, f.targetSize, false)
  }

  function Choose(config: Config, snapshot: Snapshot, now: Instant, active: Option<Cycle>, f: Figures): Choice {
    var current := snapshot.hedge.position.size;
    if Lower(snapshot.primary.address) == Lower(snapshot.hedge.position.address) then
      Choice(DemandRecovery, AccountsAreEqual, 0.0, false)
    else if active.Some? && !SameIdentity(config, active.value, snapshot) then
      Choice(DemandRecovery, CycleIdentityMismatch, 0.0, false)
    else if current != 0.0 then
      if active.None? then Choice(DemandRecovery, UntrackedHedge, 0.0, false)
      else ChooseForHedge(config, snapshot, now, active.value, f)
    else if snapshot.hedge.unknownOrders then Choice(DemandRecovery, UnknownOrder, 0.0, false)
    else if active.Some? then ChooseForFlatCycle(active.value)
    else ChooseForEntry(config, snapshot, now, f)
  }

  function OnlyActive(cycle: Option<Cycle>): Option<Cycle> {
    if cycle.Some? && cycle.value.Active() then cycle else None
  }

  /** The cycle a decision is about: the active one, or the next settlement's. */
  function DecisionKey(config: Config, snapshot: Snapshot, active: Option<Cycle>): CycleKey {
    if active.Some? then active.value.key else KeyFor(config, snapshot, snapshot.funding.nextFundingAt)
  }

  function Evaluate(config: Config, snapshot: Snapshot, now: Instant, cycle: Option<Cycle>): Decision
    requires config.Valid() && snapshot.Valid()
  {
    var active := OnlyActive(cycle);
    var settlement := if active.Some? then active.value.settlementAt else snapshot.funding.nextFundingAt;
    var f := FiguresFor(config, snapshot);
    var choice := Choose(config, snapshot, now, active, f);
    Decision(
      snapshot, choice.action, choice.reason, now, settlement - now, f.targetSize, snapshot.hedge.position.size,
      choice.delta, choice.reduceOnly, f.primaryDebit, f.hedgeCredit, f.roundTripCost,
      f.hedgeCredit - f.roundTripCost, f.requiredMargin, DecisionKey(config, snapshot, active))
  }
}
