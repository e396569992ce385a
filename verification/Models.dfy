// The vocabulary of the funding hedge: configuration, exchange snapshots,
// the persisted cycle record and the decision made about it.
module Models {
  import opened Options
  import opened Texts

  type Symbol = string

  /** Microseconds since the epoch, UTC. */
  type Instant = nat

  const MICROS_PER_SECOND: nat := 1_000_000
  const HOUR: nat := 3_600_000_000

  function Seconds(n: nat): nat {
    n * MICROS_PER_SECOND
  }

  /** The start of the hour after the one `now` falls in. */
  function NextHour(now: Instant): (next: Instant)
    ensures next > now
    ensures next <= now + HOUR
    ensures next % HOUR == 0
  {
    now / HOUR * HOUR + HOUR
  }

  /** Whole milliseconds, as the exchange counts time. */
  function Millis(t: int): (ms: int)
    ensures t >= 0 ==> ms >= 0
    ensures ms * 1000 <= t < ms * 1000 + 1000
  {
    t / 1000
  }

  datatype Network = Mainnet | Testnet
  datatype AccountKind = Subaccount | Wallet

  datatype Config = Config(
    symbols: set<Symbol>,
    network: Network,
    primaryAddress: string,
    hedgeAddress: string,
    hedgeKind: AccountKind,
    hedgeRatio: real,
    openLeadSeconds: nat,
    openCutoffSeconds: nat,
    confirmationTimeoutSeconds: nat,
    maxDataAgeSeconds: nat,
    maxClockSkewSeconds: nat,
    minPositionNotional: real,
    minHedgeNotional: real,
    maxHedgeNotional: real,
    minExpectedSaving: real,
    minAvailableMargin: real,
    leverage: real,
    marginSafety: real,
    slippageRate: real,
    extraFeeRate: real,
    extraFeeRateKnown: bool,
    riskBufferRate: real,
    costSafety: real,
    requireVerifiedSubaccount: bool,
    executionEnabled: bool,
    retrySeconds: nat,
    openTimeoutSeconds: nat,
    actionExpirySeconds: nat)
  {
    /** What the configuration's own validation guarantees. */
    predicate Valid() {
      && 0.0 < hedgeRatio <= 1.0
      && openCutoffSeconds < openLeadSeconds
      && confirmationTimeoutSeconds > 0
      && maxDataAgeSeconds > 0
      && minPositionNotional >= 0.0 && minHedgeNotional >= 0.0 && maxHedgeNotional >= 0.0
      && minExpectedSaving >= 0.0 && minAvailableMargin >= 0.0
      && slippageRate >= 0.0 && extraFeeRate >= 0.0 && riskBufferRate >= 0.0
      && leverage > 0.0 && marginSafety >= 1.0 && costSafety >= 1.0
      && retrySeconds > 0 && openTimeoutSeconds > 0 && actionExpirySeconds > 0
      && (executionEnabled ==> Lower(primaryAddress) != Lower(hedgeAddress))
    }
  }

  datatype Position = Position(address: string, size: real)

  datatype OrderStatus =
    | NoStatus | Filled | Canceled | Cancelled | Rejected | MarginCanceled | OtherStatus(text: string)
  {
    /** The order ended without being reported as filled. */
    predicate Failed() {
      Canceled? || Cancelled? || Rejected? || MarginCanceled?
    }

    predicate Ended() {
      Filled? || Failed()
    }
  }

  datatype HedgeAccount = HedgeAccount(
    position: Position,
    withdrawable: real,
    takerFeeRate: real,
    feeFormulaVerified: bool,
    kind: AccountKind,
    ownershipVerified: bool,
    marginVerified: bool,
    fundingConfirmed: bool,
    fundingRecordTime: Option<Instant>,
    fundingDelta: Option<real>,
    unknownOrders: bool,
    openStatus: OrderStatus,
    closeStatus: OrderStatus,
    adjustStatus: OrderStatus)

  datatype Funding = Funding(
    oraclePrice: real,
    markPrice: real,
    rate: real,
    observedAt: Instant,
    nextFundingAt: Instant,
    decimals: nat,
    marketDataAvailable: bool)

  datatype Snapshot = Snapshot(symbol: Symbol, primary: Position, hedge: HedgeAccount, funding: Funding)
  {
    predicate Valid() {
      && funding.oraclePrice > 0.0
      && funding.markPrice > 0.0
      && hedge.withdrawable >= 0.0
      && hedge.takerFeeRate >= 0.0
    }
  }

  /** One settlement hour of one symbol; the text key is the fields joined by colons. */
  datatype CycleKey = CycleKey(
    network: Network, primary: string, hedge: string, symbol: Symbol, settlementMs: int)

  datatype Phase = OpenPhase | ClosePhase(attempt: nat) | AdjustPhase(count: nat)

  /** The client order id of one phase of one cycle: the digest is taken to be injective. */
  datatype Cloid = Cloid(key: CycleKey, phase: Phase)

  datatype Status =
    | Armed | OpenSubmitted | OpenPartial | Hedged | AwaitingFunding
    | CloseSubmitted | ClosePartial | Completed | Aborted | RecoveryRequired
  {
    predicate Terminal() {
      Completed? || Aborted? || RecoveryRequired?
    }
  }

  datatype Fault =
    | NoFault
    | IdentityDiffers
    | AdjustmentEnded(status: OrderStatus)
    | AdjustmentFilledWithoutEffect
    | AmbiguousAdjustmentTimedOut
    | OpenEnded(status: OrderStatus)
    | OpenFilledButFlat
    | AmbiguousOpenTimedOut
    | AmbiguousCloseTimedOut
    | OrderRejected(text: string)
    | AmbiguousSubmission(text: string)
    | PolicyDemands(reason: Reason)

  datatype Cycle = Cycle(
    key: CycleKey,
    status: Status,
    symbol: Symbol,
    primaryAddress: string,
    hedgeAddress: string,
    network: Network,
    hedgeKind: AccountKind,
    settlementAt: Instant,
    targetSize: real,
    actualSize: real,
    openCloid: Cloid,
    closeCloid: Option<Cloid>,
    createdAt: Instant,
    updatedAt: Instant,
    closeAttempts: nat,
    adjustments: nat,
    pendingAdjust: Option<Cloid>,
    preAdjustSize: real,
    openSubmittedAt: Option<Instant>,
    closeSubmittedAt: Option<Instant>,
    adjustSubmittedAt: Option<Instant>,
    fundingConfirmedAt: Option<Instant>,
    fundingDelta: Option<real>,
    lastError: Fault)
  {
    predicate Active() {
      !status.Terminal()
    }
  }

  datatype Action = Hold | OpenHedge | WaitForFunding | CloseHedge | AdjustHedge | DemandRecovery

  datatype Reason =
    | AccountsAreEqual
    | CycleIdentityMismatch
    | UntrackedHedge
    | PrimaryIsFlat
    | DirectionNoLongerOpposes
    | MarketDataUnavailableForHedge
    | FundingReversed
    | HedgeExceedsAllowedRatio
    | FundingRecordConfirmed
    | ConfirmationTimeout
    | UnknownOrderShutdown
    | AwaitingFundingRecord
    | OpenBeforeSettlement
    | UnknownOrder
    | FlatAfterCloseSubmission
    | AwaitingOpenReconciliation
    | TrackedHedgeDisappeared
    | ActiveCycleWithoutHedge
    | MarketDataUnavailable
    | PrimaryBelowMinimumNotional
    | FundingDataInFuture
    | FundingDataStale
    | NoFundingOwed
    | OutsideOpenWindow
    | TooLateToOpen
    | OwnershipNotVerified
    | MarginNotVerified
    | ExtraFeeRateUnknown
    | NoMarginForAnyHedge
    | BelowMinimumHedgeNotional
    | InsufficientMargin
    | CostNotCovered
    | CostEffective
    | TerminalCycleExists

  datatype Decision = Decision(
    snapshot: Snapshot,
    action: Action,
    reason: Reason,
    evaluatedAt: Instant,
    microsToFunding: int,
    targetSize: real,
    currentSize: real,
    delta: real,
    reduceOnly: bool,
    primaryDebit: real,
    hedgeCredit: real,
    roundTripCost: real,
    netSaving: real,
    requiredMargin: real,
    key: CycleKey)

  lemma NextHourMonotone(a: Instant, b: Instant)
    requires a <= b
    ensures NextHour(a) <= NextHour(b)
  {
  }

  /** Two instants on the same side of an hour boundary share the next one. */
  lemma NextHourUnique(a: Instant, b: Instant)
    requires a <= b < NextHour(a)
    ensures NextHour(b) == NextHour(a)
  {
  }

  /** A settlement before the next hour has already passed. */
  lemma EarlierSettlementPassed(settlement: Instant, now: Instant)
    requires settlement % HOUR == 0
    requires settlement < NextHour(now)
    ensures settlement <= now
  {
  }
}
