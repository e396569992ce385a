// The persistent single-action state machine: how a stored cycle is reconciled
// with a snapshot, and the effects of one executing tick, in order.
module StateMachine {
  import opened Decimals
  import opened Models
  import opened Options
  import opened Policy
  import opened Orders

  function Elapsed(since: Option<Instant>, now: Instant, seconds: nat): bool {
    since.Some? && now - since.value >= Seconds(seconds)
  }

  /** Resolves an adjustment whose order is still pending. */
  function ReconcileAdjustment(config: Config, cycle: Cycle, snapshot: Snapshot, now: Instant): Cycle {
    var actual := snapshot.hedge.position.size;
    var adjust := snapshot.hedge.adjustStatus;
    var resolved := cycle.(pendingAdjust := None, preAdjustSize := 0.0, adjustSubmittedAt := None, status := Hedged);
    if cycle.pendingAdjust.None? then cycle
    else if Abs(actual) < Abs(cycle.preAdjustSize) then resolved
    else if adjust.Failed() then resolved.(lastError := AdjustmentEnded(adjust))
    else if adjust.Filled? && actual == cycle.preAdjustSize then
      cycle.(status := RecoveryRequired, lastError := AdjustmentFilledWithoutEffect)
    else if Elapsed(cycle.adjustSubmittedAt, now, config.retrySeconds) && actual == cycle.preAdjustSize then
      resolved.(lastError := AmbiguousAdjustmentTimedOut)
    else cycle
  }

  function ReconcileOpen(config: Config, cycle: Cycle, snapshot: Snapshot, now: Instant): Cycle {
    var actual := snapshot.hedge.position.size;
    var open := snapshot.hedge.openStatus;
    if !(cycle.status.OpenSubmitted? || cycle.status.OpenPartial?) then cycle
    else if actual != 0.0 then
      cycle.(status := if Abs(actual) < Abs(cycle.targetSize) then OpenPartial else Hedged)
    else if open.Failed() then cycle.(status := Aborted, lastError := OpenEnded(open))
    else if open.Filled? then cycle.(status := RecoveryRequired, lastError := OpenFilledButFlat)
    else if Elapsed(cycle.openSubmittedAt, now, config.openTimeoutSeconds) then
      cycle.(status := Aborted, lastError := AmbiguousOpenTimedOut)
    else cycle
  }

  function ReconcileClose(config: Config, cycle: Cycle, snapshot: Snapshot, now: Instant): Cycle {
    if !(cycle.status.CloseSubmitted? || cycle.status.ClosePartial?) then cycle
    else if snapshot.hedge.position.size == 0.0 then cycle.(status := Completed)
    else if snapshot.hedge.closeStatus.Ended() then cycle.(status := ClosePartial)
    else if Elapsed(cycle.closeSubmittedAt, now, config.retrySeconds) then
      cycle.(status := ClosePartial, lastError := AmbiguousCloseTimedOut)
    else cycle
  }

  function ReconcileSettlement(cycle: Cycle, now: Instant): Cycle {
    if (cycle.status.Hedged? || cycle.status.OpenPartial?) && now >= cycle.settlementAt
    then cycle.(status := AwaitingFunding)
    else cycle
  }

  /** What the exchange says about size and funding, whatever the status. */
  function Observed(cycle: Cycle, snapshot: Snapshot, now: Instant): Cycle {
    var seen := cycle.(actualSize := snapshot.hedge.position.size, updatedAt := now);
    if snapshot.hedge.fundingConfirmed then
      seen.(fundingConfirmedAt := if snapshot.hedge.fundingRecordTime.Some?
                                  then snapshot.hedge.fundingRecordTime else Some(now),
            fundingDelta := snapshot.hedge.fundingDelta)
    else seen
  }

  function ReconcileCycle(config: Config, cycle: Cycle, snapshot: Snapshot, now: Instant): Cycle {
    if !cycle.Active() then cycle
    else if !SameIdentity(config, cycle, snapshot) then
      cycle.(status := RecoveryRequired, updatedAt := now, lastError := IdentityDiffers)
    else
      var adjusted := ReconcileAdjustment(config, Observed(cycle, snapshot, now), snapshot, now);
      var afterOpen := ReconcileOpen(config, adjusted, snapshot, now);
      var closed := ReconcileClose(config, afterOpen, snapshot, now);
      ReconcileSettlement(closed, now)
  }

  function Reconcile(config: Config, stored: Option<Cycle>, snapshot: Snapshot, now: Instant): Option<Cycle> {
    if stored.None? then None else Some(ReconcileCycle(config, stored.value, snapshot, now))
  }

  /** The policy's decision, held back when it would reopen a settlement that already ended. */
  function Decide(config: Config, snapshot: Snapshot, now: Instant, reconciled: Option<Cycle>): Decision
    requires config.Valid() && snapshot.Valid()
  {
    var decision := Evaluate(config, snapshot, now, OnlyActive(reconciled));
    if reconciled.Some? && reconciled.value.status.Terminal()
       && decision.action.OpenHedge? && decision.key == reconciled.value.key
    then decision.(action := Hold, reason := TerminalCycleExists, delta := 0.0, reduceOnly := false)
    else decision
  }

  function NewCycle(config: Config, decision: Decision, now: Instant): Cycle {
    var s := decision.snapshot;
    Cycle(
      decision.key, Armed, s.symbol, s.primary.address, s.hedge.position.address, config.network, config.hedgeKind,
      s.funding.nextFundingAt, decision.targetSize, s.hedge.position.size, Cloid(decision.key, OpenPhase), None,
      now, now, 0, 0, None, 0.0, None, None, None, None, None, NoFault)
  }

  datatype CoordinatorResult = CoordinatorResult(
    decision: Decision, cycle: Option<Cycle>, execution: Option<Execution>, executionError: string)

  /** The effects of a tick on one symbol's record, and what its caller is told. */
  datatype Tick = Tick(effects: seq<Effect<Cycle>>, result: CoordinatorResult)

  function Quiet(decision: Decision, cycle: Option<Cycle>, effects: seq<Effect<Cycle>>): Tick {
    Tick(effects, CoordinatorResult(decision, cycle, None, ""))
  }

  /** Intent is stored, the executor is called, and the record is stored again with what was learned. */
  function Submit(config: Config, decision: Decision, intent: seq<Effect<Cycle>>, request: Request, env: Environment,
                  accepted: Cycle, rejected: string -> Cycle, ambiguous: string -> Cycle): Tick
  {
    var outcome := AttemptFor(config, request, env).outcome;
    var final := match outcome
      case Failed(text) => ambiguous(text)
      case Executed(e) => if e.accepted then accepted else rejected(e.error);
    Tick(
      intent + Calls(config, request, env) + [Stored(final)],
      match outcome
      case Failed(text) => CoordinatorResult(decision, Some(final), None, text)
      case Executed(e) => CoordinatorResult(decision, Some(final), Some(e), ""))
  }

  function OpenTick(config: Config, decision: Decision, now: Instant, env: Environment): Tick {
    var armed := NewCycle(config, decision, now);
    var cycle := armed.(status := OpenSubmitted, openSubmittedAt := Some(now));
    Submit(config, decision, [Stored(armed), Stored(cycle)],
           OpenRequest(decision.snapshot.symbol, decision.delta, cycle.openCloid,
                       cycle.settlementAt - Seconds(config.openCutoffSeconds)),
           env, cycle,
           (error: string) => cycle.(status := Aborted, lastError := OrderRejected(error)),
           (text: string) => cycle.(lastError := AmbiguousSubmission(text)))
  }

  function WaitTick(decision: Decision, cycle: Cycle, now: Instant): Tick {
    var hedge := decision.snapshot.hedge;
    var waiting := cycle.(
      status := if now >= cycle.settlementAt then AwaitingFunding
                else if Abs(hedge.position.size) < Abs(cycle.targetSize) then OpenPartial
                else Hedged,
      actualSize := hedge.position.size,
      updatedAt := now,
      fundingConfirmedAt := if hedge.fundingConfirmed then hedge.fundingRecordTime else cycle.fundingConfirmedAt,
      fundingDelta := if hedge.fundingConfirmed then hedge.fundingDelta else cycle.fundingDelta);
    Quiet(decision, Some(waiting), [Stored(waiting)])
  }

  function AdjustTick(config: Config, decision: Decision, before: Cycle, now: Instant, env: Environment): Tick {
    if before.pendingAdjust.Some? then Quiet(decision, Some(before), [])
    else
      var size := decision.snapshot.hedge.position.size;
      var count := before.adjustments + 1;
      var cloid := Cloid(before.key, AdjustPhase(count));
      var cycle := before.(adjustments := count, pendingAdjust := Some(cloid), preAdjustSize := size,
                           updatedAt := now, adjustSubmittedAt := Some(now));
      Submit(config, decision, [Stored(cycle)],
             CloseRequest(decision.snapshot.symbol, size, Abs(decision.delta), cloid),
             env, cycle,
             (error: string) => cycle.(pendingAdjust := None, preAdjustSize := 0.0, adjustSubmittedAt := None,
                                       lastError := OrderRejected(error)),
             (text: string) => cycle.(lastError := AmbiguousSubmission(text)))
  }

  function CloseTick(config: Config, decision: Decision, before: Cycle, now: Instant, env: Environment): Tick {
    if before.status.CloseSubmitted? && !decision.snapshot.hedge.closeStatus.Ended()
    then Quiet(decision, Some(before), [])
    else
      var size := decision.snapshot.hedge.position.size;
      var count := before.closeAttempts + 1;
      var cloid := Cloid(before.key, ClosePhase(count));
      var cycle := before.(status := CloseSubmitted, closeAttempts := count, closeCloid := Some(cloid),
                           actualSize := size, updatedAt := now, closeSubmittedAt := Some(now));
      Submit(config, decision, [Stored(cycle)],
             CloseRequest(decision.snapshot.symbol, size, Abs(size), cloid),
             env, cycle,
             (error: string) => cycle.(status := ClosePartial, lastError := OrderRejected(error)),
             (text: string) => cycle.(lastError := AmbiguousSubmission(text)))
  }

  function RecoveryTick(decision: Decision, cycle: Cycle, now: Instant): Tick {
    var stopped := cycle.(status := RecoveryRequired, updatedAt := now, lastError := PolicyDemands(decision.reason));
    Quiet(decision, Some(stopped), [Stored(stopped)])
  }

  /** The decision acted on, after the reconciled record has been stored. */
  function Act(config: Config, decision: Decision, reconciled: Option<Cycle>, now: Instant, env: Environment): Tick {
    var active := OnlyActive(reconciled);
    if decision.action.OpenHedge? then
      if active.Some? then Quiet(decision, active, []) else OpenTick(config, decision, now, env)
    else if active.None? then Quiet(decision, reconciled, [])
    else match decision.action
      case WaitForFunding => WaitTick(decision, active.value, now)
      case AdjustHedge => AdjustTick(config, decision, active.value, now, env)
      case CloseHedge => CloseTick(config, decision, active.value, now, env)
      case DemandRecovery => RecoveryTick(decision, active.value, now)
      case _ => Quiet(decision, reconciled, [])
  }

  /** The write of a record that reconciliation changed. */
  function Preface(stored: Option<Cycle>, reconciled: Option<Cycle>): seq<Effect<Cycle>> {
    if reconciled.Some? && reconciled != stored then [Stored(reconciled.value)] else []
  }

  /** One executing tick. */
  function Execute(config: Config, stored: Option<Cycle>, snapshot: Snapshot, now: Instant, env: Environment): Tick
    requires config.Valid() && snapshot.Valid()
  {
    var reconciled := Reconcile(config, stored, snapshot, now);
    var acted := Act(config, Decide(config, snapshot, now, reconciled), reconciled, now, env);
    acted.(effects := Preface(stored, reconciled) + acted.effects)
  }

  /** The same evaluation without any effect. */
  function Preview(config: Config, stored: Option<Cycle>, snapshot: Snapshot, now: Instant): CoordinatorResult
    requires config.Valid() && snapshot.Valid()
  {
    var reconciled := Reconcile(config, stored, snapshot, now);
    CoordinatorResult(Decide(config, snapshot, now, reconciled), reconciled, None, "")
  }
}
