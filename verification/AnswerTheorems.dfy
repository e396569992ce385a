// How what the exchange reports and what the executor hears reach the record.
module AnswerTheorems {
  import opened Decimals
  import opened Models
  import opened Options
  import opened Texts
  import opened Policy
  import opened PolicyTheorems
  import opened Orders
  import opened StateMachine
  import opened StateMachineTheorems
  import opened TickTheorems

  // ---------- what is heard of a request ----------

  /** The order was taken, was refused with a text, or nothing certain was learned. */
  datatype Heard = Taken(filled: real) | Refused(text: string) | Unknown(text: string)

  /** The clock is still before the deadline, in the exchange's milliseconds. */
  predicate InTime(clock: Instant, deadline: int) {
    clock / 1000 < deadline / 1000
  }

  /** Every step before the order itself succeeds, so that the order is posted. */
  predicate Prepared(config: Config, request: Request, env: Environment) {
    && env.setupError == None && env.priceError == None
    && match request
       case OpenRequest(symbol, signedSize, _, deadline) =>
         && symbol in config.symbols && signedSize != 0.0
         && InTime(env.firstClock, deadline) && InTime(env.secondClock, deadline)
         && env.leverage.Response? && env.leverage.statusOk && env.leverage.error == ""
       case CloseRequest(_, currentSize, size, _) => currentSize != 0.0 && size > 0.0
  }

  predicate IsTaken(reply: Reply) {
    reply.Response? && reply.statusOk && reply.error == ""
  }

  predicate IsRefused(reply: Reply) {
    reply.Response? && reply.error != ""
  }

  /** An order is posted exactly when every step before it succeeds. */
  lemma PostedWhenPrepared(config: Config, request: Request, env: Environment)
    ensures AttemptFor(config, request, env).posted.Some? <==> Prepared(config, request, env)
  {
  }

  /** A posted order expires after the configured validity or at its deadline, whichever is earlier. */
  lemma PostedExpiry(config: Config, request: Request, env: Environment)
    requires AttemptFor(config, request, env).posted.Some?
    ensures var expires := AttemptFor(config, request, env).posted.value.expiresAfterMs;
            var valid := env.secondClock / 1000 + config.actionExpirySeconds * 1000;
            && (request.CloseRequest? ==> expires == valid)
            && (request.OpenRequest? ==>
                  expires == if valid <= request.deadline / 1000 then valid else request.deadline / 1000)
  {
  }

  /** The outcome of a request is decided by the preparation and the reply alone. */
  lemma OutcomeIsWhatIsHeard(config: Config, request: Request, env: Environment)
    ensures var outcome := AttemptFor(config, request, env).outcome;
            var prepared := Prepared(config, request, env);
            && (outcome.Executed? <==> prepared && (IsTaken(env.reply) || IsRefused(env.reply)))
            && (outcome.Executed? ==>
                  && outcome.execution.accepted == IsTaken(env.reply)
                  && outcome.execution.error == env.reply.error && outcome.execution.filled == env.reply.filled)
            && (prepared && env.reply.Lost? ==> outcome == Failed(env.reply.text))
  {
  }

  // ---------- the answer reaches the record ----------

  predicate Took(config: Config, request: Request, env: Environment) {
    Prepared(config, request, env) && IsTaken(env.reply)
  }

  predicate Refuses(config: Config, request: Request, env: Environment) {
    Prepared(config, request, env) && IsRefused(env.reply)
  }

  /** The record that follows a request: `intent` was on disk when it was asked. */
  predicate Answered(config: Config, action: Action, request: Request, now: Instant, env: Environment, intent: Cycle,
                     final: Cycle, result: CoordinatorResult)
  {
    var took, refused := Took(config, request, env), Refuses(config, request, env);
    && result.cycle == Some(final)
    && (result.execution.Some? <==> took || refused)
    && (took ==> final == intent && result.execution.value.accepted && result.execution.value.filled == env.reply.filled)
    && (refused ==> final.lastError == OrderRejected(env.reply.error) && !result.execution.value.accepted)
    && (!took && !refused ==> final == intent.(lastError := AmbiguousSubmission(result.executionError)))
    && (Prepared(config, request, env) && env.reply.Lost? ==> result.executionError == env.reply.text)
    && match action
       case OpenHedge =>
         && request.OpenRequest? && intent.status.OpenSubmitted? && intent.targetSize == request.signedSize
         && intent.openCloid == request.cloid && intent.createdAt == now && intent.openSubmittedAt == Some(now)
         && (final.status.OpenSubmitted? <==> !refused) && (final.status.Aborted? <==> refused)
       case CloseHedge =>
         && request.CloseRequest? && intent.status.CloseSubmitted? && final.closeAttempts == intent.closeAttempts
         && intent.closeCloid == Some(request.cloid) && intent.closeSubmittedAt == Some(now)
         && request.size == Abs(request.currentSize)
         && (final.status.CloseSubmitted? <==> !refused) && (final.status.ClosePartial? <==> refused)
       case AdjustHedge =>
         && request.CloseRequest? && intent.pendingAdjust == Some(request.cloid) && final.status == intent.status
         && intent.preAdjustSize == request.currentSize && intent.adjustSubmittedAt == Some(now)
         && (final.pendingAdjust == intent.pendingAdjust <==> !refused) && (final.pendingAdjust == None <==> refused)
       case _ => false
  }

  /** The effects end with an intent, the request, and the record that follows it. */
  predicate EndsAnswered(config: Config, tick: Tick, now: Instant, env: Environment, k: int) {
    && 0 < k < |tick.effects| - 1
    && tick.effects[k - 1].Stored? && tick.effects[k].Asked? && tick.effects[|tick.effects| - 1].Stored?
    && Answered(config, tick.result.decision.action, tick.effects[k].request, now, env, tick.effects[k - 1].data,
                tick.effects[|tick.effects| - 1].data, tick.result)
  }

  lemma OpenIsAnswered(config: Config, d: Decision, now: Instant, env: Environment, k: int)
    requires d.action.OpenHedge? && d.delta == d.targetSize
    requires var effects := OpenTick(config, d, now, env).effects; 0 <= k < |effects| && effects[k].Asked?
    ensures EndsAnswered(config, OpenTick(config, d, now, env), now, env, k)
  {
    var armed := NewCycle(config, d, now);
    var cycle := armed.(status := OpenSubmitted, openSubmittedAt := Some(now));
    var request := OpenRequest(d.snapshot.symbol, d.delta, cycle.openCloid,
                               cycle.settlementAt - Seconds(config.openCutoffSeconds));
    OutcomeIsWhatIsHeard(config, request, env);
    hide AttemptFor, Prepared;
    assert OpenTick(config, d, now, env).effects[2] == Asked(request);
    assert k == 2;
  }

  lemma CloseIsAnswered(config: Config, d: Decision, c: Cycle, now: Instant, env: Environment, k: int)
    requires d.action.CloseHedge?
    requires var effects := CloseTick(config, d, c, now, env).effects; 0 <= k < |effects| && effects[k].Asked?
    ensures EndsAnswered(config, CloseTick(config, d, c, now, env), now, env, k)
  {
    var size := d.snapshot.hedge.position.size;
    var request := CloseRequest(d.snapshot.symbol, size, Abs(size), Cloid(c.key, ClosePhase(c.closeAttempts + 1)));
    OutcomeIsWhatIsHeard(config, request, env);
    hide AttemptFor, Prepared;
    assert k == 1;
  }

  lemma AdjustIsAnswered(config: Config, d: Decision, c: Cycle, now: Instant, env: Environment, k: int)
    requires d.action.AdjustHedge?
    requires var effects := AdjustTick(config, d, c, now, env).effects; 0 <= k < |effects| && effects[k].Asked?
    ensures EndsAnswered(config, AdjustTick(config, d, c, now, env), now, env, k)
  {
    var request := CloseRequest(d.snapshot.symbol, d.snapshot.hedge.position.size, Abs(d.delta),
                                Cloid(c.key, AdjustPhase(c.adjustments + 1)));
    OutcomeIsWhatIsHeard(config, request, env);
    hide AttemptFor, Prepared;
    assert k == 1;
  }

  lemma ActIsAnswered(config: Config, d: Decision, reconciled: Option<Cycle>, now: Instant, env: Environment, k: int)
    requires d.action.OpenHedge? ==> OnlyActive(reconciled).None? && d.delta == d.targetSize
    requires var effects := Act(config, d, reconciled, now, env).effects; 0 <= k < |effects| && effects[k].Asked?
    ensures EndsAnswered(config, Act(config, d, reconciled, now, env), now, env, k)
  {
    hide OpenTick, CloseTick, AdjustTick, EndsAnswered;
    match d.action {
      case OpenHedge => OpenIsAnswered(config, d, now, env, k);
      case CloseHedge => CloseIsAnswered(config, d, reconciled.value, now, env, k);
      case AdjustHedge => AdjustIsAnswered(config, d, reconciled.value, now, env, k);
      case _ =>
    }
  }

  /**
   * A request that is taken leaves the intent as it was stored; one that is
   * refused ends the opening, reopens the close, or clears the adjustment; and
   * one whose fate is unknown leaves the intent with nothing but the error.
   */
  lemma AnswersReachTheRecord(config: Config, stored: Option<Cycle>, snapshot: Snapshot, now: Instant, env: Environment,
                              k: int)
    requires config.Valid() && snapshot.Valid()
    requires var effects := Execute(config, stored, snapshot, now, env).effects;
             0 <= k < |effects| && effects[k].Asked?
    ensures EndsAnswered(config, Execute(config, stored, snapshot, now, env), now, env, k)
  {
    var reconciled := Reconcile(config, stored, snapshot, now);
    var d := Decide(config, snapshot, now, reconciled);
    ActDecision(config, snapshot, now, reconciled, env);
    var preface := Preface(stored, reconciled);
    PrefacePostsNothing(stored, reconciled);
    OpensItsTarget(config, snapshot, now, reconciled);
    ExecuteIs(config, stored, snapshot, now, env);
    hide Decide, Reconcile, Act, Preface, EndsAnswered, Execute;
    var acted := Act(config, d, reconciled, now, env);
    assert k >= |preface|;
    ActIsAnswered(config, d, reconciled, now, env, k - |preface|);
    PrefaceShifts(config, preface, acted, Execute(config, stored, snapshot, now, env), now, env, k);
  }

  lemma OpensItsTarget(config: Config, snapshot: Snapshot, now: Instant, reconciled: Option<Cycle>)
    requires config.Valid() && snapshot.Valid()
    ensures var d := Decide(config, snapshot, now, reconciled);
            d.action.OpenHedge? ==> d.delta == d.targetSize
  {
    if Decide(config, snapshot, now, reconciled).action.OpenHedge? {
      OpenIsSound(config, snapshot, now, OnlyActive(reconciled));
    }
    hide FiguresFor, IsBestSize, Openable;
  }

  lemma PrefaceShifts(config: Config, preface: seq<Effect<Cycle>>, acted: Tick, tick: Tick, now: Instant, env: Environment, k: int)
    requires tick == acted.(effects := preface + acted.effects)
    requires EndsAnswered(config, acted, now, env, k - |preface|)
    ensures EndsAnswered(config, tick, now, env, k)
  {
    hide Answered;
  }

  // ---------- what the exchange reports reaches the record ----------

  predicate HasFailed(status: OrderStatus) {
    status.Canceled? || status.Cancelled? || status.Rejected? || status.MarginCanceled?
  }

  predicate Due(since: Option<Instant>, now: Instant, seconds: nat) {
    since.Some? && now >= since.value + seconds * 1_000_000
  }

  /** What becomes of an opening that waits for its fill. */
  predicate OpeningObserved(config: Config, c: Cycle, snapshot: Snapshot, now: Instant, r: Cycle) {
    var actual, report := snapshot.hedge.position.size, snapshot.hedge.openStatus;
    var failed := HasFailed(report) || (!report.Filled? && Due(c.openSubmittedAt, now, config.openTimeoutSeconds));
    var settled := now >= c.settlementAt;
    if actual == 0.0 then
      && (r.status.Aborted? <==> failed) && (r.status.RecoveryRequired? <==> report.Filled?)
      && (!failed && !report.Filled? ==>
            r.status == if c.status.OpenPartial? && settled then AwaitingFunding else c.status)
    else
      && (r.status.AwaitingFunding? <==> settled)
      && (r.status.OpenPartial? <==> !settled && Abs(actual) < Abs(c.targetSize))
      && (r.status.Hedged? <==> !settled && Abs(actual) >= Abs(c.targetSize))
  }

  /** What becomes of a close that waits for its fill. */
  predicate CloseObserved(config: Config, c: Cycle, snapshot: Snapshot, now: Instant, r: Cycle) {
    var actual, report := snapshot.hedge.position.size, snapshot.hedge.closeStatus;
    var open := !report.Filled? && !HasFailed(report) && !Due(c.closeSubmittedAt, now, config.retrySeconds);
    && (r.status.Completed? <==> actual == 0.0)
    && (r.status.CloseSubmitted? <==> actual != 0.0 && open && c.status.CloseSubmitted?)
    && (r.status.ClosePartial? <==> actual != 0.0 && !(open && c.status.CloseSubmitted?))
  }

  /** What is taken over from the snapshot, whatever the status. */
  predicate FactsObserved(c: Cycle, snapshot: Snapshot, now: Instant, r: Cycle) {
    && r.actualSize == snapshot.hedge.position.size && r.updatedAt == now
    && (!snapshot.hedge.fundingConfirmed ==>
          r.fundingConfirmedAt == c.fundingConfirmedAt && r.fundingDelta == c.fundingDelta)
    && (snapshot.hedge.fundingConfirmed ==>
          && r.fundingDelta == snapshot.hedge.fundingDelta
          && r.fundingConfirmedAt == if snapshot.hedge.fundingRecordTime.Some? then snapshot.hedge.fundingRecordTime
                                     else Some(now))
  }

  /** A live record without a pending adjustment takes exactly the status the reports imply. */
  lemma ReportsReachTheRecord(config: Config, c: Cycle, snapshot: Snapshot, now: Instant)
    requires c.Active() && SameIdentity(config, c, snapshot) && c.pendingAdjust == None
    ensures var r := ReconcileCycle(config, c, snapshot, now);
            && FactsObserved(c, snapshot, now, r) && r.pendingAdjust == None
            && (c.status.OpenSubmitted? || c.status.OpenPartial? ==> OpeningObserved(config, c, snapshot, now, r))
            && (c.status.CloseSubmitted? || c.status.ClosePartial? ==> CloseObserved(config, c, snapshot, now, r))
            && (c.status.Hedged? ==> r.status == if now >= c.settlementAt then AwaitingFunding else Hedged)
            && (c.status.Armed? || c.status.AwaitingFunding? ==> r.status == c.status)
  {
    var seen := Observed(c, snapshot, now);
    OpeningFollows(config, seen, snapshot, now);
    CloseFollows(config, seen, snapshot, now);
    OnlyStatusFollows(config, seen, snapshot, now);
    OthersFollow(config, seen, snapshot, now);
    OnlyStatusMatters(config, c, seen, snapshot, now);
    hide SameIdentity, ReconcileOpen, ReconcileClose, ReconcileSettlement, OpeningObserved, CloseObserved, Followed;
    assert ReconcileCycle(config, c, snapshot, now) == Followed(config, seen, snapshot, now) by {
      FollowedIs(config, seen, snapshot, now);
    }
  }

  lemma FollowedIs(config: Config, c: Cycle, snapshot: Snapshot, now: Instant)
    ensures Followed(config, c, snapshot, now)
            == ReconcileSettlement(ReconcileClose(config, ReconcileOpen(config, c, snapshot, now), snapshot, now), now)
  {
  }

  lemma OpeningFollows(config: Config, c: Cycle, snapshot: Snapshot, now: Instant)
    ensures c.status.OpenSubmitted? || c.status.OpenPartial? ==>
              OpeningObserved(config, c, snapshot, now, Followed(config, c, snapshot, now))
  {
  }

  lemma CloseFollows(config: Config, c: Cycle, snapshot: Snapshot, now: Instant)
    ensures c.status.CloseSubmitted? || c.status.ClosePartial? ==>
              CloseObserved(config, c, snapshot, now, Followed(config, c, snapshot, now))
  {
  }

  lemma OthersFollow(config: Config, c: Cycle, snapshot: Snapshot, now: Instant)
    ensures c.status.Armed? || c.status.AwaitingFunding? ==> Followed(config, c, snapshot, now).status == c.status
  {
  }

  /** Observing a record keeps all that its status depends on. */
  lemma OnlyStatusMatters(config: Config, c: Cycle, seen: Cycle, snapshot: Snapshot, now: Instant)
    requires seen == Observed(c, snapshot, now)
    ensures forall r :: OpeningObserved(config, seen, snapshot, now, r) <==> OpeningObserved(config, c, snapshot, now, r)
    ensures forall r :: CloseObserved(config, seen, snapshot, now, r) <==> CloseObserved(config, c, snapshot, now, r)
  {
  }

  /** The report ends a pending adjustment. */
  predicate AdjustmentEnds(config: Config, c: Cycle, snapshot: Snapshot, now: Instant) {
    var actual, report := snapshot.hedge.position.size, snapshot.hedge.adjustStatus;
    || Abs(actual) < Abs(c.preAdjustSize)
    || HasFailed(report)
    || (actual == c.preAdjustSize && !report.Filled? && Due(c.adjustSubmittedAt, now, config.retrySeconds))
  }

  /**
   * A pending adjustment that ends is cleared and the hedge counts as held; one
   * that reports filled without effect stops the cycle; any other stays, and the
   * rest of the record follows the reports as if it were not there.
   */
  lemma AdjustmentReachesTheRecord(config: Config, c: Cycle, snapshot: Snapshot, now: Instant)
    requires c.Active() && SameIdentity(config, c, snapshot) && c.pendingAdjust.Some?
    ensures var r := ReconcileCycle(config, c, snapshot, now);
            var without := ReconcileCycle(config, c.(pendingAdjust := None), snapshot, now);
            var stuck := snapshot.hedge.adjustStatus.Filled? && snapshot.hedge.position.size == c.preAdjustSize;
            && FactsObserved(c, snapshot, now, r)
            && (r.pendingAdjust == None <==> AdjustmentEnds(config, c, snapshot, now))
            && (AdjustmentEnds(config, c, snapshot, now) ==>
                  && r.preAdjustSize == 0.0 && r.adjustSubmittedAt == None
                  && r.status == if now >= c.settlementAt then AwaitingFunding else Hedged)
            && (stuck && !AdjustmentEnds(config, c, snapshot, now) ==> r.status.RecoveryRequired?)
            && (!stuck && !AdjustmentEnds(config, c, snapshot, now) ==> r == without.(pendingAdjust := c.pendingAdjust))
  {
    IdentityIgnoresAdjustment(config, c, snapshot);
    var seen := Observed(c, snapshot, now);
    var adjusted := ReconcileAdjustment(config, seen, snapshot, now);
    AdjustmentCases(config, c, snapshot, now);
    OnlyStatusFollows(config, adjusted, snapshot, now);
    FollowsAsWithout(config, seen, snapshot, now);
    WithoutAdjustment(config, c, snapshot, now);
    hide ReconcileAdjustment, Followed, SameIdentity, AdjustmentEnds;
    assert ReconcileCycle(config, c, snapshot, now) == Followed(config, adjusted, snapshot, now) by {
      FollowedIs(config, adjusted, snapshot, now);
    }
  }

  lemma WithoutAdjustment(config: Config, c: Cycle, snapshot: Snapshot, now: Instant)
    requires c.Active() && SameIdentity(config, c, snapshot)
    ensures ReconcileCycle(config, c.(pendingAdjust := None), snapshot, now)
            == Followed(config, Observed(c, snapshot, now).(pendingAdjust := None), snapshot, now)
  {
    IdentityIgnoresAdjustment(config, c, snapshot);
    var bare := Observed(c, snapshot, now).(pendingAdjust := None);
    assert Observed(c.(pendingAdjust := None), snapshot, now) == bare;
    FollowedIs(config, bare, snapshot, now);
    hide ReconcileOpen, ReconcileClose, ReconcileSettlement, SameIdentity, Followed;
  }

  /** What resolving the adjustment makes of the record, before anything else follows. */
  lemma AdjustmentCases(config: Config, c: Cycle, snapshot: Snapshot, now: Instant)
    requires c.pendingAdjust.Some?
    ensures var seen := Observed(c, snapshot, now);
            var adjusted := ReconcileAdjustment(config, seen, snapshot, now);
            var stuck := snapshot.hedge.adjustStatus.Filled? && snapshot.hedge.position.size == c.preAdjustSize;
            && FactsObserved(c, snapshot, now, adjusted) && adjusted.settlementAt == c.settlementAt
            && (adjusted.pendingAdjust == None <==> AdjustmentEnds(config, c, snapshot, now))
            && (AdjustmentEnds(config, c, snapshot, now) ==>
                  adjusted.preAdjustSize == 0.0 && adjusted.adjustSubmittedAt == None && adjusted.status.Hedged?)
            && (stuck && !AdjustmentEnds(config, c, snapshot, now) ==> adjusted.status.RecoveryRequired?)
            && (!stuck && !AdjustmentEnds(config, c, snapshot, now) ==> adjusted == seen)
  {
  }

  lemma IdentityIgnoresAdjustment(config: Config, c: Cycle, snapshot: Snapshot)
    ensures SameIdentity(config, c.(pendingAdjust := None), snapshot) == SameIdentity(config, c, snapshot)
  {
  }

  /** After the adjustment only status and error follow, and a held or stopped record takes only the settlement. */
  lemma OnlyStatusFollows(config: Config, c: Cycle, snapshot: Snapshot, now: Instant)
    ensures var r := Followed(config, c, snapshot, now);
            && r == c.(status := r.status, lastError := r.lastError)
            && (c.status.Hedged? ==> r.status == if now >= c.settlementAt then AwaitingFunding else Hedged)
            && (c.status.RecoveryRequired? ==> r.status.RecoveryRequired?)
  {
  }

  function Followed(config: Config, c: Cycle, snapshot: Snapshot, now: Instant): Cycle {
    ReconcileSettlement(ReconcileClose(config, ReconcileOpen(config, c, snapshot, now), snapshot, now), now)
  }

  lemma FollowsAsWithout(config: Config, c: Cycle, snapshot: Snapshot, now: Instant)
    ensures Followed(config, c, snapshot, now)
            == Followed(config, c.(pendingAdjust := None), snapshot, now).(pendingAdjust := c.pendingAdjust)
  {
    var bare := c.(pendingAdjust := None);
    var after := ReconcileOpen(config, bare, snapshot, now);
    OpenIgnoresAdjustment(config, c, snapshot, now);
    CloseIgnoresAdjustment(config, after.(pendingAdjust := c.pendingAdjust), after, snapshot, now);
    hide ReconcileOpen, ReconcileClose;
  }

  lemma OpenIgnoresAdjustment(config: Config, c: Cycle, snapshot: Snapshot, now: Instant)
    ensures ReconcileOpen(config, c, snapshot, now)
            == ReconcileOpen(config, c.(pendingAdjust := None), snapshot, now).(pendingAdjust := c.pendingAdjust)
    ensures ReconcileOpen(config, c.(pendingAdjust := None), snapshot, now).pendingAdjust == None
  {
  }

  lemma CloseIgnoresAdjustment(config: Config, c: Cycle, bare: Cycle, snapshot: Snapshot, now: Instant)
    requires bare == c.(pendingAdjust := None)
    ensures ReconcileClose(config, c, snapshot, now)
            == ReconcileClose(config, bare, snapshot, now).(pendingAdjust := c.pendingAdjust)
  {
  }

  /** An ended record is left alone, and one of another account stops. */
  lemma OtherRecords(config: Config, c: Cycle, snapshot: Snapshot, now: Instant)
    ensures !c.Active() ==> ReconcileCycle(config, c, snapshot, now) == c
    ensures c.Active() && !SameIdentity(config, c, snapshot) ==>
              ReconcileCycle(config, c, snapshot, now).status.RecoveryRequired?
  {
    hide SameIdentity;
  }

  // ---------- ticks that ask for nothing ----------

  /** A waiting tick says how much is hedged, or that the funding is awaited; a recovery tick stops. */
  lemma QuietTicksReachTheRecord(config: Config, stored: Option<Cycle>, snapshot: Snapshot, now: Instant, env: Environment)
    requires config.Valid() && snapshot.Valid()
    requires OnlyActive(Reconcile(config, stored, snapshot, now)).Some?
    ensures var r := Reconcile(config, stored, snapshot, now).value;
            var tick := Execute(config, stored, snapshot, now, env);
            var actual := snapshot.hedge.position.size;
            && (tick.result.decision.action.WaitForFunding? ==>
                  && tick.result.cycle.Some?
                  && (tick.result.cycle.value.status.AwaitingFunding? <==> now >= r.settlementAt)
                  && (tick.result.cycle.value.status.OpenPartial? <==>
                        now < r.settlementAt && Abs(actual) < Abs(r.targetSize))
                  && (tick.result.cycle.value.status.Hedged? <==>
                        now < r.settlementAt && Abs(actual) >= Abs(r.targetSize))
                  && tick.result.cycle.value.actualSize == actual)
            && (tick.result.decision.action.DemandRecovery? ==>
                  && tick.result.cycle.Some? && tick.result.cycle.value.status.RecoveryRequired?
                  && tick.result.cycle.value.lastError == PolicyDemands(tick.result.decision.reason))
            && (tick.result.decision.action.Hold? ==> tick.result.cycle == Some(r))
  {
    var reconciled := Reconcile(config, stored, snapshot, now);
    ActDecision(config, snapshot, now, reconciled, env);
    hide Decide, Reconcile;
    var d := Decide(config, snapshot, now, reconciled);
    hide Act, WaitTick, RecoveryTick;
    WaitingSays(d, reconciled.value, now);
    if d.action in {WaitForFunding, DemandRecovery, Hold} {
      ActQuietly(config, d, reconciled, now, env);
    }
  }

  lemma ActQuietly(config: Config, d: Decision, reconciled: Option<Cycle>, now: Instant, env: Environment)
    requires OnlyActive(reconciled).Some? && d.action in {WaitForFunding, DemandRecovery, Hold}
    ensures Act(config, d, reconciled, now, env) ==
            if d.action.WaitForFunding? then WaitTick(d, reconciled.value, now)
            else if d.action.DemandRecovery? then RecoveryTick(d, reconciled.value, now)
            else Quiet(d, reconciled, [])
  {
    hide WaitTick, RecoveryTick, OpenTick, CloseTick, AdjustTick;
  }

  lemma WaitingSays(d: Decision, r: Cycle, now: Instant)
    ensures var waited := WaitTick(d, r, now).result.cycle;
            var actual := d.snapshot.hedge.position.size;
            && waited.Some?
            && (waited.value.status.AwaitingFunding? <==> now >= r.settlementAt)
            && (waited.value.status.OpenPartial? <==> now < r.settlementAt && Abs(actual) < Abs(r.targetSize))
            && (waited.value.status.Hedged? <==> now < r.settlementAt && Abs(actual) >= Abs(r.targetSize))
            && waited.value.actualSize == actual
    ensures RecoveryTick(d, r, now).result.cycle
            == Some(r.(status := RecoveryRequired, updatedAt := now, lastError := PolicyDemands(d.reason)))
  {
  }
}
