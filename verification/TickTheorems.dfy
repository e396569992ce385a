// Consequences of one executing tick: what it posts, when it cannot wedge,
// and the two places where it does not do what the status names suggest.
module TickTheorems {
  import opened Decimals
  import opened Models
  import opened Options
  import opened Texts
  import opened Policy
  import opened PolicyTheorems
  import opened Orders
  import opened StateMachine
  import opened StateMachineTheorems

  lemma SubmitPosts(config: Config, request: Request, env: Environment, intent: seq<Effect<Cycle>>, final: Cycle)
    requires forall i :: 0 <= i < |intent| ==> intent[i].Stored?
    ensures var effects := intent + Calls(config, request, env) + [Stored(final)];
            forall i :: 0 <= i < |effects| && effects[i].Posted? ==>
              AttemptFor(config, request, env).posted == Some(effects[i].order)
  {
    hide AttemptFor;
  }

  /** Only the three submitting ticks can post. */
  lemma ActCases(config: Config, decision: Decision, reconciled: Option<Cycle>, now: Instant, env: Environment)
    ensures var acted := Act(config, decision, reconciled, now, env);
            || (forall e :: e in acted.effects ==> !e.Posted?)
            || (decision.action.OpenHedge? && acted == OpenTick(config, decision, now, env))
            || (decision.action.AdjustHedge? && reconciled.Some?
                && acted == AdjustTick(config, decision, reconciled.value, now, env))
            || (decision.action.CloseHedge? && reconciled.Some?
                && acted == CloseTick(config, decision, reconciled.value, now, env))
  {
    hide OpenTick, AdjustTick, CloseTick;
  }

  /** The decision is one whose reductions oppose the position they reduce. */
  predicate ReducesProperly(d: Decision) {
    d.action in {CloseHedge, AdjustHedge} ==>
      && -Sign(d.snapshot.hedge.position.size) * Abs(d.delta) == d.delta
      && (d.action.CloseHedge? ==> Abs(d.delta) == Abs(d.snapshot.hedge.position.size))
  }

  lemma ActPosts(config: Config, d: Decision, now: Instant, reconciled: Option<Cycle>, env: Environment, j: int)
    requires ReducesProperly(d)
    requires var effects := Act(config, d, reconciled, now, env).effects;
             0 <= j < |effects| && effects[j].Posted?
    ensures var o := Act(config, d, reconciled, now, env).effects[j].order;
            && o.symbol == d.snapshot.symbol && o.Signed() == d.delta
            && (o.reduceOnly <==> d.action in {CloseHedge, AdjustHedge})
            && (!o.reduceOnly <==> d.action.OpenHedge?)
  {
    ActCases(config, d, reconciled, now, env);
    hide Act, OpenTick, AdjustTick, CloseTick, AttemptFor;
    if d.action.OpenHedge? {
      OpenPosts(config, d, now, env, j);
    } else if d.action.AdjustHedge? {
      AdjustPosts(config, d, reconciled.value, now, env, j);
    } else {
      ClosePosts(config, d, reconciled.value, now, env, j);
    }
  }

  /** Every order a tick posts is for its symbol and moves the hedge by exactly the policy's delta. */
  lemma PostedEqualsDelta(config: Config, stored: Option<Cycle>, snapshot: Snapshot, now: Instant, env: Environment,
                          i: nat)
    requires config.Valid() && snapshot.Valid()
    requires var effects := Execute(config, stored, snapshot, now, env).effects;
             i < |effects| && effects[i].Posted?
    ensures var tick := Execute(config, stored, snapshot, now, env);
            var o := tick.effects[i].order;
            var d := tick.result.decision;
            && o.symbol == snapshot.symbol && o.Signed() == d.delta
            && (o.reduceOnly <==> d.action in {CloseHedge, AdjustHedge})
            && (!o.reduceOnly <==> d.action.OpenHedge?)
  {
    var reconciled := Reconcile(config, stored, snapshot, now);
    var decision := Decide(config, snapshot, now, reconciled);
    ActDecision(config, snapshot, now, reconciled, env);
    if decision.action in {CloseHedge, AdjustHedge} {
      ReductionFacts(config, snapshot, now, reconciled);
    }
    PrefacePostsNothing(stored, reconciled);
    ExecuteIs(config, stored, snapshot, now, env);
    hide Decide, Act, Reconcile, Preface, Execute;
    ActPosts(config, decision, now, reconciled, env, i - |Preface(stored, reconciled)|);
  }

  lemma PrefacePostsNothing(stored: Option<Cycle>, reconciled: Option<Cycle>)
    ensures forall i :: 0 <= i < |Preface(stored, reconciled)| ==> Preface(stored, reconciled)[i].Stored?
  {
  }

  lemma OpenPosts(config: Config, decision: Decision, now: Instant, env: Environment, j: int)
    requires var effects := OpenTick(config, decision, now, env).effects;
             0 <= j < |effects| && effects[j].Posted?
    ensures var o := OpenTick(config, decision, now, env).effects[j].order;
            o.symbol == decision.snapshot.symbol && o.Signed() == decision.delta && !o.reduceOnly
  {
    hide AttemptFor;
    var armed := NewCycle(config, decision, now);
    var cycle := armed.(status := OpenSubmitted, openSubmittedAt := Some(now));
    var request := OpenRequest(decision.snapshot.symbol, decision.delta, cycle.openCloid,
                               cycle.settlementAt - Seconds(config.openCutoffSeconds));
    var tick := OpenTick(config, decision, now, env);
    SubmitPosts(config, request, env, [Stored(armed), Stored(cycle)], tick.result.cycle.value);
    PostedMatchesRequest(config, request, env);
  }

  lemma ReductionFacts(config: Config, snapshot: Snapshot, now: Instant, reconciled: Option<Cycle>)
    requires config.Valid() && snapshot.Valid()
    requires Decide(config, snapshot, now, reconciled).action in {CloseHedge, AdjustHedge}
    ensures var d := Decide(config, snapshot, now, reconciled);
            && -Sign(d.snapshot.hedge.position.size) * Abs(d.delta) == d.delta
            && (d.action.CloseHedge? ==> Abs(d.delta) == Abs(d.snapshot.hedge.position.size))
  {
    ExitShrinks(config, snapshot, now, OnlyActive(reconciled));
  }

  lemma AdjustPosts(config: Config, decision: Decision, c: Cycle, now: Instant, env: Environment, j: int)
    requires var effects := AdjustTick(config, decision, c, now, env).effects;
             0 <= j < |effects| && effects[j].Posted?
    requires -Sign(decision.snapshot.hedge.position.size) * Abs(decision.delta) == decision.delta
    ensures var o := AdjustTick(config, decision, c, now, env).effects[j].order;
            o.symbol == decision.snapshot.symbol && o.Signed() == decision.delta && o.reduceOnly
  {
    hide AttemptFor;
    var tick := AdjustTick(config, decision, c, now, env);
    var cycle := tick.effects[0].data;
    var request := CloseRequest(decision.snapshot.symbol, decision.snapshot.hedge.position.size,
                                Abs(decision.delta), Cloid(c.key, AdjustPhase(c.adjustments + 1)));
    SubmitPosts(config, request, env, [Stored(cycle)], tick.result.cycle.value);
    PostedMatchesRequest(config, request, env);
  }

  lemma ClosePosts(config: Config, decision: Decision, c: Cycle, now: Instant, env: Environment, j: int)
    requires var effects := CloseTick(config, decision, c, now, env).effects;
             0 <= j < |effects| && effects[j].Posted?
    requires -Sign(decision.snapshot.hedge.position.size) * Abs(decision.delta) == decision.delta
    requires Abs(decision.delta) == Abs(decision.snapshot.hedge.position.size)
    ensures var o := CloseTick(config, decision, c, now, env).effects[j].order;
            o.symbol == decision.snapshot.symbol && o.Signed() == decision.delta && o.reduceOnly
  {
    hide AttemptFor;
    var tick := CloseTick(config, decision, c, now, env);
    var cycle := tick.effects[0].data;
    var request := CloseRequest(decision.snapshot.symbol, decision.snapshot.hedge.position.size,
                                Abs(decision.snapshot.hedge.position.size),
                                Cloid(c.key, ClosePhase(c.closeAttempts + 1)));
    SubmitPosts(config, request, env, [Stored(cycle)], tick.result.cycle.value);
    PostedMatchesRequest(config, request, env);
  }

  /** Enough time has passed since every submission still in doubt. */
  predicate RetryDue(config: Config, c: Cycle, now: Instant) {
    && (c.closeSubmittedAt.Some? ==> now - c.closeSubmittedAt.value >= Seconds(config.retrySeconds))
    && (c.adjustSubmittedAt.Some? ==> now - c.adjustSubmittedAt.value >= Seconds(config.retrySeconds))
  }

  /** A pending adjustment has not grown or flipped the hedge. */
  predicate NotGrown(c: Cycle, actual: real) {
    c.pendingAdjust.Some? ==> Abs(actual) <= Abs(c.preAdjustSize) && Sign(actual) == Sign(c.preAdjustSize)
  }

  predicate Identified(config: Config, c: Cycle, snapshot: Snapshot) {
    SameIdentity(config, c, snapshot) && Lower(snapshot.primary.address) != Lower(snapshot.hedge.position.address)
  }

  lemma AdjustmentClears(config: Config, c: Cycle, snapshot: Snapshot, now: Instant)
    requires c.Active() && (c.pendingAdjust.Some? ==> c.preAdjustSize != 0.0 && c.adjustSubmittedAt.Some?)
    requires RetryDue(config, c, now) && NotGrown(c, snapshot.hedge.position.size)
    ensures var r := ReconcileAdjustment(config, c, snapshot, now);
            if c.pendingAdjust.Some? && snapshot.hedge.adjustStatus.Filled?
               && snapshot.hedge.position.size == c.preAdjustSize
            then r.status.RecoveryRequired?
            else r.Active() && r.pendingAdjust.None? && (r == c || r.status.Hedged?)
  {
  }

  lemma StatusClears(config: Config, c: Cycle, snapshot: Snapshot, now: Instant)
    requires snapshot.hedge.position.size != 0.0
    requires c.status.CloseSubmitted? ==>
               c.closeSubmittedAt.Some? && now - c.closeSubmittedAt.value >= Seconds(config.retrySeconds)
    ensures var r := ReconcileSettlement(
              ReconcileClose(config, ReconcileOpen(config, c, snapshot, now), snapshot, now), now);
            && (c.status.RecoveryRequired? ==> r.status.RecoveryRequired?)
            && (c.Active() ==> r.Active() && !r.status.CloseSubmitted?)
            && r.pendingAdjust == c.pendingAdjust
  {
  }

  lemma ReconcileClears(config: Config, c: Cycle, snapshot: Snapshot, now: Instant)
    requires WellKept(config, c) && c.Active() && SameIdentity(config, c, snapshot)
    requires snapshot.hedge.position.size != 0.0
    requires RetryDue(config, c, now) && NotGrown(c, snapshot.hedge.position.size)
    ensures var r := ReconcileCycle(config, c, snapshot, now);
            if c.pendingAdjust.Some? && snapshot.hedge.adjustStatus.Filled?
               && snapshot.hedge.position.size == c.preAdjustSize
            then r.status.RecoveryRequired?
            else r.Active() && r.pendingAdjust.None? && !r.status.CloseSubmitted?
  {
    hide Lower, KeyOf, ReconcileAdjustment, ReconcileOpen, ReconcileClose, ReconcileSettlement;
    var seen := Observed(c, snapshot, now);
    AdjustmentClears(config, seen, snapshot, now);
    StatusClears(config, ReconcileAdjustment(config, seen, snapshot, now), snapshot, now);
  }

  /** The effect is the executor being asked for a reduction under the next unused id of this cycle. */
  predicate AsksFreshReduction(c: Cycle, snapshot: Snapshot, e: Effect<Cycle>) {
    && e.Asked? && e.request.CloseRequest? && e.request.symbol == snapshot.symbol
    && e.request.currentSize == snapshot.hedge.position.size
    && 0.0 < e.request.size <= Abs(snapshot.hedge.position.size)
    && e.request.cloid.key == c.key
    && (e.request.cloid.phase == ClosePhase(c.closeAttempts + 1)
        || e.request.cloid.phase == AdjustPhase(c.adjustments + 1))
  }

  /**
   * Past the confirmation timeout a tick either asks for a fresh reduction or
   * stops for recovery, and it stops exactly when an adjustment reports filled
   * while the hedge has not moved.
   */
  lemma ForcedExitDoesNotWedge(config: Config, c: Cycle, snapshot: Snapshot, now: Instant, env: Environment)
    requires config.Valid() && snapshot.Valid()
    requires WellKept(config, c) && c.Active() && Identified(config, c, snapshot)
    requires snapshot.hedge.position.size != 0.0
    requires now >= c.settlementAt + Seconds(config.confirmationTimeoutSeconds)
    requires RetryDue(config, c, now) && NotGrown(c, snapshot.hedge.position.size)
    ensures var tick := Execute(config, Some(c), snapshot, now, env);
            if c.pendingAdjust.Some? && snapshot.hedge.adjustStatus.Filled?
               && snapshot.hedge.position.size == c.preAdjustSize
            then tick.result.cycle.Some? && tick.result.cycle.value.status.RecoveryRequired?
            else exists i :: 0 <= i < |tick.effects| && AsksFreshReduction(c, snapshot, tick.effects[i])
  {
    ReconcileClears(config, c, snapshot, now);
    ReconcileKeeps(config, c, snapshot, now);
    var r := ReconcileCycle(config, c, snapshot, now);
    var decision := Decide(config, snapshot, now, Some(r));
    var tick := Execute(config, Some(c), snapshot, now, env);
    if r.Active() {
      ForcedExit(config, snapshot, now, r);
      ExitShrinks(config, snapshot, now, Some(r));
      assert decision == Evaluate(config, snapshot, now, Some(r));
      hide Evaluate, Decide, ReconcileCycle, AttemptFor, WellKept;
      var acted := Act(config, decision, Some(r), now, env);
      var at := |Preface(Some(c), Some(r))| + 1;
      assert acted.effects[1].Asked?;
      assert tick.effects[at] == acted.effects[1];
      assert AsksFreshReduction(c, snapshot, tick.effects[at]);
    } else {
      hide ReconcileCycle;
      assert !Decide(config, snapshot, now, Some(r)).action.OpenHedge?;
    }
  }

  /** Reconciling a flat account after a close was submitted. */
  lemma FlatAfterCloseReconciles(config: Config, c: Cycle, snapshot: Snapshot, now: Instant)
    requires WellKept(config, c) && SameIdentity(config, c, snapshot)
    requires c.status.CloseSubmitted? || c.status.ClosePartial?
    requires snapshot.hedge.position.size == 0.0
    ensures var r := ReconcileCycle(config, c, snapshot, now);
            if c.pendingAdjust.None? then r.status.Completed?
            else r.status in {Hedged, AwaitingFunding} && SameIdentity(config, r, snapshot)
  {
    hide Lower, KeyOf;
  }

  /** A tracked hedge that vanished, with or without an unknown order, stops the cycle. */
  lemma VanishedHedgeStops(config: Config, snapshot: Snapshot, now: Instant, r: Cycle, env: Environment)
    requires config.Valid() && snapshot.Valid()
    requires r.status in {Hedged, AwaitingFunding} && Identified(config, r, snapshot)
    requires snapshot.hedge.position.size == 0.0
    ensures var decision := Decide(config, snapshot, now, Some(r));
            && decision.action.DemandRecovery?
            && Act(config, decision, Some(r), now, env) == RecoveryTick(decision, r, now)
  {
  }

  /**
   * A flat account after a close was submitted completes the cycle exactly when no
   * adjustment was left pending; otherwise the cycle stops for recovery.
   */
  lemma FlatAfterCloseEnds(config: Config, c: Cycle, snapshot: Snapshot, now: Instant, env: Environment)
    requires config.Valid() && snapshot.Valid()
    requires WellKept(config, c) && Identified(config, c, snapshot)
    requires c.status.CloseSubmitted? || c.status.ClosePartial?
    requires snapshot.hedge.position.size == 0.0
    ensures ReconcileCycle(config, c, snapshot, now).status.Completed? <==> c.pendingAdjust.None?
    ensures c.pendingAdjust.Some? ==>
              var tick := Execute(config, Some(c), snapshot, now, env);
              && |tick.effects| > 0 && tick.result.cycle.Some? && tick.result.cycle.value.status.RecoveryRequired?
              && tick.effects[|tick.effects| - 1] == Stored(tick.result.cycle.value)
  {
    FlatAfterCloseReconciles(config, c, snapshot, now);
    var r := ReconcileCycle(config, c, snapshot, now);
    if c.pendingAdjust.Some? {
      VanishedHedgeStops(config, snapshot, now, r, env);
      hide Decide, Act;
    }
  }

  /** The tick wrote nothing but an armed record and asked for nothing. */
  predicate StillArmed(effects: seq<Effect<Cycle>>) {
    forall e :: e in effects ==> e.Stored? && e.data.status.Armed? && e.data.pendingAdjust.None?
  }

  lemma ArmedReconciles(config: Config, c: Cycle, snapshot: Snapshot, now: Instant)
    requires c.status.Armed? && c.pendingAdjust.None? && SameIdentity(config, c, snapshot)
    ensures ReconcileCycle(config, c, snapshot, now) == Observed(c, snapshot, now)
    ensures SameIdentity(config, Observed(c, snapshot, now), snapshot)
  {
  }

  lemma ArmedActs(config: Config, snapshot: Snapshot, now: Instant, r: Cycle, env: Environment)
    requires config.Valid() && snapshot.Valid()
    requires r.status.Armed? && r.pendingAdjust.None? && Identified(config, r, snapshot)
    ensures var acted := Act(config, Decide(config, snapshot, now, Some(r)), Some(r), now, env);
            if snapshot.hedge.position.size == 0.0 && !snapshot.hedge.unknownOrders
            then acted.effects == []
            else |acted.effects| > 0
                 && (!acted.effects[0].Stored? || !acted.effects[0].data.status.Armed?
                     || acted.effects[0].data.pendingAdjust.Some?)
  {
    hide AttemptFor, FiguresFor, Lower;
  }

  /**
   * An armed record whose opening was never submitted keeps being rewritten as
   * armed exactly while the account is flat and free of unknown orders.
   */
  lemma ArmedIsStuckWhileFlat(config: Config, c: Cycle, snapshot: Snapshot, now: Instant, env: Environment)
    requires config.Valid() && snapshot.Valid()
    requires c.status.Armed? && c.pendingAdjust.None? && Identified(config, c, snapshot)
    ensures StillArmed(Execute(config, Some(c), snapshot, now, env).effects)
            <==> snapshot.hedge.position.size == 0.0 && !snapshot.hedge.unknownOrders
  {
    ArmedReconciles(config, c, snapshot, now);
    var r := Observed(c, snapshot, now);
    ArmedActs(config, snapshot, now, r, env);
    hide Decide, Act, ReconcileCycle, Lower;
    var acted := Act(config, Decide(config, snapshot, now, Some(r)), Some(r), now, env);
    if acted.effects != [] {
      assert acted.effects[0] in Execute(config, Some(c), snapshot, now, env).effects;
    }
  }

  /** What the exchange reports ends the pending adjustment. */
  predicate AdjustmentResolves(config: Config, c: Cycle, snapshot: Snapshot, now: Instant) {
    var actual := snapshot.hedge.position.size;
    c.pendingAdjust.Some?
    && (Abs(actual) < Abs(c.preAdjustSize)
        || snapshot.hedge.adjustStatus.Failed()
        || (actual == c.preAdjustSize
            && (snapshot.hedge.adjustStatus.Filled? || Elapsed(c.adjustSubmittedAt, now, config.retrySeconds))))
  }

  /** The hedge is still there, the close order has not ended, and its retry delay has not passed. */
  predicate CloseInDoubt(config: Config, c: Cycle, snapshot: Snapshot, now: Instant) {
    && snapshot.hedge.position.size != 0.0 && !snapshot.hedge.closeStatus.Ended()
    && !Elapsed(c.closeSubmittedAt, now, config.retrySeconds)
  }

  /** The record still names the same submitted close. */
  predicate SameClose(before: Cycle, after: Cycle) {
    after.status.CloseSubmitted? && after.closeAttempts == before.closeAttempts && after.closeCloid == before.closeCloid
  }

  lemma CloseStillPending(config: Config, c: Cycle, snapshot: Snapshot, now: Instant)
    requires c.status.CloseSubmitted? && SameIdentity(config, c, snapshot)
    requires CloseInDoubt(config, c, snapshot, now) && !AdjustmentResolves(config, c, snapshot, now)
    ensures ReconcileCycle(config, c, snapshot, now) == Observed(c, snapshot, now)
    ensures SameIdentity(config, Observed(c, snapshot, now), snapshot)
  {
  }

  lemma CloseNoLongerPending(config: Config, c: Cycle, snapshot: Snapshot, now: Instant)
    requires c.status.CloseSubmitted? && SameIdentity(config, c, snapshot)
    requires !CloseInDoubt(config, c, snapshot, now) || AdjustmentResolves(config, c, snapshot, now)
    ensures var r := ReconcileCycle(config, c, snapshot, now);
            !r.status.CloseSubmitted? && r.closeAttempts == c.closeAttempts
  {
    var seen := Observed(c, snapshot, now);
    CloseGone(config, ReconcileAdjustment(config, seen, snapshot, now), snapshot, now);
    hide SameIdentity, ReconcileOpen, ReconcileClose, ReconcileSettlement;
  }

  lemma CloseGone(config: Config, c: Cycle, snapshot: Snapshot, now: Instant)
    requires !c.status.CloseSubmitted? || !CloseInDoubt(config, c, snapshot, now)
    ensures var r := ReconcileSettlement(
              ReconcileClose(config, ReconcileOpen(config, c, snapshot, now), snapshot, now), now);
            !r.status.CloseSubmitted? && r.closeAttempts == c.closeAttempts
  {
  }

  /** A record that is not waiting on a close can only come to wait on a later attempt. */
  lemma OnlyALaterClose(config: Config, decision: Decision, r: Cycle, now: Instant, env: Environment)
    requires !r.status.CloseSubmitted?
    ensures var tick := Act(config, decision, Some(r), now, env);
            && tick.result.cycle.Some?
            && (tick.result.cycle.value.status.CloseSubmitted? ==>
                  tick.result.cycle.value.closeAttempts == r.closeAttempts + 1)
  {
    hide AttemptFor;
  }

  /** A record waiting on a close that has not ended keeps it through anything but waiting. */
  lemma KeepsTheClose(config: Config, decision: Decision, r: Cycle, now: Instant, env: Environment)
    requires r.status.CloseSubmitted? && !decision.snapshot.hedge.closeStatus.Ended()
    requires decision.action in {CloseHedge, AdjustHedge, WaitForFunding}
    ensures var tick := Act(config, decision, Some(r), now, env);
            && tick.result.cycle.Some?
            && (SameClose(r, tick.result.cycle.value) <==> !decision.action.WaitForFunding?)
  {
    hide AttemptFor;
  }

  /**
   * A tick leaves the record waiting on the same submitted close exactly when
   * the close is in doubt, no pending adjustment resolves, and some gate of
   * waiting is shut. Otherwise the close is forgotten or replaced.
   */
  lemma CloseIntentSurvivesExactly(config: Config, c: Cycle, snapshot: Snapshot, now: Instant, env: Environment)
    requires config.Valid() && snapshot.Valid()
    requires c.status.CloseSubmitted? && Identified(config, c, snapshot)
    ensures var tick := Execute(config, Some(c), snapshot, now, env);
            && tick.result.cycle.Some?
            && (SameClose(c, tick.result.cycle.value)
                <==> CloseInDoubt(config, c, snapshot, now) && !AdjustmentResolves(config, c, snapshot, now)
                     && !WaitGates(config, snapshot, now, c))
  {
    var r := ReconcileCycle(config, c, snapshot, now);
    var decision := Decide(config, snapshot, now, Some(r));
    ActDecision(config, snapshot, now, Some(r), env);
    if CloseInDoubt(config, c, snapshot, now) && !AdjustmentResolves(config, c, snapshot, now) {
      CloseStillPending(config, c, snapshot, now);
      WaitsExactly(config, snapshot, now, r);
      SameGates(config, snapshot, now, c);
      assert decision == Evaluate(config, snapshot, now, Some(r));
      hide Evaluate, Decide, ReconcileCycle, AttemptFor, Act, WaitGates, Lower;
      KeepsTheClose(config, decision, r, now, env);
    } else {
      CloseNoLongerPending(config, c, snapshot, now);
      hide Decide, ReconcileCycle, AttemptFor, Act, WaitGates, Lower;
      OnlyALaterClose(config, decision, r, now, env);
    }
  }

  /** What is observed of a record leaves the gates of waiting as they were. */
  lemma SameGates(config: Config, snapshot: Snapshot, now: Instant, c: Cycle)
    requires config.Valid() && snapshot.Valid()
    ensures WaitGates(config, snapshot, now, Observed(c, snapshot, now)) == WaitGates(config, snapshot, now, c)
  {
    hide TargetQuantity, PrimaryPays, Quantum;
  }
}
