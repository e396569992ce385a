// What one tick may do to a stored record, and what a settled record means.
module StateMachineTheorems {
  import opened Decimals
  import opened Models
  import opened Options
  import opened Texts
  import opened Policy
  import opened PolicyTheorems
  import opened Orders
  import opened StateMachine

  /** Reconciliation touches the status, the error and the pending adjustment, nothing else. */
  predicate SameRecord(a: Cycle, b: Cycle) {
    b == a.(status := b.status, lastError := b.lastError, pendingAdjust := b.pendingAdjust,
            preAdjustSize := b.preAdjustSize, adjustSubmittedAt := b.adjustSubmittedAt)
  }

  lemma ObservedTwice(a: Cycle, b: Cycle, snapshot: Snapshot, now: Instant)
    requires SameRecord(Observed(a, snapshot, now), b)
    ensures Observed(b, snapshot, now) == b
  {
  }

  lemma AdjustmentTwice(config: Config, a: Cycle, b: Cycle, snapshot: Snapshot, now: Instant)
    requires var adjusted := ReconcileAdjustment(config, a, snapshot, now);
             && b.Active() && adjusted.Active()
             && b.pendingAdjust == adjusted.pendingAdjust && b.preAdjustSize == adjusted.preAdjustSize
             && b.adjustSubmittedAt == adjusted.adjustSubmittedAt
    ensures ReconcileAdjustment(config, b, snapshot, now) == b
  {
  }

  lemma SettledTwice(config: Config, adjusted: Cycle, snapshot: Snapshot, now: Instant)
    ensures var r := ReconcileSettlement(
              ReconcileClose(config, ReconcileOpen(config, adjusted, snapshot, now), snapshot, now), now);
            && SameRecord(adjusted, r)
            && r.pendingAdjust == adjusted.pendingAdjust && r.preAdjustSize == adjusted.preAdjustSize
            && r.adjustSubmittedAt == adjusted.adjustSubmittedAt
            && (r.Active() ==>
                  && adjusted.Active()
                  && ReconcileOpen(config, r, snapshot, now) == r
                  && ReconcileClose(config, r, snapshot, now) == r
                  && ReconcileSettlement(r, now) == r)
  {
  }

  /** Reconciling twice against the same snapshot changes nothing more. */
  lemma ReconcileIsIdempotent(config: Config, stored: Option<Cycle>, snapshot: Snapshot, now: Instant)
    ensures var once := Reconcile(config, stored, snapshot, now);
            Reconcile(config, once, snapshot, now) == once
  {
    hide ReconcileAdjustment, ReconcileOpen, ReconcileClose, ReconcileSettlement;
    if stored.Some? && stored.value.Active() && SameIdentity(config, stored.value, snapshot) {
      var seen := Observed(stored.value, snapshot, now);
      var adjusted := ReconcileAdjustment(config, seen, snapshot, now);
      var r := ReconcileCycle(config, stored.value, snapshot, now);
      SettledTwice(config, adjusted, snapshot, now);
      if r.Active() {
        AdjustmentTwice(config, seen, r, snapshot, now);
        AdjustmentSameRecord(config, seen, snapshot, now);
        ObservedTwice(stored.value, r, snapshot, now);
      }
    }
  }

  lemma AdjustmentSameRecord(config: Config, c: Cycle, snapshot: Snapshot, now: Instant)
    ensures SameRecord(c, ReconcileAdjustment(config, c, snapshot, now))
  {
  }

  /** A tick writes what reconciliation changed and then acts. */
  lemma ExecuteIs(config: Config, stored: Option<Cycle>, snapshot: Snapshot, now: Instant, env: Environment)
    requires config.Valid() && snapshot.Valid()
    ensures var reconciled := Reconcile(config, stored, snapshot, now);
            var acted := Act(config, Decide(config, snapshot, now, reconciled), reconciled, now, env);
            Execute(config, stored, snapshot, now, env)
            == acted.(effects := Preface(stored, reconciled) + acted.effects)
  {
    hide Reconcile, Decide, Act, Preface;
  }

  /** The decision a preview reports is the decision an execution at that time acts on. */
  lemma PreviewPredictsExecution(config: Config, stored: Option<Cycle>, snapshot: Snapshot, now: Instant,
                                 env: Environment)
    requires config.Valid() && snapshot.Valid()
    ensures Execute(config, stored, snapshot, now, env).result.decision
            == Preview(config, stored, snapshot, now).decision
  {
    var reconciled := Reconcile(config, stored, snapshot, now);
    ActDecision(config, snapshot, now, reconciled, env);
    hide Reconcile, Decide, Act;
  }

  /**
   * A stored record a run can produce: its identity is rebuilt from its own
   * fields, order ids follow its counters, and an ended cycle left no hedge.
   */
  predicate WellKept(config: Config, c: Cycle) {
    && Lower(c.primaryAddress) == Lower(config.primaryAddress)
    && Lower(c.hedgeAddress) == Lower(config.hedgeAddress)
    && c.network == config.network
    && c.hedgeKind == config.hedgeKind
    && c.key == KeyOf(config, c.symbol, c.settlementAt)
    && c.openCloid == Cloid(c.key, OpenPhase)
    && c.settlementAt == NextHour(c.createdAt)
    && c.targetSize != 0.0
    && (c.status.Completed? || c.status.Aborted? ==> c.actualSize == 0.0)
    && (c.status.OpenSubmitted? ==> c.openSubmittedAt.Some?)
    && (c.status.CloseSubmitted? ==> c.closeSubmittedAt.Some? && c.closeAttempts > 0)
    && c.closeCloid == (if c.closeAttempts == 0 then None else Some(Cloid(c.key, ClosePhase(c.closeAttempts))))
    && (c.pendingAdjust.Some? ==>
          && c.pendingAdjust.value == Cloid(c.key, AdjustPhase(c.adjustments))
          && c.adjustments > 0 && c.adjustSubmittedAt.Some? && c.preAdjustSize != 0.0)
  }

  function KeyOf(config: Config, symbol: Symbol, settlement: Instant): CycleKey {
    CycleKey(config.network, Lower(config.primaryAddress), Lower(config.hedgeAddress), symbol, Millis(settlement))
  }

  /** b continues the cycle of a: identity fixed, counters and confirmation never undone, an ended cycle frozen. */
  predicate Continues(a: Cycle, b: Cycle) {
    && b.key == a.key && b.symbol == a.symbol
    && b.primaryAddress == a.primaryAddress && b.hedgeAddress == a.hedgeAddress
    && b.network == a.network && b.hedgeKind == a.hedgeKind
    && b.settlementAt == a.settlementAt && b.targetSize == a.targetSize
    && b.openCloid == a.openCloid && b.createdAt == a.createdAt
    && b.closeAttempts >= a.closeAttempts && b.adjustments >= a.adjustments
    && (a.fundingConfirmedAt.Some? ==> b.fundingConfirmedAt.Some?)
    && (a.status.Terminal() ==> b == a)
  }

  /** The symbol a tick is about, and the time it was evaluated. */
  datatype Lane = Lane(symbol: Symbol, now: Instant)

  /** c starts a cycle for a later settlement, after the previous one ended. */
  predicate Starts(lane: Lane, a: Option<Cycle>, c: Cycle) {
    && c.symbol == lane.symbol && c.createdAt <= lane.now
    && (a.Some? ==> a.value.status.Terminal() && a.value.symbol == c.symbol && a.value.settlementAt < c.settlementAt)
    && c.status.Armed? && c.closeAttempts == 0 && c.adjustments == 0
  }

  /** The order is one the stored record already announces. */
  predicate Announces(config: Config, c: Cycle, o: Order) {
    && c.Active() && o.symbol == c.symbol && o.cloid.key == c.key && o.size > 0.0
    && match o.cloid.phase
       case OpenPhase =>
         && c.status.OpenSubmitted? && !o.reduceOnly && o.Signed() == c.targetSize
         && o.expiresAfterMs * 1000 <= c.settlementAt - Seconds(config.openCutoffSeconds)
       case ClosePhase(n) => o.reduceOnly && c.status.CloseSubmitted? && c.closeCloid == Some(o.cloid)
       case AdjustPhase(n) => o.reduceOnly && c.pendingAdjust == Some(o.cloid)
  }

  /**
   * Effects that may follow a stored record: every write continues it or starts a
   * later cycle while the lane is quiet, and every posted order is announced by
   * the record on disk and has an id never sent before.
   */
  predicate Lawful(config: Config, lane: Lane, disk: Option<Cycle>, sent: set<Cloid>, quiet: bool,
                   effects: seq<Effect<Cycle>>)
    decreases |effects|
  {
    if effects == [] then true
    else match effects[0]
      case Stored(c) =>
        && WellKept(config, c)
        && ((disk.Some? && Continues(disk.value, c)) || (quiet && Starts(lane, disk, c)))
        && Lawful(config, lane, Some(c), sent, quiet, effects[1..])
      case Asked(_) => Lawful(config, lane, disk, sent, quiet, effects[1..])
      case Posted(o) =>
        && disk.Some? && Announces(config, disk.value, o)
        && o.cloid !in sent
        && (!o.reduceOnly ==> quiet)
        && Lawful(config, lane, disk, sent + {o.cloid}, quiet && o.reduceOnly, effects[1..])
  }

  /** The id was issued by this record's cycle within its counters, or by an earlier settlement. */
  predicate Accounted(c: Cycle, x: Cloid) {
    if x.key == c.key then
      match x.phase
      case OpenPhase => true
      case ClosePhase(n) => 1 <= n <= c.closeAttempts
      case AdjustPhase(n) => 1 <= n <= c.adjustments
    else x.key.settlementMs < c.key.settlementMs
  }

  /** Every id of this symbol ever sent can be accounted for by the record on disk. */
  predicate AllAccounted(symbol: Symbol, disk: Option<Cycle>, sent: set<Cloid>) {
    forall x :: x in sent && x.key.symbol == symbol ==> disk.Some? && Accounted(disk.value, x)
  }

  /** The snapshot names the configured accounts and the next hour after it was observed. */
  predicate FromAdapter(config: Config, snapshot: Snapshot) {
    && snapshot.Valid()
    && snapshot.primary.address == config.primaryAddress
    && snapshot.hedge.position.address == config.hedgeAddress
    && snapshot.hedge.kind == config.hedgeKind
    && snapshot.funding.nextFundingAt == NextHour(snapshot.funding.observedAt)
  }

  lemma ObservedKeeps(config: Config, c: Cycle, snapshot: Snapshot, now: Instant)
    requires WellKept(config, c) && c.Active()
    ensures var o := Observed(c, snapshot, now);
            && WellKept(config, o) && Continues(c, o) && o.actualSize == snapshot.hedge.position.size
            && (snapshot.hedge.fundingConfirmed ==> o.fundingConfirmedAt.Some?)
  {
  }

  lemma AdjustmentKeeps(config: Config, c: Cycle, snapshot: Snapshot, now: Instant)
    requires WellKept(config, c) && c.Active()
    ensures WellKept(config, ReconcileAdjustment(config, c, snapshot, now))
  {
  }

  lemma OpenKeeps(config: Config, c: Cycle, snapshot: Snapshot, now: Instant)
    requires WellKept(config, c) && c.actualSize == snapshot.hedge.position.size
    ensures WellKept(config, ReconcileOpen(config, c, snapshot, now))
    ensures SameRecord(c, ReconcileOpen(config, c, snapshot, now))
  {
  }

  lemma CloseKeeps(config: Config, c: Cycle, snapshot: Snapshot, now: Instant)
    requires WellKept(config, c) && c.actualSize == snapshot.hedge.position.size
    ensures WellKept(config, ReconcileClose(config, c, snapshot, now))
  {
  }

  lemma SettlementKeeps(config: Config, c: Cycle, now: Instant)
    requires WellKept(config, c)
    ensures WellKept(config, ReconcileSettlement(c, now))
  {
  }

  lemma ReconcileKeeps(config: Config, c: Cycle, snapshot: Snapshot, now: Instant)
    requires WellKept(config, c)
    ensures var r := ReconcileCycle(config, c, snapshot, now);
            && WellKept(config, r) && Continues(c, r)
            && r.closeAttempts == c.closeAttempts && r.adjustments == c.adjustments
            && (r.Active() && SameIdentity(config, c, snapshot) ==>
                  r.actualSize == snapshot.hedge.position.size)
            && (r.Active() && snapshot.hedge.fundingConfirmed ==> r.fundingConfirmedAt.Some?)
  {
    if c.Active() && SameIdentity(config, c, snapshot) {
      hide WellKept, Observed, ReconcileAdjustment, ReconcileOpen, ReconcileClose, ReconcileSettlement;
      var seen := Observed(c, snapshot, now);
      ObservedKeeps(config, c, snapshot, now);
      var adjusted := ReconcileAdjustment(config, seen, snapshot, now);
      AdjustmentKeeps(config, seen, snapshot, now);
      AdjustmentSameRecord(config, seen, snapshot, now);
      var afterOpen := ReconcileOpen(config, adjusted, snapshot, now);
      OpenKeeps(config, adjusted, snapshot, now);
      CloseKeeps(config, afterOpen, snapshot, now);
      SettlementKeeps(config, ReconcileClose(config, afterOpen, snapshot, now), now);
      SettledTwice(config, adjusted, snapshot, now);
    }
  }

  lemma HourMillis(a: Instant, b: Instant)
    requires a % HOUR == 0 && b % HOUR == 0
    ensures Millis(a) * 1000 == a
    ensures a < b <==> Millis(a) < Millis(b)
  {
    assert a == 3_600_000 * 1000 * (a / HOUR);
    assert b == 3_600_000 * 1000 * (b / HOUR);
  }

  lemma LawfulPrepend(config: Config, lane: Lane, disk: Option<Cycle>, sent: set<Cloid>, quiet: bool,
                      c: Cycle, rest: seq<Effect<Cycle>>)
    requires WellKept(config, c)
    requires (disk.Some? && Continues(disk.value, c)) || (quiet && Starts(lane, disk, c))
    requires Lawful(config, lane, Some(c), sent, quiet, rest)
    ensures Lawful(config, lane, disk, sent, quiet, [Stored(c)] + rest)
  {
    assert ([Stored(c)] + rest)[1..] == rest;
  }

  /** Calling the executor for an announced request, then storing a continuation, is lawful. */
  lemma CallsAreLawful(config: Config, lane: Lane, c: Cycle, sent: set<Cloid>, quiet: bool,
                       request: Request, env: Environment, final: Cycle)
    requires WellKept(config, final) && Continues(c, final)
    requires request.cloid !in sent
    requires request.OpenRequest? ==> quiet
    requires AttemptFor(config, request, env).posted.Some?
             ==> Announces(config, c, AttemptFor(config, request, env).posted.value)
    ensures Lawful(config, lane, Some(c), sent, quiet, Calls(config, request, env) + [Stored(final)])
  {
    var posted := AttemptFor(config, request, env).posted;
    var e: seq<Effect<Cycle>> := Calls(config, request, env) + [Stored(final)];
    var last: seq<Effect<Cycle>> := [Stored(final)];
    assert last[1..] == [];
    if posted.Some? {
      PostedMatchesRequest(config, request, env);
      assert e == [Asked(request), Posted(posted.value), Stored(final)];
      assert e[1..][1..] == last;
      var o := posted.value;
      assert Lawful(config, lane, Some(c), sent + {o.cloid}, quiet && o.reduceOnly, last);
      assert Lawful(config, lane, Some(c), sent, quiet, e[1..]);
    } else {
      assert e[1..] == last;
    }
  }

  /** What an OPEN decision promises about the cycle it starts. */
  lemma OpenStartsLaterCycle(config: Config, snapshot: Snapshot, now: Instant, reconciled: Option<Cycle>)
    requires config.Valid() && FromAdapter(config, snapshot) && snapshot.funding.observedAt <= now
    requires reconciled.Some? ==> WellKept(config, reconciled.value) && reconciled.value.symbol == snapshot.symbol
                                  && reconciled.value.createdAt <= now
    requires Decide(config, snapshot, now, reconciled).action.OpenHedge?
    ensures var decision := Decide(config, snapshot, now, reconciled);
            && decision.snapshot == snapshot && decision.delta == decision.targetSize != 0.0
            && snapshot.funding.nextFundingAt == NextHour(now)
            && decision.key == KeyOf(config, snapshot.symbol, NextHour(now))
            && snapshot.hedge.position.size == 0.0
            && OnlyActive(reconciled).None?
            && (reconciled.Some? ==> reconciled.value.settlementAt < NextHour(now))
  {
    OpenIsSound(config, snapshot, now, OnlyActive(reconciled));
    hide Evaluate, IsBestSize, Lower;
    NextHourUnique(snapshot.funding.observedAt, now);
    if reconciled.Some? {
      NextHourMonotone(reconciled.value.createdAt, now);
    }
  }

  lemma NewCycleStarts(config: Config, decision: Decision, now: Instant, reconciled: Option<Cycle>)
    requires decision.snapshot.primary.address == config.primaryAddress
    requires decision.snapshot.hedge.position.address == config.hedgeAddress
    requires decision.targetSize != 0.0
    requires decision.snapshot.funding.nextFundingAt == NextHour(now)
    requires decision.key == KeyOf(config, decision.snapshot.symbol, NextHour(now))
    requires OnlyActive(reconciled).None?
    requires reconciled.Some? ==>
               reconciled.value.symbol == decision.snapshot.symbol && reconciled.value.settlementAt < NextHour(now)
    ensures var armed := NewCycle(config, decision, now);
            var cycle := armed.(status := OpenSubmitted, openSubmittedAt := Some(now));
            && WellKept(config, armed) && WellKept(config, cycle)
            && Starts(Lane(decision.snapshot.symbol, now), reconciled, armed) && Continues(armed, cycle)
  {
  }

  /** A key of a later hour has never been used. */
  lemma LaterKeyIsFresh(config: Config, symbol: Symbol, settlement: Instant, disk: Option<Cycle>, sent: set<Cloid>)
    requires AllAccounted(symbol, disk, sent)
    requires settlement % HOUR == 0
    requires disk.Some? ==> WellKept(config, disk.value) && disk.value.settlementAt < settlement
    ensures forall x :: x in sent ==> x.key != KeyOf(config, symbol, settlement)
  {
    if disk.Some? {
      HourMillis(disk.value.settlementAt, settlement);
    }
  }

  /** Opening from an accounted lane is lawful for any decision shaped like an OPEN. */
  lemma OpenEffectsAreLawful(config: Config, decision: Decision, now: Instant, reconciled: Option<Cycle>,
                             sent: set<Cloid>, env: Environment)
    requires decision.snapshot.hedge.position.size == 0.0 && decision.delta == decision.targetSize
    requires var armed := NewCycle(config, decision, now);
             var cycle := armed.(status := OpenSubmitted, openSubmittedAt := Some(now));
             && WellKept(config, armed) && WellKept(config, cycle)
             && Starts(Lane(decision.snapshot.symbol, now), reconciled, armed) && Continues(armed, cycle)
    requires forall x :: x in sent ==> x.key != decision.key
    ensures Lawful(config, Lane(decision.snapshot.symbol, now), reconciled, sent, true,
                   OpenTick(config, decision, now, env).effects)
  {
    hide AttemptFor, WellKept, Continues, Starts, Announces, Lawful;
    var lane := Lane(decision.snapshot.symbol, now);
    var armed := NewCycle(config, decision, now);
    var cycle := armed.(status := OpenSubmitted, openSubmittedAt := Some(now));
    var request := OpenRequest(decision.snapshot.symbol, decision.delta, cycle.openCloid,
                               cycle.settlementAt - Seconds(config.openCutoffSeconds));
    OpenAnnounced(config, cycle, request, env);
    var tick := OpenTick(config, decision, now, env);
    var final := tick.result.cycle.value;
    OpenFinal(config, decision, now, env);
    CallsAreLawful(config, lane, cycle, sent, true, request, env, final);
    var rest := Calls(config, request, env) + [Stored(final)];
    LawfulPrepend(config, lane, Some(armed), sent, true, cycle, rest);
    LawfulPrepend(config, lane, reconciled, sent, true, armed, [Stored(cycle)] + rest);
    assert tick.effects == [Stored(armed)] + ([Stored(cycle)] + rest);
  }

  lemma OpenTickIsLawful(config: Config, snapshot: Snapshot, now: Instant, reconciled: Option<Cycle>,
                         sent: set<Cloid>, env: Environment)
    requires config.Valid() && FromAdapter(config, snapshot) && snapshot.funding.observedAt <= now
    requires reconciled.Some? ==> WellKept(config, reconciled.value) && reconciled.value.symbol == snapshot.symbol
                                  && reconciled.value.createdAt <= now
    requires AllAccounted(snapshot.symbol, reconciled, sent)
    requires Decide(config, snapshot, now, reconciled).action.OpenHedge?
    ensures Lawful(config, Lane(snapshot.symbol, now), reconciled, sent, true,
                   OpenTick(config, Decide(config, snapshot, now, reconciled), now, env).effects)
  {
    var decision := Decide(config, snapshot, now, reconciled);
    OpenStartsLaterCycle(config, snapshot, now, reconciled);
    hide Decide, Lawful, OpenTick, Lower;
    NewCycleStarts(config, decision, now, reconciled);
    LaterKeyIsFresh(config, snapshot.symbol, NextHour(now), reconciled, sent);
    OpenEffectsAreLawful(config, decision, now, reconciled, sent, env);
  }

  lemma OpenAnnounced(config: Config, cycle: Cycle, request: Request, env: Environment)
    requires cycle.status.OpenSubmitted? && cycle.openCloid == Cloid(cycle.key, OpenPhase)
    requires request == OpenRequest(cycle.symbol, cycle.targetSize, cycle.openCloid,
                                    cycle.settlementAt - Seconds(config.openCutoffSeconds))
    ensures AttemptFor(config, request, env).posted.Some?
            ==> Announces(config, cycle, AttemptFor(config, request, env).posted.value)
  {
    if AttemptFor(config, request, env).posted.Some? {
      PostedMatchesRequest(config, request, env);
    }
  }

  lemma OpenFinal(config: Config, decision: Decision, now: Instant, env: Environment)
    requires decision.snapshot.hedge.position.size == 0.0
    ensures var armed := NewCycle(config, decision, now);
            var cycle := armed.(status := OpenSubmitted, openSubmittedAt := Some(now));
            var final := OpenTick(config, decision, now, env).result.cycle.value;
            && Continues(cycle, final)
            && (WellKept(config, cycle) ==> WellKept(config, final))
  {
  }

  /** The reduce-only intents: the next counter, stored before it is used. */
  lemma AdjustIntent(config: Config, decision: Decision, c: Cycle, now: Instant, env: Environment)
    requires WellKept(config, c) && c.Active() && c.pendingAdjust.None?
    requires decision.snapshot.hedge.position.size != 0.0
    ensures var tick := AdjustTick(config, decision, c, now, env);
            && |tick.effects| > 0 && tick.effects[0].Stored? && tick.result.cycle.Some?
            && var cycle := tick.effects[0].data;
            && WellKept(config, cycle) && Continues(c, cycle) && cycle.Active()
            && cycle.adjustments == c.adjustments + 1
            && cycle.pendingAdjust == Some(Cloid(c.key, AdjustPhase(c.adjustments + 1)))
            && WellKept(config, tick.result.cycle.value) && Continues(cycle, tick.result.cycle.value)
            && tick.effects == [Stored(cycle)] + (Calls(config, CloseRequest(
                 decision.snapshot.symbol, decision.snapshot.hedge.position.size, Abs(decision.delta),
                 cycle.pendingAdjust.value), env) + [Stored(tick.result.cycle.value)])
  {
    hide AttemptFor;
  }

  lemma CloseIntent(config: Config, decision: Decision, c: Cycle, now: Instant, env: Environment)
    requires WellKept(config, c) && c.Active()
    requires !(c.status.CloseSubmitted? && !decision.snapshot.hedge.closeStatus.Ended())
    ensures var tick := CloseTick(config, decision, c, now, env);
            && |tick.effects| > 0 && tick.effects[0].Stored? && tick.result.cycle.Some?
            && var cycle := tick.effects[0].data;
            && WellKept(config, cycle) && Continues(c, cycle) && cycle.status.CloseSubmitted?
            && cycle.closeAttempts == c.closeAttempts + 1
            && cycle.closeCloid == Some(Cloid(c.key, ClosePhase(c.closeAttempts + 1)))
            && WellKept(config, tick.result.cycle.value) && Continues(cycle, tick.result.cycle.value)
            && tick.effects == [Stored(cycle)] + (Calls(config, CloseRequest(
                 decision.snapshot.symbol, decision.snapshot.hedge.position.size,
                 Abs(decision.snapshot.hedge.position.size),
                 cycle.closeCloid.value), env) + [Stored(tick.result.cycle.value)])
  {
    hide AttemptFor;
  }

  lemma ReductionAnnounced(config: Config, cycle: Cycle, request: Request, env: Environment)
    requires request.CloseRequest? && request.symbol == cycle.symbol && request.cloid.key == cycle.key
    requires cycle.Active()
    requires (request.cloid.phase.ClosePhase? && cycle.status.CloseSubmitted? && cycle.closeCloid == Some(request.cloid))
             || (request.cloid.phase.AdjustPhase? && cycle.pendingAdjust == Some(request.cloid))
    ensures AttemptFor(config, request, env).posted.Some?
            ==> Announces(config, cycle, AttemptFor(config, request, env).posted.value)
  {
    if AttemptFor(config, request, env).posted.Some? {
      PostedMatchesRequest(config, request, env);
    }
  }

  /** Storing an intent and calling the executor for a reduction it announces is lawful. */
  lemma ReductionIsLawful(config: Config, lane: Lane, c: Cycle, cycle: Cycle, sent: set<Cloid>, quiet: bool,
                          request: Request, env: Environment, final: Cycle)
    requires WellKept(config, cycle) && Continues(c, cycle) && cycle.Active()
    requires WellKept(config, final) && Continues(cycle, final)
    requires request.CloseRequest? && request.symbol == cycle.symbol && request.cloid.key == cycle.key
    requires (request.cloid.phase.ClosePhase? && cycle.status.CloseSubmitted? && cycle.closeCloid == Some(request.cloid))
             || (request.cloid.phase.AdjustPhase? && cycle.pendingAdjust == Some(request.cloid))
    requires request.cloid !in sent
    ensures Lawful(config, lane, Some(c), sent, quiet, [Stored(cycle)] + (Calls(config, request, env) + [Stored(final)]))
  {
    hide AttemptFor, WellKept, Announces, Lawful;
    ReductionAnnounced(config, cycle, request, env);
    CallsAreLawful(config, lane, cycle, sent, quiet, request, env, final);
    LawfulPrepend(config, lane, Some(c), sent, quiet, cycle, Calls(config, request, env) + [Stored(final)]);
  }

  lemma SingleWriteIsLawful(config: Config, lane: Lane, c: Cycle, sent: set<Cloid>, quiet: bool, after: Cycle)
    requires WellKept(config, after) && Continues(c, after)
    ensures Lawful(config, lane, Some(c), sent, quiet, [Stored(after)])
  {
    var e: seq<Effect<Cycle>> := [Stored(after)];
    assert e[1..] == [];
  }

  lemma WaitIsLawful(config: Config, snapshot: Snapshot, now: Instant, c: Cycle, sent: set<Cloid>, quiet: bool)
    requires config.Valid() && snapshot.Valid()
    requires WellKept(config, c) && c.Active()
    requires Decide(config, snapshot, now, Some(c)).action.WaitForFunding?
    ensures Lawful(config, Lane(snapshot.symbol, now), Some(c), sent, quiet,
                   WaitTick(Decide(config, snapshot, now, Some(c)), c, now).effects)
  {
    var lane := Lane(snapshot.symbol, now);
    var decision := Decide(config, snapshot, now, Some(c));
    WaitIsUnconfirmed(config, snapshot, now, Some(c));
    hide Decide;
    SingleWriteIsLawful(config, lane, c, sent, quiet, WaitTick(decision, c, now).effects[0].data);
  }

  lemma AdjustIsLawful(config: Config, snapshot: Snapshot, now: Instant, c: Cycle, sent: set<Cloid>, quiet: bool,
                       env: Environment)
    requires config.Valid() && snapshot.Valid()
    requires WellKept(config, c) && c.Active() && c.symbol == snapshot.symbol && c.pendingAdjust.None?
    requires AllAccounted(c.symbol, Some(c), sent)
    requires Decide(config, snapshot, now, Some(c)).action.AdjustHedge?
    ensures Lawful(config, Lane(snapshot.symbol, now), Some(c), sent, quiet,
                   AdjustTick(config, Decide(config, snapshot, now, Some(c)), c, now, env).effects)
  {
    var lane := Lane(snapshot.symbol, now);
    var decision := Decide(config, snapshot, now, Some(c));
    assert c.key.symbol == c.symbol;
    ExitShrinks(config, snapshot, now, Some(c));
    hide Decide, WellKept, Lawful, AttemptFor, Calls, AdjustTick;
    AdjustIntent(config, decision, c, now, env);
    var tick := AdjustTick(config, decision, c, now, env);
    var cycle := tick.effects[0].data;
    ReductionIsLawful(config, lane, c, cycle, sent, quiet,
                      CloseRequest(snapshot.symbol, snapshot.hedge.position.size, Abs(decision.delta),
                                   cycle.pendingAdjust.value),
                      env, tick.result.cycle.value);
  }

  lemma CloseIsLawful(config: Config, snapshot: Snapshot, now: Instant, c: Cycle, sent: set<Cloid>, quiet: bool,
                      env: Environment)
    requires config.Valid() && snapshot.Valid()
    requires WellKept(config, c) && c.Active() && c.symbol == snapshot.symbol
    requires !(c.status.CloseSubmitted? && !snapshot.hedge.closeStatus.Ended())
    requires AllAccounted(c.symbol, Some(c), sent)
    requires Decide(config, snapshot, now, Some(c)).action.CloseHedge?
    ensures Lawful(config, Lane(snapshot.symbol, now), Some(c), sent, quiet,
                   CloseTick(config, Decide(config, snapshot, now, Some(c)), c, now, env).effects)
  {
    var lane := Lane(snapshot.symbol, now);
    var decision := Decide(config, snapshot, now, Some(c));
    assert c.key.symbol == c.symbol;
    hide Decide, WellKept, Lawful, AttemptFor, Calls, CloseTick;
    CloseIntent(config, decision, c, now, env);
    var tick := CloseTick(config, decision, c, now, env);
    var cycle := tick.effects[0].data;
    ReductionIsLawful(config, lane, c, cycle, sent, quiet,
                      CloseRequest(snapshot.symbol, snapshot.hedge.position.size, Abs(snapshot.hedge.position.size),
                                   cycle.closeCloid.value),
                      env, tick.result.cycle.value);
  }

  /** Acting on a live cycle is lawful whatever the exchange answers. */
  lemma ActIsLawful(config: Config, snapshot: Snapshot, now: Instant, c: Cycle, sent: set<Cloid>, quiet: bool,
                    env: Environment)
    requires config.Valid() && snapshot.Valid()
    requires WellKept(config, c) && c.Active() && c.symbol == snapshot.symbol
    requires AllAccounted(c.symbol, Some(c), sent)
    ensures Lawful(config, Lane(snapshot.symbol, now), Some(c), sent, quiet,
                   Act(config, Decide(config, snapshot, now, Some(c)), Some(c), now, env).effects)
  {
    var lane := Lane(snapshot.symbol, now);
    var decision := Decide(config, snapshot, now, Some(c));
    assert decision.snapshot == snapshot && !decision.action.OpenHedge?;
    hide Evaluate, Decide, AdjustTick, CloseTick, WaitTick;
    match decision.action {
      case WaitForFunding => WaitIsLawful(config, snapshot, now, c, sent, quiet);
      case AdjustHedge =>
        if c.pendingAdjust.None? {
          AdjustIsLawful(config, snapshot, now, c, sent, quiet, env);
        } else {
          PendingAdjustHolds(config, decision, c, now, env);
        }
      case CloseHedge =>
        if c.status.CloseSubmitted? && !snapshot.hedge.closeStatus.Ended() {
          PendingCloseHolds(config, decision, c, now, env);
        } else {
          CloseIsLawful(config, snapshot, now, c, sent, quiet, env);
        }
      case DemandRecovery =>
        SingleWriteIsLawful(config, lane, c, sent, quiet, RecoveryTick(decision, c, now).effects[0].data);
      case _ =>
    }
  }

  lemma PendingAdjustHolds(config: Config, decision: Decision, c: Cycle, now: Instant, env: Environment)
    requires c.pendingAdjust.Some?
    ensures AdjustTick(config, decision, c, now, env).effects == []
  {
  }

  lemma PendingCloseHolds(config: Config, decision: Decision, c: Cycle, now: Instant, env: Environment)
    requires c.status.CloseSubmitted? && !decision.snapshot.hedge.closeStatus.Ended()
    ensures CloseTick(config, decision, c, now, env).effects == []
  {
  }

  lemma AccountedAfterContinuing(symbol: Symbol, a: Cycle, b: Cycle, sent: set<Cloid>)
    requires AllAccounted(symbol, Some(a), sent) && Continues(a, b)
    ensures AllAccounted(symbol, Some(b), sent)
  {
  }

  /** Everything an executing tick does is lawful, from any accounted record, under any answers. */
  lemma ExecuteIsLawful(config: Config, stored: Option<Cycle>, snapshot: Snapshot, now: Instant, env: Environment,
                        sent: set<Cloid>, quiet: bool)
    requires config.Valid() && FromAdapter(config, snapshot) && snapshot.funding.observedAt <= now
    requires stored.Some? ==> WellKept(config, stored.value) && stored.value.symbol == snapshot.symbol
                              && stored.value.createdAt <= now
    requires AllAccounted(snapshot.symbol, stored, sent)
    requires Execute(config, stored, snapshot, now, env).result.decision.action.OpenHedge? ==> quiet
    ensures Lawful(config, Lane(snapshot.symbol, now), stored, sent, quiet, Execute(config, stored, snapshot, now, env).effects)
  {
    var lane := Lane(snapshot.symbol, now);
    var reconciled := Reconcile(config, stored, snapshot, now);
    if stored.Some? {
      ReconcileKeeps(config, stored.value, snapshot, now);
      AccountedAfterContinuing(snapshot.symbol, stored.value, reconciled.value, sent);
    }
    ActDecision(config, snapshot, now, reconciled, env);
    hide Decide, Lawful, ReconcileCycle, WellKept;
    var acted := Act(config, Decide(config, snapshot, now, reconciled), reconciled, now, env);
    assert Lawful(config, lane, reconciled, sent, quiet, acted.effects) by {
      if reconciled.Some? && reconciled.value.Active() {
        ActIsLawful(config, snapshot, now, reconciled.value, sent, quiet, env);
      } else if Decide(config, snapshot, now, reconciled).action.OpenHedge? {
        OpenTickIsLawful(config, snapshot, now, reconciled, sent, env);
      } else {
        NothingIsLawful(config, lane, reconciled, sent, quiet);
      }
    }
    if reconciled != stored {
      LawfulPrepend(config, lane, stored, sent, quiet, reconciled.value, acted.effects);
    } else {
      assert [] + acted.effects == acted.effects;
    }
  }

  lemma NothingIsLawful(config: Config, lane: Lane, disk: Option<Cycle>, sent: set<Cloid>, quiet: bool)
    ensures Lawful(config, lane, disk, sent, quiet, [])
  {
  }

  lemma ActDecision(config: Config, snapshot: Snapshot, now: Instant, reconciled: Option<Cycle>, env: Environment)
    requires config.Valid() && snapshot.Valid()
    ensures var decision := Decide(config, snapshot, now, reconciled);
            && decision.snapshot == snapshot
            && Act(config, decision, reconciled, now, env).result.decision == decision
            && (OnlyActive(reconciled).Some? ==> !decision.action.OpenHedge?)
  {
  }
}
