// The coordinator: one polling iteration under the state lock, its intent
// written before every external action.
module Coordinator {
  import opened Decimals
  import opened Models
  import opened Options
  import opened Policy
  import opened Orders
  import opened StateMachine
  import opened StateMachineTheorems
  import opened StateStore
  import opened Executor

  datatype ProcessError = ExecutionNotEnabled | ExecutorMissing
  datatype Processed = Ok(result: CoordinatorResult) | Raised(error: ProcessError)

  class HedgeCoordinator {
    const config: Config
    const store: CycleStateStore
    const executor: HedgeExecutor?

    constructor (config: Config, store: CycleStateStore, executor: HedgeExecutor?)
      ensures this.config == config && this.store == store && this.executor == executor
    {
      this.config := config;
      this.store := store;
      this.executor := executor;
    }

    /** The parts share one configuration and one journal. */
    predicate Wired()
    {
      && config.Valid()
      && (executor != null ==> executor.config == config && executor.exchange.journal == store.journal)
    }

    /** Since `file` and `journal` were read, exactly these effects have happened. */
    ghost predicate Happened(file: Cycles, journal: seq<Effect<Cycles>>, effects: seq<Effect<Cycle>>)
      reads store, store.journal
    {
      store.file == FileAfter(file, effects) && store.journal.effects == journal + OnFile(file, effects)
    }

    /** Puts and flushes one record. */
    method Write(transaction: CycleTransaction, cycle: Cycle, ghost file: Cycles, ghost journal: seq<Effect<Cycles>>,
                 ghost effects: seq<Effect<Cycle>>)
      requires transaction.store == store && transaction.cycles == store.file
      requires Happened(file, journal, effects) && AllFor(cycle.symbol, effects)
      modifies transaction, store, store.journal
      ensures Happened(file, journal, effects + [Stored(cycle)])
      ensures transaction.cycles == store.file && !transaction.dirty
    {
      transaction.Put(cycle);
      transaction.Flush();
      WriteOnFile(file, effects, cycle);
    }

    method OpenBranch(transaction: CycleTransaction, decision: Decision, now: Instant, env: Environment)
      returns (result: CoordinatorResult)
      requires Wired() && executor != null
      requires transaction.store == store && !transaction.dirty && transaction.cycles == store.file
      modifies transaction, store, store.journal, executor.exchange
      ensures result == OpenTick(config, decision, now, env).result
      ensures Happened(old(store.file), old(store.journal.effects), OpenTick(config, decision, now, env).effects)
    {
      hide AttemptFor, Calls, Happened, OnFile, FileAfter;
      ghost var file, journal := store.file, store.journal.effects;
      NothingHappened();
      var armed := NewCycle(config, decision, now);
      Write(transaction, armed, file, journal, []);
      var cycle := armed.(status := OpenSubmitted, updatedAt := now, openSubmittedAt := Some(now));
      ghost var intent := [Stored(armed), Stored(cycle)];
      Write(transaction, cycle, file, journal, [] + [Stored(armed)]);
      assert [] + [Stored(armed)] + [Stored(cycle)] == intent;
      var deadline := cycle.settlementAt - Seconds(config.openCutoffSeconds);
      ghost var request := OpenRequest(decision.snapshot.symbol, decision.delta, cycle.openCloid, deadline);
      ghost var before := store.journal.effects;
      var outcome := executor.OpenHedge(decision.snapshot.symbol, decision.delta, cycle.openCloid, deadline, env);
      AskHappened(file, journal, intent, before, request, env);
      match outcome {
        case Executed(execution) =>
          if !execution.accepted {
            cycle := cycle.(status := Aborted, updatedAt := now, lastError := OrderRejected(execution.error));
          }
          result := CoordinatorResult(decision, Some(cycle), Some(execution), "");
        case Failed(text) =>
          cycle := cycle.(updatedAt := now, lastError := AmbiguousSubmission(text));
          result := CoordinatorResult(decision, Some(cycle), None, text);
      }
      CallsStayInLane(config, cycle.symbol, intent, request, env);
      Write(transaction, cycle, file, journal, intent + Calls(config, request, env));
    }

    method AdjustBranch(transaction: CycleTransaction, decision: Decision, before: Cycle, now: Instant, env: Environment)
      returns (result: CoordinatorResult)
      requires Wired() && executor != null
      requires transaction.store == store && !transaction.dirty && transaction.cycles == store.file
      modifies transaction, store, store.journal, executor.exchange
      ensures result == AdjustTick(config, decision, before, now, env).result
      ensures Happened(old(store.file), old(store.journal.effects), AdjustTick(config, decision, before, now, env).effects)
    {
      hide AttemptFor, Calls, Happened, OnFile, FileAfter;
      ghost var file, journal := store.file, store.journal.effects;
      NothingHappened();
      if before.pendingAdjust.Some? {
        return CoordinatorResult(decision, Some(before), None, "");
      }
      var size := decision.snapshot.hedge.position.size;
      var count := before.adjustments + 1;
      var cloid := Cloid(before.key, AdjustPhase(count));
      var cycle := before.(adjustments := count, pendingAdjust := Some(cloid), preAdjustSize := size,
                           updatedAt := now, adjustSubmittedAt := Some(now));
      ghost var intent := [Stored(cycle)];
      Write(transaction, cycle, file, journal, []);
      assert [] + intent == intent;
      ghost var request := CloseRequest(decision.snapshot.symbol, size, Abs(decision.delta), cloid);
      ghost var asked := store.journal.effects;
      var outcome := executor.CloseHedge(decision.snapshot.symbol, size, Abs(decision.delta), cloid, env);
      AskHappened(file, journal, intent, asked, request, env);
      match outcome {
        case Executed(execution) =>
          if !execution.accepted {
            cycle := cycle.(pendingAdjust := None, preAdjustSize := 0.0, adjustSubmittedAt := None,
                            lastError := OrderRejected(execution.error));
          }
          result := CoordinatorResult(decision, Some(cycle), Some(execution), "");
        case Failed(text) =>
          cycle := cycle.(lastError := AmbiguousSubmission(text));
          result := CoordinatorResult(decision, Some(cycle), None, text);
      }
      CallsStayInLane(config, cycle.symbol, intent, request, env);
      Write(transaction, cycle, file, journal, intent + Calls(config, request, env));
    }

    method CloseBranch(transaction: CycleTransaction, decision: Decision, before: Cycle, now: Instant, env: Environment)
      returns (result: CoordinatorResult)
      requires Wired() && executor != null
      requires transaction.store == store && !transaction.dirty && transaction.cycles == store.file
      modifies transaction, store, store.journal, executor.exchange
      ensures result == CloseTick(config, decision, before, now, env).result
      ensures Happened(old(store.file), old(store.journal.effects), CloseTick(config, decision, before, now, env).effects)
    {
      hide AttemptFor, Calls, Happened, OnFile, FileAfter;
      ghost var file, journal := store.file, store.journal.effects;
      NothingHappened();
      if before.status.CloseSubmitted? && !decision.snapshot.hedge.closeStatus.Ended() {
        return CoordinatorResult(decision, Some(before), None, "");
      }
      var size := decision.snapshot.hedge.position.size;
      var count := before.closeAttempts + 1;
      var cloid := Cloid(before.key, ClosePhase(count));
      var cycle := before.(status := CloseSubmitted, closeAttempts := count, closeCloid := Some(cloid),
                           actualSize := size, updatedAt := now, closeSubmittedAt := Some(now));
      ghost var intent := [Stored(cycle)];
      Write(transaction, cycle, file, journal, []);
      assert [] + intent == intent;
      ghost var request := CloseRequest(decision.snapshot.symbol, size, Abs(size), cloid);
      ghost var asked := store.journal.effects;
      var outcome := executor.CloseHedge(decision.snapshot.symbol, size, Abs(size), cloid, env);
      AskHappened(file, journal, intent, asked, request, env);
      match outcome {
        case Executed(execution) =>
          if !execution.accepted {
            cycle := cycle.(status := ClosePartial, lastError := OrderRejected(execution.error));
          }
          result := CoordinatorResult(decision, Some(cycle), Some(execution), "");
        case Failed(text) =>
          cycle := cycle.(lastError := AmbiguousSubmission(text));
          result := CoordinatorResult(decision, Some(cycle), None, text);
      }
      CallsStayInLane(config, cycle.symbol, intent, request, env);
      Write(transaction, cycle, file, journal, intent + Calls(config, request, env));
    }

    lemma NothingHappened()
      ensures Happened(store.file, store.journal.effects, [])
    {
    }

    /** An executor call happens in the journal and leaves the file alone. */
    lemma AskHappened(file: Cycles, journal: seq<Effect<Cycles>>, intent: seq<Effect<Cycle>>,
                      before: seq<Effect<Cycles>>, request: Request, env: Environment)
      requires store.file == FileAfter(file, intent) && before == journal + OnFile(file, intent)
      requires store.journal.effects == before + Calls(config, request, env)
      ensures Happened(file, journal, intent + Calls(config, request, env))
    {
      CallsOnFile(config, file, intent, request, env);
      hide AttemptFor, Calls, OnFile, FileAfter;
    }

    method ActOn(transaction: CycleTransaction, decision: Decision, reconciled: Option<Cycle>, now: Instant,
                 env: Environment)
      returns (result: CoordinatorResult)
      requires Wired() && executor != null
      requires transaction.store == store && !transaction.dirty && transaction.cycles == store.file
      modifies transaction, store, store.journal, executor.exchange
      ensures result == Act(config, decision, reconciled, now, env).result
      ensures Happened(old(store.file), old(store.journal.effects), Act(config, decision, reconciled, now, env).effects)
    {
      hide OpenTick, AdjustTick, CloseTick, Happened;
      ghost var file, journal := store.file, store.journal.effects;
      NothingHappened();
      var active := OnlyActive(reconciled);
      if decision.action.OpenHedge? {
        if active.Some? {
          return CoordinatorResult(decision, active, None, "");
        }
        result := OpenBranch(transaction, decision, now, env);
      } else if decision.action.WaitForFunding? && active.Some? {
        var hedge := decision.snapshot.hedge;
        var before := active.value;
        var cycle := before.(
          status := if now >= before.settlementAt then AwaitingFunding
                    else if Abs(hedge.position.size) < Abs(before.targetSize) then OpenPartial
                    else Hedged,
          actualSize := hedge.position.size,
          updatedAt := now,
          fundingConfirmedAt := if hedge.fundingConfirmed then hedge.fundingRecordTime else before.fundingConfirmedAt,
          fundingDelta := if hedge.fundingConfirmed then hedge.fundingDelta else before.fundingDelta);
        Write(transaction, cycle, file, journal, []);
        assert [] + [Stored(cycle)] == [Stored(cycle)];
        result := CoordinatorResult(decision, Some(cycle), None, "");
      } else if decision.action.AdjustHedge? && active.Some? {
        result := AdjustBranch(transaction, decision, active.value, now, env);
      } else if decision.action.CloseHedge? && active.Some? {
        result := CloseBranch(transaction, decision, active.value, now, env);
      } else if decision.action.DemandRecovery? && active.Some? {
        var cycle := active.value.(status := RecoveryRequired, updatedAt := now,
                                   lastError := PolicyDemands(decision.reason));
        Write(transaction, cycle, file, journal, []);
        assert [] + [Stored(cycle)] == [Stored(cycle)];
        result := CoordinatorResult(decision, Some(cycle), None, "");
      } else {
        result := CoordinatorResult(decision, reconciled, None, "");
      }
    }

    /**
     * One polling iteration. Without `execute` nothing changes; with it the
     * journal grows by exactly the effects of the tick and the file holds its last record.
     */
    method Process(snapshot: Snapshot, now: Instant, execute: bool, clock: Option<Instant>, env: Environment)
      returns (processed: Processed)
      requires Wired() && snapshot.Valid() && Filed(store.file)
      modifies store, store.journal, if executor != null then {executor.exchange} else {}
      ensures var at := if execute && clock.Some? then clock.value else now;
              var stored := Lookup(old(store.file), snapshot.symbol);
              if !execute then
                && processed == Ok(Preview(config, stored, snapshot, at))
                && store.file == old(store.file) && store.journal.effects == old(store.journal.effects)
              else if !config.executionEnabled || executor == null then
                && processed == Raised(if !config.executionEnabled then ExecutionNotEnabled else ExecutorMissing)
                && store.file == old(store.file) && store.journal.effects == old(store.journal.effects)
              else
                var tick := Execute(config, stored, snapshot, at, env);
                && processed == Ok(tick.result)
                && store.journal.effects == old(store.journal.effects) + OnFile(old(store.file), tick.effects)
                && store.file == FileAfter(old(store.file), tick.effects)
    {
      hide Reconcile, Decide, Act, Execute, OnFile, FileAfter;
      var at := if execute && clock.Some? then clock.value else now;
      var transaction := new CycleTransaction(store);
      var stored := Lookup(transaction.cycles, snapshot.symbol);
      var reconciled := Reconcile(config, stored, snapshot, at);
      var decision := Decide(config, snapshot, at, reconciled);
      if !execute {
        return Ok(CoordinatorResult(decision, reconciled, None, ""));
      }
      if !config.executionEnabled {
        return Raised(ExecutionNotEnabled);
      }
      if executor == null {
        return Raised(ExecutorMissing);
      }
      TickOnFile(config, store.file, snapshot, at, env);
      if reconciled.Some? && reconciled != stored {
        transaction.Put(reconciled.value);
      }
      transaction.Flush();
      var result := ActOn(transaction, decision, reconciled, at, env);
      return Ok(result);
    }
  }

  lemma WriteOnFile(file: Cycles, effects: seq<Effect<Cycle>>, cycle: Cycle)
    requires AllFor(cycle.symbol, effects)
    ensures FileAfter(file, effects + [Stored(cycle)]) == FileAfter(file, effects)[cycle.symbol := cycle]
    ensures OnFile(file, effects + [Stored(cycle)])
            == OnFile(file, effects) + [Stored(FileAfter(file, effects)[cycle.symbol := cycle])]
  {
    assert (effects + [Stored(cycle)])[..|effects|] == effects;
    LastOfSymbol(file, effects, cycle);
  }

  lemma {:induction false} LastOfSymbol(file: Cycles, effects: seq<Effect<Cycle>>, cycle: Cycle)
    requires AllFor(cycle.symbol, effects)
    ensures FileAfter(file, effects)[cycle.symbol := cycle] == file[cycle.symbol := cycle]
  {
    if effects != [] && !effects[|effects| - 1].Stored? {
      LastOfSymbol(file, effects[..|effects| - 1], cycle);
    }
  }

  lemma CallsOnFile(config: Config, file: Cycles, intent: seq<Effect<Cycle>>, request: Request, env: Environment)
    ensures OnFile(file, intent + Calls(config, request, env)) == OnFile(file, intent) + Calls(config, request, env)
    ensures FileAfter(file, intent + Calls(config, request, env)) == FileAfter(file, intent)
  {
    hide AttemptFor;
    var posted := AttemptFor(config, request, env).posted;
    var asked := intent + [Asked(request)];
    assert asked[..|intent|] == intent;
    if posted.Some? {
      var all := asked + [Posted(posted.value)];
      assert all[..|asked|] == asked && all == intent + Calls(config, request, env);
    }
  }

  lemma CallsStayInLane(config: Config, s: Symbol, intent: seq<Effect<Cycle>>, request: Request, env: Environment)
    requires AllFor(s, intent)
    ensures AllFor(s, intent + Calls(config, request, env))
  {
    hide AttemptFor;
  }

  /** Filing two records under the same symbol keeps the second. */
  lemma Refiled(file: Cycles, a: Cycle, b: Cycle)
    requires a.symbol == b.symbol
    ensures file[a.symbol := a][b.symbol := b] == file[b.symbol := b]
  {
  }

  /** Every record written is filed under the symbol. */
  predicate AllFor(symbol: Symbol, effects: seq<Effect<Cycle>>) {
    forall i :: 0 <= i < |effects| && effects[i].Stored? ==> effects[i].data.symbol == symbol
  }

  lemma {:induction false} FileAfterRefiled(file: Cycles, c: Cycle, effects: seq<Effect<Cycle>>)
    requires AllFor(c.symbol, effects)
    ensures FileAfter(file[c.symbol := c], effects) == FileAfter(file, [Stored(c)] + effects)
  {
    var whole: seq<Effect<Cycle>> := [Stored(c)] + effects;
    if effects == [] {
      assert whole == [Stored(c)];
    } else {
      var last := effects[|effects| - 1];
      assert whole[|whole| - 1] == last;
      if last.Stored? {
        Refiled(file, c, last.data);
      } else {
        assert whole[..|whole| - 1] == [Stored(c)] + effects[..|effects| - 1];
        FileAfterRefiled(file, c, effects[..|effects| - 1]);
      }
    }
  }

  /** Writing the reconciled record first does not change what the rest writes. */
  lemma FileInTwoParts(file: Cycles, s: Symbol, stored: Option<Cycle>, reconciled: Option<Cycle>,
                       effects: seq<Effect<Cycle>>)
    requires stored == Lookup(file, s)
    requires reconciled.Some? && reconciled != stored ==> reconciled.value.symbol == s && AllFor(s, effects)
    ensures var all := Preface(stored, reconciled) + effects;
            var mid := if reconciled.Some? && reconciled != stored then file[s := reconciled.value] else file;
            && FileAfter(file, all) == FileAfter(mid, effects)
            && OnFile(file, all) == OnFile(file, Preface(stored, reconciled)) + OnFile(mid, effects)
  {
    if reconciled.Some? && reconciled != stored {
      var c := reconciled.value;
      FileAfterRefiled(file, c, effects);
      forall i | 0 <= i < |effects| ensures LiftEffect(file, effects[i]) == LiftEffect(file[s := c], effects[i]) {
        if effects[i].Stored? {
          Refiled(file, c, effects[i].data);
        }
      }
    } else {
      assert [] + effects == effects;
    }
  }

  lemma ActStaysInLane(config: Config, decision: Decision, reconciled: Option<Cycle>, now: Instant, env: Environment)
    requires reconciled.Some? ==> reconciled.value.symbol == decision.snapshot.symbol
    ensures AllFor(decision.snapshot.symbol, Act(config, decision, reconciled, now, env).effects)
  {
    hide AttemptFor;
  }

  /** The tick on the whole file: the reconciled record first, then what acting on it writes. */
  lemma TickOnFile(config: Config, file: Cycles, snapshot: Snapshot, now: Instant, env: Environment)
    requires config.Valid() && snapshot.Valid() && Filed(file)
    ensures var s := snapshot.symbol;
            var stored := Lookup(file, s);
            var reconciled := Reconcile(config, stored, snapshot, now);
            var decision := Decide(config, snapshot, now, reconciled);
            var acted := Act(config, decision, reconciled, now, env);
            var tick := Execute(config, stored, snapshot, now, env);
            && tick.result == acted.result
            && (reconciled != stored ==> reconciled.Some? && reconciled.value.symbol == s)
            && var mid := if reconciled != stored then file[s := reconciled.value] else file;
            && FileAfter(file, tick.effects) == FileAfter(mid, acted.effects)
            && OnFile(file, tick.effects)
               == OnFile(file, Preface(stored, reconciled)) + OnFile(mid, acted.effects)
            && OnFile(file, Preface(stored, reconciled)) == if reconciled != stored then [Stored(mid)] else []
  {
    var s := snapshot.symbol;
    var stored := Lookup(file, s);
    var reconciled := Reconcile(config, stored, snapshot, now);
    ReconcileStaysInLane(config, stored, snapshot, now);
    var decision := Decide(config, snapshot, now, reconciled);
    ActDecision(config, snapshot, now, reconciled, env);
    ActStaysInLane(config, decision, reconciled, now, env);
    hide Reconcile, Decide, Act, OnFile, FileAfter;
    var acted := Act(config, decision, reconciled, now, env);
    FileInTwoParts(file, s, stored, reconciled, acted.effects);
    PrefaceOnFile(file, s, stored, reconciled);
  }

  lemma PrefaceOnFile(file: Cycles, s: Symbol, stored: Option<Cycle>, reconciled: Option<Cycle>)
    requires reconciled != stored ==> reconciled.Some? && reconciled.value.symbol == s
    ensures OnFile(file, Preface(stored, reconciled))
            == if reconciled != stored then [Stored(file[s := reconciled.value])] else []
  {
  }

  lemma ReconcileStaysInLane(config: Config, stored: Option<Cycle>, snapshot: Snapshot, now: Instant)
    ensures Reconcile(config, stored, snapshot, now).Some? <==> stored.Some?
    ensures stored.Some? ==> Reconcile(config, stored, snapshot, now).value.symbol == stored.value.symbol
  {
    hide ReconcileAdjustment, ReconcileOpen, ReconcileClose, ReconcileSettlement;
    if stored.Some? {
      var seen := Observed(stored.value, snapshot, now);
      AdjustmentSameRecord(config, seen, snapshot, now);
      SettledTwice(config, ReconcileAdjustment(config, seen, snapshot, now), snapshot, now);
    }
  }
}
