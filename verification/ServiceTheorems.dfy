// What one polling iteration may ask the executor to open, and that every snapshot is answered.
module ServiceTheorems {
  import opened Decimals
  import opened Models
  import opened Options
  import opened Policy
  import opened PolicyTheorems
  import opened Orders
  import opened StateMachine
  import opened StateMachineTheorems
  import opened StateStore
  import opened Service

  /** How often the executor is asked to open. */
  function OpenCalls<D>(effects: seq<Effect<D>>): nat {
    if effects == [] then 0
    else OpenCalls(effects[..|effects| - 1])
         + if effects[|effects| - 1].Asked? && effects[|effects| - 1].request.OpenRequest? then 1 else 0
  }

  lemma {:induction false} OpenCallsConcat<D>(a: seq<Effect<D>>, b: seq<Effect<D>>)
    ensures OpenCalls(a + b) == OpenCalls(a) + OpenCalls(b)
  {
    if b == [] {
      assert a + b == a;
    } else {
      assert (a + b)[..|a + b| - 1] == a + b[..|b| - 1];
      OpenCallsConcat(a, b[..|b| - 1]);
    }
  }

  lemma {:induction false} OpenCallsOnFile(file: Cycles, effects: seq<Effect<Cycle>>)
    ensures OpenCalls(OnFile(file, effects)) == OpenCalls(effects)
  {
    if effects != [] {
      assert OnFile(file, effects)[..|effects| - 1] == OnFile(file, effects[..|effects| - 1]);
      OpenCallsOnFile(file, effects[..|effects| - 1]);
    }
  }

  lemma OneEffect<D>(e: Effect<D>)
    ensures OpenCalls([e]) == if e.Asked? && e.request.OpenRequest? then 1 else 0
  {
    var one: seq<Effect<D>> := [e];
    assert one[..0] == [];
  }

  lemma CallsOpenCalls(config: Config, request: Request, env: Environment)
    ensures OpenCalls(Calls<Cycle>(config, request, env)) == if request.OpenRequest? then 1 else 0
  {
    hide AttemptFor, OpenCalls;
    var posted := AttemptFor(config, request, env).posted;
    OneEffect<Cycle>(Asked(request));
    if posted.Some? {
      OneEffect<Cycle>(Posted(posted.value));
      OpenCallsConcat<Cycle>([Asked(request)], [Posted(posted.value)]);
    } else {
      assert Calls<Cycle>(config, request, env) == [Asked(request)];
    }
  }

  lemma SubmitOpenCalls(config: Config, intent: seq<Effect<Cycle>>, request: Request, env: Environment, final: Cycle)
    requires forall i :: 0 <= i < |intent| ==> intent[i].Stored?
    ensures OpenCalls(intent + Calls(config, request, env) + [Stored(final)]) == if request.OpenRequest? then 1 else 0
  {
    hide AttemptFor, OpenCalls, Calls;
    CallsOpenCalls(config, request, env);
    StoredOpenCalls(intent);
    OneEffect<Cycle>(Stored(final));
    OpenCallsConcat<Cycle>(intent + Calls(config, request, env), [Stored(final)]);
    OpenCallsConcat(intent, Calls(config, request, env));
  }

  lemma {:induction false} StoredOpenCalls(effects: seq<Effect<Cycle>>)
    requires forall i :: 0 <= i < |effects| ==> effects[i].Stored?
    ensures OpenCalls(effects) == 0
  {
    if effects != [] {
      StoredOpenCalls(effects[..|effects| - 1]);
    }
  }

  lemma ActOpenCalls(config: Config, d: Decision, reconciled: Option<Cycle>, now: Instant, env: Environment)
    requires d.action.OpenHedge? ==> OnlyActive(reconciled).None?
    ensures OpenCalls(Act(config, d, reconciled, now, env).effects) == if d.action.OpenHedge? then 1 else 0
  {
    hide AttemptFor, OpenCalls, Calls;
    var acted := Act(config, d, reconciled, now, env);
    var active := OnlyActive(reconciled);
    if d.action.OpenHedge? {
      var armed := NewCycle(config, d, now);
      var cycle := armed.(status := OpenSubmitted, openSubmittedAt := Some(now));
      SubmitOpenCalls(config, [Stored(armed), Stored(cycle)],
                      OpenRequest(d.snapshot.symbol, d.delta, cycle.openCloid,
                                  cycle.settlementAt - Seconds(config.openCutoffSeconds)),
                      env, acted.result.cycle.value);
    } else if d.action.AdjustHedge? && active.Some? && active.value.pendingAdjust.None? {
      SubmitOpenCalls(config, [acted.effects[0]],
                      CloseRequest(d.snapshot.symbol, d.snapshot.hedge.position.size, Abs(d.delta),
                                   Cloid(active.value.key, AdjustPhase(active.value.adjustments + 1))),
                      env, acted.result.cycle.value);
    } else if d.action.CloseHedge? && active.Some?
              && !(active.value.status.CloseSubmitted? && !d.snapshot.hedge.closeStatus.Ended()) {
      SubmitOpenCalls(config, [acted.effects[0]],
                      CloseRequest(d.snapshot.symbol, d.snapshot.hedge.position.size,
                                   Abs(d.snapshot.hedge.position.size),
                                   Cloid(active.value.key, ClosePhase(active.value.closeAttempts + 1))),
                      env, acted.result.cycle.value);
    } else {
      StoredOpenCalls(acted.effects);
    }
  }

  /** A tick asks the executor to open exactly when its decision is to open, and once. */
  lemma ExecuteOpenCalls(config: Config, stored: Option<Cycle>, snapshot: Snapshot, now: Instant, env: Environment)
    requires config.Valid() && snapshot.Valid()
    ensures var tick := Execute(config, stored, snapshot, now, env);
            OpenCalls(tick.effects) == if tick.result.decision.action.OpenHedge? then 1 else 0
  {
    var reconciled := Reconcile(config, stored, snapshot, now);
    var d := Decide(config, snapshot, now, reconciled);
    ActDecision(config, snapshot, now, reconciled, env);
    ActOpenCalls(config, d, reconciled, now, env);
    hide Decide, Act, Reconcile;
    var acted := Act(config, d, reconciled, now, env);
    StoredOpenCalls(Preface(stored, reconciled));
    OpenCallsConcat(Preface(stored, reconciled), acted.effects);
  }

  /** The request an opening tick hands to the executor. */
  function OpeningRequest(config: Config, d: Decision): Request {
    OpenRequest(d.snapshot.symbol, d.delta, Cloid(d.key, OpenPhase),
                d.snapshot.funding.nextFundingAt - Seconds(config.openCutoffSeconds))
  }

  lemma ActAsks(config: Config, d: Decision, reconciled: Option<Cycle>, now: Instant, env: Environment, i: int)
    requires d.action.OpenHedge? ==> OnlyActive(reconciled).None?
    requires var effects := Act(config, d, reconciled, now, env).effects;
             0 <= i < |effects| && effects[i].Asked? && effects[i].request.OpenRequest?
    ensures d.action.OpenHedge? && Act(config, d, reconciled, now, env).effects[i].request == OpeningRequest(config, d)
  {
    hide AttemptFor;
  }

  /** A tick asks to open only what its decision says, under the settlement's opening id. */
  lemma ExecuteAsks(config: Config, stored: Option<Cycle>, snapshot: Snapshot, now: Instant, env: Environment, i: int)
    requires config.Valid() && snapshot.Valid()
    requires var effects := Execute(config, stored, snapshot, now, env).effects;
             0 <= i < |effects| && effects[i].Asked? && effects[i].request.OpenRequest?
    ensures var tick := Execute(config, stored, snapshot, now, env);
            && tick.result.decision.action.OpenHedge? && tick.result.decision.snapshot == snapshot
            && tick.effects[i].request == OpeningRequest(config, tick.result.decision)
  {
    var reconciled := Reconcile(config, stored, snapshot, now);
    var d := Decide(config, snapshot, now, reconciled);
    ActDecision(config, snapshot, now, reconciled, env);
    ActAsks(config, d, reconciled, now, env, i - |Preface(stored, reconciled)|);
    hide Decide, Act, Reconcile;
  }

  // ---------- openings that pass unnoticed ----------

  /** An opening tick counts as an attempt unless the executor failed with an empty text. */
  lemma NoticedUnlessTextIsEmpty(config: Config, stored: Option<Cycle>, snapshot: Snapshot, now: Instant, env: Environment)
    requires config.Valid() && snapshot.Valid()
    requires Execute(config, stored, snapshot, now, env).result.decision.action.OpenHedge?
    ensures var result := Execute(config, stored, snapshot, now, env).result;
            OpenAttempted(result)
            <==> AttemptFor(config, OpeningRequest(config, result.decision), env).outcome != Failed("")
  {
    var reconciled := Reconcile(config, stored, snapshot, now);
    ActDecision(config, snapshot, now, reconciled, env);
    hide Decide, Reconcile, AttemptFor, OpenTick;
    var d := Decide(config, snapshot, now, reconciled);
    assert Act(config, d, reconciled, now, env) == OpenTick(config, d, now, env);
    OpenTickNoticed(config, d, now, env);
  }

  lemma OpenTickNoticed(config: Config, d: Decision, now: Instant, env: Environment)
    requires d.action.OpenHedge?
    ensures OpenTick(config, d, now, env).result.decision == d
    ensures OpenAttempted(OpenTick(config, d, now, env).result)
            <==> AttemptFor(config, OpeningRequest(config, d), env).outcome != Failed("")
  {
    hide AttemptFor;
  }

  /** Every failure text the outside supplies is non-empty. */
  predicate Spoken(env: Environment) {
    && env.setupError != Some("")
    && env.leverage != Lost("")
    && env.priceError != Some("")
    && env.reply != Lost("")
  }

  lemma SpokenNeverFailsSilently(config: Config, request: Request, env: Environment)
    requires Spoken(env)
    ensures AttemptFor(config, request, env).outcome != Failed("")
  {
  }

  // ---------- how one round can open ----------

  /** The answer of executing a snapshot in this round. */
  function Answer(config: Config, state: RunState, snapshot: Snapshot, round: Round): CoordinatorResult
    requires config.Valid() && snapshot.Valid()
  {
    Execute(config, Lookup(state.file, snapshot.symbol), snapshot, round.clock, round.env).result
  }

  predicate PreviewOpens(config: Config, state: RunState, snapshot: Snapshot, at: Instant)
    requires config.Valid() && snapshot.Valid()
  {
    PreviewOf(config, state, snapshot, at).decision.action.OpenHedge?
  }

  /** The preview declined to open, yet the execution a moment later opens. */
  predicate OpensLate(config: Config, state: RunState, snapshot: Snapshot, round: Round, at: Instant)
    requires config.Valid() && snapshot.Valid()
  {
    !PreviewOpens(config, state, snapshot, at) && Answer(config, state, snapshot, round).decision.action.OpenHedge?
  }

  /** The preview opens, nothing was attempted before, and the re-read snapshot is executed. */
  predicate ExecutesReread(config: Config, state: RunState, snapshot: Snapshot, round: Round, at: Instant)
    requires config.Valid() && snapshot.Valid()
  {
    PreviewOpens(config, state, snapshot, at) && !state.attempted && Find(round.refreshed, snapshot.symbol).Some?
  }

  /** The re-read snapshot opens. */
  predicate OpensReread(config: Config, state: RunState, snapshot: Snapshot, round: Round, at: Instant)
    requires config.Valid() && snapshot.Valid() && AllValid(round.refreshed)
  {
    ExecutesReread(config, state, snapshot, round, at)
    && Answer(config, state, Find(round.refreshed, snapshot.symbol).value, round).decision.action.OpenHedge?
  }

  /** The re-read snapshot opens, and the answer does not count as an attempt. */
  predicate OpensSilently(config: Config, state: RunState, snapshot: Snapshot, round: Round, at: Instant)
    requires config.Valid() && snapshot.Valid() && AllValid(round.refreshed)
  {
    OpensReread(config, state, snapshot, round, at)
    && !OpenAttempted(Answer(config, state, Find(round.refreshed, snapshot.symbol).value, round))
  }

  predicate OpensNoticed(config: Config, state: RunState, snapshot: Snapshot, round: Round, at: Instant)
    requires config.Valid() && snapshot.Valid() && AllValid(round.refreshed)
  {
    OpensReread(config, state, snapshot, round, at) && !OpensSilently(config, state, snapshot, round, at)
  }

  function One(b: bool): nat {
    if b then 1 else 0
  }

  lemma ExecuteOnOpenCalls(config: Config, state: RunState, chosen: Snapshot, round: Round, errors: seq<Notice>)
    requires config.Valid() && chosen.Valid()
    ensures var after := ExecuteOn(config, state, chosen, round, errors);
            var answer := Answer(config, state, chosen, round);
            && OpenCalls(after.effects) == OpenCalls(state.effects) + One(answer.decision.action.OpenHedge?)
            && after.attempted == (state.attempted || OpenAttempted(answer))
  {
    var stored := Lookup(state.file, chosen.symbol);
    var tick := Execute(config, stored, chosen, round.clock, round.env);
    ExecuteOpenCalls(config, stored, chosen, round.clock, round.env);
    OpenCallsOnFile(state.file, tick.effects);
    OpenCallsConcat(state.effects, OnFile(state.file, tick.effects));
    hide Execute;
  }

  /** One round asks to open once if it opens late or opens the re-read snapshot, and otherwise not. */
  lemma RoundOpenCalls(config: Config, state: RunState, snapshot: Snapshot, round: Round, at: Instant)
    requires config.Valid() && snapshot.Valid() && AllValid(round.refreshed)
    ensures var after := RoundStep(config, state, snapshot, round, at, true);
            && OpenCalls(after.effects) == OpenCalls(state.effects)
               + One(OpensLate(config, state, snapshot, round, at))
               + One(OpensReread(config, state, snapshot, round, at))
            && (state.attempted ==> after.attempted)
            && (OpensNoticed(config, state, snapshot, round, at) ==> !state.attempted && after.attempted)
  {
    hide Execute, Preview, OpenAttempted;
    if !PreviewOpens(config, state, snapshot, at) {
      ExecuteOnOpenCalls(config, state, snapshot, round, state.errors);
    } else if !state.attempted {
      var errors := state.errors + Said(round.refreshErrors);
      match Find(round.refreshed, snapshot.symbol)
      case None =>
      case Some(reread) => ExecuteOnOpenCalls(config, state, reread, round, errors);
    }
  }

  // ---------- what the iteration remembers and reports ----------

  /** The answer to an opening that was submitted or failed with a text. */
  predicate Attempts(result: CoordinatorResult) {
    result.decision.action.OpenHedge? && !(result.execution == None && result.executionError == "")
  }

  lemma PreviewNeverAttempts(config: Config, state: RunState, snapshot: Snapshot, at: Instant)
    requires config.Valid() && snapshot.Valid()
    ensures !Attempts(PreviewOf(config, state, snapshot, at))
  {
    hide Decide, Reconcile;
  }

  /** Exactly the answers that attempt make the iteration remember an attempt. */
  lemma {:induction false} AttemptRemembered(config: Config, start: RunState, snapshots: seq<Snapshot>, rounds: seq<Round>,
                                             at: Instant, n: nat)
    requires config.Valid() && Usable(snapshots, rounds) && n <= |snapshots|
    requires start.results == [] && !start.attempted
    ensures var state := RunRounds(config, start, snapshots, rounds, at, true, n);
            |state.results| == n && (state.attempted <==> exists i :: 0 <= i < n && Attempts(state.results[i]))
  {
    hide RoundStep, Attempts;
    if n > 0 {
      var before := RunRounds(config, start, snapshots, rounds, at, true, n - 1);
      AttemptRemembered(config, start, snapshots, rounds, at, n - 1);
      RoundRemembers(config, before, snapshots[n - 1], rounds[n - 1], at);
      var state := RunRounds(config, start, snapshots, rounds, at, true, n);
      assert state.results[..n - 1] == before.results;
      assert forall i :: 0 <= i < n - 1 ==> state.results[i] == before.results[i];
    }
  }

  /** The one notice of a round, if any. */
  predicate NoticesOf(config: Config, state: RunState, snapshot: Snapshot, round: Round, at: Instant, added: seq<Notice>)
    requires config.Valid() && snapshot.Valid()
  {
    if !PreviewOpens(config, state, snapshot, at) then added == []
    else if state.attempted then added == [Deferred(snapshot.symbol)]
    else if Find(round.refreshed, snapshot.symbol).Some? then added == Said(round.refreshErrors)
    else added == Said(round.refreshErrors) + [RefreshFailed(snapshot.symbol)]
  }

  lemma RoundRemembers(config: Config, state: RunState, snapshot: Snapshot, round: Round, at: Instant)
    requires config.Valid() && snapshot.Valid() && AllValid(round.refreshed)
    ensures var after := RoundStep(config, state, snapshot, round, at, true);
            && |after.results| == |state.results| + 1 && state.results <= after.results
            && (after.attempted <==> state.attempted || Attempts(after.results[|state.results|]))
            && state.errors <= after.errors
            && NoticesOf(config, state, snapshot, round, at, after.errors[|state.errors|..])
  {
    PreviewNeverAttempts(config, state, snapshot, at);
    hide Execute, Preview;
  }

  // ---------- the exact number of openings ----------

  /** The openings of the first n rounds, by kind. */
  datatype Tally = Tally(late: nat, silent: nat, noticed: nat)

  function Count(config: Config, start: RunState, snapshots: seq<Snapshot>, rounds: seq<Round>,
                 at: Instant, n: nat): Tally
    requires config.Valid() && Usable(snapshots, rounds) && n <= |snapshots|
  {
    if n == 0 then Tally(0, 0, 0)
    else
      var state := RunRounds(config, start, snapshots, rounds, at, true, n - 1);
      var before := Count(config, start, snapshots, rounds, at, n - 1);
      Tally(before.late + One(OpensLate(config, state, snapshots[n - 1], rounds[n - 1], at)),
            before.silent + One(OpensSilently(config, state, snapshots[n - 1], rounds[n - 1], at)),
            before.noticed + One(OpensNoticed(config, state, snapshots[n - 1], rounds[n - 1], at)))
  }

  /**
   * Whatever the clock and the failures, an iteration asks to open exactly once
   * per late opening, once per silent one, and at most once more.
   */
  lemma {:induction false} OpeningsCounted(config: Config, start: RunState, snapshots: seq<Snapshot>,
                                           rounds: seq<Round>, at: Instant, n: nat)
    requires config.Valid() && Usable(snapshots, rounds) && n <= |snapshots|
    ensures var end := RunRounds(config, start, snapshots, rounds, at, true, n);
            var count := Count(config, start, snapshots, rounds, at, n);
            && OpenCalls(end.effects) == OpenCalls(start.effects) + count.late + count.silent + count.noticed
            && count.noticed <= 1
            && (count.noticed == 1 ==> end.attempted)
  {
    hide OpensLate, OpensReread, RoundStep, OpenAttempted, Answer;
    if n > 0 {
      OpeningsCounted(config, start, snapshots, rounds, at, n - 1);
      RoundOpenCalls(config, RunRounds(config, start, snapshots, rounds, at, true, n - 1),
                     snapshots[n - 1], rounds[n - 1], at);
    }
  }

  /** So it asks at most once exactly when late, silent and noticed openings number at most one together. */
  lemma AtMostOneOpenExactly(config: Config, start: RunState, snapshots: seq<Snapshot>, rounds: seq<Round>, at: Instant)
    requires config.Valid() && Usable(snapshots, rounds)
    ensures var end := RunRounds(config, start, snapshots, rounds, at, true, |snapshots|);
            var count := Count(config, start, snapshots, rounds, at, |snapshots|);
            OpenCalls(end.effects) <= OpenCalls(start.effects) + 1
            <==> count.late + count.silent == 0
                 || (count.late + count.silent == 1 && count.noticed == 0)
  {
    OpeningsCounted(config, start, snapshots, rounds, at, |snapshots|);
  }

  // ---------- conditions a caller can check beforehand ----------

  /** The record of the symbol has ended, or there is none. */
  predicate Idle(stored: Option<Cycle>) {
    stored.None? || !stored.value.Active()
  }

  /** At both times idle and inside the entry window, the two decisions agree on opening. */
  lemma WindowDecides(config: Config, stored: Option<Cycle>, snapshot: Snapshot, a: Instant, b: Instant)
    requires config.Valid() && snapshot.Valid() && Idle(stored)
    requires EntryWindow(config, snapshot, a) && EntryWindow(config, snapshot, b)
    ensures Decide(config, snapshot, a, stored).action.OpenHedge? <==> Decide(config, snapshot, b, stored).action.OpenHedge?
  {
    var q := TargetQuantity(config, snapshot, true);
    TargetQuantityIsBest(config, snapshot, true);
    OpensExactlyWhenWorthwhile(config, snapshot, a, None, q);
    OpensExactlyWhenWorthwhile(config, snapshot, b, None, q);
    hide FiguresFor, Choose, TargetQuantity, IsBestSize, RoundTripCost, Earnings, Notional, PrimaryPays;
  }

  lemma OpensOnlyInWindow(config: Config, snapshot: Snapshot, now: Instant, reconciled: Option<Cycle>)
    requires config.Valid() && snapshot.Valid()
    requires Decide(config, snapshot, now, reconciled).action.OpenHedge?
    ensures EntryWindow(config, snapshot, now)
  {
    OpenIsSound(config, snapshot, now, OnlyActive(reconciled));
    hide Evaluate, IsBestSize, RoundTripCost, Earnings, Notional, PrimaryPays;
  }

  /** A record of the settlement the snapshot would open for keeps it shut. */
  lemma OwnSettlementNeverOpens(config: Config, stored: Option<Cycle>, snapshot: Snapshot, now: Instant)
    requires config.Valid() && snapshot.Valid()
    requires stored.Some? && stored.value.key == KeyFor(config, snapshot, snapshot.funding.nextFundingAt)
    ensures !Decide(config, snapshot, now, Reconcile(config, stored, snapshot, now)).action.OpenHedge?
  {
    var r := Reconcile(config, stored, snapshot, now);
    ReconcileKeepsKey(config, stored.value, snapshot, now);
    hide Evaluate, Reconcile, KeyFor, IsBestSize, Openable, ReconcileCycle;
    if Evaluate(config, snapshot, now, OnlyActive(r)).action.OpenHedge? {
      OpenIsSound(config, snapshot, now, OnlyActive(r));
    }
  }

  lemma ReconcileKeepsKey(config: Config, c: Cycle, snapshot: Snapshot, now: Instant)
    ensures Reconcile(config, Some(c), snapshot, now) == Some(ReconcileCycle(config, c, snapshot, now))
    ensures ReconcileCycle(config, c, snapshot, now).key == c.key
  {
    hide SameIdentity;
  }

  /**
   * The clock cannot turn a declined preview into an opening: it has not moved,
   * the entry window is shut when it is read, or was open all along for an idle
   * record, or the record is of the very settlement.
   */
  predicate Steady(config: Config, stored: Option<Cycle>, snapshot: Snapshot, at: Instant, clock: Instant) {
    || clock == at
    || !EntryWindow(config, snapshot, clock)
    || (EntryWindow(config, snapshot, at) && Idle(stored))
    || (stored.Some? && stored.value.key == KeyFor(config, snapshot, snapshot.funding.nextFundingAt))
  }

  lemma SteadyNeverLate(config: Config, state: RunState, snapshot: Snapshot, round: Round, at: Instant)
    requires config.Valid() && snapshot.Valid()
    requires Steady(config, Lookup(state.file, snapshot.symbol), snapshot, at, round.clock)
    ensures !OpensLate(config, state, snapshot, round, at)
  {
    var stored := Lookup(state.file, snapshot.symbol);
    var reconciled := Reconcile(config, stored, snapshot, round.clock);
    PreviewPredictsExecution(config, stored, snapshot, round.clock, round.env);
    if Idle(stored) {
      assert Reconcile(config, stored, snapshot, at) == stored == reconciled;
      if EntryWindow(config, snapshot, at) && EntryWindow(config, snapshot, round.clock) {
        WindowDecides(config, stored, snapshot, at, round.clock);
      }
    }
    if stored.Some? && stored.value.key == KeyFor(config, snapshot, snapshot.funding.nextFundingAt) {
      OwnSettlementNeverOpens(config, stored, snapshot, round.clock);
    }
    if Decide(config, snapshot, round.clock, reconciled).action.OpenHedge? {
      OpensOnlyInWindow(config, snapshot, round.clock, reconciled);
    }
    hide Decide, Reconcile, Execute, EntryWindow, KeyFor, Idle;
  }

  /**
   * For an idle record of another settlement a snapshot opens late exactly when
   * it is worth opening by the later clock and the entry window was shut before.
   */
  lemma LateExactly(config: Config, state: RunState, snapshot: Snapshot, round: Round, at: Instant, q: real)
    requires config.Valid() && snapshot.Valid() && IsBestSize(config, snapshot, q, true)
    requires var stored := Lookup(state.file, snapshot.symbol);
             Idle(stored)
             && (stored.Some? ==> stored.value.key != KeyFor(config, snapshot, snapshot.funding.nextFundingAt))
    ensures OpensLate(config, state, snapshot, round, at)
            <==> Openable(config, snapshot, round.clock, q) && !EntryWindow(config, snapshot, at)
  {
    var stored := Lookup(state.file, snapshot.symbol);
    IdleDecides(config, stored, snapshot, at, q);
    IdleDecides(config, stored, snapshot, round.clock, q);
    PreviewPredictsExecution(config, stored, snapshot, round.clock, round.env);
    assert Reconcile(config, stored, snapshot, at) == stored == Reconcile(config, stored, snapshot, round.clock);
    hide Decide, Reconcile, Execute, EntryWindow, KeyFor, Idle, IsBestSize, Notional, Earnings, RoundTripCost, PrimaryPays;
  }

  lemma IdleDecides(config: Config, stored: Option<Cycle>, snapshot: Snapshot, now: Instant, q: real)
    requires config.Valid() && snapshot.Valid() && IsBestSize(config, snapshot, q, true) && Idle(stored)
    requires stored.Some? ==> stored.value.key != KeyFor(config, snapshot, snapshot.funding.nextFundingAt)
    ensures Decide(config, snapshot, now, stored).action.OpenHedge? <==> Openable(config, snapshot, now, q)
  {
    OpensExactlyWhenWorthwhile(config, snapshot, now, None, q);
    hide FiguresFor, Choose, IsBestSize, Openable, KeyFor;
  }

  lemma SpokenNeverSilent(config: Config, state: RunState, snapshot: Snapshot, round: Round, at: Instant)
    requires config.Valid() && snapshot.Valid() && AllValid(round.refreshed) && Spoken(round.env)
    ensures !OpensSilently(config, state, snapshot, round, at)
  {
    if OpensReread(config, state, snapshot, round, at) {
      var reread := Find(round.refreshed, snapshot.symbol).value;
      var stored := Lookup(state.file, reread.symbol);
      NoticedUnlessTextIsEmpty(config, stored, reread, round.clock, round.env);
      SpokenNeverFailsSilently(config, OpeningRequest(config, Answer(config, state, reread, round).decision), round.env);
    }
    hide Execute, AttemptFor, Preview;
  }

  /** With the clock pinned to the preview time and failures that say something, at most one opening. */
  lemma {:induction false} PinnedCount(config: Config, start: RunState, snapshots: seq<Snapshot>, rounds: seq<Round>,
                                       at: Instant, n: nat)
    requires config.Valid() && Usable(snapshots, rounds) && n <= |snapshots|
    requires forall i :: 0 <= i < |rounds| ==> Spoken(rounds[i].env) && rounds[i].clock == at
    ensures Count(config, start, snapshots, rounds, at, n).late == 0
    ensures Count(config, start, snapshots, rounds, at, n).silent == 0
  {
    hide OpensLate, OpensSilently, OpensNoticed, RoundStep, Spoken;
    if n > 0 {
      var state := RunRounds(config, start, snapshots, rounds, at, true, n - 1);
      PinnedCount(config, start, snapshots, rounds, at, n - 1);
      SteadyNeverLate(config, state, snapshots[n - 1], rounds[n - 1], at);
      SpokenNeverSilent(config, state, snapshots[n - 1], rounds[n - 1], at);
    }
  }

  lemma AtMostOneOpen(config: Config, start: RunState, snapshots: seq<Snapshot>, rounds: seq<Round>, at: Instant)
    requires config.Valid() && Usable(snapshots, rounds)
    requires forall i :: 0 <= i < |rounds| ==> Spoken(rounds[i].env) && rounds[i].clock == at
    ensures var end := RunRounds(config, start, snapshots, rounds, at, true, |snapshots|);
            OpenCalls(end.effects) <= OpenCalls(start.effects) + 1
  {
    PinnedCount(config, start, snapshots, rounds, at, |snapshots|);
    OpeningsCounted(config, start, snapshots, rounds, at, |snapshots|);
  }

  // ---------- records of other symbols ----------

  lemma {:induction false} OthersKept(file: Cycles, s: Symbol, other: Symbol, effects: seq<Effect<Cycle>>)
    requires other != s && Coordinator.AllFor(s, effects)
    ensures Lookup(FileAfter(file, effects), other) == Lookup(file, other)
  {
    if effects != [] && !effects[|effects| - 1].Stored? {
      OthersKept(file, s, other, effects[..|effects| - 1]);
    }
  }

  lemma TickKeepsOthers(config: Config, file: Cycles, snapshot: Snapshot, now: Instant, env: Environment, other: Symbol)
    requires config.Valid() && snapshot.Valid() && Filed(file) && other != snapshot.symbol
    ensures Lookup(FileAfter(file, Execute(config, Lookup(file, snapshot.symbol), snapshot, now, env).effects), other)
            == Lookup(file, other)
  {
    TickStaysInLane(config, file, snapshot, now, env);
    hide Execute;
    OthersKept(file, snapshot.symbol, other,
               Execute(config, Lookup(file, snapshot.symbol), snapshot, now, env).effects);
  }

  lemma RoundKeepsOthers(config: Config, state: RunState, snapshot: Snapshot, round: Round, at: Instant, other: Symbol)
    requires config.Valid() && snapshot.Valid() && AllValid(round.refreshed)
    requires Filed(state.file) && other != snapshot.symbol
    ensures var after := RoundStep(config, state, snapshot, round, at, true);
            Lookup(after.file, other) == Lookup(state.file, other) && Filed(after.file)
  {
    TickKeepsOthers(config, state.file, snapshot, round.clock, round.env, other);
    TickStaysFiled(config, state.file, snapshot, round.clock, round.env);
    var reread := Find(round.refreshed, snapshot.symbol);
    if reread.Some? {
      TickKeepsOthers(config, state.file, reread.value, round.clock, round.env, other);
      TickStaysFiled(config, state.file, reread.value, round.clock, round.env);
    }
    hide Execute, Preview, FileAfter, Lookup, Filed;
  }

  predicate DistinctSymbols(snapshots: seq<Snapshot>) {
    forall i, j :: 0 <= i < j < |snapshots| ==> snapshots[i].symbol != snapshots[j].symbol
  }

  /** A symbol's record is untouched until its own snapshot is handled. */
  lemma {:induction false} RecordUntilItsTurn(config: Config, start: RunState, snapshots: seq<Snapshot>, rounds: seq<Round>,
                                              at: Instant, n: nat, i: nat)
    requires config.Valid() && Usable(snapshots, rounds) && n <= i < |snapshots|
    requires DistinctSymbols(snapshots) && Filed(start.file)
    ensures var state := RunRounds(config, start, snapshots, rounds, at, true, n);
            Filed(state.file) && Lookup(state.file, snapshots[i].symbol) == Lookup(start.file, snapshots[i].symbol)
  {
    hide RoundStep, Filed, Lookup;
    if n > 0 {
      RecordUntilItsTurn(config, start, snapshots, rounds, at, n - 1, i);
      RoundKeepsOthers(config, RunRounds(config, start, snapshots, rounds, at, true, n - 1),
                       snapshots[n - 1], rounds[n - 1], at, snapshots[i].symbol);
    }
  }

  /** What a caller can check before the iteration: distinct symbols, steady clocks, and failures that say something. */
  predicate Settled(config: Config, file: Cycles, snapshots: seq<Snapshot>, rounds: seq<Round>, at: Instant) {
    && |rounds| == |snapshots| && DistinctSymbols(snapshots)
    && forall i :: 0 <= i < |rounds| ==>
         Spoken(rounds[i].env) && Steady(config, Lookup(file, snapshots[i].symbol), snapshots[i], at, rounds[i].clock)
  }

  lemma {:induction false} SettledCount(config: Config, start: RunState, snapshots: seq<Snapshot>, rounds: seq<Round>,
                                        at: Instant, n: nat)
    requires config.Valid() && Usable(snapshots, rounds) && n <= |snapshots| && Filed(start.file)
    requires Settled(config, start.file, snapshots, rounds, at)
    ensures Count(config, start, snapshots, rounds, at, n).late == 0
    ensures Count(config, start, snapshots, rounds, at, n).silent == 0
  {
    hide OpensLate, OpensSilently, OpensNoticed, RoundStep, Spoken, Steady, Filed, Lookup;
    if n > 0 {
      var state := RunRounds(config, start, snapshots, rounds, at, true, n - 1);
      SettledCount(config, start, snapshots, rounds, at, n - 1);
      RecordUntilItsTurn(config, start, snapshots, rounds, at, n - 1, n - 1);
      SteadyNeverLate(config, state, snapshots[n - 1], rounds[n - 1], at);
      SpokenNeverSilent(config, state, snapshots[n - 1], rounds[n - 1], at);
    }
  }

  /** With a moving clock too, a settled iteration opens at most once. */
  lemma AtMostOneOpenWhenSettled(config: Config, start: RunState, snapshots: seq<Snapshot>, rounds: seq<Round>, at: Instant)
    requires config.Valid() && Usable(snapshots, rounds) && Filed(start.file)
    requires Settled(config, start.file, snapshots, rounds, at)
    ensures var end := RunRounds(config, start, snapshots, rounds, at, true, |snapshots|);
            OpenCalls(end.effects) <= OpenCalls(start.effects) + 1
  {
    SettledCount(config, start, snapshots, rounds, at, |snapshots|);
    OpeningsCounted(config, start, snapshots, rounds, at, |snapshots|);
  }

  // ---------- every snapshot is answered, and only a re-read one opens ----------

  /**
   * The one answer to a snapshot: its execution when the preview does not open,
   * the preview when an opening was already attempted or nothing was re-read, and
   * otherwise the execution of the re-read snapshot.
   */
  function ProperAnswer(config: Config, state: RunState, snapshot: Snapshot, round: Round, at: Instant): CoordinatorResult
    requires config.Valid() && snapshot.Valid() && AllValid(round.refreshed)
  {
    if !PreviewOpens(config, state, snapshot, at) then Answer(config, state, snapshot, round)
    else if !ExecutesReread(config, state, snapshot, round, at) then PreviewOf(config, state, snapshot, at)
    else Answer(config, state, Find(round.refreshed, snapshot.symbol).value, round)
  }

  lemma RoundAnswers(config: Config, state: RunState, snapshot: Snapshot, round: Round, at: Instant)
    requires config.Valid() && snapshot.Valid() && AllValid(round.refreshed)
    ensures RoundStep(config, state, snapshot, round, at, true).results
            == state.results + [ProperAnswer(config, state, snapshot, round, at)]
  {
    hide Execute, Preview;
  }

  lemma {:induction false} ResultsGrow(config: Config, start: RunState, snapshots: seq<Snapshot>, rounds: seq<Round>,
                                       at: Instant, m: nat, n: nat)
    requires config.Valid() && Usable(snapshots, rounds) && m <= n <= |snapshots| && start.results == []
    ensures |RunRounds(config, start, snapshots, rounds, at, true, n).results| == n
    ensures RunRounds(config, start, snapshots, rounds, at, true, m).results
            <= RunRounds(config, start, snapshots, rounds, at, true, n).results
  {
    hide RoundStep, ProperAnswer;
    if n > 0 {
      ResultsGrow(config, start, snapshots, rounds, at, if m < n then m else n - 1, n - 1);
      RoundAnswers(config, RunRounds(config, start, snapshots, rounds, at, true, n - 1),
                   snapshots[n - 1], rounds[n - 1], at);
    }
  }

  /** Every snapshot gets its one proper answer, in its place. */
  lemma EveryDecisionProcessed(config: Config, start: RunState, snapshots: seq<Snapshot>, rounds: seq<Round>,
                               at: Instant, i: nat)
    requires config.Valid() && Usable(snapshots, rounds) && i < |snapshots| && start.results == []
    ensures var state := RunRounds(config, start, snapshots, rounds, at, true, i);
            var end := RunRounds(config, start, snapshots, rounds, at, true, |snapshots|);
            |end.results| == |snapshots| && end.results[i] == ProperAnswer(config, state, snapshots[i], rounds[i], at)
  {
    hide RoundStep, ProperAnswer;
    ResultsGrow(config, start, snapshots, rounds, at, i, i);
    ResultsGrow(config, start, snapshots, rounds, at, i + 1, |snapshots|);
    RoundAnswers(config, RunRounds(config, start, snapshots, rounds, at, true, i), snapshots[i], rounds[i], at);
  }

  /** The effects one round adds. */
  function Added(config: Config, state: RunState, snapshot: Snapshot, round: Round, at: Instant): seq<Effect<Cycles>>
    requires config.Valid() && snapshot.Valid() && AllValid(round.refreshed)
  {
    var after := RoundStep(config, state, snapshot, round, at, true);
    if |state.effects| <= |after.effects| then after.effects[|state.effects|..] else []
  }

  predicate AsksToOpen<D>(e: Effect<D>) {
    e.Asked? && e.request.OpenRequest?
  }

  lemma ExecuteOnAsks(config: Config, state: RunState, chosen: Snapshot, round: Round, errors: seq<Notice>, e: Effect<Cycles>)
    requires config.Valid() && chosen.Valid() && AsksToOpen(e)
    requires e in ExecuteOn(config, state, chosen, round, errors).effects[|state.effects|..]
    ensures var answer := Answer(config, state, chosen, round);
            && answer.decision.action.OpenHedge? && answer.decision.snapshot == chosen
            && e.request == OpeningRequest(config, answer.decision)
  {
    var stored := Lookup(state.file, chosen.symbol);
    var tick := Execute(config, stored, chosen, round.clock, round.env);
    var added := OnFile(state.file, tick.effects);
    assert (state.effects + added)[|state.effects|..] == added;
    var i :| 0 <= i < |added| && added[i] == e;
    assert tick.effects[i] == Asked(e.request);
    ExecuteAsks(config, stored, chosen, round.clock, round.env, i);
  }

  /**
   * Unless it opens late, a round asks to open only after an opening preview,
   * with nothing attempted before, and then for the re-read snapshot of the
   * symbol, with that snapshot's delta.
   */
  lemma OnlyTheRereadOpens(config: Config, state: RunState, snapshot: Snapshot, round: Round, at: Instant, e: Effect<Cycles>)
    requires config.Valid() && snapshot.Valid() && AllValid(round.refreshed)
    requires e in Added(config, state, snapshot, round, at) && AsksToOpen(e)
    requires !OpensLate(config, state, snapshot, round, at)
    ensures OpensReread(config, state, snapshot, round, at)
    ensures var reread := Find(round.refreshed, snapshot.symbol).value;
            var decision := Answer(config, state, reread, round).decision;
            && decision.snapshot == reread && e.request == OpeningRequest(config, decision)
            && e.request.symbol == snapshot.symbol && e.request.signedSize == decision.delta
  {
    hide Execute, Preview, Answer;
    if !PreviewOpens(config, state, snapshot, at) {
      ExecuteOnAsks(config, state, snapshot, round, state.errors, e);
    } else if ExecutesReread(config, state, snapshot, round, at) {
      ExecuteOnAsks(config, state, Find(round.refreshed, snapshot.symbol).value, round,
                    state.errors + Said(round.refreshErrors), e);
    }
  }

  /** In particular under the pinned clock. */
  lemma PinnedOnlyTheRereadOpens(config: Config, state: RunState, snapshot: Snapshot, round: Round, at: Instant, e: Effect<Cycles>)
    requires config.Valid() && snapshot.Valid() && AllValid(round.refreshed) && round.clock == at
    requires e in Added(config, state, snapshot, round, at) && AsksToOpen(e)
    ensures PreviewOpens(config, state, snapshot, at) && !state.attempted && Find(round.refreshed, snapshot.symbol).Some?
    ensures var reread := Find(round.refreshed, snapshot.symbol).value;
            var decision := Answer(config, state, reread, round).decision;
            decision.snapshot == reread && e.request == OpeningRequest(config, decision)
  {
    SteadyNeverLate(config, state, snapshot, round, at);
    OnlyTheRereadOpens(config, state, snapshot, round, at, e);
  }
}
