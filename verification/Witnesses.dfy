// Concrete inputs at which tempting stronger claims about the hedge fail.
module Witnesses {
  import opened Decimals
  import opened Models
  import opened Options
  import opened Texts
  import opened Policy
  import opened PolicyTheorems
  import opened Orders
  import opened StateMachine
  import opened StateMachineTheorems
  import opened StateStore
  import opened TickTheorems
  import opened Service
  import opened ServiceTheorems
  import opened Demo

  // ---------- one iteration that opens twice ----------

  function DemoPair(at: Instant): (r: seq<Snapshot>) {
    [DemoSnapshot("A", 10.0, 0.0, at), DemoSnapshot("B", 10.0, 0.0, at)]
  }

  function Twice(round: Round): seq<Round> {
    [round, round]
  }

  lemma DemoIsUsable(at: Instant, round: Round)
    requires AllValid(round.refreshed)
    ensures DemoConfig().Valid() && Usable(DemoPair(at), Twice(round))
    ensures Filed(map[]) && DemoPair(at)[0].symbol != DemoPair(at)[1].symbol
  {
    DemoIsValid("A", 10.0, 0.0, at);
    DemoIsValid("B", 10.0, 0.0, at);
    assert "A"[0] != "B"[0];
  }

  /** The state in which the second snapshot is handled still has no record of it. */
  lemma SecondIsFresh(at: Instant, round: Round)
    requires AllValid(round.refreshed)
    requires DemoConfig().Valid() && Usable(DemoPair(at), Twice(round))
    ensures var second := RunRounds(DemoConfig(), StartOf(map[], []), DemoPair(at), Twice(round), at, true, 1);
            Lookup(second.file, "B") == None
  {
    DemoIsUsable(at, round);
    RoundKeepsOthers(DemoConfig(), StartOf(map[], []), DemoPair(at)[0], round, at, "B");
    hide RoundStep, DemoConfig, DemoSnapshot;
  }

  /** The late round: previewed five seconds before the window, executed inside it. */
  const LATE_ROUND := Round([], [], Before(100), OFFLINE)

  lemma DemoLate(state: RunState, symbol: Symbol)
    requires ':' !in symbol && Lookup(state.file, symbol) == None
    ensures DemoConfig().Valid() && DemoSnapshot(symbol, 10.0, 0.0, Before(125)).Valid()
    ensures OpensLate(DemoConfig(), state, DemoSnapshot(symbol, 10.0, 0.0, Before(125)), LATE_ROUND, Before(125))
  {
    var snapshot := DemoSnapshot(symbol, 10.0, 0.0, Before(125));
    DemoOpens(symbol, Before(125), Before(125));
    DemoOpens(symbol, Before(125), Before(100));
    FreshDecision(snapshot, Before(125), OFFLINE);
    FreshDecision(snapshot, Before(100), OFFLINE);
    hide Evaluate, Execute, Preview;
  }

  /**
   * With a moving clock one iteration can open twice: both snapshots are read and
   * previewed just before the entry window and executed just inside it.
   */
  lemma MovingClockOpensTwice()
    ensures DemoConfig().Valid() && Usable(DemoPair(Before(125)), Twice(LATE_ROUND)) && Spoken(LATE_ROUND.env)
    ensures OpenCalls(RunRounds(DemoConfig(), StartOf(map[], []), DemoPair(Before(125)), Twice(LATE_ROUND),
                                Before(125), true, 2).effects) == 2
  {
    var at: Instant := Before(125);
    DemoIsUsable(at, LATE_ROUND);
    SecondIsFresh(at, LATE_ROUND);
    DemoLate(StartOf(map[], []), "A");
    DemoLate(RunRounds(DemoConfig(), StartOf(map[], []), DemoPair(at), Twice(LATE_ROUND), at, true, 1), "B");
    hide OpensLate, OpensReread, RoundStep, DemoConfig, DemoSnapshot, Spoken;
    TwoRounds(DemoConfig(), DemoPair(at), Twice(LATE_ROUND), at);
  }

  /** Two rounds open twice when each of them opens late or silently. */
  lemma TwoRounds(config: Config, snapshots: seq<Snapshot>, rounds: seq<Round>, at: Instant)
    requires config.Valid() && Usable(snapshots, rounds) && |snapshots| == 2
    requires var start := StartOf(map[], []);
             var second := RunRounds(config, start, snapshots, rounds, at, true, 1);
             && (OpensLate(config, start, snapshots[0], rounds[0], at) || OpensSilently(config, start, snapshots[0], rounds[0], at))
             && (OpensLate(config, second, snapshots[1], rounds[1], at) || OpensSilently(config, second, snapshots[1], rounds[1], at))
    ensures OpenCalls(RunRounds(config, StartOf(map[], []), snapshots, rounds, at, true, 2).effects) == 2
  {
    hide RoundStep, Answer, OpenAttempted, PreviewOpens;
    var start := StartOf(map[], []);
    RoundOpenCalls(config, start, snapshots[0], rounds[0], at);
    RoundOpenCalls(config, RunRounds(config, start, snapshots, rounds, at, true, 1), snapshots[1], rounds[1], at);
    hide ExecutesReread;
    assert RunRounds(config, start, snapshots, rounds, at, true, 0) == start;
    assert RunRounds(config, start, snapshots, rounds, at, true, 1) == RoundStep(config, start, snapshots[0], rounds[0], at, true);
  }

  /** The executor's set-up fails with an exception whose text is empty. */
  const WORDLESS := Environment(Some(""), 0, Lost(""), None, 0, Lost(""))

  function SilentRound(at: Instant): Round {
    Round(DemoPair(at), [], at, WORDLESS)
  }

  lemma FindsItself(at: Instant, symbol: Symbol)
    requires symbol == "A" || symbol == "B"
    ensures Find(SilentRound(at).refreshed, symbol) == Some(DemoSnapshot(symbol, 10.0, 0.0, at))
  {
    hide DemoSnapshot;
    assert "A"[0] != "B"[0];
    assert DemoPair(at)[1..] == [DemoSnapshot("B", 10.0, 0.0, at)];
    DemoSymbols(at);
  }

  lemma DemoSymbols(at: Instant)
    ensures DemoSnapshot("A", 10.0, 0.0, at).symbol == "A" && DemoSnapshot("B", 10.0, 0.0, at).symbol == "B"
  {
  }

  lemma DemoSilent(state: RunState, symbol: Symbol)
    requires symbol == "A" || symbol == "B"
    requires Lookup(state.file, symbol) == None && !state.attempted
    ensures var snapshot := DemoSnapshot(symbol, 10.0, 0.0, Before(100));
            && DemoConfig().Valid() && snapshot.Valid() && AllValid(SilentRound(Before(100)).refreshed)
            && OpensSilently(DemoConfig(), state, snapshot, SilentRound(Before(100)), Before(100))
            && !RoundStep(DemoConfig(), state, snapshot, SilentRound(Before(100)), Before(100), true).attempted
  {
    var at: Instant := Before(100);
    var snapshot := DemoSnapshot(symbol, 10.0, 0.0, at);
    DemoIsValid("A", 10.0, 0.0, at);
    DemoIsValid("B", 10.0, 0.0, at);
    DemoOpens(symbol, at, at);
    FreshDecision(snapshot, at, WORDLESS);
    FindsItself(at, symbol);
    NoticedUnlessTextIsEmpty(DemoConfig(), None, snapshot, at, WORDLESS);
    DemoFailsSilently(snapshot, at);
    ExecuteOnOpenCalls(DemoConfig(), state, snapshot, SilentRound(at), state.errors + Said([]));
    hide Evaluate, Execute, Preview, OpenAttempted, AttemptFor, DemoConfig, OpenCalls;
  }

  lemma DemoFailsSilently(snapshot: Snapshot, now: Instant)
    requires DemoConfig().Valid() && snapshot.Valid() && snapshot.symbol in DemoConfig().symbols
    requires Evaluate(DemoConfig(), snapshot, now, None).action.OpenHedge?
    ensures var d := Evaluate(DemoConfig(), snapshot, now, None);
            AttemptFor(DemoConfig(), OpeningRequest(DemoConfig(), d), WORDLESS).outcome == Failed("")
  {
    OpenIsSound(DemoConfig(), snapshot, now, None);
    assert Evaluate(DemoConfig(), snapshot, now, None).snapshot == snapshot;
    hide Evaluate, IsBestSize, Openable, KeyFor;
  }

  /**
   * With the clock pinned, failures whose text is empty are not counted as
   * attempts, and one iteration opens twice.
   */
  lemma WordlessFailureOpensTwice()
    ensures DemoConfig().Valid() && Usable(DemoPair(Before(100)), Twice(SilentRound(Before(100))))
    ensures SilentRound(Before(100)).clock == Before(100)
    ensures OpenCalls(RunRounds(DemoConfig(), StartOf(map[], []), DemoPair(Before(100)), Twice(SilentRound(Before(100))),
                                Before(100), true, 2).effects) == 2
  {
    var at: Instant := Before(100);
    var round := SilentRound(at);
    DemoSilent(StartOf(map[], []), "A");
    DemoIsUsable(at, round);
    SecondIsFresh(at, round);
    hide OpensLate, OpensSilently, RoundStep, DemoConfig, DemoSnapshot;
    var start := StartOf(map[], []);
    var second := RunRounds(DemoConfig(), start, DemoPair(at), Twice(round), at, true, 1);
    assert second == RoundStep(DemoConfig(), start, DemoPair(at)[0], round, at, true);
    DemoSilent(second, "B");
    TwoRounds(DemoConfig(), DemoPair(at), Twice(round), at);
  }

  // ---------- submitted closes that are forgotten ----------

  /** A record whose close was submitted one second before the demo is evaluated. */
  function DemoClosing(now: Instant): Cycle
    requires now >= Seconds(1)
  {
    var key := CycleKey(Mainnet, "p", "h", "A", Millis(HOUR));
    Cycle(key, CloseSubmitted, "A", "p", "h", Mainnet, Wallet, HOUR, -10.0, -10.0, Cloid(key, OpenPhase),
          Some(Cloid(key, ClosePhase(1))), now - Seconds(1), now - Seconds(1), 1, 0, None, 0.0,
          Some(now - Seconds(1)), Some(now - Seconds(1)), None, None, None, NoFault)
  }

  /** The same with an adjustment of the whole hedge still pending. */
  function DemoAdjusting(now: Instant): Cycle
    requires now >= Seconds(1)
  {
    var c := DemoClosing(now);
    c.(adjustments := 1, pendingAdjust := Some(Cloid(c.key, AdjustPhase(1))), preAdjustSize := -10.0,
       adjustSubmittedAt := Some(now - Seconds(1)))
  }

  lemma DemoIdentity(c: Cycle, snapshot: Snapshot)
    requires c.symbol == "A" == snapshot.symbol && c.primaryAddress == "p" == snapshot.primary.address
    requires c.hedgeAddress == "h" == snapshot.hedge.position.address && c.network == Mainnet && c.hedgeKind == Wallet
    ensures Identified(DemoConfig(), c, snapshot)
  {
    assert Lower("p")[0] == 'p' && Lower("h")[0] == 'h';
  }

  lemma DemoWaits(now: Instant)
    requires Before(100) <= now < HOUR
    ensures var snapshot := DemoSnapshot("A", 10.0, -10.0, now);
            DemoConfig().Valid() && snapshot.Valid() && WaitGates(DemoConfig(), snapshot, now, DemoClosing(now))
  {
    var snapshot := DemoSnapshot("A", 10.0, -10.0, now);
    DemoIsValid("A", 10.0, -10.0, now);
    assert LatticePoint(10, 0) == 10.0;
    TargetQuantityIsBest(DemoConfig(), snapshot, false);
    assert Affordable(DemoConfig(), snapshot, 10.0, false);
    hide TargetQuantity;
  }

  /** The policy can go back to waiting, and then the submitted close is forgotten. */
  lemma CloseIntentIsForgotten()
    ensures var now: Instant := Before(100);
            var snapshot := DemoSnapshot("A", 10.0, -10.0, now);
            && DemoConfig().Valid() && snapshot.Valid()
            && var tick := Execute(DemoConfig(), Some(DemoClosing(now)), snapshot, now, OFFLINE);
            tick.result.decision.action.WaitForFunding? && tick.result.cycle.Some?
            && tick.result.cycle.value.status.Hedged?
  {
    var now: Instant := Before(100);
    var c := DemoClosing(now);
    var snapshot := DemoSnapshot("A", 10.0, -10.0, now);
    DemoIdentity(c, snapshot);
    DemoWaits(now);
    CloseStillPending(DemoConfig(), c, snapshot, now);
    SameGates(DemoConfig(), snapshot, now, c);
    var r := Observed(c, snapshot, now);
    WaitsExactly(DemoConfig(), snapshot, now, r);
    ActDecision(DemoConfig(), snapshot, now, Some(r), OFFLINE);
    hide Evaluate, ReconcileCycle, WaitGates, Lower;
    assert Decide(DemoConfig(), snapshot, now, Some(r)).action.WaitForFunding?;
  }

  /** A hedge that shrank from ten to eight resolves the pending adjustment, and the close is gone. */
  lemma DemoResolves(primary: real, now: Instant)
    requires now == Before(100)
    ensures var c, snapshot := DemoAdjusting(now), DemoSnapshot("A", primary, -8.0, now);
            var r := ReconcileCycle(DemoConfig(), c, snapshot, now);
            && Identified(DemoConfig(), c, snapshot) && Identified(DemoConfig(), r, snapshot)
            && r.status.Hedged? && r.pendingAdjust == None && r.closeAttempts == 1 && r.key == c.key
  {
    var c, snapshot := DemoAdjusting(now), DemoSnapshot("A", primary, -8.0, now);
    DemoIdentity(c, snapshot);
    hide Lower, DemoConfig;
    var seen := Observed(c, snapshot, now);
    assert ReconcileAdjustment(DemoConfig(), seen, snapshot, now).status.Hedged?;
  }

  /** A hedge of more than the primary is trimmed. */
  lemma DemoAdjusts(r: Cycle, snapshot: Snapshot, now: Instant)
    requires DemoConfig().Valid() && snapshot.Valid()
    requires r.Active() && Identified(DemoConfig(), r, snapshot)
    requires exists hedge :: hedge <= -6.0 && snapshot == DemoSnapshot("A", 5.0, hedge, snapshot.funding.observedAt)
    ensures Evaluate(DemoConfig(), snapshot, now, Some(r)).action.AdjustHedge?
  {
    TargetQuantityIsBest(DemoConfig(), snapshot, false);
    TargetSizeShape(DemoConfig(), snapshot, false);
    DebitMeaning(snapshot);
    assert PrimaryPays(snapshot);
    assert Quantum(0) == 1.0;
    hide TargetQuantity, TargetSize, PrimaryDebit, PrimaryPays, Quantum, Lower, HedgeCredit, RoundTripCost, RequiredMargin;
  }

  /** What a tick does with a decision, when its record is reconciled to r. */
  lemma TickIs(c: Cycle, r: Cycle, snapshot: Snapshot, now: Instant)
    requires DemoConfig().Valid() && snapshot.Valid()
    requires ReconcileCycle(DemoConfig(), c, snapshot, now) == r && r.Active()
    ensures var decision := Decide(DemoConfig(), snapshot, now, Some(r));
            var acted := Act(DemoConfig(), decision, Some(r), now, OFFLINE);
            var tick := Execute(DemoConfig(), Some(c), snapshot, now, OFFLINE);
            && decision == Evaluate(DemoConfig(), snapshot, now, Some(r)) && decision.snapshot == snapshot
            && tick.result == acted.result && tick.result.decision == decision
            && tick.effects == Preface(Some(c), Some(r)) + acted.effects
  {
    ActDecision(DemoConfig(), snapshot, now, Some(r), OFFLINE);
    hide Evaluate, ReconcileCycle, Act;
  }

  /** An adjustment that resolves takes the close with it even when the policy adjusts again. */
  lemma ResolvedAdjustmentForgetsClose()
    ensures var now: Instant := Before(100);
            var snapshot := DemoSnapshot("A", 5.0, -8.0, now);
            && DemoConfig().Valid() && snapshot.Valid()
            && var tick := Execute(DemoConfig(), Some(DemoAdjusting(now)), snapshot, now, OFFLINE);
            tick.result.decision.action.AdjustHedge? && tick.result.cycle.Some?
            && tick.result.cycle.value.status.Hedged?
  {
    var now: Instant := Before(100);
    var snapshot := DemoSnapshot("A", 5.0, -8.0, now);
    var r := ReconcileCycle(DemoConfig(), DemoAdjusting(now), snapshot, now);
    DemoIsValid("A", 5.0, -8.0, now);
    DemoResolves(5.0, now);
    DemoAdjusts(r, snapshot, now);
    TickIs(DemoAdjusting(now), r, snapshot, now);
    hide Evaluate, ReconcileCycle, Lower, Decide, Execute, DemoConfig, DemoAdjusting, DemoSnapshot;
    var decision := Decide(DemoConfig(), snapshot, now, Some(r));
    AdjustKeepsHedged(decision, r, now);
  }

  lemma AdjustKeepsHedged(decision: Decision, r: Cycle, now: Instant)
    requires decision.action.AdjustHedge? && r.status.Hedged?
    ensures var tick := Act(DemoConfig(), decision, Some(r), now, OFFLINE);
            tick.result.cycle.Some? && tick.result.cycle.value.status.Hedged?
  {
    hide AttemptFor;
  }

  /** The executor is asked for a second close while the first is inside its retry delay. */
  lemma ResolvedAdjustmentRepeatsClose()
    ensures var now: Instant := Before(100);
            var c := DemoAdjusting(now);
            var snapshot := DemoSnapshot("A", 0.0, -8.0, now);
            && DemoConfig().Valid() && snapshot.Valid() && CloseInDoubt(DemoConfig(), c, snapshot, now)
            && var tick := Execute(DemoConfig(), Some(c), snapshot, now, OFFLINE);
            Asked(CloseRequest("A", -8.0, 8.0, Cloid(c.key, ClosePhase(2)))) in tick.effects
  {
    var now: Instant := Before(100);
    var c := DemoAdjusting(now);
    var snapshot := DemoSnapshot("A", 0.0, -8.0, now);
    var r := ReconcileCycle(DemoConfig(), c, snapshot, now);
    DemoIsValid("A", 0.0, -8.0, now);
    DemoResolves(0.0, now);
    DemoInDoubt(now);
    FlatPrimaryCloses(r, snapshot, now);
    TickIs(c, r, snapshot, now);
    assert snapshot.symbol == "A" && snapshot.hedge.position.size == -8.0;
    hide Evaluate, ReconcileCycle, Lower, Decide, Execute, Act, Preface, DemoConfig, DemoAdjusting, DemoSnapshot, CloseInDoubt;
    var decision := Decide(DemoConfig(), snapshot, now, Some(r));
    CloseAsks(decision, r, now);
    var effects := Act(DemoConfig(), decision, Some(r), now, OFFLINE).effects;
    assert effects[1] in Preface(Some(c), Some(r)) + effects;
  }

  lemma DemoInDoubt(now: Instant)
    requires now == Before(100)
    ensures CloseInDoubt(DemoConfig(), DemoAdjusting(now), DemoSnapshot("A", 0.0, -8.0, now), now)
  {
  }

  /** Without a primary position a tracked hedge is closed. */
  lemma FlatPrimaryCloses(r: Cycle, snapshot: Snapshot, now: Instant)
    requires DemoConfig().Valid() && snapshot.Valid()
    requires r.Active() && Identified(DemoConfig(), r, snapshot)
    requires snapshot.primary.size == 0.0 && snapshot.hedge.position.size != 0.0
    ensures Evaluate(DemoConfig(), snapshot, now, Some(r)).action.CloseHedge?
  {
    hide FiguresFor, Lower;
  }

  lemma CloseAsks(decision: Decision, r: Cycle, now: Instant)
    requires decision.action.CloseHedge? && r.Active() && !r.status.CloseSubmitted?
    ensures var size := decision.snapshot.hedge.position.size;
            var tick := Act(DemoConfig(), decision, Some(r), now, OFFLINE);
            && |tick.effects| > 1
            && tick.effects[1] == Asked(CloseRequest(decision.snapshot.symbol, size, Abs(size),
                                                     Cloid(r.key, ClosePhase(r.closeAttempts + 1))))
  {
    hide AttemptFor;
  }
}
