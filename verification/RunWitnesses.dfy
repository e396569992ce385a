// Runs that end with the records from which the exceptional outcomes follow.
module RunWitnesses {
  import opened Decimals
  import opened Models
  import opened Options
  import opened Texts
  import opened Policy
  import opened PolicyTheorems
  import opened Orders
  import opened StateMachine
  import opened StateMachineTheorems
  import opened TickTheorems
  import opened Protocol
  import opened ProtocolTheorems
  import opened Demo
  import opened Witnesses
  import Coordinator

  // ---------- reaching a world ----------

  /** Some run ends in this world. */
  ghost predicate Reachable(config: Config, w: World) {
    exists worlds, steps :: IsRun(config, worlds, steps) && worlds[|steps|] == w
  }

  lemma ReachInit(config: Config, w: World)
    requires config.Valid() && Init(w)
    ensures Reachable(config, w)
  {
    var worlds, steps: seq<Step> := [w], [];
    assert IsRun(config, worlds, steps) && worlds[|steps|] == w;
  }

  lemma ReachNext(config: Config, w: World, step: Step)
    requires config.Valid() && Reachable(config, w) && Enabled(config, w, step)
    ensures Reachable(config, Next(config, w, step))
  {
    var worlds, steps :| IsRun(config, worlds, steps) && worlds[|steps|] == w;
    var longer, more := worlds + [Next(config, w, step)], steps + [step];
    hide Next, Enabled, Init;
    forall k | 0 <= k < |more|
      ensures Enabled(config, longer[k], more[k]) && longer[k + 1] == Next(config, longer[k], more[k])
    {
      if k < |steps| {
        assert longer[k] == worlds[k] && longer[k + 1] == worlds[k + 1] && more[k] == steps[k];
      }
    }
    assert longer[0] == worlds[0];
    assert IsRun(config, longer, more) && longer[|more|] == Next(config, w, step);
  }

  /** The orders among the effects. */
  function Posts(effects: seq<Effect<Cycle>>): seq<Order> {
    if effects == [] then []
    else (if effects[0].Posted? then [effects[0].order] else []) + Posts(effects[1..])
  }

  /** The world once the running tick on one symbol has finished with this record. */
  function Finished(w: World, s: Symbol, c: Cycle): World {
    w.(pending := [], disk := w.disk[s := c], wire := w.wire + Posts(w.pending))
  }

  lemma {:induction false} ReachFinished(config: Config, w: World, s: Symbol, c: Cycle)
    requires config.Valid() && Reachable(config, w)
    requires w.pending != [] && Coordinator.AllFor(s, w.pending) && w.pending[|w.pending| - 1] == Stored(c)
    ensures Reachable(config, Finished(w, s, c))
    decreases |w.pending|
  {
    ReachNext(config, w, Proceed);
    var v := Happen(w);
    if |w.pending| == 1 {
      assert Posts(w.pending[1..]) == [];
      assert w.wire + [] == w.wire;
      assert v == Finished(w, s, c);
    } else {
      FinishedStep(w, s, c);
      hide Reachable, Happen, Posts;
      assert v.pending == w.pending[1..] by {
        SamePending(w);
      }
      ReachFinished(config, v, s, c);
    }
  }

  lemma SamePending(w: World)
    requires w.pending != []
    ensures Happen(w).pending == w.pending[1..]
  {
  }

  lemma FinishedStep(w: World, s: Symbol, c: Cycle)
    requires |w.pending| > 1 && Coordinator.AllFor(s, w.pending)
    ensures Finished(Happen(w), s, c) == Finished(w, s, c)
  {
    match w.pending[0]
    case Stored(b) => assert w.disk[s := b][s := c] == w.disk[s := c];
    case Asked(_) =>
    case Posted(o) => assert (w.wire + [o]) + Posts(w.pending[1..]) == w.wire + ([o] + Posts(w.pending[1..]));
  }

  /** Reading a snapshot of what is held now and running the whole tick on it. */
  lemma ReachTick(config: Config, w: World, snapshot: Snapshot, env: Environment, c: Cycle)
    requires config.Valid() && Reachable(config, w) && w.pending == []
    requires Enabled(config, w, Read(snapshot))
    requires var effects := Execute(config, OnDisk(w, snapshot.symbol), snapshot, w.now, env).effects;
             && effects != [] && Coordinator.AllFor(snapshot.symbol, effects) && effects[|effects| - 1] == Stored(c)
    ensures var effects := Execute(config, OnDisk(w, snapshot.symbol), snapshot, w.now, env).effects;
            exists v :: Reachable(config, v) && Holding(v, w, snapshot.symbol, c) && v.wire == w.wire + Posts(effects)
  {
    ReachNext(config, w, Read(snapshot));
    var seen := Next(config, w, Read(snapshot));
    ReachNext(config, seen, Begin(snapshot, env));
    var begun := Next(config, seen, Begin(snapshot, env));
    ReachFinished(config, begun, snapshot.symbol, c);
    hide Execute, Reachable;
    var v := Finished(begun, snapshot.symbol, c);
    assert Reachable(config, v) && Holding(v, w, snapshot.symbol, c);
  }

  /** v is w with the record on disk, no tick running, and the rest of what matters as it was. */
  predicate Holding(v: World, w: World, s: Symbol, c: Cycle) {
    && v.pending == [] && v.now == w.now && v.position == w.position && v.delivered == w.delivered
    && s in v.disk && v.disk[s] == c
  }

  // ---------- the opening ----------

  const NOW: Instant := Before(100)

  predicate DemoIdentified(c: Cycle) {
    c.symbol == "A" && c.primaryAddress == "p" && c.hedgeAddress == "h" && c.network == Mainnet && c.hedgeKind == Wallet
  }

  function Start(): World {
    World(NOW, map[], [], {}, map[], {}, Lane("A", 0), [])
  }

  lemma DemoReads(w: World, primary: real)
    requires w.now == NOW
    ensures Enabled(DemoConfig(), w, Read(DemoSnapshot("A", primary, Hedge(w, "A"), NOW)))
  {
    DemoIsValid("A", primary, Hedge(w, "A"), NOW);
  }

  lemma BestIsUnique(config: Config, snapshot: Snapshot, p: real, q: real)
    requires config.Valid() && snapshot.Valid()
    requires IsBestSize(config, snapshot, p, true) && IsBestSize(config, snapshot, q, true)
    ensures p == q
  {
    hide Affordable, OnLattice;
  }

  function DemoOpening(): Decision
    requires DemoConfig().Valid() && DemoSnapshot("A", 10.0, 0.0, NOW).Valid()
  {
    Evaluate(DemoConfig(), DemoSnapshot("A", 10.0, 0.0, NOW), NOW, None)
  }

  lemma DemoFacts()
    ensures DemoConfig().Valid() && DemoSnapshot("A", 10.0, 0.0, NOW).Valid()
    ensures DemoOpening().action.OpenHedge? && DemoOpening().delta == DemoOpening().targetSize == -10.0
    ensures DemoOpening().snapshot == DemoSnapshot("A", 10.0, 0.0, NOW)
  {
    hide Evaluate, IsBestSize, DemoConfig;
    DemoOpens("A", NOW, NOW);
    DemoBestSize("A", NOW);
    SizeOf(DemoConfig(), DemoSnapshot("A", 10.0, 0.0, NOW), NOW, 10.0);
  }

  /** An opening against a long primary sells the best affordable size. */
  lemma SizeOf(config: Config, snapshot: Snapshot, now: Instant, q: real)
    requires config.Valid() && snapshot.Valid() && snapshot.primary.size > 0.0
    requires IsBestSize(config, snapshot, q, true)
    requires Evaluate(config, snapshot, now, None).action.OpenHedge?
    ensures var d := Evaluate(config, snapshot, now, None);
            d.delta == d.targetSize == -q && d.snapshot == snapshot
  {
    assert Evaluate(config, snapshot, now, None).snapshot == snapshot by {
      hide FiguresFor, Choose;
    }
    hide Evaluate, IsBestSize, Openable, KeyFor;
    OpenIsSound(config, snapshot, now, None);
    BestIsUnique(config, snapshot, q, Abs(Evaluate(config, snapshot, now, None).delta));
  }

  lemma OpeningTick(env: Environment)
    ensures DemoConfig().Valid() && DemoSnapshot("A", 10.0, 0.0, NOW).Valid()
    ensures Execute(DemoConfig(), None, DemoSnapshot("A", 10.0, 0.0, NOW), NOW, env).effects
            == OpenTick(DemoConfig(), DemoOpening(), NOW, env).effects
  {
    DemoFacts();
    hide Evaluate, OpenTick, DemoConfig, DemoSnapshot;
    var snapshot := DemoSnapshot("A", 10.0, 0.0, NOW);
    FreshDecision(snapshot, NOW, env);
    hide Decide;
    OpensFresh(DemoOpening(), env);
    assert [] + OpenTick(DemoConfig(), DemoOpening(), NOW, env).effects == OpenTick(DemoConfig(), DemoOpening(), NOW, env).effects;
  }

  lemma OpensFresh(d: Decision, env: Environment)
    requires d.action.OpenHedge?
    ensures Act(DemoConfig(), d, None, NOW, env) == OpenTick(DemoConfig(), d, NOW, env)
    ensures Preface(None, None) == []
  {
    hide OpenTick;
  }

  /** A crash after the first write of an opening leaves an armed record, and the next tick keeps it. */
  lemma ArmedRecordIsReachable()
    ensures exists w :: Reachable(DemoConfig(), w) && StuckArmed(w)
  {
    var snapshot := DemoSnapshot("A", 10.0, 0.0, NOW);
    DemoFacts();
    OpeningTick(OFFLINE);
    var armed := NewCycle(DemoConfig(), DemoOpening(), NOW);
    OpeningStarts(DemoOpening(), armed);
    assert snapshot.symbol == "A";
    var w := Start();
    assert Init(w);
    ReachInit(DemoConfig(), w);
    DemoReads(w, 10.0);
    hide Evaluate, Execute, AttemptFor, DemoConfig, DemoSnapshot, Reachable, NewCycle, OpenTick, FromAdapter;
    ReachCrashed(w, snapshot, OFFLINE, armed);
    ArmedStays(w.(snapshots := w.snapshots + {snapshot}, lane := Lane("A", NOW), disk := map["A" := armed]), armed);
  }

  lemma OpeningStarts(d: Decision, armed: Cycle)
    requires armed == NewCycle(DemoConfig(), d, NOW) && d.snapshot == DemoSnapshot("A", 10.0, 0.0, NOW)
    ensures armed.status.Armed? && armed.pendingAdjust == None && DemoIdentified(armed)
    ensures var effects := OpenTick(DemoConfig(), d, NOW, OFFLINE).effects;
            effects != [] && effects[0] == Stored(armed)
  {
    hide AttemptFor;
  }

  /** A tick that crashes after its first write. */
  lemma ReachCrashed(w: World, snapshot: Snapshot, env: Environment, c: Cycle)
    requires DemoConfig().Valid() && Reachable(DemoConfig(), w) && w == Start()
    requires snapshot.symbol == "A" == c.symbol && Enabled(DemoConfig(), w, Read(snapshot))
    requires var effects := Execute(DemoConfig(), None, snapshot, NOW, env).effects;
             effects != [] && effects[0] == Stored(c)
    ensures Reachable(DemoConfig(),
                      w.(snapshots := w.snapshots + {snapshot}, lane := Lane("A", NOW), disk := map["A" := c]))
  {
    hide Execute, Reachable, DemoConfig;
    ReachNext(DemoConfig(), w, Read(snapshot));
    var seen := Next(DemoConfig(), w, Read(snapshot));
    hide FromAdapter;
    ReachNext(DemoConfig(), seen, Begin(snapshot, env));
    ReachWrittenThenCrashed(DemoConfig(), Next(DemoConfig(), seen, Begin(snapshot, env)), c);
    assert map[]["A" := c] == map["A" := c];
  }

  lemma ReachWrittenThenCrashed(config: Config, w: World, c: Cycle)
    requires config.Valid() && Reachable(config, w) && w.pending != [] && w.pending[0] == Stored(c)
    ensures Reachable(config, w.(pending := [], disk := w.disk[c.symbol := c]))
  {
    hide Reachable;
    ReachNext(config, w, Proceed);
    ReachNext(config, Next(config, w, Proceed), Crash);
  }

  /** An armed record on disk, nothing held, and a tick that only rewrites it. */
  ghost predicate StuckArmed(w: World) {
    && DemoConfig().Valid() && DemoSnapshot("A", 10.0, 0.0, NOW).Valid()
    && "A" in w.disk && w.disk["A"].status.Armed? && w.pending == [] && Hedge(w, "A") == 0.0
    && StillArmed(Execute(DemoConfig(), Some(w.disk["A"]), DemoSnapshot("A", 10.0, 0.0, NOW), NOW, OFFLINE).effects)
  }

  lemma ArmedStays(w: World, armed: Cycle)
    requires "A" in w.disk && w.disk["A"] == armed && w.pending == [] && w.position == map[]
    requires armed.status.Armed? && armed.pendingAdjust == None && DemoIdentified(armed)
    ensures StuckArmed(w)
  {
    var snapshot := DemoSnapshot("A", 10.0, 0.0, NOW);
    DemoIsValid("A", 10.0, 0.0, NOW);
    DemoIdentity(armed, snapshot);
    ArmedIsStuckWhileFlat(DemoConfig(), armed, snapshot, NOW, OFFLINE);
    hide Execute, Identified;
  }

  // ---------- a submitted close with an adjustment pending ----------

  /** The order reaches the wire, but the reply is lost. */
  const POSTED := Environment(None, NOW, Response(true, "", 0.0), None, NOW, Lost("lost"))

  /** The record is the demo's, live, with nothing confirmed. */
  predicate DemoRecord(c: Cycle) {
    && DemoIdentified(c) && c.settlementAt == HOUR && c.targetSize == -10.0
    && c.fundingConfirmedAt == None && c.closeAttempts == 0 && c.closeSubmittedAt == None
  }

  lemma OpenedRecord() returns (c: Cycle)
    ensures DemoConfig().Valid() && DemoSnapshot("A", 10.0, 0.0, NOW).Valid()
    ensures DemoRecord(c) && c.status.OpenSubmitted? && c.pendingAdjust == None && c.openSubmittedAt == Some(NOW)
    ensures var effects := Execute(DemoConfig(), None, DemoSnapshot("A", 10.0, 0.0, NOW), NOW, POSTED).effects;
            && effects != [] && Coordinator.AllFor("A", effects) && effects[|effects| - 1] == Stored(c)
            && |Posts(effects)| == 1 && FillsTen(Posts(effects)[0])
  {
    DemoFacts();
    OpeningTick(POSTED);
    hide Evaluate, Execute, DemoConfig, DemoSnapshot;
    c := OpenedBy(DemoOpening());
  }

  /** A live order that sells ten of A. */
  predicate FillsTen(o: Order) {
    o.symbol == "A" && !o.reduceOnly && !o.isBuy && o.size == 10.0 && !Expired(o, NOW)
  }

  lemma OpenedBy(d: Decision) returns (c: Cycle)
    requires d.snapshot == DemoSnapshot("A", 10.0, 0.0, NOW) && d.delta == d.targetSize == -10.0
    ensures DemoRecord(c) && c.status.OpenSubmitted? && c.pendingAdjust == None && c.openSubmittedAt == Some(NOW)
    ensures var effects := OpenTick(DemoConfig(), d, NOW, POSTED).effects;
            && effects != [] && Coordinator.AllFor("A", effects) && effects[|effects| - 1] == Stored(c)
            && |Posts(effects)| == 1 && FillsTen(Posts(effects)[0])
  {
    var armed := NewCycle(DemoConfig(), d, NOW);
    var cycle := armed.(status := OpenSubmitted, openSubmittedAt := Some(NOW));
    c := cycle.(lastError := AmbiguousSubmission("lost"));
    var request := OpenRequest("A", -10.0, cycle.openCloid, HOUR - Seconds(15));
    var attempt := AttemptFor(DemoConfig(), request, POSTED);
    assert attempt.outcome == Failed("lost") && attempt.posted.Some? && FillsTen(attempt.posted.value);
    hide AttemptFor, DemoConfig;
    var o := attempt.posted.value;
    var effects := OpenTick(DemoConfig(), d, NOW, POSTED).effects;
    assert effects == [Stored(armed), Stored(cycle), Asked(request), Posted(o), Stored(c)];
    FivePosts(Stored(armed), Stored(cycle), Asked(request), o, Stored(c));
  }

  lemma FivePosts(a: Effect<Cycle>, b: Effect<Cycle>, r: Effect<Cycle>, o: Order, e: Effect<Cycle>)
    requires !a.Posted? && !b.Posted? && !r.Posted? && !e.Posted?
    ensures Posts([a, b, r, Posted(o), e]) == [o]
  {
    PostsCons(e, []);
    PostsCons(Posted(o), [e]);
    PostsCons(r, [Posted(o), e]);
    PostsCons(b, [r, Posted(o), e]);
    PostsCons(a, [b, r, Posted(o), e]);
    assert [a] + [b, r, Posted(o), e] == [a, b, r, Posted(o), e];
    assert [b] + [r, Posted(o), e] == [b, r, Posted(o), e];
    assert [r] + [Posted(o), e] == [r, Posted(o), e];
    assert [Posted(o)] + [e] == [Posted(o), e] && [e] + [] == [e];
    hide Posts;
  }

  lemma PostsCons(e: Effect<Cycle>, rest: seq<Effect<Cycle>>)
    ensures Posts([e] + rest) == (if e.Posted? then [e.order] else []) + Posts(rest)
    ensures Posts([]) == []
  {
    assert ([e] + rest)[1..] == rest;
  }

  /** With the order filled and the primary halved, the adjustment stays pending when it cannot be sent. */
  lemma AdjustedRecord(c: Cycle) returns (next: Cycle)
    requires DemoRecord(c) && c.status.OpenSubmitted? && c.pendingAdjust == None
    ensures DemoConfig().Valid() && DemoSnapshot("A", 5.0, -10.0, NOW).Valid()
    ensures DemoRecord(next) && next.status.Hedged? && next.pendingAdjust.Some?
    ensures next.preAdjustSize == -10.0 && next.adjustSubmittedAt == Some(NOW)
    ensures LeavesRecord(Some(c), DemoSnapshot("A", 5.0, -10.0, NOW), next)
  {
    var snapshot := DemoSnapshot("A", 5.0, -10.0, NOW);
    DemoIsValid("A", 5.0, -10.0, NOW);
    DemoIdentity(c, snapshot);
    var r := FilledReconciles(c);
    DemoIdentity(r, snapshot);
    DemoAdjusts(r, snapshot, NOW);
    TickIs(c, r, snapshot, NOW);
    ExitShrinks(DemoConfig(), snapshot, NOW, Some(r));
    var d := Evaluate(DemoConfig(), snapshot, NOW, Some(r));
    hide Evaluate, ReconcileCycle, Decide, Execute, DemoConfig, Act;
    next := AdjustLeaves(d, r);
    TickLeaves(c, r, snapshot, next);
  }

  /** The tick writes only records of A and leaves this one; it posts nothing. */
  predicate LeavesRecord(stored: Option<Cycle>, snapshot: Snapshot, next: Cycle)
  {
    DemoConfig().Valid() && snapshot.Valid() && Leaves(Execute(DemoConfig(), stored, snapshot, NOW, OFFLINE).effects, next)
  }

  predicate Leaves(effects: seq<Effect<Cycle>>, next: Cycle) {
    effects != [] && Coordinator.AllFor("A", effects) && effects[|effects| - 1] == Stored(next)
  }

  lemma TickLeaves(c: Cycle, r: Cycle, snapshot: Snapshot, next: Cycle)
    requires DemoConfig().Valid() && snapshot.Valid() && r.symbol == "A"
    requires var acted := Act(DemoConfig(), Decide(DemoConfig(), snapshot, NOW, Some(r)), Some(r), NOW, OFFLINE);
             && Execute(DemoConfig(), Some(c), snapshot, NOW, OFFLINE).effects == Preface(Some(c), Some(r)) + acted.effects
             && Leaves(acted.effects, next)
    ensures LeavesRecord(Some(c), snapshot, next)
  {
    hide Decide, Act, Execute, DemoConfig;
  }

  lemma FilledReconciles(c: Cycle) returns (r: Cycle)
    requires DemoRecord(c) && c.status.OpenSubmitted? && c.pendingAdjust == None
    ensures r == ReconcileCycle(DemoConfig(), c, DemoSnapshot("A", 5.0, -10.0, NOW), NOW)
    ensures DemoRecord(r) && r.status.Hedged? && r.pendingAdjust == None
  {
    var snapshot := DemoSnapshot("A", 5.0, -10.0, NOW);
    DemoIdentity(c, snapshot);
    hide Lower, DemoConfig;
    r := ReconcileCycle(DemoConfig(), c, snapshot, NOW);
  }

  lemma AdjustLeaves(d: Decision, r: Cycle) returns (next: Cycle)
    requires d.action.AdjustHedge? && d.snapshot == DemoSnapshot("A", 5.0, -10.0, NOW) && d.delta != 0.0
    requires DemoRecord(r) && r.status.Hedged? && r.pendingAdjust == None
    ensures DemoRecord(next) && next.status.Hedged? && next.pendingAdjust.Some?
    ensures next.preAdjustSize == -10.0 && next.adjustSubmittedAt == Some(NOW)
    ensures Leaves(Act(DemoConfig(), d, Some(r), NOW, OFFLINE).effects, next)
  {
    var request := CloseRequest("A", -10.0, Abs(d.delta), Cloid(r.key, AdjustPhase(r.adjustments + 1)));
    assert AttemptFor(DemoConfig(), request, OFFLINE) == Attempt(None, Failed("offline"));
    hide AttemptFor, DemoConfig;
    next := Act(DemoConfig(), d, Some(r), NOW, OFFLINE).result.cycle.value;
  }

  /** With the primary gone the close is submitted while the adjustment is still pending. */
  lemma ClosedRecord(c: Cycle) returns (next: Cycle)
    requires DemoRecord(c) && c.status.Hedged? && c.pendingAdjust.Some?
    requires c.preAdjustSize == -10.0 && c.adjustSubmittedAt == Some(NOW)
    ensures DemoConfig().Valid() && DemoSnapshot("A", 0.0, -10.0, NOW).Valid()
    ensures next.status.CloseSubmitted? && next.pendingAdjust == c.pendingAdjust
    ensures DemoIdentified(next)
    ensures LeavesRecord(Some(c), DemoSnapshot("A", 0.0, -10.0, NOW), next)
  {
    var snapshot := DemoSnapshot("A", 0.0, -10.0, NOW);
    DemoIsValid("A", 0.0, -10.0, NOW);
    var r := PendingReconciles(c);
    DemoIdentity(r, snapshot);
    FlatPrimaryCloses(r, snapshot, NOW);
    TickIs(c, r, snapshot, NOW);
    var d := Evaluate(DemoConfig(), snapshot, NOW, Some(r));
    hide Evaluate, ReconcileCycle, Decide, Execute, DemoConfig, Act;
    next := CloseLeaves(d, r);
    TickLeaves(c, r, snapshot, next);
  }

  lemma PendingReconciles(c: Cycle) returns (r: Cycle)
    requires DemoRecord(c) && c.status.Hedged? && c.pendingAdjust.Some?
    requires c.preAdjustSize == -10.0 && c.adjustSubmittedAt == Some(NOW)
    ensures r == ReconcileCycle(DemoConfig(), c, DemoSnapshot("A", 0.0, -10.0, NOW), NOW)
    ensures DemoRecord(r) && r.status.Hedged? && r.pendingAdjust == c.pendingAdjust
  {
    var snapshot := DemoSnapshot("A", 0.0, -10.0, NOW);
    DemoIdentity(c, snapshot);
    assert DemoConfig().retrySeconds == 15;
    hide Lower, DemoConfig;
    r := ReconcileCycle(DemoConfig(), c, snapshot, NOW);
    var seen := Observed(c, snapshot, NOW);
    assert ReconcileAdjustment(DemoConfig(), seen, snapshot, NOW) == seen;
  }

  lemma CloseLeaves(d: Decision, r: Cycle) returns (next: Cycle)
    requires d.action.CloseHedge? && d.snapshot == DemoSnapshot("A", 0.0, -10.0, NOW)
    requires DemoRecord(r) && r.status.Hedged?
    ensures next.status.CloseSubmitted? && next.pendingAdjust == r.pendingAdjust && DemoIdentified(next)
    ensures Leaves(Act(DemoConfig(), d, Some(r), NOW, OFFLINE).effects, next)
  {
    var request := CloseRequest("A", -10.0, 10.0, Cloid(r.key, ClosePhase(r.closeAttempts + 1)));
    assert AttemptFor(DemoConfig(), request, OFFLINE) == Attempt(None, Failed("offline"));
    hide AttemptFor, DemoConfig;
    next := Act(DemoConfig(), d, Some(r), NOW, OFFLINE).result.cycle.value;
  }

  /** The opening was filled. */
  lemma ReachOpened() returns (w: World)
    ensures Reachable(DemoConfig(), w) && w.pending == [] && w.now == NOW && Hedge(w, "A") == -10.0
    ensures "A" in w.disk && DemoRecord(w.disk["A"])
    ensures w.disk["A"].status.OpenSubmitted? && w.disk["A"].pendingAdjust == None
  {
    var start := Start();
    DemoIsValid("A", 10.0, 0.0, NOW);
    assert Init(start);
    ReachInit(DemoConfig(), start);
    var c := OpenedRecord();
    DemoReads(start, 10.0);
    var snapshot := DemoSnapshot("A", 10.0, 0.0, NOW);
    assert snapshot.symbol == "A";
    hide Execute, Reachable, Enabled, DemoConfig, DemoSnapshot, DemoRecord, Posts;
    ReachTick(DemoConfig(), start, snapshot, POSTED, c);
    var effects := Execute(DemoConfig(), None, snapshot, NOW, POSTED).effects;
    var sent :| Reachable(DemoConfig(), sent) && Holding(sent, start, "A", c) && sent.wire == start.wire + Posts(effects);
    assert sent.wire == Posts(effects);
    w := FillTen(sent);
  }

  /** The hedge is open and an adjustment that may or may not have been sent is pending. */
  lemma ReachAdjusting() returns (w: World)
    ensures Reachable(DemoConfig(), w) && w.pending == [] && w.now == NOW && Hedge(w, "A") == -10.0
    ensures "A" in w.disk && DemoRecord(w.disk["A"]) && w.disk["A"].status.Hedged? && w.disk["A"].pendingAdjust.Some?
    ensures w.disk["A"].preAdjustSize == -10.0 && w.disk["A"].adjustSubmittedAt == Some(NOW)
  {
    var filled := ReachOpened();
    DemoIsValid("A", 5.0, -10.0, NOW);
    var next := AdjustedRecord(filled.disk["A"]);
    DemoReads(filled, 5.0);
    var snapshot := DemoSnapshot("A", 5.0, -10.0, NOW);
    assert snapshot.symbol == "A";
    hide Execute, Reachable, Enabled, DemoConfig, DemoSnapshot, DemoRecord, Posts;
    ReachTick(DemoConfig(), filled, snapshot, OFFLINE, next);
    w :| Reachable(DemoConfig(), w) && Holding(w, filled, "A", next);
  }

  lemma FillTen(w: World) returns (v: World)
    requires DemoConfig().Valid() && Reachable(DemoConfig(), w) && w.now == NOW && w.pending == []
    requires |w.wire| == 1 && FillsTen(w.wire[0]) && w.delivered == {} && Hedge(w, "A") == 0.0
    ensures Reachable(DemoConfig(), v) && Hedge(v, "A") == -10.0 && v.disk == w.disk && v.now == NOW && v.pending == []
  {
    hide Reachable;
    ReachNext(DemoConfig(), w, Deliver(0, 10.0));
    v := Next(DemoConfig(), w, Deliver(0, 10.0));
  }

  /**
    * A close can be submitted with an adjustment pending; then a flat account ends
    * the cycle in recovery instead of completing it.
    */
  lemma PendingCloseEndsInRecovery()
    ensures exists w :: Reachable(DemoConfig(), w) && ClosingWithAdjustment(w)
  {
    var adjusting := ReachAdjusting();
    DemoIsValid("A", 0.0, -10.0, NOW);
    var next := ClosedRecord(adjusting.disk["A"]);
    DemoReads(adjusting, 0.0);
    hide Execute, Reachable, Enabled, DemoConfig;
    ReachTick(DemoConfig(), adjusting, DemoSnapshot("A", 0.0, -10.0, NOW), OFFLINE, next);
    var w :| Reachable(DemoConfig(), w) && Holding(w, adjusting, "A", next);
    FlatEndsInRecovery(w, next);
  }

  /** A submitted close with an adjustment pending, which a flat account turns into recovery. */
  ghost predicate ClosingWithAdjustment(w: World) {
    && DemoConfig().Valid() && DemoSnapshot("A", 0.0, 0.0, NOW).Valid()
    && "A" in w.disk && w.disk["A"].status.CloseSubmitted? && w.disk["A"].pendingAdjust.Some?
    && var tick := Execute(DemoConfig(), Some(w.disk["A"]), DemoSnapshot("A", 0.0, 0.0, NOW), NOW, OFFLINE);
    tick.result.cycle.Some? && tick.result.cycle.value.status.RecoveryRequired?
  }

  lemma ReachableInv(config: Config, w: World)
    requires Reachable(config, w)
    ensures config.Valid() && Inv(config, w)
  {
    var worlds, steps :| IsRun(config, worlds, steps) && worlds[|steps|] == w;
    RunInv(config, worlds, steps, |steps|);
  }

  lemma FlatEndsInRecovery(w: World, c: Cycle)
    requires Reachable(DemoConfig(), w) && "A" in w.disk && w.disk["A"] == c
    requires c.status.CloseSubmitted? && c.pendingAdjust.Some? && DemoIdentified(c)
    ensures ClosingWithAdjustment(w)
  {
    ReachableInv(DemoConfig(), w);
    assert WellKept(DemoConfig(), c);
    DemoIsValid("A", 0.0, 0.0, NOW);
    DemoIdentity(c, DemoSnapshot("A", 0.0, 0.0, NOW));
    hide Execute, Inv, WellKept, Identified, DemoConfig, DemoSnapshot, Reachable;
    FlatAfterCloseEnds(DemoConfig(), c, DemoSnapshot("A", 0.0, 0.0, NOW), NOW, OFFLINE);
  }

  /** An adjustment that reports filled while the hedge has not moved stops the cycle, long past its timeout. */
  lemma FilledWithoutEffectStops()
    ensures exists w :: Reachable(DemoConfig(), w) && StopsForRecovery(w)
  {
    var w := ReachAdjusting();
    ReachableInv(DemoConfig(), w);
    assert WellKept(DemoConfig(), w.disk["A"]);
    hide Reachable, Inv, WellKept;
    FilledReport(w.disk["A"]);
    assert StopsForRecovery(w);
  }

  /** The demo's hedge ten minutes after settlement, with the adjustment reported as filled. */
  function LateReport(): Snapshot {
    var snapshot := DemoSnapshot("A", 5.0, -10.0, NOW);
    snapshot.(hedge := snapshot.hedge.(adjustStatus := OrderStatus.Filled))
  }

  ghost predicate StopsForRecovery(w: World) {
    && DemoConfig().Valid() && LateReport().Valid()
    && "A" in w.disk && w.disk["A"].pendingAdjust.Some? && Hedge(w, "A") == -10.0
    && var tick := Execute(DemoConfig(), Some(w.disk["A"]), LateReport(), HOUR + Seconds(600), OFFLINE);
    tick.result.cycle.Some? && tick.result.cycle.value.status.RecoveryRequired?
  }

  lemma FilledReport(c: Cycle)
    requires WellKept(DemoConfig(), c) && DemoRecord(c) && c.status.Hedged? && c.pendingAdjust.Some?
    requires c.preAdjustSize == -10.0 && c.adjustSubmittedAt == Some(NOW)
    ensures DemoConfig().Valid() && LateReport().Valid()
    ensures var tick := Execute(DemoConfig(), Some(c), LateReport(), HOUR + Seconds(600), OFFLINE);
            tick.result.cycle.Some? && tick.result.cycle.value.status.RecoveryRequired?
  {
    DemoIsValid("A", 5.0, -10.0, NOW);
    DemoIdentity(c, LateReport());
    hide Execute, Identified, Lower;
    ForcedExitDoesNotWedge(DemoConfig(), c, LateReport(), HOUR + Seconds(600), OFFLINE);
  }
}
