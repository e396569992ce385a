// Safety of the funding hedge over every run, with crashes, stale snapshots and
// late deliveries at every point.
module ProtocolTheorems {
  import opened Decimals
  import opened Models
  import opened Options
  import opened Orders
  import opened StateMachine
  import opened StateMachineTheorems
  import opened TickTheorems
  import opened Protocol

  /** A finite run: worlds[k + 1] follows from worlds[k] by steps[k]. */
  ghost predicate IsRun(config: Config, worlds: seq<World>, steps: seq<Step>) {
    && config.Valid()
    && |worlds| == |steps| + 1
    && Init(worlds[0])
    && forall k :: 0 <= k < |steps| ==>
         Enabled(config, worlds[k], steps[k]) && worlds[k + 1] == Next(config, worlds[k], steps[k])
  }

  lemma {:induction false} RunInv(config: Config, worlds: seq<World>, steps: seq<Step>, k: nat)
    requires IsRun(config, worlds, steps) && k < |worlds|
    ensures Inv(config, worlds[k])
  {
    if k == 0 {
      InitInv(config, worlds[0]);
    } else {
      RunInv(config, worlds, steps, k - 1);
      StepInv(config, worlds[k - 1], steps[k - 1]);
    }
  }

  /** One step of a run, with the invariant before it. */
  lemma RunStep(config: Config, worlds: seq<World>, steps: seq<Step>, k: nat)
    requires IsRun(config, worlds, steps) && k + 1 < |worlds|
    ensures config.Valid() && k < |steps| && Inv(config, worlds[k])
    ensures Enabled(config, worlds[k], steps[k]) && worlds[k + 1] == Next(config, worlds[k], steps[k])
  {
    RunInv(config, worlds, steps, k);
    hide Inv, Enabled, Next;
  }

  /** No client order id is ever posted twice. */
  lemma IdsSentOnce(config: Config, worlds: seq<World>, steps: seq<Step>, k: nat, i: nat, j: nat)
    requires IsRun(config, worlds, steps) && k < |worlds|
    requires i < j < |worlds[k].wire|
    ensures worlds[k].wire[i].cloid != worlds[k].wire[j].cloid
  {
    RunInv(config, worlds, steps, k);
  }

  /** Every id a record can have issued, computed from the record alone. */
  function Rebuilt(c: Cycle): set<Cloid> {
    {Cloid(c.key, OpenPhase)}
    + (set n | 1 <= n <= c.closeAttempts :: Cloid(c.key, ClosePhase(n)))
    + (set n | 1 <= n <= c.adjustments :: Cloid(c.key, AdjustPhase(n)))
  }

  /** Whatever was posted is either rebuilt from the record on disk or belongs to an earlier settlement. */
  lemma IdsRebuiltFromDisk(config: Config, worlds: seq<World>, steps: seq<Step>, k: nat, i: nat)
    requires IsRun(config, worlds, steps) && k < |worlds| && i < |worlds[k].wire|
    ensures var o := worlds[k].wire[i];
            && o.symbol in worlds[k].disk
            && var c := worlds[k].disk[o.symbol];
            if o.cloid.key == c.key then o.cloid in Rebuilt(c)
            else o.cloid.key.settlementMs < c.key.settlementMs
  {
    RunInv(config, worlds, steps, k);
    assert OrderKept(worlds[k], worlds[k].wire[i]);
  }

  /** Openings of one symbol are for strictly later settlements, and the earlier one has expired. */
  lemma OpeningsAdvance(config: Config, worlds: seq<World>, steps: seq<Step>, k: nat, i: nat, j: nat)
    requires IsRun(config, worlds, steps) && k < |worlds| && i < j < |worlds[k].wire|
    requires var w := worlds[k];
             w.wire[i].symbol == w.wire[j].symbol && !w.wire[i].reduceOnly && !w.wire[j].reduceOnly
    ensures var w := worlds[k];
            && w.wire[i].cloid.key.settlementMs < w.wire[j].cloid.key.settlementMs
            && Expired(w.wire[i], w.now)
  {
    RunInv(config, worlds, steps, k);
    var w := worlds[k];
    assert OrderKept(w, w.wire[i]) && OrderKept(w, w.wire[j]);
    EarlierOpenExpired(config, w, w.wire[i]);
  }

  /** An opening expires no later than the entry cutoff before its settlement. */
  lemma OpeningExpiresBeforeSettlement(config: Config, worlds: seq<World>, steps: seq<Step>, k: nat)
    requires IsRun(config, worlds, steps) && k < |steps|
    requires steps[k].Proceed? && worlds[k].pending[0].Posted? && !worlds[k].pending[0].order.reduceOnly
    ensures var o := worlds[k].pending[0].order;
            o.expiresAfterMs * 1000
            <= o.cloid.key.settlementMs * 1000 - Seconds(config.openCutoffSeconds)
  {
    RunInv(config, worlds, steps, k);
    var w := worlds[k];
    PostedFacts(config, w, w.pending[0].order);
    WellKeptHours(config, w.disk[w.lane.symbol]);
  }

  /** The hedge is a part of its cycle's target, on the target's side, and is absent without a record. */
  lemma HedgeWithinTarget(config: Config, worlds: seq<World>, steps: seq<Step>, k: nat, s: Symbol)
    requires IsRun(config, worlds, steps) && k < |worlds|
    ensures var w := worlds[k];
            if s in w.disk then Within(Hedge(w, s), w.disk[s].targetSize) else Hedge(w, s) == 0.0
  {
    RunInv(config, worlds, steps, k);
    assert PositionKept(worlds[k], s);
  }

  /** One step never flips a hedge, and only an opening from flat makes one larger. */
  lemma HedgeNeverFlips(config: Config, worlds: seq<World>, steps: seq<Step>, k: nat, s: Symbol)
    requires IsRun(config, worlds, steps) && k < |steps|
    ensures var before := Hedge(worlds[k], s);
            var after := Hedge(worlds[k + 1], s);
            && (before != 0.0 ==> Abs(after) <= Abs(before) && (after == 0.0 || Sign(after) == Sign(before)))
            && (Abs(after) > Abs(before) ==>
                  && steps[k].Deliver? && !worlds[k].wire[steps[k].index].reduceOnly
                  && before == 0.0 && s in worlds[k].disk && Within(after, worlds[k].disk[s].targetSize))
  {
    RunInv(config, worlds, steps, k);
    var w := worlds[k];
    if steps[k].Deliver? {
      var i := steps[k].index;
      assert OrderKept(w, w.wire[i]);
      FilledFacts(w.wire[i], Hedge(w, w.wire[i].symbol), steps[k].fill);
      if !w.wire[i].reduceOnly {
        LiveOpenIsCurrent(config, w, i);
      }
    }
  }

  /**
   * Every order is posted under an active record for its symbol and the configured
   * accounts that already names its id, and only a reduce-only order is posted
   * while a hedge is held.
   */
  lemma OrdersNeedARecord(config: Config, worlds: seq<World>, steps: seq<Step>, k: nat)
    requires IsRun(config, worlds, steps) && k < |steps|
    requires steps[k].Proceed? && worlds[k].pending[0].Posted?
    ensures var w := worlds[k];
            var o := w.pending[0].order;
            && o.symbol in w.disk
            && var c := w.disk[o.symbol];
            && c.Active() && c.key == KeyOf(config, o.symbol, c.settlementAt) && o.cloid in Rebuilt(c)
            && Announces(config, c, o)
            && (Hedge(w, o.symbol) != 0.0 ==> o.reduceOnly)
            && (forall i :: 0 <= i < |w.wire| ==> w.wire[i].cloid != o.cloid)
  {
    RunInv(config, worlds, steps, k);
    var w := worlds[k];
    PostedFacts(config, w, w.pending[0].order);
    forall i | 0 <= i < |w.wire| ensures w.wire[i].cloid in SentIds(w.wire) {
    }
  }

  /** b is a later state of a's cycle, or a cycle for a later settlement. */
  predicate Forward(a: Cycle, b: Cycle) {
    Continues(a, b) || (a.settlementAt < b.settlementAt && a.symbol == b.symbol)
  }

  lemma StepForward(config: Config, w: World, step: Step, s: Symbol)
    requires config.Valid() && Inv(config, w) && Enabled(config, w, step) && s in w.disk
    ensures s in Next(config, w, step).disk
    ensures Forward(w.disk[s], Next(config, w, step).disk[s])
    ensures Next(config, w, step).disk[s].key != w.disk[s].key ==> w.disk[s].status.Terminal()
  {
    hide Execute, Lawful, WellKept;
    if step.Proceed? && w.pending[0].Stored? {
      StoredFacts(config, w, w.pending[0].data);
    }
  }

  /**
   * Records only move forward: as long as the key is the same the identity is
   * fixed, counters never fall, a confirmation stays and an ended cycle is frozen;
   * a different key is a strictly later settlement.
   */
  lemma {:induction false} RecordsMoveForward(config: Config, worlds: seq<World>, steps: seq<Step>,
                                              i: nat, j: nat, s: Symbol)
    requires IsRun(config, worlds, steps) && i <= j < |worlds| && s in worlds[i].disk
    ensures s in worlds[j].disk
    ensures var a, b := worlds[i].disk[s], worlds[j].disk[s];
            if a.key == b.key then Continues(a, b) else a.settlementAt < b.settlementAt
    decreases j - i
  {
    RunInv(config, worlds, steps, i);
    if i < j {
      StepForward(config, worlds[i], steps[i], s);
      RecordsMoveForward(config, worlds, steps, i + 1, j, s);
      RunInv(config, worlds, steps, i + 1);
      RunInv(config, worlds, steps, j);
      KeysFollowSettlements(config, worlds[i], worlds[j], s);
      KeysFollowSettlements(config, worlds[i + 1], worlds[j], s);
      KeysFollowSettlements(config, worlds[i], worlds[i + 1], s);
    }
  }

  lemma KeysFollowSettlements(config: Config, v: World, w: World, s: Symbol)
    requires RecordsKept(config, v) && RecordsKept(config, w) && s in v.disk && s in w.disk
    ensures v.disk[s].key == w.disk[s].key <==> v.disk[s].settlementAt == w.disk[s].settlementAt
  {
    HourMillis(v.disk[s].settlementAt, w.disk[s].settlementAt);
    HourMillis(w.disk[s].settlementAt, v.disk[s].settlementAt);
  }

  /** A cycle that ended as completed or aborted was recorded flat, and is replaced only for a later settlement. */
  lemma EndedWithoutHedge(config: Config, worlds: seq<World>, steps: seq<Step>, i: nat, j: nat, s: Symbol)
    requires IsRun(config, worlds, steps) && i <= j < |worlds| && s in worlds[i].disk
    requires worlds[i].disk[s].status.Completed? || worlds[i].disk[s].status.Aborted?
    ensures worlds[i].disk[s].actualSize == 0.0
    ensures s in worlds[j].disk
    ensures worlds[j].disk[s] == worlds[i].disk[s] || worlds[j].disk[s].settlementAt > worlds[i].disk[s].settlementAt
  {
    RunInv(config, worlds, steps, i);
    RecordsMoveForward(config, worlds, steps, i, j, s);
  }

  // ---------- a held hedge only shrinks within its cycle ----------

  /** The opening id of the record on disk was posted. */
  predicate OpenWasSent(w: World, s: Symbol) {
    s in w.disk && Cloid(w.disk[s].key, OpenPhase) in SentIds(w.wire)
  }

  lemma CurrentOpenIsSent(w: World, i: nat, s: Symbol)
    requires OrdersKept(w) && i < |w.wire| && CurrentOpen(w, i, s)
    ensures OpenWasSent(w, s)
  {
    assert OrderKept(w, w.wire[i]);
  }

  lemma StepKeepsOpenSent(config: Config, w: World, step: Step, s: Symbol)
    requires config.Valid() && Inv(config, w) && Enabled(config, w, step)
    requires Hedge(w, s) != 0.0 ==> OpenWasSent(w, s)
    requires Hedge(Next(config, w, step), s) != 0.0
    ensures OpenWasSent(Next(config, w, step), s)
  {
    hide Execute, WellKept;
    var v := Next(config, w, step);
    if step.Proceed? {
      match w.pending[0] {
        case Stored(c) => StoredFacts(config, w, c);
        case Asked(_) =>
        case Posted(o) => SentIdsGrow(w.wire, o);
      }
    } else if step.Deliver? && Hedge(w, s) == 0.0 {
      assert OrderKept(w, w.wire[step.index]);
      LiveOpenIsCurrent(config, w, step.index);
      CurrentOpenIsSent(w, step.index, s);
    }
  }

  lemma FlatAtFirst(config: Config, worlds: seq<World>, steps: seq<Step>, s: Symbol)
    requires IsRun(config, worlds, steps)
    ensures worlds != [] && Hedge(worlds[0], s) == 0.0
  {
    hide Enabled, Next;
  }

  lemma {:induction false} HeldWasOpened(config: Config, worlds: seq<World>, steps: seq<Step>, k: nat, s: Symbol)
    requires IsRun(config, worlds, steps) && k < |worlds| && Hedge(worlds[k], s) != 0.0
    ensures OpenWasSent(worlds[k], s)
  {
    hide IsRun, Inv, Next, Enabled, OpenWasSent, Hedge;
    FlatAtFirst(config, worlds, steps, s);
    if k > 0 {
      RunStep(config, worlds, steps, k - 1);
      if Hedge(worlds[k - 1], s) != 0.0 {
        HeldWasOpened(config, worlds, steps, k - 1, s);
      }
      StepKeepsOpenSent(config, worlds[k - 1], steps[k - 1], s);
    }
  }

  /** The cycle's opening has done its work, and what is held is a part of h. */
  ghost predicate Settled(w: World, s: Symbol, key: CycleKey, h: real) {
    && OpenWasSent(w, s) && w.disk[s].key == key && Within(Hedge(w, s), h)
    && forall i :: 0 <= i < |w.wire| && CurrentOpen(w, i, s) ==> i in w.delivered
  }

  lemma WithinShrinks(p: real, q: real, h: real)
    requires Within(p, h) && Abs(q) <= Abs(p) && (q == 0.0 || Sign(q) == Sign(p))
    ensures Within(q, h)
  {
  }

  lemma PostKeepsSettled(config: Config, w: World, o: Order, s: Symbol, key: CycleKey, h: real)
    requires config.Valid() && Inv(config, w) && w.pending != [] && w.pending[0] == Posted(o)
    requires Settled(w, s, key, h)
    ensures Settled(Happen(w), s, key, h)
  {
    PostedFacts(config, w, o);
    SentIdsGrow(w.wire, o);
    hide Inv, Within, Lawful, Announces;
    var v := Happen(w);
    forall i | 0 <= i < |v.wire| && CurrentOpen(v, i, s) ensures i in v.delivered {
      assert i < |w.wire| && CurrentOpen(w, i, s);
    }
  }

  lemma StepKeepsSettled(config: Config, w: World, step: Step, s: Symbol, key: CycleKey, h: real)
    requires config.Valid() && Inv(config, w) && Enabled(config, w, step)
    requires Settled(w, s, key, h)
    requires s in Next(config, w, step).disk && Next(config, w, step).disk[s].key == key
    ensures Settled(Next(config, w, step), s, key, h)
  {
    hide Execute, WellKept, Within, Lawful, RecordsKept, SnapshotsKept, TickKept, PositionKept;
    var v := Next(config, w, step);
    if step.Proceed? && w.pending[0].Posted? {
      PostKeepsSettled(config, w, w.pending[0].order, s, key, h);
    } else {
      forall i | 0 <= i < |v.wire| && CurrentOpen(v, i, s) ensures i in v.delivered {
        assert CurrentOpen(w, i, s);
      }
      if step.Deliver? && w.wire[step.index].symbol == s {
        var o := w.wire[step.index];
        assert OrderKept(w, o);
        if !o.reduceOnly {
          LiveOpenIsCurrent(config, w, step.index);
          assert false;
        }
        FilledFacts(o, Hedge(w, s), step.fill);
        WithinShrinks(Hedge(w, s), Hedge(v, s), h);
      }
    }
  }

  lemma SettledAtFirst(config: Config, w: World, s: Symbol)
    requires Inv(config, w) && Hedge(w, s) != 0.0 && OpenWasSent(w, s)
    ensures Settled(w, s, w.disk[s].key, Hedge(w, s))
  {
    assert PositionKept(w, s);
  }

  lemma {:induction false} SettledThroughout(config: Config, worlds: seq<World>, steps: seq<Step>, i: nat, j: nat, s: Symbol)
    requires IsRun(config, worlds, steps) && i <= j < |worlds|
    requires s in worlds[i].disk && s in worlds[j].disk && worlds[i].disk[s].key == worlds[j].disk[s].key
    requires Hedge(worlds[i], s) != 0.0
    ensures Settled(worlds[j], s, worlds[i].disk[s].key, Hedge(worlds[i], s))
    decreases j - i
  {
    hide IsRun, Inv, Next, Enabled, Settled, OpenWasSent;
    if i == j {
      RunInv(config, worlds, steps, i);
      HeldWasOpened(config, worlds, steps, i, s);
      SettledAtFirst(config, worlds[i], s);
    } else {
      SameKeyBetween(config, worlds, steps, i, j - 1, j, s);
      SettledThroughout(config, worlds, steps, i, j - 1, s);
      RunStep(config, worlds, steps, j - 1);
      StepKeepsSettled(config, worlds[j - 1], steps[j - 1], s, worlds[i].disk[s].key, Hedge(worlds[i], s));
    }
  }

  /** A key that is on disk at two moments is on disk in between. */
  lemma SameKeyBetween(config: Config, worlds: seq<World>, steps: seq<Step>, i: nat, m: nat, j: nat, s: Symbol)
    requires IsRun(config, worlds, steps) && i <= m <= j < |worlds|
    requires s in worlds[i].disk && s in worlds[j].disk && worlds[i].disk[s].key == worlds[j].disk[s].key
    ensures s in worlds[m].disk && worlds[m].disk[s].key == worlds[i].disk[s].key
  {
    RecordsMoveForward(config, worlds, steps, i, m, s);
    RecordsMoveForward(config, worlds, steps, m, j, s);
    RecordsMoveForward(config, worlds, steps, i, j, s);
    RunInv(config, worlds, steps, i);
    RunInv(config, worlds, steps, m);
    KeysFollowSettlements(config, worlds[i], worlds[m], s);
  }

  /** Within one cycle a hedge that is held only shrinks toward zero. */
  lemma HeldHedgeOnlyShrinks(config: Config, worlds: seq<World>, steps: seq<Step>, i: nat, j: nat, s: Symbol)
    requires IsRun(config, worlds, steps) && i <= j < |worlds|
    requires s in worlds[i].disk && s in worlds[j].disk && worlds[i].disk[s].key == worlds[j].disk[s].key
    requires Hedge(worlds[i], s) != 0.0
    ensures Within(Hedge(worlds[j], s), Hedge(worlds[i], s))
  {
    SettledThroughout(config, worlds, steps, i, j, s);
  }

  /**
   * Past the confirmation timeout a run does not wedge. The pending adjustment,
   * if any, was decided on the hedge at world i of the cycle, the snapshot was
   * read at world m after it, and the tick runs at world j; then it asks for a
   * fresh reduction, unless the adjustment reports filled without effect and the
   * cycle stops for recovery.
   */
  lemma ForcedExitInRuns(config: Config, worlds: seq<World>, steps: seq<Step>, i: nat, m: nat, j: nat,
                         snapshot: Snapshot, env: Environment)
    requires IsRun(config, worlds, steps) && i <= m <= j < |worlds| && snapshot.Valid()
    requires var s := snapshot.symbol;
             && s in worlds[i].disk && s in worlds[j].disk && worlds[i].disk[s].key == worlds[j].disk[s].key
             && snapshot.hedge.position.size == Hedge(worlds[m], s) != 0.0
    requires var c := worlds[j].disk[snapshot.symbol];
             && c.Active() && Identified(config, c, snapshot) && RetryDue(config, c, worlds[j].now)
             && worlds[j].now >= c.settlementAt + Seconds(config.confirmationTimeoutSeconds)
             && (c.pendingAdjust.Some? ==> c.preAdjustSize == Hedge(worlds[i], snapshot.symbol))
    ensures var c := worlds[j].disk[snapshot.symbol];
            var tick := Execute(config, Some(c), snapshot, worlds[j].now, env);
            if c.pendingAdjust.Some? && snapshot.hedge.adjustStatus.Filled?
               && snapshot.hedge.position.size == c.preAdjustSize
            then tick.result.cycle.Some? && tick.result.cycle.value.status.RecoveryRequired?
            else exists k :: 0 <= k < |tick.effects| && AsksFreshReduction(c, snapshot, tick.effects[k])
  {
    var s := snapshot.symbol;
    var c := worlds[j].disk[s];
    RunInv(config, worlds, steps, j);
    SameKeyBetween(config, worlds, steps, i, m, j, s);
    if c.pendingAdjust.Some? {
      assert WellKept(config, c);
      HeldHedgeOnlyShrinks(config, worlds, steps, i, m, s);
    }
    hide IsRun, Execute, RetryDue, Identified;
    ForcedExitDoesNotWedge(config, c, snapshot, worlds[j].now, env);
  }
}
