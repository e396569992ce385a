// The whole system as a transition system: one coordinator holding the state
// lock, an exchange that may deliver posted orders late or never, snapshots that
// may be stale when they are used, and a process that may stop between any two effects.
module Protocol {
  import opened Decimals
  import opened Models
  import opened Options
  import opened Orders
  import opened StateMachine
  import opened StateMachineTheorems

  datatype World = World(
    now: Instant,
    disk: map<Symbol, Cycle>,
    wire: seq<Order>,
    delivered: set<nat>,
    position: map<Symbol, real>,
    snapshots: set<Snapshot>,
    lane: Lane,
    pending: seq<Effect<Cycle>>)

  datatype Step =
    | Elapse(to: Instant)
    | Read(snapshot: Snapshot)
    | Begin(snapshot: Snapshot, env: Environment)
    | Proceed
    | Crash
    | Deliver(index: nat, fill: real)

  function Hedge(w: World, s: Symbol): real {
    if s in w.position then w.position[s] else 0.0
  }

  function OnDisk(w: World, s: Symbol): Option<Cycle> {
    if s in w.disk then Some(w.disk[s]) else None
  }

  /** The exchange rejects an action once its expiry has come. */
  predicate Expired(o: Order, now: Instant) {
    o.expiresAfterMs * 1000 <= now
  }

  /** What a fill does to a position: a reduce-only order can only bring it toward zero. */
  function Filled(o: Order, position: real, fill: real): real
    requires 0.0 <= fill <= o.size
  {
    if !o.reduceOnly then position + Sign(o.Signed()) * fill
    else if Sign(o.Signed()) == -Sign(position) then position - Sign(position) * Min(fill, Abs(position))
    else position
  }

  /** How much of a position is on a side: what a sale takes away or a purchase adds, and never more than is there. */
  lemma FillIsExact(o: Order, position: real, fill: real)
    requires 0.0 <= fill <= o.size
    ensures var after := Filled(o, position, fill);
            if !o.reduceOnly then after == if o.isBuy then position + fill else position - fill
            else if o.isBuy && position < 0.0 then after == if fill < -position then position + fill else 0.0
            else if !o.isBuy && position > 0.0 then after == if fill < position then position - fill else 0.0
            else after == position
  {
  }

  /** An order can still be delivered exactly while the clock has not reached its expiry. */
  lemma ExpiryIsExact(o: Order, now: Instant)
    ensures !Expired(o, now) <==> now < 1000 * o.expiresAfterMs
  {
  }

  ghost predicate Init(w: World) {
    && w.disk == map[] && w.wire == [] && w.delivered == {} && w.snapshots == {} && w.pending == []
    && forall s :: Hedge(w, s) == 0.0
  }

  predicate Enabled(config: Config, w: World, step: Step) {
    match step
    case Elapse(to) => to >= w.now
    case Read(snapshot) =>
      && FromAdapter(config, snapshot)
      && snapshot.funding.observedAt <= w.now
      && snapshot.hedge.position.size == Hedge(w, snapshot.symbol)
    case Begin(snapshot, env) => w.pending == [] && snapshot in w.snapshots && snapshot.Valid()
    case Proceed => w.pending != []
    case Crash => true
    case Deliver(i, fill) =>
      && i < |w.wire| && i !in w.delivered
      && !Expired(w.wire[i], w.now)
      && 0.0 <= fill <= w.wire[i].size
  }

  /** The effect at the head of the running tick happens. */
  function Happen(w: World): World
    requires w.pending != []
  {
    var rest := w.(pending := w.pending[1..]);
    match w.pending[0]
    case Stored(c) => rest.(disk := w.disk[c.symbol := c])
    case Asked(_) => rest
    case Posted(o) => rest.(wire := w.wire + [o])
  }

  function Next(config: Config, w: World, step: Step): World
    requires config.Valid() && Enabled(config, w, step)
  {
    match step
    case Elapse(to) => w.(now := to)
    case Read(snapshot) => w.(snapshots := w.snapshots + {snapshot})
    case Begin(snapshot, env) =>
      w.(lane := Lane(snapshot.symbol, w.now),
         pending := Execute(config, OnDisk(w, snapshot.symbol), snapshot, w.now, env).effects)
    case Proceed => Happen(w)
    case Crash => w.(pending := [])
    case Deliver(i, fill) =>
      var o := w.wire[i];
      w.(delivered := w.delivered + {i},
         position := w.position[o.symbol := Filled(o, Hedge(w, o.symbol), fill)])
  }

  /** Time may pass at any moment, and a crash loses only what the running tick had not done yet. */
  lemma TimeAndCrashAreFree(config: Config, w: World, later: Instant)
    requires config.Valid()
    ensures Enabled(config, w, Elapse(later)) <==> w.now <= later
    ensures w.now <= later ==>
              Next(config, w, Elapse(later)) == World(later, w.disk, w.wire, w.delivered, w.position, w.snapshots, w.lane, w.pending)
    ensures Enabled(config, w, Crash)
    ensures Next(config, w, Crash) == World(w.now, w.disk, w.wire, w.delivered, w.position, w.snapshots, w.lane, [])
  {
  }

  /** Any valid snapshot ever read may be acted on whenever no tick is running. */
  lemma StaleSnapshotsMayBeUsed(config: Config, w: World, snapshot: Snapshot, env: Environment)
    requires snapshot.Valid()
    ensures Enabled(config, w, Begin(snapshot, env)) <==> w.pending == [] && snapshot in w.snapshots
  {
  }

  /** A posted order is filled at most once, by any part of its size, before it expires; nothing else changes. */
  lemma DeliveryIsExact(config: Config, w: World, i: nat, fill: real)
    requires config.Valid()
    ensures Enabled(config, w, Deliver(i, fill)) <==>
              i < |w.wire| && i !in w.delivered && w.now < 1000 * w.wire[i].expiresAfterMs && 0.0 <= fill <= w.wire[i].size
    ensures Enabled(config, w, Deliver(i, fill)) ==>
              var v := Next(config, w, Deliver(i, fill));
              && v.delivered == w.delivered + {i} && v.disk == w.disk && v.wire == w.wire && v.now == w.now
              && v.pending == w.pending && v.snapshots == w.snapshots
              && Hedge(v, w.wire[i].symbol) == Filled(w.wire[i], Hedge(w, w.wire[i].symbol), fill)
              && forall s :: s != w.wire[i].symbol ==> Hedge(v, s) == Hedge(w, s)
  {
  }

  /** Ids of the orders on the wire. */
  function SentIds(wire: seq<Order>): set<Cloid> {
    set i | 0 <= i < |wire| :: wire[i].cloid
  }

  /** The position is flat, or a part of the target on the target's side. */
  predicate Within(position: real, target: real) {
    position == 0.0 || (Sign(position) == Sign(target) && Abs(position) <= Abs(target))
  }

  /** The order can no longer change anything. */
  predicate Spent(w: World, i: nat)
    requires i < |w.wire|
  {
    i in w.delivered || Expired(w.wire[i], w.now)
  }

  predicate OpenFor(w: World, i: nat, s: Symbol)
    requires i < |w.wire|
  {
    w.wire[i].symbol == s && !w.wire[i].reduceOnly
  }

  /** No hedge is held and no opening order can still arrive. */
  predicate QuietLane(w: World, s: Symbol) {
    Hedge(w, s) == 0.0 && forall i :: 0 <= i < |w.wire| && OpenFor(w, i, s) ==> Spent(w, i)
  }

  predicate RecordsKept(config: Config, w: World) {
    forall s :: s in w.disk ==>
      WellKept(config, w.disk[s]) && w.disk[s].symbol == s && w.disk[s].createdAt <= w.now
  }

  const HOUR_MS := 3_600_000

  /** An order on the wire, seen from the record now on disk. */
  predicate OrderKept(w: World, o: Order) {
    && o.symbol in w.disk && o.cloid.key.symbol == o.symbol && o.size > 0.0
    && o.cloid.key.settlementMs % HOUR_MS == 0
    && Accounted(w.disk[o.symbol], o.cloid)
    && (o.reduceOnly <==> !o.cloid.phase.OpenPhase?)
    && (!o.reduceOnly ==>
          && o.expiresAfterMs <= o.cloid.key.settlementMs
          && (o.cloid.key == w.disk[o.symbol].key ==> o.Signed() == w.disk[o.symbol].targetSize))
  }

  predicate OrdersKept(w: World) {
    && (forall i :: 0 <= i < |w.wire| ==> OrderKept(w, w.wire[i]))
    && (forall i, j :: 0 <= i < j < |w.wire| ==> w.wire[i].cloid != w.wire[j].cloid)
    && (forall i, j :: 0 <= i < j < |w.wire| && w.wire[i].symbol == w.wire[j].symbol
                       && !w.wire[i].reduceOnly && !w.wire[j].reduceOnly ==>
          w.wire[i].cloid.key.settlementMs < w.wire[j].cloid.key.settlementMs)
  }

  /** The opening order of the cycle on disk. */
  predicate CurrentOpen(w: World, i: nat, s: Symbol)
    requires i < |w.wire|
  {
    OpenFor(w, i, s) && s in w.disk && w.wire[i].cloid.key == w.disk[s].key
  }

  predicate PositionKept(w: World, s: Symbol) {
    if s !in w.disk then Hedge(w, s) == 0.0
    else
      && Within(Hedge(w, s), w.disk[s].targetSize)
      && forall i :: 0 <= i < |w.wire| && CurrentOpen(w, i, s) && i !in w.delivered ==> Hedge(w, s) == 0.0
  }

  /** A snapshot that saw no hedge is still right, unless an opening for its hour was posted since. */
  predicate SnapshotKept(w: World, x: Snapshot) {
    x.hedge.position.size == 0.0 && Hedge(w, x.symbol) != 0.0 ==>
      exists i :: 0 <= i < |w.wire| && OpenFor(w, i, x.symbol)
                  && w.wire[i].cloid.key.settlementMs >= Millis(NextHour(x.funding.observedAt))
  }

  predicate SnapshotsKept(config: Config, w: World) {
    forall x :: x in w.snapshots ==>
      FromAdapter(config, x) && x.funding.observedAt <= w.now && SnapshotKept(w, x)
  }

  predicate TickKept(config: Config, w: World) {
    w.pending != [] ==>
      w.lane.now <= w.now
      && Lawful(config, w.lane, OnDisk(w, w.lane.symbol), SentIds(w.wire), QuietLane(w, w.lane.symbol), w.pending)
  }

  ghost predicate Inv(config: Config, w: World) {
    && RecordsKept(config, w)
    && OrdersKept(w)
    && (forall s :: PositionKept(w, s))
    && SnapshotsKept(config, w)
    && TickKept(config, w)
  }

  lemma InitInv(config: Config, w: World)
    requires Init(w)
    ensures Inv(config, w)
  {
  }

  /** A lane that becomes quiet permits at least what it permitted before. */
  lemma {:induction false} LawfulWhenQuieter(config: Config, lane: Lane, disk: Option<Cycle>, sent: set<Cloid>,
                                             before: bool, after: bool, effects: seq<Effect<Cycle>>)
    requires before ==> after
    requires Lawful(config, lane, disk, sent, before, effects)
    ensures Lawful(config, lane, disk, sent, after, effects)
    decreases |effects|
  {
    if effects != [] {
      match effects[0]
      case Stored(c) => LawfulWhenQuieter(config, lane, Some(c), sent, before, after, effects[1..]);
      case Asked(_) => LawfulWhenQuieter(config, lane, disk, sent, before, after, effects[1..]);
      case Posted(o) =>
        LawfulWhenQuieter(config, lane, disk, sent + {o.cloid}, before && o.reduceOnly, after && o.reduceOnly,
                          effects[1..]);
    }
  }

  /** An opening order of an earlier settlement than the record on disk has expired. */
  lemma EarlierOpenExpired(config: Config, w: World, o: Order)
    requires RecordsKept(config, w) && OrderKept(w, o) && !o.reduceOnly
    requires o.cloid.key != w.disk[o.symbol].key
    ensures Expired(o, w.now)
    ensures o.cloid.key.settlementMs * 1000 <= w.disk[o.symbol].createdAt
  {
    var c := w.disk[o.symbol];
    HourMillis(c.settlementAt, c.settlementAt);
    EarlierHour(o.cloid.key.settlementMs, c.createdAt);
  }

  lemma EarlierHour(ms: int, now: Instant)
    requires ms % HOUR_MS == 0
    requires ms < Millis(NextHour(now))
    ensures ms * 1000 <= now
  {
    var h := NextHour(now) / HOUR;
    HourMillis(NextHour(now), NextHour(now));
    assert ms == HOUR_MS * (ms / HOUR_MS);
    assert ms / HOUR_MS < h;
  }

  /** v is a later moment of w with the same records, orders and snapshots. */
  predicate Later(w: World, v: World) {
    v.disk == w.disk && v.wire == w.wire && w.now <= v.now && w.delivered <= v.delivered
  }

  lemma RecordsLater(config: Config, w: World, v: World)
    requires Later(w, v) && RecordsKept(config, w)
    ensures RecordsKept(config, v)
  {
  }

  lemma OrdersLater(w: World, v: World)
    requires Later(w, v) && OrdersKept(w)
    ensures OrdersKept(v)
  {
    forall i | 0 <= i < |v.wire| ensures OrderKept(v, v.wire[i]) {
      assert OrderKept(w, w.wire[i]);
    }
  }

  lemma PositionLater(w: World, v: World, s: Symbol)
    requires Later(w, v) && PositionKept(w, s) && Hedge(v, s) == Hedge(w, s)
    ensures PositionKept(v, s)
  {
    forall i | 0 <= i < |v.wire| && CurrentOpen(v, i, s) && i !in v.delivered ensures Hedge(v, s) == 0.0 {
      assert CurrentOpen(w, i, s);
    }
  }

  lemma SnapshotLater(w: World, v: World, x: Snapshot)
    requires Later(w, v) && SnapshotKept(w, x) && Hedge(v, x.symbol) == Hedge(w, x.symbol)
    ensures SnapshotKept(v, x)
  {
    if x.hedge.position.size == 0.0 && Hedge(v, x.symbol) != 0.0 {
      var i :| 0 <= i < |w.wire| && OpenFor(w, i, x.symbol)
               && w.wire[i].cloid.key.settlementMs >= Millis(NextHour(x.funding.observedAt));
      assert OpenFor(v, i, x.symbol);
    }
  }

  lemma TickLater(config: Config, w: World, v: World)
    requires Later(w, v) && TickKept(config, w)
    requires v.lane == w.lane && v.pending == w.pending
    requires Hedge(w, w.lane.symbol) == 0.0 ==>
               Hedge(v, w.lane.symbol) == 0.0 || !QuietLane(w, w.lane.symbol)
    ensures TickKept(config, v)
  {
    var s := w.lane.symbol;
    if QuietLane(w, s) {
      forall i | 0 <= i < |v.wire| && OpenFor(v, i, s) ensures Spent(v, i) {
        assert OpenFor(w, i, s);
        assert Spent(w, i);
      }
    }
    if w.pending != [] {
      LawfulWhenQuieter(config, w.lane, OnDisk(w, s), SentIds(w.wire), QuietLane(w, s), QuietLane(v, s), w.pending);
    }
  }

  lemma SamePositionsInv(config: Config, w: World, v: World)
    requires config.Valid() && Inv(config, w) && Later(w, v) && v.position == w.position
    requires forall x :: x in v.snapshots ==>
               x in w.snapshots || Enabled(config, v, Read(x))
    requires (v.lane == w.lane && v.pending == w.pending) || v.pending == []
    ensures Inv(config, v)
  {
    RecordsLater(config, w, v);
    OrdersLater(w, v);
    forall s ensures PositionKept(v, s) {
      PositionLater(w, v, s);
    }
    forall x | x in v.snapshots
      ensures FromAdapter(config, x) && x.funding.observedAt <= v.now && SnapshotKept(v, x)
    {
      if x in w.snapshots {
        SnapshotLater(w, v, x);
      }
    }
    if v.pending != [] {
      TickLater(config, w, v);
    }
  }

  lemma FilledFacts(o: Order, p: real, fill: real)
    requires 0.0 <= fill <= o.size && o.size > 0.0
    ensures var q := Filled(o, p, fill);
            && (o.reduceOnly ==> Abs(q) <= Abs(p) && (q == 0.0 || Sign(q) == Sign(p)))
            && (!o.reduceOnly && p == 0.0 ==> Within(q, o.Signed()))
  {
  }

  /** An order that can still be delivered and opens is the current cycle's, and nothing is held yet. */
  lemma LiveOpenIsCurrent(config: Config, w: World, i: nat)
    requires Inv(config, w) && i < |w.wire| && !w.wire[i].reduceOnly
    requires i !in w.delivered && !Expired(w.wire[i], w.now)
    ensures CurrentOpen(w, i, w.wire[i].symbol)
    ensures Hedge(w, w.wire[i].symbol) == 0.0
    ensures w.wire[i].Signed() == w.disk[w.wire[i].symbol].targetSize
  {
    var o := w.wire[i];
    assert OrderKept(w, o);
    if o.cloid.key != w.disk[o.symbol].key {
      EarlierOpenExpired(config, w, o);
      assert false;
    }
    assert PositionKept(w, o.symbol);
  }

  lemma DeliveredPosition(config: Config, w: World, i: nat, fill: real)
    requires config.Valid() && Inv(config, w) && Enabled(config, w, Deliver(i, fill))
    ensures PositionKept(Next(config, w, Deliver(i, fill)), w.wire[i].symbol)
  {
    var v := Next(config, w, Deliver(i, fill));
    var o := w.wire[i];
    var s := o.symbol;
    assert OrderKept(w, o) && PositionKept(w, s);
    FilledFacts(o, Hedge(w, s), fill);
    if !o.reduceOnly {
      LiveOpenIsCurrent(config, w, i);
      OnlyOneCurrentOpen(w, i);
    }
    forall j | 0 <= j < |v.wire| && CurrentOpen(v, j, s) && j !in v.delivered ensures Hedge(v, s) == 0.0 {
      assert CurrentOpen(w, j, s);
    }
  }

  lemma DeliveredSnapshot(config: Config, w: World, i: nat, fill: real, x: Snapshot)
    requires config.Valid() && Inv(config, w) && Enabled(config, w, Deliver(i, fill)) && x in w.snapshots
    ensures SnapshotKept(Next(config, w, Deliver(i, fill)), x)
  {
    var v := Next(config, w, Deliver(i, fill));
    var o := w.wire[i];
    assert SnapshotKept(w, x);
    if x.symbol == o.symbol && !o.reduceOnly {
      OpenIsForLaterHour(config, w, i, x.funding.observedAt);
      assert OpenFor(v, i, x.symbol);
    } else {
      assert OrderKept(w, o);
      FilledFacts(o, Hedge(w, o.symbol), fill);
      if x.hedge.position.size == 0.0 && Hedge(v, x.symbol) != 0.0 {
        var j :| 0 <= j < |w.wire| && OpenFor(w, j, x.symbol)
                 && w.wire[j].cloid.key.settlementMs >= Millis(NextHour(x.funding.observedAt));
        assert OpenFor(v, j, x.symbol);
      }
    }
  }

  lemma DeliverInv(config: Config, w: World, i: nat, fill: real)
    requires config.Valid() && Inv(config, w) && Enabled(config, w, Deliver(i, fill))
    ensures Inv(config, Next(config, w, Deliver(i, fill)))
  {
    var v := Next(config, w, Deliver(i, fill));
    var o := w.wire[i];
    assert OrderKept(w, o);
    FilledFacts(o, Hedge(w, o.symbol), fill);
    RecordsLater(config, w, v);
    OrdersLater(w, v);
    hide RecordsKept, OrdersKept, FromAdapter, Lawful, Filled;
    forall s ensures PositionKept(v, s) {
      if s == o.symbol {
        DeliveredPosition(config, w, i, fill);
      } else {
        PositionLater(w, v, s);
      }
    }
    forall x | x in v.snapshots ensures SnapshotKept(v, x) {
      DeliveredSnapshot(config, w, i, fill, x);
    }
    if w.lane.symbol == o.symbol && !o.reduceOnly {
      assert OpenFor(w, i, o.symbol);
      assert !Spent(w, i);
    }
    TickLater(config, w, v);
  }

  /** The current cycle has one opening order. */
  lemma OnlyOneCurrentOpen(w: World, i: nat)
    requires OrdersKept(w) && i < |w.wire| && CurrentOpen(w, i, w.wire[i].symbol)
    ensures forall j :: 0 <= j < |w.wire| && CurrentOpen(w, j, w.wire[i].symbol) ==> j == i
  {
    forall j | 0 <= j < |w.wire| && CurrentOpen(w, j, w.wire[i].symbol)
      ensures j == i
    {
      assert OrderKept(w, w.wire[i]) && OrderKept(w, w.wire[j]);
      assert w.wire[i].cloid == w.wire[j].cloid;
    }
  }

  /** A live opening order belongs to the hour after anything already observed. */
  lemma OpenIsForLaterHour(config: Config, w: World, i: nat, observed: Instant)
    requires OrdersKept(w) && i < |w.wire| && !w.wire[i].reduceOnly && !Expired(w.wire[i], w.now)
    requires observed <= w.now
    ensures w.wire[i].cloid.key.settlementMs >= Millis(NextHour(observed))
  {
    assert OrderKept(w, w.wire[i]);
    var ms := w.wire[i].cloid.key.settlementMs;
    if ms < Millis(NextHour(observed)) {
      EarlierHour(ms, observed);
    }
  }

  lemma AllSentAccounted(config: Config, w: World, s: Symbol)
    requires RecordsKept(config, w) && OrdersKept(w)
    ensures AllAccounted(s, OnDisk(w, s), SentIds(w.wire))
  {
    forall x | x in SentIds(w.wire) && x.key.symbol == s
      ensures OnDisk(w, s).Some? && Accounted(OnDisk(w, s).value, x)
    {
      var i :| 0 <= i < |w.wire| && w.wire[i].cloid == x;
      assert OrderKept(w, w.wire[i]);
    }
  }

  /** Every opening of a symbol belongs to a settlement no later than the record's. */
  lemma OpensUpToRecord(config: Config, w: World, i: nat)
    requires RecordsKept(config, w) && OrdersKept(w) && i < |w.wire| && !w.wire[i].reduceOnly
    ensures w.wire[i].symbol in w.disk
    ensures w.wire[i].cloid.key.settlementMs <= Millis(w.disk[w.wire[i].symbol].settlementAt)
    ensures w.wire[i].expiresAfterMs * 1000 <= w.disk[w.wire[i].symbol].settlementAt
  {
    assert OrderKept(w, w.wire[i]);
  }

  /** A decision to open is only made when nothing is held and nothing can still arrive. */
  lemma OpenNeedsQuiet(config: Config, w: World, snapshot: Snapshot)
    requires config.Valid() && Inv(config, w) && snapshot in w.snapshots
    requires Decide(config, snapshot, w.now, Reconcile(config, OnDisk(w, snapshot.symbol), snapshot, w.now))
               .action.OpenHedge?
    ensures QuietLane(w, snapshot.symbol)
  {
    var s := snapshot.symbol;
    var stored := OnDisk(w, s);
    var reconciled := Reconcile(config, stored, snapshot, w.now);
    if stored.Some? {
      ReconcileKeeps(config, stored.value, snapshot, w.now);
    }
    OpenStartsLaterCycle(config, snapshot, w.now, reconciled);
    hide Decide, ReconcileCycle, WellKept;
    assert PositionKept(w, s) && SnapshotKept(w, snapshot);
    if stored.Some? {
      var c := stored.value;
      WellKeptHours(config, c);
      EarlierSettlementPassed(c.settlementAt, w.now);
      HourMillis(c.settlementAt, NextHour(w.now));
      forall i | 0 <= i < |w.wire| && OpenFor(w, i, s)
        ensures Spent(w, i) && w.wire[i].cloid.key.settlementMs < Millis(NextHour(w.now))
      {
        OpensUpToRecord(config, w, i);
      }
    } else {
      forall i | 0 <= i < |w.wire| ensures w.wire[i].symbol != s {
        assert OrderKept(w, w.wire[i]);
      }
    }
  }

  lemma WellKeptHours(config: Config, c: Cycle)
    requires WellKept(config, c)
    ensures c.settlementAt % HOUR == 0
    ensures c.key.settlementMs == Millis(c.settlementAt) && c.key.settlementMs * 1000 == c.settlementAt
    ensures c.key.settlementMs % HOUR_MS == 0
    ensures c.key.symbol == c.symbol
  {
    HourMillis(c.settlementAt, c.settlementAt);
    assert c.settlementAt == HOUR * (c.settlementAt / HOUR);
    assert c.key.settlementMs == HOUR_MS * (c.settlementAt / HOUR);
  }

  lemma BegunTickIsLawful(config: Config, w: World, snapshot: Snapshot, env: Environment)
    requires config.Valid() && Inv(config, w) && snapshot in w.snapshots
    ensures Lawful(config, Lane(snapshot.symbol, w.now), OnDisk(w, snapshot.symbol), SentIds(w.wire),
                   QuietLane(w, snapshot.symbol),
                   Execute(config, OnDisk(w, snapshot.symbol), snapshot, w.now, env).effects)
  {
    var s := snapshot.symbol;
    var stored := OnDisk(w, s);
    var reconciled := Reconcile(config, stored, snapshot, w.now);
    AllSentAccounted(config, w, s);
    ActDecision(config, snapshot, w.now, reconciled, env);
    if Decide(config, snapshot, w.now, reconciled).action.OpenHedge? {
      OpenNeedsQuiet(config, w, snapshot);
    }
    hide Decide, Act, Reconcile, WellKept, Lawful, OrdersKept, PositionKept, TickKept, AllAccounted;
    ExecuteIsLawful(config, stored, snapshot, w.now, env, SentIds(w.wire), QuietLane(w, s));
  }

  lemma BeginInv(config: Config, w: World, snapshot: Snapshot, env: Environment)
    requires config.Valid() && Inv(config, w) && Enabled(config, w, Begin(snapshot, env))
    ensures Inv(config, Next(config, w, Begin(snapshot, env)))
  {
    BegunTickIsLawful(config, w, snapshot, env);
    hide Execute, Lawful;
    BegunInv(config, w, snapshot, Execute(config, OnDisk(w, snapshot.symbol), snapshot, w.now, env).effects);
  }

  /** Any lawful effects may be started on any lane. */
  lemma BegunInv(config: Config, w: World, snapshot: Snapshot, effects: seq<Effect<Cycle>>)
    requires config.Valid() && Inv(config, w)
    requires Lawful(config, Lane(snapshot.symbol, w.now), OnDisk(w, snapshot.symbol), SentIds(w.wire),
                    QuietLane(w, snapshot.symbol), effects)
    ensures Inv(config, w.(lane := Lane(snapshot.symbol, w.now), pending := effects))
  {
    hide Lawful, RecordsKept, OrdersKept, PositionKept, SnapshotKept, FromAdapter;
    var idle := w.(lane := Lane(snapshot.symbol, w.now), pending := []);
    var v := idle.(pending := effects);
    SameQuiet(w, v, snapshot.symbol);
    SamePositionsInv(config, w, idle);
    PendingDoesNotMatter(config, idle, v);
  }

  /** Everything but the running tick is judged without it. */
  lemma PendingDoesNotMatter(config: Config, w: World, v: World)
    requires v == w.(pending := v.pending)
    requires Inv(config, w) && TickKept(config, v)
    ensures Inv(config, v)
  {
    RecordsLater(config, w, v);
    OrdersLater(w, v);
    forall s ensures PositionKept(v, s) {
      PositionLater(w, v, s);
    }
    forall x | x in v.snapshots ensures SnapshotKept(v, x) {
      SnapshotLater(w, v, x);
    }
  }

  /** The record a lawful write puts on disk. */
  lemma StoredFacts(config: Config, w: World, c: Cycle)
    requires Inv(config, w) && w.pending != [] && w.pending[0] == Stored(c)
    ensures c.symbol == w.lane.symbol && WellKept(config, c) && c.createdAt <= w.now
    ensures var prior := OnDisk(w, c.symbol);
            || (prior.Some? && Continues(prior.value, c))
            || (QuietLane(w, c.symbol) && Starts(w.lane, prior, c))
    ensures Lawful(config, w.lane, Some(c), SentIds(w.wire), QuietLane(w, w.lane.symbol), w.pending[1..])
  {
    hide WellKept;
  }

  lemma StoredOrder(config: Config, w: World, c: Cycle, o: Order)
    requires RecordsKept(config, w) && OrderKept(w, o) && WellKept(config, c)
    requires var prior := OnDisk(w, c.symbol);
             (prior.Some? && Continues(prior.value, c)) || Starts(w.lane, prior, c)
    ensures OrderKept(w.(disk := w.disk[c.symbol := c]), o)
  {
    if o.symbol == c.symbol {
      var prior := w.disk[c.symbol];
      WellKeptHours(config, prior);
      WellKeptHours(config, c);
      hide WellKept;
      if !Continues(prior, c) {
        HourMillis(prior.settlementAt, c.settlementAt);
      }
    }
  }

  lemma StoredInv(config: Config, w: World, c: Cycle)
    requires config.Valid() && Inv(config, w) && w.pending != [] && w.pending[0] == Stored(c)
    ensures Inv(config, Happen(w))
  {
    var v := Happen(w);
    StoredFacts(config, w, c);
    hide WellKept, Lawful, FromAdapter, Continues, Starts;
    forall i | 0 <= i < |v.wire| ensures OrderKept(v, v.wire[i]) {
      StoredOrder(config, w, c, v.wire[i]);
      assert OrderKept(w.(disk := v.disk), v.wire[i]);
    }
    hide OrderKept;
    forall s ensures PositionKept(v, s) {
      StoredPosition(config, w, c, s);
    }
    forall x | x in v.snapshots ensures SnapshotKept(v, x) {
      assert SnapshotKept(w, x);
      SnapshotWire(w, v, x);
    }
    SameQuiet(w, v, w.lane.symbol);
  }

  lemma StoredPosition(config: Config, w: World, c: Cycle, s: Symbol)
    requires Inv(config, w) && w.pending != [] && w.pending[0] == Stored(c)
    requires (c.symbol in w.disk && Continues(w.disk[c.symbol], c)) || QuietLane(w, c.symbol)
    ensures PositionKept(Happen(w), s)
  {
    hide WellKept, Lawful, FromAdapter, OrdersKept, TickKept, RecordsKept;
    var v := Happen(w);
    assert PositionKept(w, s);
    forall i | 0 <= i < |v.wire| && CurrentOpen(v, i, s) && i !in v.delivered ensures Hedge(v, s) == 0.0 {
      if s != c.symbol || (s in w.disk && Continues(w.disk[s], c)) {
        assert CurrentOpen(w, i, s);
      }
    }
  }

  lemma SnapshotWire(w: World, v: World, x: Snapshot)
    requires SnapshotKept(w, x) && v.position == w.position && w.wire <= v.wire
    ensures SnapshotKept(v, x)
  {
    if x.hedge.position.size == 0.0 && Hedge(v, x.symbol) != 0.0 {
      var i :| 0 <= i < |w.wire| && OpenFor(w, i, x.symbol)
               && w.wire[i].cloid.key.settlementMs >= Millis(NextHour(x.funding.observedAt));
      assert OpenFor(v, i, x.symbol);
    }
  }

  lemma SameQuiet(w: World, v: World, s: Symbol)
    requires v.position == w.position && v.wire == w.wire && v.delivered == w.delivered && v.now == w.now
    ensures QuietLane(w, s) == QuietLane(v, s)
  {
    assert forall i :: 0 <= i < |w.wire| ==> OpenFor(w, i, s) == OpenFor(v, i, s) && Spent(w, i) == Spent(v, i);
  }

  lemma AskedInv(config: Config, w: World)
    requires config.Valid() && Inv(config, w) && w.pending != [] && w.pending[0].Asked?
    ensures Inv(config, Happen(w))
  {
    var v := Happen(w);
    SameQuiet(w, v, w.lane.symbol);
    PendingDoesNotMatter(config, w, v);
  }

  /** What a lawful post puts on the wire. */
  lemma PostedFacts(config: Config, w: World, o: Order)
    requires Inv(config, w) && w.pending != [] && w.pending[0] == Posted(o)
    ensures o.symbol == w.lane.symbol && o.symbol in w.disk
    ensures Announces(config, w.disk[o.symbol], o) && OrderKept(w, o)
    ensures o.cloid !in SentIds(w.wire)
    ensures !o.reduceOnly ==> QuietLane(w, o.symbol) && o.cloid == Cloid(w.disk[o.symbol].key, OpenPhase)
    ensures Lawful(config, w.lane, OnDisk(w, o.symbol), SentIds(w.wire) + {o.cloid},
                   QuietLane(w, w.lane.symbol) && o.reduceOnly, w.pending[1..])
  {
    var c := w.disk[w.lane.symbol];
    WellKeptHours(config, c);
  }

  lemma PostedWire(config: Config, w: World, o: Order)
    requires Inv(config, w) && w.pending != [] && w.pending[0] == Posted(o)
    ensures OrdersKept(Happen(w))
  {
    hide Lawful, WellKept, Announces, TickKept, SnapshotKept, PositionKept, RecordsKept, FromAdapter, QuietLane;
    hide OrderKept, Accounted;
    PostedFacts(config, w, o);
    PostedOrders(w, o);
    FreshComesLast(w, o);
    hide SentIds;
    assert Happen(w).wire == w.wire + [o];
  }

  lemma FreshComesLast(w: World, o: Order)
    requires OrdersKept(w) && o.symbol in w.disk && o.cloid !in SentIds(w.wire)
    requires !o.reduceOnly ==> o.cloid == Cloid(w.disk[o.symbol].key, OpenPhase)
    ensures forall i :: 0 <= i < |w.wire| ==> w.wire[i].cloid != o.cloid
    ensures forall i :: 0 <= i < |w.wire| && w.wire[i].symbol == o.symbol && !w.wire[i].reduceOnly && !o.reduceOnly ==>
              w.wire[i].cloid.key.settlementMs < o.cloid.key.settlementMs
  {
    forall i | 0 <= i < |w.wire|
      ensures w.wire[i].cloid != o.cloid
      ensures w.wire[i].symbol == o.symbol && !w.wire[i].reduceOnly && !o.reduceOnly ==>
                w.wire[i].cloid.key.settlementMs < o.cloid.key.settlementMs
    {
      assert w.wire[i].cloid in SentIds(w.wire);
      EarlierThanFresh(w, i, o);
    }
  }

  lemma PostedOrders(w: World, o: Order)
    requires OrdersKept(w) && OrderKept(w, o) && w.pending != [] && w.pending[0] == Posted(o)
    ensures forall i :: 0 <= i < |Happen(w).wire| ==> OrderKept(Happen(w), Happen(w).wire[i])
  {
    var v := Happen(w);
    forall i | 0 <= i < |v.wire| ensures OrderKept(v, v.wire[i]) {
      assert OrderKept(w, v.wire[i]);
    }
  }

  /** An opening on the wire is of an earlier settlement than one with a new id for the record on disk. */
  lemma EarlierThanFresh(w: World, i: nat, o: Order)
    requires OrdersKept(w) && i < |w.wire| && o.symbol in w.disk && w.wire[i].cloid != o.cloid
    requires !o.reduceOnly ==> o.cloid == Cloid(w.disk[o.symbol].key, OpenPhase)
    ensures w.wire[i].symbol == o.symbol && !w.wire[i].reduceOnly && !o.reduceOnly ==>
              w.wire[i].cloid.key.settlementMs < o.cloid.key.settlementMs
  {
    assert OrderKept(w, w.wire[i]);
  }

  lemma SentIdsGrow(wire: seq<Order>, o: Order)
    ensures SentIds(wire + [o]) == SentIds(wire) + {o.cloid}
  {
    var longer := wire + [o];
    assert longer[|wire|].cloid == o.cloid;
    forall i | 0 <= i < |wire| ensures wire[i].cloid in SentIds(longer) {
      assert longer[i].cloid == wire[i].cloid;
    }
  }

  lemma PostedInv(config: Config, w: World, o: Order)
    requires config.Valid() && Inv(config, w) && w.pending != [] && w.pending[0] == Posted(o)
    ensures Inv(config, Happen(w))
  {
    PostedFacts(config, w, o);
    PostedWire(config, w, o);
    PostedTick(config, w, o);
    hide Lawful, WellKept, Announces, OrdersKept, OrderKept, FromAdapter, TickKept, QuietLane;
    var v := Happen(w);
    forall s ensures PositionKept(v, s) {
      PostedPosition(config, w, o, s);
    }
    forall x | x in v.snapshots ensures SnapshotKept(v, x) {
      SnapshotWire(w, v, x);
    }
  }

  lemma PostedPosition(config: Config, w: World, o: Order, s: Symbol)
    requires Inv(config, w) && w.pending != [] && w.pending[0] == Posted(o)
    requires !o.reduceOnly ==> QuietLane(w, o.symbol)
    ensures PositionKept(Happen(w), s)
  {
    hide Lawful, WellKept, OrdersKept, FromAdapter, TickKept;
    var v := Happen(w);
    assert PositionKept(w, s);
    forall i | 0 <= i < |v.wire| && CurrentOpen(v, i, s) && i !in v.delivered ensures Hedge(v, s) == 0.0 {
      if i < |w.wire| {
        assert CurrentOpen(w, i, s);
      }
    }
  }

  lemma PostedTick(config: Config, w: World, o: Order)
    requires config.Valid() && Inv(config, w) && w.pending != [] && w.pending[0] == Posted(o)
    ensures TickKept(config, Happen(w))
  {
    PostedFacts(config, w, o);
    hide Lawful, WellKept, Announces, OrdersKept, OrderKept, FromAdapter, PositionKept, SnapshotsKept, RecordsKept;
    var v := Happen(w);
    var s := w.lane.symbol;
    SentIdsGrow(w.wire, o);
    if QuietLane(w, s) && o.reduceOnly {
      forall i | 0 <= i < |v.wire| && OpenFor(v, i, s) ensures Spent(v, i) {
        assert i < |w.wire| && OpenFor(w, i, s);
        assert Spent(w, i);
      }
    }
    LawfulWhenQuieter(config, w.lane, OnDisk(w, s), SentIds(v.wire),
                      QuietLane(w, s) && o.reduceOnly, QuietLane(v, s), w.pending[1..]);
  }

  lemma StepInv(config: Config, w: World, step: Step)
    requires config.Valid() && Inv(config, w) && Enabled(config, w, step)
    ensures Inv(config, Next(config, w, step))
  {
    hide Inv;
    match step
    case Elapse(to) => SamePositionsInv(config, w, Next(config, w, step));
    case Read(snapshot) => ReadInv(config, w, snapshot);
    case Begin(snapshot, env) => BeginInv(config, w, snapshot, env);
    case Proceed =>
      match w.pending[0] {
        case Stored(c) => StoredInv(config, w, c);
        case Asked(_) => AskedInv(config, w);
        case Posted(o) => PostedInv(config, w, o);
      }
    case Crash => SamePositionsInv(config, w, Next(config, w, step));
    case Deliver(i, fill) => DeliverInv(config, w, i, fill);
  }

  lemma ReadInv(config: Config, w: World, snapshot: Snapshot)
    requires config.Valid() && Inv(config, w) && Enabled(config, w, Read(snapshot))
    ensures Inv(config, Next(config, w, Read(snapshot)))
  {
    SamePositionsInv(config, w, Next(config, w, Read(snapshot)));
  }
}
