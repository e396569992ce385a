// The bounded deduplicator of account fills, fed by a websocket and by polling.
module UserFills {
  import opened Decimals
  import opened Options
  import opened Sequences
  import opened Sorting

  datatype Fill = Fill(coin: string, oid: int, tid: int, time: int, size: string, price: string, hash: string)

  datatype FillKey = FillKey(symbol: string, oid: int, tid: int, time: int, size: string, price: string, hash: string)

  const MIN_CAPACITY: nat := 100
  const DEFAULT_CAPACITY: nat := 4000

  // ---------- the specification: which offered fills are delivered ----------

  datatype Rules = Rules(canonical: string -> string, configured: int)
  {
    /** A zero setting means the default; nothing below the minimum is used. */
    function Capacity(): (capacity: nat)
      ensures capacity >= MIN_CAPACITY
      ensures configured >= MIN_CAPACITY ==> capacity == configured
      ensures configured == 0 ==> capacity == DEFAULT_CAPACITY
      ensures configured < MIN_CAPACITY && configured != 0 ==> capacity == MIN_CAPACITY
    {
      var wanted := if configured == 0 then DEFAULT_CAPACITY else configured;
      if wanted < MIN_CAPACITY then MIN_CAPACITY else wanted
    }

    function KeyOf(fill: Fill): FillKey {
      FillKey(canonical(fill.coin), fill.oid, fill.tid, fill.time, fill.size, fill.price, fill.hash)
    }

    /** The two fills agree in all that identifies an execution; the coin may be written differently. */
    predicate SameFill(a: Fill, b: Fill) {
      && canonical(a.coin) == canonical(b.coin)
      && a.oid == b.oid && a.tid == b.tid && a.time == b.time
      && a.size == b.size && a.price == b.price && a.hash == b.hash
    }

    function Keys(fills: seq<Fill>): (keys: seq<FillKey>)
      ensures |keys| == |fills|
    {
      seq(|fills|, i requires 0 <= i < |fills| => KeyOf(fills[i]))
    }

    /** The keys that are remembered after these deliveries. */
    function Window(delivered: seq<Fill>): seq<FillKey> {
      TakeLast(Keys(delivered), Capacity())
    }

    /** A fill is delivered unless its key is among the last `Capacity()` delivered ones. */
    function Delivered(offered: seq<Fill>): seq<Fill> {
      if offered == [] then []
      else
        var before := Delivered(offered[..|offered| - 1]);
        var fill := offered[|offered| - 1];
        if KeyOf(fill) in Window(before) then before else before + [fill]
    }
  }

  /** A key tells fills apart exactly as all seven parts together do. */
  lemma KeyTellsApart(rules: Rules, a: Fill, b: Fill)
    ensures rules.KeyOf(a) == rules.KeyOf(b) <==> rules.SameFill(a, b)
  {
  }

  lemma DeliveredPush(rules: Rules, offered: seq<Fill>, fill: Fill)
    ensures rules.Delivered(offered + [fill]) ==
      if rules.KeyOf(fill) in rules.Window(rules.Delivered(offered)) then rules.Delivered(offered)
      else rules.Delivered(offered) + [fill]
  {
    assert (offered + [fill])[..|offered|] == offered;
  }

  /** Later offers never take a delivery back. */
  lemma {:induction false} DeliveredGrows(rules: Rules, offered: seq<Fill>, more: seq<Fill>)
    ensures rules.Delivered(offered) <= rules.Delivered(offered + more)
  {
    if more == [] {
      assert offered + more == offered;
    } else {
      var n := |more| - 1;
      DeliveredGrows(rules, offered, more[..n]);
      assert offered + more == (offered + more[..n]) + [more[n]];
      DeliveredPush(rules, offered + more[..n], more[n]);
    }
  }

  lemma WindowPush(rules: Rules, delivered: seq<Fill>, fill: Fill)
    ensures rules.Window(delivered + [fill]) ==
      TakeLast(rules.Window(delivered) + [rules.KeyOf(fill)], rules.Capacity())
  {
    assert rules.Keys(delivered + [fill]) == rules.Keys(delivered) + [rules.KeyOf(fill)];
  }

  // ---------- theorems about deliveries ----------

  /** Any `Capacity()` consecutive deliveries have pairwise distinct keys. */
  ghost predicate LocallyDistinct(rules: Rules, delivered: seq<Fill>) {
    forall p, q :: 0 <= p < q < |delivered| && q - p <= rules.Capacity() ==>
      rules.KeyOf(delivered[p]) != rules.KeyOf(delivered[q])
  }

  lemma InWindow(rules: Rules, delivered: seq<Fill>, key: FillKey)
    ensures key in rules.Window(delivered) <==>
      exists p :: 0 <= p < |delivered| && |delivered| - p <= rules.Capacity() && rules.KeyOf(delivered[p]) == key
  {
    var window := rules.Window(delivered);
    var skipped := |delivered| - |window|;
    assert forall i :: 0 <= i < |window| ==> window[i] == rules.KeyOf(delivered[skipped + i]);
    forall p | 0 <= p < |delivered| && |delivered| - p <= rules.Capacity() && rules.KeyOf(delivered[p]) == key
      ensures key in window
    {
      assert window[p - skipped] == key;
    }
  }

  lemma {:induction false} DeliveriesAreLocallyDistinct(rules: Rules, offered: seq<Fill>)
    ensures LocallyDistinct(rules, rules.Delivered(offered))
  {
    if offered != [] {
      var init, fill := offered[..|offered| - 1], offered[|offered| - 1];
      DeliveriesAreLocallyDistinct(rules, init);
      InWindow(rules, rules.Delivered(init), rules.KeyOf(fill));
    }
  }

  /** The remembered keys are distinct and never exceed the capacity. */
  lemma WindowIsBounded(rules: Rules, offered: seq<Fill>)
    ensures Distinct(rules.Window(rules.Delivered(offered)))
    ensures |rules.Window(rules.Delivered(offered))| <= rules.Capacity()
  {
    DeliveriesAreLocallyDistinct(rules, offered);
    var delivered := rules.Delivered(offered);
    WindowAt(rules, delivered);
    hide Rules.Window, Rules.KeyOf, Rules.Keys, Rules.Delivered;
  }

  lemma WindowAt(rules: Rules, delivered: seq<Fill>)
    ensures
      var window := rules.Window(delivered);
      && |window| <= |delivered| && |window| <= rules.Capacity()
      && forall i :: 0 <= i < |window| ==> window[i] == rules.KeyOf(delivered[|delivered| - |window| + i])
  {
  }

  /** The keys delivered strictly between two positions. */
  function Between(rules: Rules, delivered: seq<Fill>, p: nat, q: nat): set<FillKey>
    requires p < q <= |delivered|
  {
    Elements(rules.Keys(delivered[p + 1..q]))
  }

  /** The capacity's worth of deliveries before position q. */
  function Recent(rules: Rules, delivered: seq<Fill>, q: nat): seq<FillKey>
    requires rules.Capacity() <= q <= |delivered|
  {
    rules.Keys(delivered[q - rules.Capacity()..q])
  }

  lemma RecentIsDistinct(rules: Rules, delivered: seq<Fill>, q: nat)
    requires LocallyDistinct(rules, delivered)
    requires rules.Capacity() <= q < |delivered|
    ensures Distinct(Recent(rules, delivered, q))
    ensures rules.KeyOf(delivered[q]) !in Recent(rules, delivered, q)
  {
    var recent := Recent(rules, delivered, q);
    var start := q - rules.Capacity();
    assert forall i :: 0 <= i < |recent| ==> recent[i] == rules.KeyOf(delivered[start + i]);
  }

  lemma RecentIsBetween(rules: Rules, delivered: seq<Fill>, p: nat, q: nat)
    requires rules.Capacity() <= q < |delivered| && p + rules.Capacity() < q
    ensures Elements(Recent(rules, delivered, q)) <= Between(rules, delivered, p, q)
  {
    var recent := Recent(rules, delivered, q);
    var start := q - rules.Capacity();
    var between := rules.Keys(delivered[p + 1..q]);
    forall key | key in recent ensures key in between {
      var i :| 0 <= i < |recent| && recent[i] == key;
      assert between[start + i - p - 1] == key;
    }
  }

  /** A fill is delivered again only after at least `Capacity()` others with distinct keys. */
  lemma NoEarlyRedelivery(rules: Rules, offered: seq<Fill>, p: nat, q: nat)
    requires p < q < |rules.Delivered(offered)|
    requires rules.SameFill(rules.Delivered(offered)[p], rules.Delivered(offered)[q])
    ensures
      var delivered := rules.Delivered(offered);
      |Between(rules, delivered, p, q) - {rules.KeyOf(delivered[p])}| >= rules.Capacity()
  {
    KeyTellsApart(rules, rules.Delivered(offered)[p], rules.Delivered(offered)[q]);
    DeliveriesAreLocallyDistinct(rules, offered);
    var delivered := rules.Delivered(offered);
    RecentIsDistinct(rules, delivered, q);
    RecentIsBetween(rules, delivered, p, q);
    hide LocallyDistinct, Recent, Between, Distinct;
    DistinctSize(Recent(rules, delivered, q));
    SubsetSize(Elements(Recent(rules, delivered, q)),
               Between(rules, delivered, p, q) - {rules.KeyOf(delivered[p])});
  }

  lemma {:induction false} DeliveredWereOffered(rules: Rules, offered: seq<Fill>)
    ensures forall fill :: fill in rules.Delivered(offered) ==> fill in offered
  {
    if offered != [] {
      DeliveredWereOffered(rules, offered[..|offered| - 1]);
    }
  }

  lemma InKeys(rules: Rules, fills: seq<Fill>, fill: Fill)
    requires fill in fills
    ensures rules.KeyOf(fill) in Elements(rules.Keys(fills))
  {
    var i :| 0 <= i < |fills| && fills[i] == fill;
    assert rules.Keys(fills)[i] == rules.KeyOf(fill);
  }

  lemma FillWithKey(rules: Rules, fills: seq<Fill>, key: FillKey) returns (fill: Fill)
    requires key in Elements(rules.Keys(fills))
    ensures fill in fills && rules.KeyOf(fill) == key
  {
    var i :| 0 <= i < |rules.Keys(fills)| && rules.Keys(fills)[i] == key;
    fill := fills[i];
  }

  lemma NewKeyIsNotRemembered(rules: Rules, offered: seq<Fill>, key: FillKey)
    requires forall j :: 0 <= j < |offered| ==> rules.KeyOf(offered[j]) != key
    ensures key !in rules.Window(rules.Delivered(offered))
  {
    DeliveredWereOffered(rules, offered);
    var delivered := rules.Delivered(offered);
    InWindow(rules, delivered, key);
    forall p | 0 <= p < |delivered| ensures rules.KeyOf(delivered[p]) != key {
      assert delivered[p] in offered;
    }
  }

  /** A fill that differs from every earlier one in any of the seven parts is delivered. */
  lemma {:induction false} FirstSeenIsDelivered(rules: Rules, offered: seq<Fill>, i: nat)
    requires i < |offered|
    requires forall j :: 0 <= j < i ==> !rules.SameFill(offered[j], offered[i])
    ensures offered[i] in rules.Delivered(offered)
  {
    forall j | 0 <= j < i ensures rules.KeyOf(offered[j]) != rules.KeyOf(offered[i]) {
      KeyTellsApart(rules, offered[j], offered[i]);
    }
    NewKeyIsDelivered(rules, offered, i);
  }

  lemma {:induction false} NewKeyIsDelivered(rules: Rules, offered: seq<Fill>, i: nat)
    requires i < |offered|
    requires forall j :: 0 <= j < i ==> rules.KeyOf(offered[j]) != rules.KeyOf(offered[i])
    ensures offered[i] in rules.Delivered(offered)
  {
    hide Rules.Delivered, Rules.Window, Rules.KeyOf;
    var before, fill := offered[..i], offered[i];
    var upTo := before + [fill];
    NewKeyIsNotRemembered(rules, before, rules.KeyOf(fill));
    DeliveredPush(rules, before, fill);
    assert offered == upTo + offered[i + 1..];
    DeliveredGrows(rules, upTo, offered[i + 1..]);
    assert fill == rules.Delivered(upTo)[|rules.Delivered(upTo)| - 1];
  }

  /** With no more distinct keys than the capacity, every offered key is delivered exactly once. */
  lemma ExactlyOnceWithinCapacity(rules: Rules, offered: seq<Fill>)
    requires |Elements(rules.Keys(offered))| <= rules.Capacity()
    ensures Distinct(rules.Keys(rules.Delivered(offered)))
    ensures Elements(rules.Keys(rules.Delivered(offered))) == Elements(rules.Keys(offered))
  {
    NoRepeatWithinCapacity(rules, offered);
    DeliveredWereOffered(rules, offered);
    var delivered := rules.Delivered(offered);
    forall key | key in Elements(rules.Keys(offered)) ensures key in Elements(rules.Keys(delivered)) {
      var k :| 0 <= k < |offered| && rules.Keys(offered)[k] == key;
      var i := FirstWithKey(rules, offered, key, k);
      forall j | 0 <= j < i ensures !rules.SameFill(offered[j], offered[i]) {
        KeyTellsApart(rules, offered[j], offered[i]);
      }
      FirstSeenIsDelivered(rules, offered, i);
      InKeys(rules, delivered, offered[i]);
    }
    forall key | key in Elements(rules.Keys(delivered)) ensures key in Elements(rules.Keys(offered)) {
      var fill := FillWithKey(rules, delivered, key);
      InKeys(rules, offered, fill);
    }
  }

  lemma FirstWithKey(rules: Rules, offered: seq<Fill>, key: FillKey, k: nat) returns (i: nat)
    requires k < |offered| && rules.KeyOf(offered[k]) == key
    ensures i <= k && rules.KeyOf(offered[i]) == key
    ensures forall j :: 0 <= j < i ==> rules.KeyOf(offered[j]) != key
  {
    i := 0;
    while rules.KeyOf(offered[i]) != key
      invariant i <= k
      invariant forall j :: 0 <= j < i ==> rules.KeyOf(offered[j]) != key
      decreases k - i
    {
      i := i + 1;
    }
  }

  lemma NoRepeatWithinCapacity(rules: Rules, offered: seq<Fill>)
    requires |Elements(rules.Keys(offered))| <= rules.Capacity()
    ensures Distinct(rules.Keys(rules.Delivered(offered)))
  {
    var delivered := rules.Delivered(offered);
    DeliveredWereOffered(rules, offered);
    forall p, q | 0 <= p < q < |delivered| ensures rules.KeyOf(delivered[p]) != rules.KeyOf(delivered[q]) {
      if rules.KeyOf(delivered[p]) == rules.KeyOf(delivered[q]) {
        RepeatNeedsMoreKeys(rules, offered, p, q);
      }
    }
  }

  lemma RepeatNeedsMoreKeys(rules: Rules, offered: seq<Fill>, p: nat, q: nat)
    requires p < q < |rules.Delivered(offered)|
    requires rules.KeyOf(rules.Delivered(offered)[p]) == rules.KeyOf(rules.Delivered(offered)[q])
    ensures |Elements(rules.Keys(offered))| > rules.Capacity()
  {
    KeyTellsApart(rules, rules.Delivered(offered)[p], rules.Delivered(offered)[q]);
    NoEarlyRedelivery(rules, offered, p, q);
    DeliveredWereOffered(rules, offered);
    var delivered := rules.Delivered(offered);
    var key := rules.KeyOf(delivered[p]);
    var others := Between(rules, delivered, p, q) - {key};
    InKeys(rules, offered, delivered[p]);
    forall other | other in others ensures other in Elements(rules.Keys(offered)) {
      var fill := FillWithKey(rules, delivered[p + 1..q], other);
      assert fill in delivered;
      InKeys(rules, offered, fill);
    }
    SubsetSize(others + {key}, Elements(rules.Keys(offered)));
  }

  // ---------- the deduplicator ----------

  /** The decoded objects among the received items. */
  function Objects(items: seq<Option<Fill>>): seq<Fill> {
    if items == [] then []
    else
      var n := |items| - 1;
      Objects(items[..n]) + match items[n] case None => [] case Some(fill) => [fill]
  }

  function LatestTime(start: int, fills: seq<Fill>): int {
    if fills == [] then start
    else
      var before := LatestTime(start, fills[..|fills| - 1]);
      var time := fills[|fills| - 1].time;
      if time > before then time else before
  }

  /** Items that are not objects sort as time zero. */
  const ItemTime: Option<Fill> -> int := (item: Option<Fill>) => if item == None then 0 else item.value.time

  function MaxInt(a: int, b: int): int {
    if a < b then b else a
  }

  datatype Polling = Polling(enabled: bool, address: string, pollSetting: real, lookbackSetting: real, graceSetting: real)
  {
    function PollSeconds(): (seconds: real)
      ensures seconds >= 0.5
      ensures pollSetting >= 0.5 ==> seconds == pollSetting
      ensures pollSetting < 0.5 ==> seconds == if pollSetting == 0.0 then 5.0 else 0.5
    {
      Max(0.5, if pollSetting == 0.0 then 5.0 else pollSetting)
    }

    function LookbackSeconds(): (seconds: real)
      ensures seconds >= PollSeconds()
      ensures lookbackSetting >= PollSeconds() ==> seconds == lookbackSetting
      ensures lookbackSetting == 0.0 && PollSeconds() <= 120.0 ==> seconds == 120.0
    {
      Max(PollSeconds(), if lookbackSetting == 0.0 then 120.0 else lookbackSetting)
    }

    function OverlapMs(): (overlap: int)
      ensures overlap >= 1000
      ensures graceSetting == 0.0 ==> overlap == 3000
      ensures graceSetting >= 1.0 ==> overlap as real <= graceSetting * 1000.0 < (overlap + 1) as real
    {
      MaxInt(1000, ((if graceSetting == 0.0 then 3.0 else graceSetting) * 1000.0).Floor)
    }

    /**
      * The time span that is queried ends now. It starts at least a second before
      * the latest known fill or, when none is known, a look-back of at least one
      * poll ago; never before time zero.
      */
    function QueryWindow(now: real, lastFillTime: int): (window: (int, int))
      ensures 0 <= window.0 && 0 <= window.1
      ensures now >= 0.0 ==> window.1 as real <= now * 1000.0 < (window.1 + 1) as real
      ensures now < 0.0 ==> window.1 == 0
      ensures lastFillTime > 0 ==> window.0 <= MaxInt(0, lastFillTime - 1000)
      ensures lastFillTime > 0 && window.0 > 0 ==> lastFillTime - window.0 == OverlapMs()
      ensures lastFillTime <= 0 && window.0 > 0 ==> window.1 - window.0 == (LookbackSeconds() * 1000.0).Floor >= 500
    {
      var end := MaxInt(0, (now * 1000.0).Floor);
      (if lastFillTime > 0 then MaxInt(0, lastFillTime - OverlapMs())
       else MaxInt(0, end - (LookbackSeconds() * 1000.0).Floor),
       end)
    }

    /** Whether a poll is made at all. */
    predicate Polls(now: real, force: bool, lastBackfillAt: real)
      ensures Polls(now, force, lastBackfillAt) ==> enabled && address != ""
      ensures enabled && address != "" && force ==> Polls(now, force, lastBackfillAt)
      ensures enabled && address != "" && !force ==>
        (Polls(now, force, lastBackfillAt) <==> lastBackfillAt + PollSeconds() <= now)
    {
      enabled && (force || now - lastBackfillAt >= PollSeconds()) && address != ""
    }
  }

  /** One of the last `Capacity()` deliveries is the same fill. */
  ghost predicate SeenLately(rules: Rules, delivered: seq<Fill>, fill: Fill) {
    exists p :: 0 <= p < |delivered| && |delivered| - p <= rules.Capacity() && rules.SameFill(delivered[p], fill)
  }

  lemma SeenLatelyMeans(rules: Rules, delivered: seq<Fill>, fill: Fill)
    ensures SeenLately(rules, delivered, fill) <==> rules.KeyOf(fill) in rules.Window(delivered)
  {
    InWindow(rules, delivered, rules.KeyOf(fill));
    forall p | 0 <= p < |delivered|
      ensures rules.SameFill(delivered[p], fill) <==> rules.KeyOf(delivered[p]) == rules.KeyOf(fill)
    {
      KeyTellsApart(rules, delivered[p], fill);
    }
    hide Rules.Window, Rules.KeyOf, Rules.SameFill;
  }

  /** Polled fills are offered in the order of their times. */
  lemma {:induction false} OffersAreInTimeOrder(items: seq<Option<Fill>>)
    ensures
      var offers := Objects(Sort(ItemTime, items));
      forall i, j :: 0 <= i < j < |offers| ==> offers[i].time <= offers[j].time
  {
    SortIsStable(ItemTime, items);
    ObjectsKeepOrder(Sort(ItemTime, items));
  }

  lemma {:induction false} ObjectsKeepOrder(items: seq<Option<Fill>>)
    requires Ordered(ItemTime, items)
    ensures forall i, j :: 0 <= i < j < |Objects(items)| ==> Objects(items)[i].time <= Objects(items)[j].time
    ensures forall fill :: fill in Objects(items) <==> Some(fill) in items
  {
    if items != [] {
      var n := |items| - 1;
      ObjectsKeepOrder(items[..n]);
      assert items == items[..n] + [items[n]];
      forall fill | fill in Objects(items[..n]) && items[n].Some? ensures fill.time <= items[n].value.time {
        assert Some(fill) in items[..n];
        var k :| 0 <= k < n && items[k] == Some(fill);
        assert ItemTime(items[k]) <= ItemTime(items[n]);
      }
    }
  }

  /** Every delivery is handed over or waiting, exactly as often as it was made. */
  ghost predicate Conserved(delivered: seq<Fill>, handedOver: seq<Fill>, buffer: seq<Fill>) {
    multiset(delivered) == multiset(handedOver) + multiset(buffer)
  }

  lemma ConservedByBuffering(delivered: seq<Fill>, handedOver: seq<Fill>, buffer: seq<Fill>, fill: Fill)
    requires Conserved(delivered, handedOver, buffer)
    ensures Conserved(delivered + [fill], handedOver, buffer + [fill])
  {
  }

  lemma ConservedByHandingOver(delivered: seq<Fill>, handedOver: seq<Fill>, buffer: seq<Fill>, recovered: seq<Fill>)
    requires Conserved(delivered, handedOver, buffer)
    ensures Conserved(delivered + recovered, handedOver + recovered, buffer)
  {
  }

  lemma ConservedByDraining(delivered: seq<Fill>, handedOver: seq<Fill>, buffer: seq<Fill>)
    requires Conserved(delivered, handedOver, buffer)
    ensures Conserved(delivered, handedOver + buffer, [])
  {
  }

  lemma MoveFirst(a: seq<Fill>, b: seq<Fill>)
    requires b != []
    ensures (a + [b[0]]) + b[1..] == a + b && |b[1..]| < |b|
  {
  }

  lemma AddLast(queue: seq<FillKey>, key: FillKey)
    requires Distinct(queue) && key !in queue
    ensures Distinct(queue + [key])
    ensures Elements(queue + [key]) == Elements(queue) + {key}
  {
  }

  lemma DropFirst(queue: seq<FillKey>)
    requires Distinct(queue) && queue != []
    ensures Distinct(queue[1..])
    ensures Elements(queue[1..]) == Elements(queue) - {queue[0]}
  {
    assert queue == [queue[0]] + queue[1..];
    forall i | 0 <= i < |queue[1..]| ensures queue[1..][i] != queue[0] {
      assert queue[1..][i] == queue[i + 1];
    }
  }

  lemma ObjectsPush(items: seq<Option<Fill>>, i: nat)
    requires i < |items|
    ensures items[i] == None ==> Objects(items[..i + 1]) == Objects(items[..i])
    ensures items[i] != None ==> Objects(items[..i + 1]) == Objects(items[..i]) + [items[i].value]
  {
    assert items[..i + 1][..i] == items[..i];
  }

  class Deduplicator {
    const rules: Rules
    const polling: Polling
    var seenSet: set<FillKey>
    var seenQueue: seq<FillKey>
    var buffer: seq<Fill>
    var lastFillTime: int
    var lastBackfillAt: real
    ghost var offered: seq<Fill>
    ghost var handedOver: seq<Fill>

    ghost predicate Valid()
      reads this
    {
      Remembers(rules.Delivered(offered)) && Conserved(rules.Delivered(offered), handedOver, buffer)
    }

    /** The set and the queue hold the same keys: those of the last deliveries. */
    ghost predicate Remembers(delivered: seq<Fill>)
      reads this
    {
      && seenQueue == rules.Window(delivered)
      && seenSet == Elements(seenQueue)
    }

    constructor (rules: Rules, polling: Polling)
      ensures Valid()
      ensures this.rules == rules && this.polling == polling
      ensures offered == [] && handedOver == [] && buffer == []
    {
      this.rules := rules;
      this.polling := polling;
      seenSet, seenQueue, buffer := {}, [], [];
      lastFillTime, lastBackfillAt := 0, 0.0;
      offered, handedOver := [], [];
    }

    /** Remembers a new key, forgetting the oldest ones beyond the capacity. */
    method Remember(key: FillKey)
      requires seenSet == Elements(seenQueue) && Distinct(seenQueue)
      requires |seenQueue| <= rules.Capacity()
      modifies this`seenSet, this`seenQueue
      ensures seenSet == Elements(seenQueue)
      ensures seenQueue == if key in old(seenQueue) then old(seenQueue)
                           else TakeLast(old(seenQueue) + [key], rules.Capacity())
    {
      if key in seenSet {
        return;
      }
      AddLast(seenQueue, key);
      hide Distinct, Elements;
      seenSet := seenSet + {key};
      seenQueue := seenQueue + [key];
      ghost var all := seenQueue;
      var capacity := rules.Capacity();
      while |seenQueue| > capacity
        invariant |seenQueue| <= |all| && seenQueue == TakeLast(all, |seenQueue|)
        invariant |seenQueue| >= capacity || seenQueue == all
        invariant Distinct(seenQueue) && seenSet == Elements(seenQueue)
      {
        DropFirst(seenQueue);
        var expired := seenQueue[0];
        seenQueue := seenQueue[1..];
        seenSet := seenSet - {expired};
      }
    }

    /** Handles one offered fill; true when it is new. */
    method Admit(fill: Fill, ghost before: seq<Fill>) returns (isNew: bool)
      requires Remembers(rules.Delivered(before))
      modifies this`seenSet, this`seenQueue
      ensures Remembers(rules.Delivered(before + [fill]))
      ensures rules.Delivered(before + [fill]) ==
        if isNew then rules.Delivered(before) + [fill] else rules.Delivered(before)
      ensures isNew <==> !SeenLately(rules, rules.Delivered(before), fill)
    {
      SeenLatelyMeans(rules, rules.Delivered(before), fill);
      DeliveredPush(rules, before, fill);
      WindowPush(rules, rules.Delivered(before), fill);
      WindowIsBounded(rules, before);
      var key := rules.KeyOf(fill);
      hide Distinct, TakeLast, SeenLately;
      isNew := key !in seenSet;
      if isNew {
        Remember(key);
      }
    }

    /** A websocket batch: every new fill joins the buffer, in order. */
    method OnMessage(items: seq<Option<Fill>>)
      requires Valid()
      modifies this`seenSet, this`seenQueue, this`buffer, this`lastFillTime, this`offered
      ensures Valid()
      ensures offered == old(offered) + Objects(items)
      ensures old(buffer) <= buffer
      ensures rules.Delivered(offered) == rules.Delivered(old(offered)) + buffer[|old(buffer)|..]
      ensures lastFillTime == LatestTime(old(lastFillTime), Objects(items))
    {
      hide Objects, LatestTime, Rules.Delivered, Rules.Window, Rules.KeyOf, Conserved;
      ghost var start, added := offered, [];
      NoObjects(old(lastFillTime));
      assert items[..0] == [];
      for i := 0 to |items|
        invariant offered == start + Objects(items[..i])
        invariant Valid()
        invariant buffer == old(buffer) + added
        invariant rules.Delivered(offered) == rules.Delivered(start) + added
        invariant lastFillTime == LatestTime(old(lastFillTime), Objects(items[..i]))
      {
        ObjectsPush(items, i);
        match items[i] {
          case None =>
          case Some(fill) =>
            LatestTimePush(old(lastFillTime), Objects(items[..i]), fill);
            ConservedByBuffering(rules.Delivered(offered), handedOver, buffer, fill);
            if fill.time > lastFillTime {
              lastFillTime := fill.time;
            }
            var isNew := Admit(fill, offered);
            offered := offered + [fill];
            if isNew {
              buffer := buffer + [fill];
              added := added + [fill];
            }
        }
      }
      assert items[..|items|] == items;
    }

    /** Hands over everything in the buffer. */
    method Drain() returns (events: seq<Fill>)
      requires Valid()
      modifies this`buffer, this`handedOver
      ensures Valid()
      ensures events == old(buffer) && buffer == []
      ensures handedOver == old(handedOver) + events
    {
      hide Rules.Delivered, Rules.Window, Conserved;
      ConservedByDraining(rules.Delivered(offered), handedOver, buffer);
      events := [];
      while buffer != []
        invariant events + buffer == old(buffer) && handedOver == old(handedOver)
        decreases |buffer|
      {
        MoveFirst(events, buffer);
        events := events + [buffer[0]];
        buffer := buffer[1..];
      }
      assert events + [] == events;
      handedOver := handedOver + events;
    }

    /** The fills a poll offers. */
    ghost function Offers(now: real, force: bool, fetch: (int, int) -> Option<seq<Option<Fill>>>): seq<Fill>
      reads this
    {
      var window := polling.QueryWindow(now, lastFillTime);
      if polling.Polls(now, force, lastBackfillAt) && fetch(window.0, window.1).Some?
      then Objects(Sort(ItemTime, fetch(window.0, window.1).value)) else []
    }

    /** Polls for missed fills and hands over the new ones at once, in order of time. */
    method Backfill(now: real, force: bool, fetch: (int, int) -> Option<seq<Option<Fill>>>) returns (recovered: seq<Fill>)
      requires Valid()
      modifies this`seenSet, this`seenQueue, this`lastFillTime, this`lastBackfillAt, this`offered, this`handedOver
      ensures Valid()
      ensures offered == old(offered) + old(Offers(now, force, fetch))
      ensures rules.Delivered(offered) == rules.Delivered(old(offered)) + recovered
      ensures handedOver == old(handedOver) + recovered
      ensures lastFillTime == LatestTime(old(lastFillTime), old(Offers(now, force, fetch)))
      ensures lastBackfillAt == if polling.Polls(now, force, old(lastBackfillAt)) then now else old(lastBackfillAt)
    {
      hide Objects, LatestTime, Rules.Delivered, Rules.Window, Conserved, Sort, Polling.QueryWindow;
      recovered := [];
      NoObjects(lastFillTime);
      assert offered + [] == offered;
      if !polling.enabled || (!force && now - lastBackfillAt < polling.PollSeconds()) || polling.address == "" {
        return;
      }
      var window := polling.QueryWindow(now, lastFillTime);
      lastBackfillAt := now;
      var reply := fetch(window.0, window.1);
      if reply == None {
        return;
      }
      ConservedBefore();
      ghost var before := rules.Delivered(offered);
      recovered := Recover(Sort(ItemTime, reply.value));
      ConservedByHandingOver(before, handedOver, buffer, recovered);
      handedOver := handedOver + recovered;
    }

    lemma ConservedBefore()
      requires Valid()
      ensures Conserved(rules.Delivered(offered), handedOver, buffer)
    {
    }

    method Recover(items: seq<Option<Fill>>) returns (recovered: seq<Fill>)
      requires Remembers(rules.Delivered(offered))
      modifies this`seenSet, this`seenQueue, this`lastFillTime, this`offered
      ensures offered == old(offered) + Objects(items)
      ensures Remembers(rules.Delivered(offered))
      ensures rules.Delivered(offered) == rules.Delivered(old(offered)) + recovered
      ensures lastFillTime == LatestTime(old(lastFillTime), Objects(items))
    {
      hide Objects, LatestTime, Rules.Delivered, Rules.Window, Rules.KeyOf;
      recovered := [];
      var latest := lastFillTime;
      NoObjects(lastFillTime);
      ghost var start := offered;
      assert items[..0] == [];
      for i := 0 to |items|
        invariant offered == start + Objects(items[..i])
        invariant Remembers(rules.Delivered(offered))
        invariant rules.Delivered(offered) == rules.Delivered(start) + recovered
        invariant lastFillTime == old(lastFillTime)
        invariant latest == LatestTime(lastFillTime, Objects(items[..i]))
      {
        ObjectsPush(items, i);
        match items[i] {
          case None =>
          case Some(fill) =>
            LatestTimePush(lastFillTime, Objects(items[..i]), fill);
            if fill.time > latest {
              latest := fill.time;
            }
            var isNew := Admit(fill, offered);
            offered := offered + [fill];
            if isNew {
              recovered := recovered + [fill];
            }
        }
      }
      assert items[..|items|] == items;
      LatestTimeGrows(lastFillTime, Objects(items));
      if latest > lastFillTime {
        lastFillTime := latest;
      }
    }
  }

  lemma NoObjects(start: int)
    ensures Objects([]) == [] && LatestTime(start, []) == start
  {
  }

  lemma LatestTimePush(start: int, fills: seq<Fill>, fill: Fill)
    ensures LatestTime(start, fills + [fill]) ==
      if fill.time > LatestTime(start, fills) then fill.time else LatestTime(start, fills)
  {
    assert (fills + [fill])[..|fills|] == fills;
  }

  lemma {:induction false} LatestTimeGrows(start: int, fills: seq<Fill>)
    ensures LatestTime(start, fills) >= start
  {
    if fills != [] {
      LatestTimeGrows(start, fills[..|fills| - 1]);
    }
  }
}
