// The passive context loader: the last materially new events of an append-only log.
module RecentEvents {
  import opened Options
  import opened Sequences
  import opened ReverseReader
  import opened Texts

  // ---------- one event reference ----------

  /** A decoded list element; the fields of an object are texts, absent ones empty. */
  datatype Item =
    | NotAnObject
    | Fields(eventTimestamp: string, publishedAt: string, seenAt: string,
             source: string, title: string, url: string, itemId: string)

  datatype Event = Event(timestamp: string, source: string, title: string, url: string, itemId: string)

  datatype EventKey = EventKey(itemId: string, url: string, title: string, timestamp: string)

  /** The first non-empty time wins before it is stripped, so a blank one is not replaced. */
  function Sanitize(item: Item): (event: Option<Event>) {
    match item
    case NotAnObject => None
    case Fields(eventTimestamp, publishedAt, seenAt, source, title, url, itemId) =>
      var time := Strip(if eventTimestamp != "" then eventTimestamp
                        else if publishedAt != "" then publishedAt else seenAt);
      if time == "" || Strip(source) == "" || Strip(title) == "" then None
      else Some(Event(time, Strip(source), Strip(title), Strip(url), Strip(itemId)))
  }

  function KeyOf(event: Event): EventKey {
    EventKey(event.itemId, event.url, event.title, event.timestamp)
  }

  /** Two events share a key exactly when item id, url, title and time all agree. */
  lemma KeyTellsApart(a: Event, b: Event)
    ensures KeyOf(a) == KeyOf(b) <==>
      a.itemId == b.itemId && a.url == b.url && a.title == b.title && a.timestamp == b.timestamp
  {
  }

  /** An item is usable exactly when it is an object with source, title and a time that are not blank. */
  lemma UsableExactly(item: Item)
    ensures Sanitize(item).Some? <==>
      && item.Fields? && !Blank(item.source) && !Blank(item.title)
      && !Blank(if item.eventTimestamp == "" then (if item.publishedAt == "" then item.seenAt else item.publishedAt)
                else item.eventTimestamp)
    ensures Sanitize(item).Some? ==>
      var event := Sanitize(item).value;
      && event.source == Strip(item.source) && event.title == Strip(item.title)
      && event.url == Strip(item.url) && event.itemId == Strip(item.itemId)
      && event.timestamp == Strip(if item.eventTimestamp == "" then
                                    (if item.publishedAt == "" then item.seenAt else item.publishedAt)
                                  else item.eventTimestamp)
  {
    if item.Fields? {
      BlankStrips(item.source);
      BlankStrips(item.title);
      BlankStrips(if item.eventTimestamp == "" then (if item.publishedAt == "" then item.seenAt else item.publishedAt)
                  else item.eventTimestamp);
    }
    hide Strip, Blank;
  }

  /** The usable events among the items, duplicates included. */
  function Usable(items: seq<Item>): seq<Event> {
    if items == [] then []
    else
      var rest := Usable(items[..|items| - 1]);
      match Sanitize(items[|items| - 1])
      case None => rest
      case Some(event) => rest + [event]
  }

  /** An event is kept unless an earlier one carries its key. */
  function Kept(events: seq<Event>): (kept: seq<Event>) {
    if events == [] then []
    else
      var n := |events| - 1;
      if forall j :: 0 <= j < n ==> KeyOf(events[j]) != KeyOf(events[n])
      then Kept(events[..n]) + [events[n]]
      else Kept(events[..n])
  }

  lemma {:induction false} KeptKeepsKeys(events: seq<Event>)
    ensures KeySet(KeyOf, Kept(events)) == KeySet(KeyOf, events)
  {
    if events != [] {
      var n := |events| - 1;
      KeptKeepsKeys(events[..n]);
      assert events == events[..n] + [events[n]];
      KeysExtend(KeyOf, events[..n], events[n]);
      KeysExtend(KeyOf, Kept(events[..n]), events[n]);
    }
  }

  /** Every key survives exactly once, and deduplicating again changes nothing. */
  lemma {:induction false} KeptOncePerKey(events: seq<Event>)
    ensures KeySet(KeyOf, Kept(events)) == KeySet(KeyOf, events)
    ensures DistinctKeys(KeyOf, Kept(events))
    ensures Kept(Kept(events)) == Kept(events)
  {
    KeptKeepsKeys(events);
    KeptDistinct(events);
    KeptOfDistinct(Kept(events));
  }

  lemma {:induction false} KeptDistinct(events: seq<Event>)
    ensures DistinctKeys(KeyOf, Kept(events))
  {
    if events != [] {
      var n := |events| - 1;
      KeptDistinct(events[..n]);
      KeptKeepsKeys(events[..n]);
      var before := Kept(events[..n]);
      if forall j :: 0 <= j < n ==> KeyOf(events[j]) != KeyOf(events[n]) {
        forall i | 0 <= i < |before| ensures KeyOf(before[i]) != KeyOf(events[n]) {
          assert KeyOf(before[i]) in KeySet(KeyOf, before);
        }
      }
    }
  }

  lemma {:induction false} KeptOfDistinct(events: seq<Event>)
    requires DistinctKeys(KeyOf, events)
    ensures Kept(events) == events
  {
    if events != [] {
      var n := |events| - 1;
      KeptOfDistinct(events[..n]);
      assert events == events[..n] + [events[n]];
    }
  }

  /** The positions, in increasing order, are those of first occurrences. */
  ghost predicate Firsts(events: seq<Event>, at: seq<nat>) {
    && (forall k :: 0 <= k < |at| ==> at[k] < |events|)
    && (forall k, l :: 0 <= k < l < |at| ==> at[k] < at[l])
    && (forall k :: 0 <= k < |at| ==> FirstWithKey(events, at[k]))
  }

  ghost predicate FirstWithKey(events: seq<Event>, n: nat) {
    n < |events| && forall j :: 0 <= j < n ==> KeyOf(events[j]) != KeyOf(events[n])
  }

  lemma FirstsExtend(events: seq<Event>, at: seq<nat>)
    requires events != [] && Firsts(events[..|events| - 1], at)
    ensures Firsts(events, at)
    ensures FirstWithKey(events, |events| - 1) ==> Firsts(events, at + [|events| - 1])
  {
    var n := |events| - 1;
    forall k | 0 <= k < |at| ensures FirstWithKey(events, at[k]) {
      assert FirstWithKey(events[..n], at[k]);
    }
  }

  lemma KeptStep(events: seq<Event>)
    requires events != []
    ensures
      var n := |events| - 1;
      Kept(events) == Kept(events[..n]) + if FirstWithKey(events, n) then [events[n]] else []
  {
  }

  /** The kept events are the first occurrences, in their original order. */
  lemma {:induction false} KeptAreFirst(events: seq<Event>) returns (at: seq<nat>)
    ensures Firsts(events, at)
    ensures |at| == |Kept(events)|
    ensures forall k :: 0 <= k < |at| ==> Kept(events)[k] == events[at[k]]
  {
    at := [];
    if events != [] {
      var n := |events| - 1;
      at := KeptAreFirst(events[..n]);
      KeptStep(events);
      FirstsExtend(events, at);
      hide Kept, FirstWithKey;
      if FirstWithKey(events, n) {
        at := at + [n];
      }
    }
  }

  /** Sanitises and deduplicates the items of one record. */
  method Normalize(items: seq<Item>) returns (events: seq<Event>)
    ensures events == Kept(Usable(items))
  {
    events := [];
    var seen: set<EventKey> := {};
    assert items[..0] == [];
    for i := 0 to |items|
      invariant events == Kept(Usable(items[..i]))
      invariant seen == KeySet(KeyOf, Usable(items[..i]))
    {
      var usable := Usable(items[..i]);
      assert items[..i + 1][..i] == items[..i];
      match Sanitize(items[i]) {
        case None =>
        case Some(event) =>
          KeysExtend(KeyOf, usable, event);
          KeptExtend(usable, event);
          if KeyOf(event) !in seen {
            seen := seen + {KeyOf(event)};
            events := events + [event];
          }
      }
    }
    assert items[..|items|] == items;
  }

  lemma KeptExtend(events: seq<Event>, event: Event)
    ensures Kept(events + [event]) ==
      if KeyOf(event) in KeySet(KeyOf, events) then Kept(events) else Kept(events) + [event]
  {
    var all := events + [event];
    assert all[..|events|] == events && all[|events|] == event;
    assert forall j :: 0 <= j < |events| ==> all[j] == events[j];
  }

  // ---------- the log ----------

  /** What decoding one line gives. */
  datatype Payload =
    | Undecodable
    | OtherJson
    | Record(items: seq<Item>)

  type Decoder = Line -> Payload

  /** What the model is shown of an event: only its title survives the clean-up. */
  function Shown(events: seq<Event>): (titles: seq<string>)
    ensures |titles| == |events| && forall i :: 0 <= i < |events| ==> titles[i] == events[i].title
  {
    seq(|events|, i requires 0 <= i < |events| => events[i].title)
  }

  function EventsOf(decode: Decoder, line: Line): seq<string> {
    match decode(line)
    case Record(items) => Shown(Kept(Usable(items)))
    case _ => []
  }

  /** The events of all records, in file order. */
  function AllEvents(decode: Decoder, lines: seq<Line>): seq<string> {
    if lines == [] then [] else EventsOf(decode, lines[0]) + AllEvents(decode, lines[1..])
  }

  lemma {:induction false} AllEventsAppend(decode: Decoder, a: seq<Line>, b: seq<Line>)
    ensures AllEvents(decode, a + b) == AllEvents(decode, a) + AllEvents(decode, b)
  {
    if a == [] {
      assert a + b == b;
    } else {
      assert (a + b)[1..] == a[1..] + b;
      AllEventsAppend(decode, a[1..], b);
    }
  }

  lemma AllEventsCons(decode: Decoder, line: Line, rest: seq<Line>)
    ensures AllEvents(decode, [line] + rest) == EventsOf(decode, line) + AllEvents(decode, rest)
  {
    assert ([line] + rest)[1..] == rest;
  }

  /** Once enough events are collected from the end, earlier lines cannot matter. */
  lemma {:induction false} EnoughCollected(decode: Decoder, newestFirst: seq<Line>, i: nat, selected: seq<string>, limit: nat)
    requires i <= |newestFirst|
    requires selected == TakeLast(AllEvents(decode, Reverse(newestFirst[..i])), limit)
    requires |selected| == limit || i == |newestFirst|
    ensures selected == TakeLast(AllEvents(decode, Reverse(newestFirst)), limit)
  {
    if i == |newestFirst| {
      assert newestFirst[..i] == newestFirst;
    } else {
      NewerLinesAreTheEnd(decode, newestFirst, i);
      hide AllEvents, EventsOf, Reverse;
      TakeLastOfConcat(AllEvents(decode, Reverse(newestFirst[i..])),
                       AllEvents(decode, Reverse(newestFirst[..i])), limit);
    }
  }

  lemma {:induction false} NewerLinesAreTheEnd(decode: Decoder, newestFirst: seq<Line>, i: nat)
    requires i <= |newestFirst|
    ensures AllEvents(decode, Reverse(newestFirst)) ==
      AllEvents(decode, Reverse(newestFirst[i..])) + AllEvents(decode, Reverse(newestFirst[..i]))
  {
    hide AllEvents, EventsOf, Reverse;
    assert newestFirst[..i] + newestFirst[i..] == newestFirst;
    ReverseAppend(newestFirst[..i], newestFirst[i..]);
    AllEventsAppend(decode, Reverse(newestFirst[i..]), Reverse(newestFirst[..i]));
  }

  /** One more line, read backwards, puts its events in front. */
  lemma {:induction false} OneMoreLine(decode: Decoder, newestFirst: seq<Line>, i: nat)
    requires i < |newestFirst|
    ensures AllEvents(decode, Reverse(newestFirst[..i + 1])) ==
      EventsOf(decode, newestFirst[i]) + AllEvents(decode, Reverse(newestFirst[..i]))
  {
    assert newestFirst[..i + 1] == newestFirst[..i] + [newestFirst[i]];
    ReverseAppend(newestFirst[..i], [newestFirst[i]]);
    assert Reverse([newestFirst[i]]) == [newestFirst[i]];
    AllEventsCons(decode, newestFirst[i], Reverse(newestFirst[..i]));
  }

  /** The last `limit` events of the log, reading no more of it than needed. */
  method LoadRecent(decode: Decoder, symbol: string, limit: int, log: Option<seq<Byte>>)
    returns (selected: seq<string>)
    ensures Strip(symbol) == "" || limit <= 0 || log == None ==> selected == []
    ensures Strip(symbol) != "" && limit > 0 && log != None ==>
      selected == TakeLast(AllEvents(decode, Lines(log.value)), limit)
  {
    hide EventsOf, AllEvents, Reverse, Lines, Strip;
    selected := [];
    if Strip(symbol) == "" || limit <= 0 || log == None {
      return;
    }
    var newestFirst := ReadReverse(log.value, DEFAULT_CHUNK);
    ReverseTwice(Lines(log.value));
    assert newestFirst[..0] == [];
    NothingRead(decode);
    var i := 0;
    while i < |newestFirst| && |selected| < limit
      invariant 0 <= i <= |newestFirst|
      invariant selected == TakeLast(AllEvents(decode, Reverse(newestFirst[..i])), limit)
    {
      hide TakeLast;
      var events := ReadRecord(decode, newestFirst[i]);
      PrependRecord(decode, newestFirst, i, selected, limit);
      var remaining := limit - |selected|;
      selected := TakeLast(events, remaining) + selected;
      i := i + 1;
    }
    hide TakeLast;
    EnoughCollected(decode, newestFirst, i, selected, limit);
  }

  lemma {:induction false} PrependRecord(decode: Decoder, newestFirst: seq<Line>, i: nat, selected: seq<string>, limit: nat)
    requires i < |newestFirst| && |selected| < limit
    requires selected == TakeLast(AllEvents(decode, Reverse(newestFirst[..i])), limit)
    ensures TakeLast(EventsOf(decode, newestFirst[i]), limit - |selected|) + selected
      == TakeLast(AllEvents(decode, Reverse(newestFirst[..i + 1])), limit)
  {
    OneMoreLine(decode, newestFirst, i);
    hide AllEvents, EventsOf, Reverse;
    PrependToTail(EventsOf(decode, newestFirst[i]), AllEvents(decode, Reverse(newestFirst[..i])), limit);
  }

  lemma PrependToTail(events: seq<string>, later: seq<string>, limit: nat)
    requires |TakeLast(later, limit)| < limit
    ensures TakeLast(events, limit - |TakeLast(later, limit)|) + TakeLast(later, limit) == TakeLast(events + later, limit)
  {
    TakeLastOfConcat(events, later, limit);
  }

  lemma NothingRead(decode: Decoder)
    ensures AllEvents(decode, Reverse([])) == []
  {
  }

  method ReadRecord(decode: Decoder, line: Line) returns (events: seq<string>)
    ensures events == EventsOf(decode, line)
  {
    match decode(line) {
      case Undecodable => events := [];
      case OtherJson => events := [];
      case Record(items) =>
        var normalized := Normalize(items);
        events := Shown(normalized);
    }
  }
}
