// Event records: the time a record settles on and the key that identifies it.
module EventRecords {
  import opened Options
  import opened Texts

  /** Seconds since the epoch. */
  type Instant = int

  /**
    * An event as decoded from text; absent fields are empty. `otherTimes` are
    * the remaining time fields in their order of preference, `rawTimes` those of
    * the nested original.
    */
  datatype PassiveEvent = PassiveEvent(
    source: string, itemId: string, url: string, title: string,
    publishedAt: string, eventTimestamp: string, otherTimes: seq<string>,
    seenAt: string, rawTimes: seq<string>)

  /** Reading and writing times as text. */
  datatype TimeFormat = TimeFormat(parse: string -> Option<Instant>, render: Instant -> string)
  {
    /** A rendered time reads back as a time that renders the same; whole seconds are kept. */
    ghost predicate Faithful() {
      forall t: Instant :: parse(render(t)).Some? && render(parse(render(t)).value) == render(t)
                           && render(t) != "" && Stripped(render(t))
    }
  }

  function FirstTime(format: TimeFormat, texts: seq<string>): (r: Option<Instant>)
    ensures r == None <==> forall i :: 0 <= i < |texts| ==> format.parse(texts[i]) == None
    ensures r != None ==> exists i :: 0 <= i < |texts| && FirstReadable(format, texts, i) && r == format.parse(texts[i])
  {
    if texts == [] then None
    else if format.parse(texts[0]) != None then
      assert FirstReadable(format, texts, 0);
      format.parse(texts[0])
    else
      var found := FirstTime(format, texts[1..]);
      assert forall i :: 0 <= i < |texts[1..]| && FirstReadable(format, texts[1..], i) ==> FirstReadable(format, texts, i + 1);
      found
  }

  /** Text i can be read as a time and no earlier one can. */
  predicate FirstReadable(format: TimeFormat, texts: seq<string>, i: nat)
    requires i < |texts|
  {
    format.parse(texts[i]) != None && forall j :: 0 <= j < i ==> format.parse(texts[j]) == None
  }

  /** The time fields in the order in which they are tried. */
  function TimeFields(event: PassiveEvent): seq<string> {
    [event.publishedAt, event.eventTimestamp] + event.otherTimes + [event.seenAt] + event.rawTimes
  }

  function SeenAt(event: PassiveEvent, now: string): string {
    Strip(if event.seenAt != "" then event.seenAt else now)
  }

  /** The record that is kept: seen time filled in, event time rewritten when one can be read. */
  function Normalize(format: TimeFormat, event: PassiveEvent, now: string): PassiveEvent {
    var seen := event.(seenAt := SeenAt(event, now));
    match FirstTime(format, TimeFields(seen))
    case Some(t) => seen.(eventTimestamp := format.render(t))
    case None => if seen.eventTimestamp != "" then seen else seen.(eventTimestamp := seen.seenAt)
  }

  /** Identifies an event: source and item id, else source and url, else source, title and time. */
  function KeyOf(event: PassiveEvent): string {
    var source := Strip(event.source);
    if Identified(event) then
      source + ":" + (if Strip(event.itemId) != "" then Strip(event.itemId) else Strip(event.url))
    else
      var time := KeyTime(event);
      if source != "" || Strip(event.title) != "" || time != ""
      then source + ":" + Strip(event.title) + ":" + time
      else ""
  }

  function KeyTime(event: PassiveEvent): string {
    Strip(if event.eventTimestamp != "" then event.eventTimestamp
          else if event.publishedAt != "" then event.publishedAt else event.seenAt)
  }

  /** The key does not depend on any time. */
  predicate Identified(event: PassiveEvent) {
    Strip(event.source) != "" && (Strip(event.itemId) != "" || Strip(event.url) != "")
  }

  /** Some time field can be read, or the seen time holds more than white space. */
  predicate Settled(format: TimeFormat, event: PassiveEvent, now: string) {
    SeenAt(event, now) != "" ||
    FirstTime(format, TimeFields(event.(seenAt := SeenAt(event, now)))).Some?
  }

  lemma {:induction false} FirstTimeSplit(format: TimeFormat, a: seq<string>, b: seq<string>)
    ensures FirstTime(format, a + b) ==
      if FirstTime(format, a).Some? then FirstTime(format, a) else FirstTime(format, b)
  {
    if a == [] {
      assert a + b == b;
    } else {
      assert (a + b)[1..] == a[1..] + b;
      FirstTimeSplit(format, a[1..], b);
    }
  }

  /** Rewriting the event time to the one found keeps the time that is found. */
  lemma FoundTimeIsStable(format: TimeFormat, event: PassiveEvent, later: string)
    requires format.Faithful()
    requires FirstTime(format, TimeFields(event)).Some?
    ensures
      var t := FirstTime(format, TimeFields(event)).value;
      var again := FirstTime(format, TimeFields(event.(eventTimestamp := format.render(t), seenAt := later)));
      again.Some? && format.render(again.value) == format.render(t)
  {
    var t := FirstTime(format, TimeFields(event)).value;
    var rewritten := event.(eventTimestamp := format.render(t), seenAt := later);
    Published(format, event);
    Published(format, rewritten);
    if format.parse(event.publishedAt) == None {
      assert rewritten.eventTimestamp == format.render(t);
    }
  }

  lemma Published(format: TimeFormat, event: PassiveEvent)
    ensures format.parse(event.publishedAt).Some? ==>
      FirstTime(format, TimeFields(event)) == format.parse(event.publishedAt)
    ensures format.parse(event.publishedAt) == None && format.parse(event.eventTimestamp).Some? ==>
      FirstTime(format, TimeFields(event)) == format.parse(event.eventTimestamp)
  {
    var fields := TimeFields(event);
    assert fields[0] == event.publishedAt && fields[1..][0] == event.eventTimestamp;
  }

  /**
    * Normalising a record again, as reloading it from the log does, keeps its
    * key when the record had settled or its key needs no time.
    */
  lemma ReloadKeepsKey(format: TimeFormat, event: PassiveEvent, now: string, later: string)
    requires format.Faithful()
    requires Settled(format, event, now) || Identified(event)
    ensures KeyOf(Normalize(format, Normalize(format, event, now), later)) == KeyOf(Normalize(format, event, now))
  {
    if !Identified(event) {
      ReloadKeepsTime(format, event, now, later);
    }
  }

  lemma ReloadKeepsTime(format: TimeFormat, event: PassiveEvent, now: string, later: string)
    requires format.Faithful() && Settled(format, event, now)
    ensures
      var record := Normalize(format, event, now);
      Normalize(format, record, later).eventTimestamp == record.eventTimestamp != ""
  {
    var seen := event.(seenAt := SeenAt(event, now));
    var record := Normalize(format, event, now);
    var found := FirstTime(format, TimeFields(seen));
    if found.Some? {
      FoundTimeIsStable(format, seen, SeenAt(record, later));
    } else {
      assert SeenAt(record, later) == record.seenAt;
      var fields := TimeFields(seen);
      assert fields[1] == seen.eventTimestamp;
      assert fields[2 + |seen.otherTimes|] == seen.seenAt;
      NothingToRead(format, seen, record.eventTimestamp);
    }
  }

  lemma NothingToRead(format: TimeFormat, seen: PassiveEvent, time: string)
    requires FirstTime(format, TimeFields(seen)) == None
    requires format.parse(time) == None
    ensures FirstTime(format, TimeFields(seen.(eventTimestamp := time))) == None
  {
    var a := [seen.publishedAt];
    var b := seen.otherTimes + [seen.seenAt] + seen.rawTimes;
    assert TimeFields(seen) == a + ([seen.eventTimestamp] + b);
    assert TimeFields(seen.(eventTimestamp := time)) == a + ([time] + b);
    hide TimeFields, FirstTime;
    ReplaceUnreadable(format, a, seen.eventTimestamp, time, b);
  }

  /** Replacing one text by another that cannot be read either leaves nothing to read. */
  lemma {:induction false} ReplaceUnreadable(format: TimeFormat, a: seq<string>, x: string, y: string, b: seq<string>)
    requires FirstTime(format, a + ([x] + b)) == None && format.parse(y) == None
    ensures FirstTime(format, a + ([y] + b)) == None
  {
    var before, after := a + ([x] + b), a + ([y] + b);
    forall i | 0 <= i < |after| ensures format.parse(after[i]) == None {
      if i != |a| {
        assert after[i] == before[i];
      }
    }
    hide FirstReadable;
  }

  /**
    * The condition is exact. A record whose seen time is only white space and
    * none of whose times can be read takes the reload's clock as its time, so
    * its key survives only a reload whose clock renders as the time it already had.
    */
  lemma {:induction false} UnsettledKeyFollowsTheClock(format: TimeFormat, event: PassiveEvent, now: string, later: string)
    requires format.Faithful()
    requires !Settled(format, event, now) && !Identified(event)
    requires format.parse(Strip(later)).Some? && later != ""
    ensures
      var record := Normalize(format, event, now);
      var reloaded := Normalize(format, record, later);
      KeyOf(reloaded) == KeyOf(record)
      <==> KeyTime(record) == format.render(format.parse(Strip(later)).value)
  {
    var record := event.(seenAt := "");
    var reread := record.(seenAt := Strip(later));
    OnlySeenTimeReads(format, record, Strip(later));
    var time := format.render(format.parse(Strip(later)).value);
    assert Normalize(format, event, now) == record;
    assert Normalize(format, record, later) == reread.(eventTimestamp := time);
    var prefix := Strip(record.source) + ":" + Strip(record.title) + ":";
    assert KeyOf(reread.(eventTimestamp := time)) == prefix + time;
    if KeyOf(record) != "" {
      assert KeyOf(record) == prefix + KeyTime(record);
      assert (prefix + time)[|prefix|..] == time;
      assert (prefix + KeyTime(record))[|prefix|..] == KeyTime(record);
    }
  }

  lemma {:induction false} OnlySeenTimeReads(format: TimeFormat, record: PassiveEvent, seenAt: string)
    requires FirstTime(format, TimeFields(record)) == None
    requires format.parse(seenAt).Some?
    ensures FirstTime(format, TimeFields(record.(seenAt := seenAt))) == format.parse(seenAt)
  {
    var a := [record.publishedAt, record.eventTimestamp] + record.otherTimes;
    assert TimeFields(record) == a + ([record.seenAt] + record.rawTimes);
    assert TimeFields(record.(seenAt := seenAt)) == a + ([seenAt] + record.rawTimes);
    FirstTimeSplit(format, a, [record.seenAt] + record.rawTimes);
    FirstTimeSplit(format, a, [seenAt] + record.rawTimes);
  }

  // ---------- what keys and times are ----------

  /** The stripped identifier that counts: the item id, or the url when there is none. */
  predicate IsIdOf(event: PassiveEvent, id: string) {
    id == if Strip(event.itemId) == "" then Strip(event.url) else Strip(event.itemId)
  }

  predicate HasId(event: PassiveEvent) {
    Strip(event.source) != "" && !(Strip(event.itemId) == "" && Strip(event.url) == "")
  }

  lemma AppendCancels(prefix: string, a: string, b: string)
    ensures prefix + a == prefix + b <==> a == b
  {
    assert (prefix + a)[|prefix|..] == a && (prefix + b)[|prefix|..] == b;
  }

  /**
    * Two events of one source with identifiers share a key exactly when the
    * identifiers agree; two without, exactly when title and time together
    * agree; and only an event without source, title and time has no key.
    */
  lemma KeysTellEventsApart(a: PassiveEvent, b: PassiveEvent, idA: string, idB: string)
    requires Strip(a.source) == Strip(b.source) && IsIdOf(a, idA) && IsIdOf(b, idB)
    ensures HasId(a) && HasId(b) ==> (KeyOf(a) == KeyOf(b) <==> idA == idB)
    ensures !HasId(a) && !HasId(b) && KeyOf(a) != "" && KeyOf(b) != "" ==>
      (KeyOf(a) == KeyOf(b) <==> Strip(a.title) + ":" + RecordTime(a) == Strip(b.title) + ":" + RecordTime(b))
    ensures KeyOf(a) == "" <==> Strip(a.source) == "" && Strip(a.title) == "" && RecordTime(a) == ""
  {
    var prefix := Strip(a.source) + ":";
    KeyIs(a, idA);
    KeyIs(b, idB);
    AppendCancels(prefix, idA, idB);
    AppendCancels(prefix, Strip(a.title) + ":" + RecordTime(a), Strip(b.title) + ":" + RecordTime(b));
    hide Strip, RecordTime, KeyOf, HasId;
  }

  lemma KeyIs(event: PassiveEvent, id: string)
    requires IsIdOf(event, id)
    ensures HasId(event) ==> KeyOf(event) == Strip(event.source) + ":" + id && Strip(event.source) != ""
    ensures !HasId(event) ==>
      KeyOf(event) == if Strip(event.source) == "" && Strip(event.title) == "" && RecordTime(event) == "" then ""
                      else Strip(event.source) + ":" + (Strip(event.title) + ":" + RecordTime(event))
  {
    assert KeyTime(event) == RecordTime(event);
    hide Strip, KeyTime, RecordTime;
    KeyJoins(Strip(event.source), Strip(event.title), RecordTime(event));
  }

  lemma KeyJoins(source: string, title: string, time: string)
    ensures source + ":" + title + ":" + time == source + ":" + (title + ":" + time)
  {
  }

  /** The first non-empty one of event time, publication time and seen time, stripped. */
  function RecordTime(event: PassiveEvent): string {
    if event.eventTimestamp == "" && event.publishedAt == "" then Strip(event.seenAt)
    else if event.eventTimestamp == "" then Strip(event.publishedAt)
    else Strip(event.eventTimestamp)
  }

  /** The seen time is filled in and stripped; the first readable time is written out; without one an event time stays, or the seen time serves. */
  lemma NormalizedExactly(format: TimeFormat, event: PassiveEvent, now: string)
    ensures
      var record := Normalize(format, event, now);
      var seenAt := if event.seenAt == "" then Strip(now) else Strip(event.seenAt);
      var texts := [event.publishedAt, event.eventTimestamp] + event.otherTimes + [seenAt] + event.rawTimes;
      && record == event.(seenAt := seenAt, eventTimestamp := record.eventTimestamp)
      && (forall i :: 0 <= i < |texts| && FirstReadable(format, texts, i) ==>
            record.eventTimestamp == format.render(format.parse(texts[i]).value))
      && ((forall i :: 0 <= i < |texts| ==> format.parse(texts[i]) == None) ==>
            record.eventTimestamp == if event.eventTimestamp == "" then seenAt else event.eventTimestamp)
  {
    var seen := event.(seenAt := SeenAt(event, now));
    var texts := TimeFields(seen);
    forall i | 0 <= i < |texts| && FirstReadable(format, texts, i) ensures FirstTime(format, texts) == format.parse(texts[i]) {
      FirstReadableIsUnique(format, texts, i);
    }
    hide FirstTime, FirstReadable, Strip;
  }

  lemma {:induction false} FirstReadableIsUnique(format: TimeFormat, texts: seq<string>, i: nat)
    requires i < |texts| && FirstReadable(format, texts, i)
    ensures FirstTime(format, texts) == format.parse(texts[i])
  {
    if i > 0 {
      FirstReadableIsUnique(format, texts[1..], i - 1);
    }
  }
}
