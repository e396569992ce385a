// The bounded move-to-end buffer of relevant events and its rebuild from the log.
module EventBuffer {
  import opened Options
  import opened Sequences
  import opened Texts
  import opened EventRecords

  // ---------- the unbounded specification ----------

  /** An event stays unless a later one has its key. */
  function LastOccurrences(events: seq<PassiveEvent>): seq<PassiveEvent> {
    if events == [] then []
    else if KeyOf(events[0]) in KeySet(KeyOf, events[1..]) then LastOccurrences(events[1..])
    else [events[0]] + LastOccurrences(events[1..])
  }

  function Without(events: seq<PassiveEvent>, key: string): seq<PassiveEvent> {
    if events == [] then []
    else if KeyOf(events[0]) == key then Without(events[1..], key)
    else [events[0]] + Without(events[1..], key)
  }

  lemma KeysCons(event: PassiveEvent, rest: seq<PassiveEvent>)
    ensures KeySet(KeyOf, [event] + rest) == {KeyOf(event)} + KeySet(KeyOf, rest)
  {
    var all := [event] + rest;
    assert forall i :: 0 <= i < |rest| ==> all[i + 1] == rest[i];
    assert all[0] == event;
  }

  lemma {:induction false} WithoutAppend(a: seq<PassiveEvent>, b: seq<PassiveEvent>, key: string)
    ensures Without(a + b, key) == Without(a, key) + Without(b, key)
  {
    if a == [] {
      assert a + b == b;
    } else {
      assert (a + b)[1..] == a[1..] + b;
      WithoutAppend(a[1..], b, key);
    }
  }

  /** At most one event of a duplicate-free list goes. */
  lemma {:induction false} WithoutSize(events: seq<PassiveEvent>, key: string)
    requires DistinctKeys(KeyOf, events)
    ensures |events| - 1 <= |Without(events, key)| <= |events|
    ensures key !in KeySet(KeyOf, events) ==> Without(events, key) == events
  {
    hide KeyOf;
    if events != [] {
      var rest := events[1..];
      assert events == [events[0]] + rest;
      KeysCons(events[0], rest);
      WithoutSize(rest, key);
      if KeyOf(events[0]) == key {
        forall i | 0 <= i < |rest| ensures KeyOf(rest[i]) != key {
          assert rest[i] == events[i + 1];
        }
      }
    }
  }

  lemma {:induction false} LastOccurrencesKeys(events: seq<PassiveEvent>)
    ensures KeySet(KeyOf, LastOccurrences(events)) == KeySet(KeyOf, events)
  {
    if events != [] {
      LastOccurrencesKeys(events[1..]);
      assert events == [events[0]] + events[1..];
      KeysCons(events[0], events[1..]);
      KeysCons(events[0], LastOccurrences(events[1..]));
    }
  }

  lemma {:induction false} LastOccurrencesDistinct(events: seq<PassiveEvent>)
    ensures DistinctKeys(KeyOf, LastOccurrences(events))
  {
    if events != [] {
      var rest := LastOccurrences(events[1..]);
      LastOccurrencesDistinct(events[1..]);
      LastOccurrencesKeys(events[1..]);
      forall j | 0 <= j < |rest| ensures KeyOf(rest[j]) in KeySet(KeyOf, events[1..]) {
        assert KeyOf(rest[j]) in KeySet(KeyOf, rest);
      }
    }
  }

  /** Remembering one more event moves its key to the end. */
  lemma {:induction false} MoveToEnd(events: seq<PassiveEvent>, event: PassiveEvent)
    ensures LastOccurrences(events + [event]) == Without(LastOccurrences(events), KeyOf(event)) + [event]
  {
    if events == [] {
      assert [event][1..] == [];
    } else {
      var first, rest := events[0], events[1..];
      assert (events + [event])[1..] == rest + [event];
      MoveToEnd(rest, event);
      KeysExtend(KeyOf, rest, event);
      WithoutCons(first, LastOccurrences(rest), KeyOf(event));
    }
  }

  lemma WithoutCons(first: PassiveEvent, rest: seq<PassiveEvent>, key: string)
    ensures Without([first] + rest, key) ==
      if KeyOf(first) == key then Without(rest, key) else [first] + Without(rest, key)
  {
    assert ([first] + rest)[1..] == rest;
  }

  /** Forgetting older events only shortens the result at the front. */
  lemma {:induction false} LastOccurrencesOfEnd(events: seq<PassiveEvent>, from: nat)
    requires from <= |events|
    ensures IsSuffix(LastOccurrences(events[from..]), LastOccurrences(events))
  {
    if from > 0 {
      assert events[1..][from - 1..] == events[from..];
      LastOccurrencesOfEnd(events[1..], from - 1);
      SuffixTransitive(LastOccurrences(events[from..]), LastOccurrences(events[1..]), LastOccurrences(events));
    } else {
      assert events[0..] == events;
    }
  }

  /** Trimming before the move to the end changes nothing that trimming after it keeps. */
  lemma {:induction false} TrimmedMove(events: seq<PassiveEvent>, event: PassiveEvent, size: nat)
    requires DistinctKeys(KeyOf, events)
    ensures TakeLast(Without(TakeLast(events, size), KeyOf(event)) + [event], size)
      == TakeLast(Without(events, KeyOf(event)) + [event], size)
  {
    var tail := TakeLast(events, size);
    if |events| > size {
      var older := events[..|events| - size];
      assert events == older + tail;
      WithoutAppend(older, tail, KeyOf(event));
      WithoutSize(tail, KeyOf(event));
      var kept := Without(tail, KeyOf(event)) + [event];
      assert Without(events, KeyOf(event)) + [event] == Without(older, KeyOf(event)) + kept;
      TakeLastOfConcat(Without(older, KeyOf(event)), kept, size);
    }
  }

  // ---------- the state and its two operations ----------

  /** A non-blank line of a log file; `Damaged` covers everything the reload skips. */
  datatype LogLine =
    | Damaged
    | Entry(symbol: string, event: PassiveEvent)

  /**
    * A log file: its complete lines, and whatever a write that was cut short
    * left after the last newline. The reload reads that remainder as a line too.
    */
  datatype LogFile = LogFile(complete: seq<LogLine>, fragment: Option<LogLine>)
  {
    function Readable(): seq<LogLine> {
      complete + if fragment == None then [] else [fragment.value]
    }

    /** Text appended after a remainder shares its line, and the two together decode to nothing. */
    function Append(entry: LogLine): LogFile {
      LogFile(complete + [if fragment == None then entry else Damaged], None)
    }

    /** A write that stops before its newline, having written what reads as `part`. */
    function Torn(part: LogLine): LogFile {
      LogFile(complete, Some(if fragment == None then part else Damaged))
    }
  }

  const NO_FILE := LogFile([], None)

  datatype Settings = Settings(
    format: TimeFormat,
    size: nat,
    contextMax: int,
    fileOf: string -> string,
    symbolOfFile: string -> string)

  datatype Memory = Memory(buffers: map<string, seq<PassiveEvent>>, files: map<string, LogFile>)
  {
    function Bucket(symbol: string): seq<PassiveEvent> {
      if symbol in buffers then buffers[symbol] else []
    }

    function File(file: string): LogFile {
      if file in files then files[file] else NO_FILE
    }

    function Lines(file: string): seq<LogLine> {
      File(file).Readable()
    }
  }

  /** The record an accepted event becomes; nothing for events without object, symbol or key. */
  function Accepted(settings: Settings, event: Option<PassiveEvent>, symbol: string, now: string): Option<PassiveEvent> {
    if event == None || SymbolName(symbol) == "" then None
    else
      var record := Normalize(settings.format, event.value, now);
      if KeyOf(record) == "" then None else Some(record)
  }

  function Remembered(settings: Settings, memory: Memory, record: PassiveEvent, name: string): Memory {
    var file := settings.fileOf(name);
    Memory(
      memory.buffers[name := TakeLast(Without(memory.Bucket(name), KeyOf(record)) + [record], settings.size)],
      memory.files[file := memory.File(file).Append(Entry(name, record))])
  }

  /** Reload state inside one file: the rebuilt map and the file's own running list. */
  datatype Loading = Loading(hydrated: map<string, seq<PassiveEvent>>, items: seq<PassiveEvent>)

  function LoadLine(settings: Settings, file: string, line: LogLine, now: string, loading: Loading): Loading {
    match line
    case Damaged => loading
    case Entry(symbol, event) =>
      var name := LineSymbol(settings, file, symbol);
      var record := Normalize(settings.format, event, now);
      if name == "" || KeyOf(record) == "" then loading
      else
        var items := Without(loading.items, KeyOf(record)) + [record];
        Loading(loading.hydrated[name := TakeLast(items, settings.size)], items)
  }

  /** The symbol of a line; the file's own when the line has none. */
  function LineSymbol(settings: Settings, file: string, symbol: string): string {
    if SymbolName(symbol) != "" then SymbolName(symbol) else SymbolName(settings.symbolOfFile(file))
  }

  /** A line belongs to the symbol it names; only one that names none belongs to its file's. */
  lemma LineBelongsTo(settings: Settings, file: string, symbol: string)
    ensures !Blank(symbol) ==> LineSymbol(settings, file, symbol) == SymbolName(symbol) != ""
    ensures Blank(symbol) ==> LineSymbol(settings, file, symbol) == SymbolName(settings.symbolOfFile(file))
  {
    BlankStrips(symbol);
  }

  function LoadLines(settings: Settings, file: string, lines: seq<LogLine>, now: string, start: Loading): Loading {
    if lines == [] then start
    else
      var n := |lines| - 1;
      LoadLine(settings, file, lines[n], now, LoadLines(settings, file, lines[..n], now, start))
  }

  function LoadFile(settings: Settings, file: string, lines: seq<LogLine>, now: string,
                    hydrated: map<string, seq<PassiveEvent>>): map<string, seq<PassiveEvent>>
    requires settings.contextMax > 0
  {
    LoadLines(settings, file, TakeLast(lines, settings.contextMax), now, Loading(hydrated, [])).hydrated
  }

  function LoadFiles(settings: Settings, memory: Memory, paths: seq<string>, now: string): map<string, seq<PassiveEvent>>
    requires settings.contextMax > 0
  {
    if paths == [] then map[]
    else
      var n := |paths| - 1;
      LoadFile(settings, paths[n], memory.Lines(paths[n]), now, LoadFiles(settings, memory, paths[..n], now))
  }

  /** The paths are the sorted log files. */
  function Rebuilt(settings: Settings, memory: Memory, paths: seq<string>, now: string): Memory {
    if settings.contextMax <= 0 then memory
    else memory.(buffers := LoadFiles(settings, memory, paths, now))
  }

  function ExcludedKey(exclude: Option<PassiveEvent>): string {
    if exclude == None then "" else KeyOf(exclude.value)
  }

  function MostRecent(bucket: seq<PassiveEvent>, exclude: Option<PassiveEvent>, maxItems: nat): seq<PassiveEvent> {
    TakeLast(Without(bucket, ExcludedKey(exclude)), maxItems)
  }

  /** The events of the end of the bucket from this position on, in order, but for those with the key. */
  ghost predicate OthersFrom(recent: seq<PassiveEvent>, bucket: seq<PassiveEvent>, key: string, from: nat) {
    && from <= |bucket| && recent == Without(bucket[from..], key)
    && (forall event :: event in recent <==> event in bucket[from..] && KeyOf(event) != key)
  }

  /** No event has the key, and only older ones are missing, and those only when the limit is reached. */
  ghost predicate LatestOthers(recent: seq<PassiveEvent>, bucket: seq<PassiveEvent>, key: string, limit: nat) {
    |recent| <= limit &&
    exists from: nat :: OthersFrom(recent, bucket, key, from) && (|recent| == limit || from == 0)
  }

  lemma {:induction false} WithoutElements(events: seq<PassiveEvent>, key: string)
    ensures forall event :: event in Without(events, key) <==> event in events && KeyOf(event) != key
    ensures |Without(events, key)| <= |events|
  {
    if events != [] {
      WithoutElements(events[1..], key);
      assert events == [events[0]] + events[1..];
    }
  }

  /** Some end of the bucket holds exactly the last n events that remain. */
  lemma {:induction false} EndWithRemaining(bucket: seq<PassiveEvent>, key: string, n: nat) returns (from: nat)
    requires n <= |Without(bucket, key)|
    ensures from <= |bucket| && Without(bucket[from..], key) == TakeLast(Without(bucket, key), n)
    ensures n == |Without(bucket, key)| ==> from == 0
  {
    var all := Without(bucket, key);
    if n == |all| {
      from := 0;
      assert bucket[0..] == bucket;
    } else {
      var rest := bucket[1..];
      assert n <= |Without(rest, key)|;
      var later := EndWithRemaining(rest, key, n);
      from := later + 1;
      assert bucket[from..] == rest[later..];
    }
  }

  lemma MostRecentIsLatest(bucket: seq<PassiveEvent>, exclude: Option<PassiveEvent>, maxItems: nat)
    ensures LatestOthers(MostRecent(bucket, exclude, maxItems), bucket, ExcludedKey(exclude), maxItems)
  {
    var key := ExcludedKey(exclude);
    var all := Without(bucket, key);
    var n := if |all| < maxItems then |all| else maxItems;
    var from := EndWithRemaining(bucket, key, n);
    WithoutElements(bucket[from..], key);
    assert TakeLast(all, n) == MostRecent(bucket, exclude, maxItems);
    hide Without, KeyOf;
    assert OthersFrom(MostRecent(bucket, exclude, maxItems), bucket, key, from);
  }

  class EventMemory {
    const settings: Settings
    var buffers: map<string, seq<PassiveEvent>>
    var files: map<string, LogFile>

    constructor (settings: Settings, files: map<string, LogFile>)
      ensures this.settings == settings
      ensures State() == Memory(map[], files)
    {
      this.settings := settings;
      this.buffers := map[];
      this.files := files;
    }

    function State(): Memory
      reads this
    {
      Memory(buffers, files)
    }

    /** Moves the event to the end of its symbol's buffer and appends it to the log. */
    method Remember(event: Option<PassiveEvent>, symbol: string, now: string)
      modifies this
      ensures var record := Accepted(settings, event, symbol, now);
        State() == if record == None then old(State())
                   else Remembered(settings, old(State()), record.value, SymbolName(symbol))
    {
      if event == None {
        return;
      }
      var name := SymbolName(symbol);
      if name == "" {
        return;
      }
      var record := Normalize(settings.format, event.value, now);
      var key := KeyOf(record);
      if key == "" {
        return;
      }
      var bucket := if name in buffers then buffers[name] else [];
      buffers := buffers[name := TakeLast(Without(bucket, key) + [record], settings.size)];
      Persist(record, name);
    }

    method Persist(record: PassiveEvent, name: string)
      modifies this`files
      ensures
        var file := settings.fileOf(name);
        files == old(files)[file := old(State()).File(file).Append(Entry(name, record))]
    {
      var file := settings.fileOf(name);
      var existing := if file in files then files[file] else NO_FILE;
      files := files[file := existing.Append(Entry(name, record))];
    }

    /** Rebuilds every buffer from the ends of the log files. */
    method Hydrate(paths: seq<string>, now: string)
      requires forall path :: path in paths ==> path in files
      modifies this`buffers
      ensures State() == Rebuilt(settings, old(State()), paths, now)
    {
      if settings.contextMax <= 0 {
        return;
      }
      var hydrated: map<string, seq<PassiveEvent>> := map[];
      assert paths[..0] == [];
      for i := 0 to |paths|
        invariant buffers == old(buffers)
        invariant hydrated == LoadFiles(settings, State(), paths[..i], now)
      {
        assert paths[..i + 1][..i] == paths[..i];
        hydrated := HydrateFile(paths[i], files[paths[i]].Readable(), now, hydrated);
      }
      assert paths[..|paths|] == paths;
      buffers := hydrated;
    }

    method HydrateFile(path: string, lines: seq<LogLine>, now: string, start: map<string, seq<PassiveEvent>>)
      returns (hydrated: map<string, seq<PassiveEvent>>)
      requires settings.contextMax > 0
      ensures hydrated == LoadFile(settings, path, lines, now, start)
    {
      hydrated := start;
      var items: seq<PassiveEvent> := [];
      var tail := TakeLast(lines, settings.contextMax);
      assert tail[..0] == [];
      for i := 0 to |tail|
        invariant Loading(hydrated, items) == LoadLines(settings, path, tail[..i], now, Loading(start, []))
      {
        assert tail[..i + 1][..i] == tail[..i];
        match tail[i] {
          case Damaged =>
          case Entry(symbol, event) =>
            var name := LineSymbol(settings, path, symbol);
            var record := Normalize(settings.format, event, now);
            var key := KeyOf(record);
            if name != "" && key != "" {
              items := Without(items, key) + [record];
              hydrated := hydrated[name := TakeLast(items, settings.size)];
            }
        }
      }
      assert tail[..|tail|] == tail;
    }

    /** The most recent remembered events of the symbol other than the excluded one. */
    method Recent(symbol: string, maxItems: int, exclude: Option<PassiveEvent>) returns (recent: seq<PassiveEvent>)
      ensures maxItems <= 0 ==> recent == []
      ensures maxItems > 0 ==> recent == MostRecent(State().Bucket(SymbolName(symbol)), exclude, maxItems)
      ensures maxItems > 0 ==> LatestOthers(recent, State().Bucket(SymbolName(symbol)), ExcludedKey(exclude), maxItems)
    {
      if maxItems <= 0 {
        return [];
      }
      var name := SymbolName(symbol);
      var bucket := if name in buffers then buffers[name] else [];
      recent := TakeLast(Without(bucket, ExcludedKey(exclude)), maxItems);
      MostRecentIsLatest(bucket, exclude, maxItems);
    }
  }
}
