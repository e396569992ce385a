// What the bounded buffers hold over every run of remembers, reloads and torn writes.
module EventBufferTheorems {
  import opened Options
  import opened Sequences
  import opened Texts
  import opened EventRecords
  import opened EventBuffer

  /** Reloading gives back the very record that was written. */
  ghost predicate Readable(format: TimeFormat, record: PassiveEvent) {
    KeyOf(record) != "" && forall later :: Normalize(format, record, later) == record
  }

  /** Every record whose seen time is not just white space can be read back. */
  lemma AcceptedIsReadable(settings: Settings, event: PassiveEvent, symbol: string, now: string)
    requires settings.format.Faithful()
    requires Accepted(settings, Some(event), symbol, now).Some?
    requires SeenAt(event, now) != ""
    ensures Readable(settings.format, Accepted(settings, Some(event), symbol, now).value)
  {
    var record := Normalize(settings.format, event, now);
    forall later ensures Normalize(settings.format, record, later) == record {
      ReloadKeepsTime(settings.format, event, now, later);
      assert SeenAt(record, later) == record.seenAt;
    }
  }

  // ---------- the log ----------

  /** The records of the readable lines, in file order. */
  function Events(lines: seq<LogLine>): seq<PassiveEvent> {
    if lines == [] then []
    else
      var n := |lines| - 1;
      match lines[n]
      case Damaged => Events(lines[..n])
      case Entry(_, event) => Events(lines[..n]) + [event]
  }

  lemma {:induction false} EventsAppend(a: seq<LogLine>, b: seq<LogLine>)
    ensures Events(a + b) == Events(a) + Events(b)
  {
    if b == [] {
      assert a + b == a;
    } else {
      var n := |b| - 1;
      assert (a + b)[..|a| + n] == a + b[..n] && (a + b)[|a| + n] == b[n];
      EventsAppend(a, b[..n]);
    }
  }

  /** What this code writes: normal symbols in their own files, records that read back. */
  ghost predicate LineFits(settings: Settings, file: string, line: LogLine) {
    line.Entry? ==>
      && SymbolName(line.symbol) == line.symbol != ""
      && settings.fileOf(line.symbol) == file
      && Readable(settings.format, line.event)
  }

  ghost predicate WellFiled(settings: Settings, memory: Memory) {
    forall file | file in memory.files :: forall i :: 0 <= i < |memory.Lines(file)| ==>
      LineFits(settings, file, memory.Lines(file)[i])
  }

  predicate OnlyFor(symbol: string, lines: seq<LogLine>) {
    forall i :: 0 <= i < |lines| && lines[i].Entry? ==> lines[i].symbol == symbol
  }

  /** No other symbol's events share this symbol's log file. */
  predicate OwnFile(settings: Settings, memory: Memory, symbol: string) {
    OnlyFor(symbol, memory.Lines(settings.fileOf(symbol)))
  }

  // ---------- reloading ----------

  function Moved(settings: Settings, loading: Loading, symbol: string, event: PassiveEvent): Loading {
    var items := Without(loading.items, KeyOf(event)) + [event];
    Loading(loading.hydrated[symbol := TakeLast(items, settings.size)], items)
  }

  lemma LoadFittingLine(settings: Settings, file: string, line: LogLine, now: string, loading: Loading)
    requires LineFits(settings, file, line)
    ensures LoadLine(settings, file, line, now, loading) ==
      if line.Damaged? then loading else Moved(settings, loading, line.symbol, line.event)
  {
  }

  function Kept(settings: Settings, before: map<string, seq<PassiveEvent>>, symbol: string, events: seq<PassiveEvent>): Loading {
    Loading(
      if events == [] then before else before[symbol := TakeLast(LastOccurrences(events), settings.size)],
      LastOccurrences(events))
  }

  lemma KeptMoves(settings: Settings, before: map<string, seq<PassiveEvent>>, symbol: string,
                  events: seq<PassiveEvent>, event: PassiveEvent)
    ensures Moved(settings, Kept(settings, before, symbol, events), symbol, event) ==
      Kept(settings, before, symbol, events + [event])
  {
    MoveToEnd(events, event);
    hide Without, LastOccurrences, TakeLast, KeyOf;
  }

  lemma {:induction false} LoadOwnLines(settings: Settings, file: string, symbol: string, lines: seq<LogLine>,
                                        now: string, before: map<string, seq<PassiveEvent>>)
    requires OnlyFor(symbol, lines)
    requires forall i :: 0 <= i < |lines| ==> LineFits(settings, file, lines[i])
    ensures LoadLines(settings, file, lines, now, Loading(before, [])) == Kept(settings, before, symbol, Events(lines))
  {
    hide LoadLine, Moved, LineFits;
    if lines != [] {
      var n := |lines| - 1;
      LoadOwnLines(settings, file, symbol, lines[..n], now, before);
      LoadFittingLine(settings, file, lines[n], now, Kept(settings, before, symbol, Events(lines[..n])));
      hide Kept;
      if lines[n].Entry? {
        KeptMoves(settings, before, symbol, Events(lines[..n]), lines[n].event);
      }
    }
  }

  predicate SameAt(symbol: string, a: map<string, seq<PassiveEvent>>, b: map<string, seq<PassiveEvent>>) {
    (symbol in a <==> symbol in b) && (symbol in a ==> a[symbol] == b[symbol])
  }

  lemma {:induction false} LoadOtherLines(settings: Settings, file: string, symbol: string, lines: seq<LogLine>,
                                          now: string, start: Loading)
    requires settings.fileOf(symbol) != file
    requires forall i :: 0 <= i < |lines| ==> LineFits(settings, file, lines[i])
    ensures SameAt(symbol, LoadLines(settings, file, lines, now, start).hydrated, start.hydrated)
  {
    if lines != [] {
      var n := |lines| - 1;
      LoadOtherLines(settings, file, symbol, lines[..n], now, start);
      LoadFittingLine(settings, file, lines[n], now, LoadLines(settings, file, lines[..n], now, start));
      assert LineFits(settings, file, lines[n]);
      hide LoadLine, Normalize, KeyOf, Without, TakeLast;
    }
  }

  /** What a reload keeps of one symbol's log. */
  function Tail(settings: Settings, memory: Memory, symbol: string): seq<PassiveEvent>
    requires settings.contextMax > 0
  {
    Events(TakeLast(memory.Lines(settings.fileOf(symbol)), settings.contextMax))
  }

  /** A property of every line holds of every line of its end. */
  lemma TailFits(settings: Settings, memory: Memory, file: string)
    requires settings.contextMax > 0
    requires WellFiled(settings, memory)
    ensures
      var lines := TakeLast(memory.Lines(file), settings.contextMax);
      forall i :: 0 <= i < |lines| ==> LineFits(settings, file, lines[i])
  {
    hide LineFits;
    var all := memory.Lines(file);
    var lines := TakeLast(all, settings.contextMax);
    forall i | 0 <= i < |lines| ensures LineFits(settings, file, lines[i]) {
      assert lines[i] == all[|all| - |lines| + i];
    }
  }

  lemma TailIsOwn(settings: Settings, memory: Memory, symbol: string)
    requires settings.contextMax > 0
    requires OwnFile(settings, memory, symbol)
    ensures OnlyFor(symbol, TakeLast(memory.Lines(settings.fileOf(symbol)), settings.contextMax))
  {
    var all := memory.Lines(settings.fileOf(symbol));
    var lines := TakeLast(all, settings.contextMax);
    forall i | 0 <= i < |lines| && lines[i].Entry? ensures lines[i].symbol == symbol {
      assert lines[i] == all[|all| - |lines| + i];
    }
  }

  /** One file contributes its own symbol's buffer and touches no other. */
  lemma LoadFileBucket(settings: Settings, memory: Memory, file: string, now: string, symbol: string,
                       before: map<string, seq<PassiveEvent>>)
    requires settings.contextMax > 0
    requires WellFiled(settings, memory) && OwnFile(settings, memory, symbol)
    ensures
      var after := LoadFile(settings, file, memory.Lines(file), now, before);
      if file != settings.fileOf(symbol) then SameAt(symbol, after, before)
      else after == Kept(settings, before, symbol, Tail(settings, memory, symbol)).hydrated
  {
    hide LineFits, LoadLine, LoadLines, Kept, OnlyFor, TakeLast, Normalize;
    var lines := TakeLast(memory.Lines(file), settings.contextMax);
    TailFits(settings, memory, file);
    if file == settings.fileOf(symbol) {
      TailIsOwn(settings, memory, symbol);
      LoadOwnLines(settings, file, symbol, lines, now, before);
    } else {
      LoadOtherLines(settings, file, symbol, lines, now, Loading(before, []));
    }
  }

  lemma {:induction false} LoadFilesBucket(settings: Settings, memory: Memory, paths: seq<string>, now: string, symbol: string)
    requires settings.contextMax > 0
    requires WellFiled(settings, memory) && OwnFile(settings, memory, symbol)
    requires Distinct(paths)
    ensures
      var loaded := LoadFiles(settings, memory, paths, now);
      if settings.fileOf(symbol) !in paths then symbol !in loaded
      else SameAt(symbol, loaded, Kept(settings, map[], symbol, Tail(settings, memory, symbol)).hydrated)
  {
    hide WellFiled, OwnFile, LoadFile, LastOccurrences, TakeLast, Tail;
    if paths != [] {
      var n := |paths| - 1;
      LoadFilesBucket(settings, memory, paths[..n], now, symbol);
      LoadFileBucket(settings, memory, paths[n], now, symbol, LoadFiles(settings, memory, paths[..n], now));
      assert paths == paths[..n] + [paths[n]];
      assert paths[n] == settings.fileOf(symbol) ==> settings.fileOf(symbol) !in paths[..n];
    }
  }

  ghost predicate AllLogs(memory: Memory, paths: seq<string>) {
    Distinct(paths) && forall path :: path in paths <==> path in memory.files
  }

  /** A rebuilt buffer is the bounded, deduplicated tail of the symbol's log. */
  lemma RebuiltBufferIsLogTail(settings: Settings, memory: Memory, paths: seq<string>, now: string, symbol: string)
    requires settings.contextMax > 0
    requires WellFiled(settings, memory) && OwnFile(settings, memory, symbol)
    requires AllLogs(memory, paths)
    ensures Rebuilt(settings, memory, paths, now).Bucket(symbol) ==
      TakeLast(LastOccurrences(Tail(settings, memory, symbol)), settings.size)
  {
    LoadFilesBucket(settings, memory, paths, now, symbol);
    hide WellFiled, OwnFile, LastOccurrences, LoadFiles;
  }

  // ---------- windows ----------

  function Logged(settings: Settings, memory: Memory, symbol: string): seq<PassiveEvent> {
    Events(memory.Lines(settings.fileOf(symbol)))
  }

  /** The buffer is the bounded deduplication of everything logged from some point on. */
  ghost predicate Window(settings: Settings, memory: Memory, symbol: string, from: nat) {
    var logged := Logged(settings, memory, symbol);
    from <= |logged| && memory.Bucket(symbol) == TakeLast(LastOccurrences(logged[from..]), settings.size)
  }

  /** Nothing was cut off at the end of the symbol's log file. */
  predicate EndsClean(settings: Settings, memory: Memory, symbol: string) {
    memory.File(settings.fileOf(symbol)).fragment == None
  }

  /** A record appended to a clean file is logged; one appended to a remainder is lost with it. */
  lemma AppendLogs(settings: Settings, memory: Memory, record: PassiveEvent, symbol: string)
    ensures
      var file := memory.File(settings.fileOf(symbol));
      Logged(settings, Remembered(settings, memory, record, symbol), symbol) ==
      if EndsClean(settings, memory, symbol) then Logged(settings, memory, symbol) + [record]
      else Events(file.complete)
  {
    var file := memory.File(settings.fileOf(symbol));
    var line := if file.fragment == None then Entry(symbol, record) else Damaged;
    EventsPush(file.complete, line);
    assert file.complete + [] == file.complete;
    assert file.Append(Entry(symbol, record)).Readable() == file.complete + [line];
  }

  lemma EventsPush(lines: seq<LogLine>, line: LogLine)
    ensures Events(lines + [line]) == if line.Damaged? then Events(lines) else Events(lines) + [line.event]
  {
    assert (lines + [line])[..|lines|] == lines;
  }

  lemma RememberKeepsWindow(settings: Settings, memory: Memory, record: PassiveEvent, symbol: string, from: nat)
    requires Window(settings, memory, symbol, from) && EndsClean(settings, memory, symbol)
    ensures Window(settings, Remembered(settings, memory, record, symbol), symbol, from)
  {
    AppendLogs(settings, memory, record, symbol);
    hide Events, KeyOf, LastOccurrences, Without;
    var logged := Logged(settings, memory, symbol);
    assert (logged + [record])[from..] == logged[from..] + [record];
    MoveToEnd(logged[from..], record);
    LastOccurrencesDistinct(logged[from..]);
    TrimmedMove(LastOccurrences(logged[from..]), record, settings.size);
  }

  lemma TailPosition(settings: Settings, memory: Memory, symbol: string) returns (from: nat)
    requires settings.contextMax > 0
    ensures from <= |Logged(settings, memory, symbol)|
    ensures Logged(settings, memory, symbol)[from..] == Tail(settings, memory, symbol)
  {
    hide Events;
    var lines := memory.Lines(settings.fileOf(symbol));
    var tail := TakeLast(lines, settings.contextMax);
    var older := lines[..|lines| - |tail|];
    assert lines == older + tail;
    EventsAppend(older, tail);
    from := |Events(older)|;
  }

  lemma RebuildGivesWindow(settings: Settings, memory: Memory, paths: seq<string>, now: string, symbol: string)
    returns (from: nat)
    requires settings.contextMax > 0
    requires WellFiled(settings, memory) && OwnFile(settings, memory, symbol)
    requires AllLogs(memory, paths)
    ensures Window(settings, Rebuilt(settings, memory, paths, now), symbol, from)
  {
    from := TailPosition(settings, memory, symbol);
    RebuiltBufferIsLogTail(settings, memory, paths, now, symbol);
    hide WellFiled, OwnFile, LastOccurrences, LoadFiles, Events, AllLogs, Tail;
  }

  /** A window is the end of the unbounded deduplication of the whole log. */
  lemma WindowIsSuffix(settings: Settings, memory: Memory, symbol: string, from: nat)
    requires Window(settings, memory, symbol, from)
    ensures IsSuffix(memory.Bucket(symbol), LastOccurrences(Logged(settings, memory, symbol)))
  {
    var logged := Logged(settings, memory, symbol);
    LastOccurrencesOfEnd(logged, from);
    TakeLastIsSuffix(LastOccurrences(logged[from..]), settings.size);
    SuffixTransitive(memory.Bucket(symbol), LastOccurrences(logged[from..]), LastOccurrences(logged));
  }

  // ---------- runs ----------

  /** How much of a record's text a write got out before the process died. */
  datatype Cut = Part | AllButNewline

  datatype Operation =
    | Remember(event: Option<PassiveEvent>, symbol: string, now: string)
    | Tear(event: Option<PassiveEvent>, symbol: string, now: string, cut: Cut)
    | Restart(paths: seq<string>, now: string)

  /** A process that dies while it appends leaves no buffers, and a remainder in the file. */
  function Torn(settings: Settings, memory: Memory, record: PassiveEvent, name: string, cut: Cut): Memory {
    var file := settings.fileOf(name);
    var part := if cut == Part then Damaged else Entry(name, record);
    Memory(map[], memory.files[file := memory.File(file).Torn(part)])
  }

  function After(settings: Settings, memory: Memory, operation: Operation): Memory {
    match operation
    case Remember(event, symbol, now) =>
      var record := Accepted(settings, event, symbol, now);
      if record == None then memory else Remembered(settings, memory, record.value, SymbolName(symbol))
    case Tear(event, symbol, now, cut) =>
      var record := Accepted(settings, event, symbol, now);
      if record == None then memory else Torn(settings, memory, record.value, SymbolName(symbol), cut)
    case Restart(paths, now) => Rebuilt(settings, memory.(buffers := map[]), paths, now)
  }

  /** The event's seen time is not blank, and no other symbol uses the watched symbol's file. */
  ghost predicate Writes(settings: Settings, event: Option<PassiveEvent>, other: string, now: string, symbol: string) {
    && (event.Some? ==> SeenAt(event.value, now) != "")
    && (settings.fileOf(SymbolName(other)) == settings.fileOf(symbol) ==> SymbolName(other) == symbol)
  }

  /** What a run may do; a restart reads all log files. */
  ghost predicate Allowed(settings: Settings, memory: Memory, operation: Operation, symbol: string) {
    match operation
    case Remember(event, other, now) => Writes(settings, event, other, now, symbol)
    case Tear(event, other, now, _) => Writes(settings, event, other, now, symbol)
    case Restart(paths, _) => AllLogs(memory, paths)
  }

  /** The record an operation appends to the watched symbol's log. */
  function Appended(settings: Settings, operation: Operation, symbol: string): Option<PassiveEvent> {
    if operation.Remember? && SymbolName(operation.symbol) == symbol
    then Accepted(settings, operation.event, operation.symbol, operation.now)
    else None
  }

  /** A record is appended to what a cut-off write left of the watched symbol's log. */
  predicate Swallows(settings: Settings, memory: Memory, operation: Operation, symbol: string) {
    Appended(settings, operation, symbol).Some? && !EndsClean(settings, memory, symbol)
  }

  ghost predicate Filed(settings: Settings, memory: Memory, symbol: string) {
    WellFiled(settings, memory) && OwnFile(settings, memory, symbol)
  }

  ghost predicate Good(settings: Settings, memory: Memory, symbol: string) {
    Filed(settings, memory, symbol) && exists from: nat :: Window(settings, memory, symbol, from)
  }

  /** A file may change by keeping its complete lines and gaining one that fits. */
  lemma ChangedFileStaysFiled(settings: Settings, memory: Memory, file: string, changed: LogFile, last: LogLine,
                               symbol: string)
    requires Filed(settings, memory, symbol)
    requires changed.Readable() == memory.File(file).complete + [last]
    requires LineFits(settings, file, last)
    requires last.Entry? && file == settings.fileOf(symbol) ==> last.symbol == symbol
    ensures Filed(settings, memory.(files := memory.files[file := changed]), symbol)
  {
    hide LineFits;
    var after := memory.(files := memory.files[file := changed]);
    var prior := memory.Lines(file);
    forall i | 0 <= i < |memory.File(file).complete|
      ensures changed.Readable()[i] == prior[i]
    {
    }
    assert forall other :: other != file ==> after.Lines(other) == memory.Lines(other);
  }

  lemma RememberStaysFiled(settings: Settings, memory: Memory, record: PassiveEvent, name: string, symbol: string)
    requires Filed(settings, memory, symbol)
    requires Readable(settings.format, record) && SymbolName(name) == name != ""
    requires settings.fileOf(name) == settings.fileOf(symbol) ==> name == symbol
    ensures Filed(settings, Remembered(settings, memory, record, name), symbol)
  {
    var file := settings.fileOf(name);
    var line := if memory.File(file).fragment == None then Entry(name, record) else Damaged;
    assert LineFits(settings, file, line);
    hide LineFits, WellFiled, OwnFile;
    var changed := memory.File(file).Append(Entry(name, record));
    assert changed.Readable() == memory.File(file).complete + [line];
    ChangedFileStaysFiled(settings, memory, file, changed, line, symbol);
    SameFilesSameFiling(settings, memory.(files := memory.files[file := changed]),
                        Remembered(settings, memory, record, name), symbol);
  }

  lemma TearStaysFiled(settings: Settings, memory: Memory, record: PassiveEvent, name: string, cut: Cut, symbol: string)
    requires Filed(settings, memory, symbol)
    requires Readable(settings.format, record) && SymbolName(name) == name != ""
    requires settings.fileOf(name) == settings.fileOf(symbol) ==> name == symbol
    ensures Filed(settings, Torn(settings, memory, record, name, cut), symbol)
  {
    var file := settings.fileOf(name);
    var part := if cut == Part then Damaged else Entry(name, record);
    var line := if memory.File(file).fragment == None then part else Damaged;
    assert LineFits(settings, file, line);
    hide LineFits, WellFiled, OwnFile;
    var changed := memory.File(file).Torn(part);
    assert changed.Readable() == memory.File(file).complete + [line];
    ChangedFileStaysFiled(settings, memory, file, changed, line, symbol);
    SameFilesSameFiling(settings, memory.(files := memory.files[file := changed]),
                        Torn(settings, memory, record, name, cut), symbol);
  }

  /** Whatever happens, the log stays readable as what this code writes. */
  lemma StepStaysFiled(settings: Settings, memory: Memory, operation: Operation, symbol: string)
    requires settings.format.Faithful()
    requires Allowed(settings, memory, operation, symbol) && Filed(settings, memory, symbol)
    ensures Filed(settings, After(settings, memory, operation), symbol)
  {
    hide WellFiled, OwnFile, Readable;
    match operation {
      case Remember(event, other, now) =>
        SymbolNameIsStable(other);
        if Accepted(settings, event, other, now).Some? {
          AcceptedIsReadable(settings, event.value, other, now);
          RememberStaysFiled(settings, memory, Accepted(settings, event, other, now).value, SymbolName(other), symbol);
        }
      case Tear(event, other, now, cut) =>
        SymbolNameIsStable(other);
        if Accepted(settings, event, other, now).Some? {
          AcceptedIsReadable(settings, event.value, other, now);
          TearStaysFiled(settings, memory, Accepted(settings, event, other, now).value, SymbolName(other), cut, symbol);
        }
      case Restart(paths, now) =>
        SameFilesSameFiling(settings, memory, After(settings, memory, operation), symbol);
    }
  }

  lemma SameFilesSameFiling(settings: Settings, memory: Memory, after: Memory, symbol: string)
    requires Filed(settings, memory, symbol) && after.files == memory.files
    ensures Filed(settings, after, symbol)
  {
    hide LineFits;
    assert forall file :: after.Lines(file) == memory.Lines(file);
  }

  /** An empty buffer is the window that starts now. */
  lemma EmptyWindow(settings: Settings, memory: Memory, symbol: string)
    requires memory.Bucket(symbol) == []
    ensures Window(settings, memory, symbol, |Logged(settings, memory, symbol)|)
  {
  }

  /** The window survives every step but an append to a remainder. */
  lemma StepKeepsWindow(settings: Settings, memory: Memory, operation: Operation, symbol: string)
    requires Allowed(settings, memory, operation, symbol) && Good(settings, memory, symbol)
    requires !Swallows(settings, memory, operation, symbol)
    ensures exists from: nat :: Window(settings, After(settings, memory, operation), symbol, from)
  {
    var after := After(settings, memory, operation);
    hide WellFiled, OwnFile, LastOccurrences, Rebuilt;
    match operation {
      case Remember(event, other, now) =>
        var from: nat :| Window(settings, memory, symbol, from);
        if Appended(settings, operation, symbol).Some? {
          RememberKeepsWindow(settings, memory, Appended(settings, operation, symbol).value, symbol, from);
        } else {
          assert after.Lines(settings.fileOf(symbol)) == memory.Lines(settings.fileOf(symbol));
        }
        assert Window(settings, after, symbol, from);
      case Tear(event, other, now, cut) =>
        if Accepted(settings, event, other, now).Some? {
          EmptyWindow(settings, after, symbol);
        }
      case Restart(paths, now) =>
        RestartGivesWindow(settings, memory, paths, now, symbol);
    }
  }

  lemma RestartGivesWindow(settings: Settings, memory: Memory, paths: seq<string>, now: string, symbol: string)
    requires Filed(settings, memory, symbol) && AllLogs(memory, paths)
    ensures exists from: nat ::
      Window(settings, After(settings, memory, Restart(paths, now)), symbol, from)
  {
    var cleared := memory.(buffers := map[]);
    SameFilesSameFiling(settings, memory, cleared, symbol);
    if settings.contextMax > 0 {
      var from := RebuildGivesWindow(settings, cleared, paths, now, symbol);
      assert Window(settings, After(settings, memory, Restart(paths, now)), symbol, from);
    } else {
      EmptyWindow(settings, cleared, symbol);
      assert After(settings, memory, Restart(paths, now)) == cleared;
    }
  }

  function Run(settings: Settings, memory: Memory, operations: seq<Operation>): Memory
    decreases |operations|
  {
    if operations == [] then memory
    else Run(settings, After(settings, memory, operations[0]), operations[1..])
  }

  ghost predicate AllAllowed(settings: Settings, memory: Memory, operations: seq<Operation>, symbol: string)
    decreases |operations|
  {
    operations != [] ==>
      && Allowed(settings, memory, operations[0], symbol)
      && AllAllowed(settings, After(settings, memory, operations[0]), operations[1..], symbol)
  }

  /** No record is appended to a remainder of the watched symbol's log. */
  predicate NoneSwallowed(settings: Settings, memory: Memory, operations: seq<Operation>, symbol: string)
    decreases |operations|
  {
    operations != [] ==>
      && !Swallows(settings, memory, operations[0], symbol)
      && NoneSwallowed(settings, After(settings, memory, operations[0]), operations[1..], symbol)
  }

  lemma {:induction false} RunKeepsGood(settings: Settings, memory: Memory, operations: seq<Operation>, symbol: string)
    requires settings.format.Faithful()
    requires AllAllowed(settings, memory, operations, symbol) && NoneSwallowed(settings, memory, operations, symbol)
    requires Good(settings, memory, symbol)
    ensures Good(settings, Run(settings, memory, operations), symbol)
    decreases |operations|
  {
    if operations != [] {
      StepStaysFiled(settings, memory, operations[0], symbol);
      StepKeepsWindow(settings, memory, operations[0], symbol);
      hide Filed, Allowed, After, Swallows, Window;
      RunKeepsGood(settings, After(settings, memory, operations[0]), operations[1..], symbol);
    }
  }

  /** The live buffer is an end of the deduplicated log. */
  predicate InLog(settings: Settings, memory: Memory, symbol: string) {
    IsSuffix(memory.Bucket(symbol), LastOccurrences(Logged(settings, memory, symbol)))
  }

  /** One of the live buffer and the buffer a restart would rebuild is an end of the other. */
  predicate Together(settings: Settings, memory: Memory, symbol: string, paths: seq<string>, now: string) {
    var live, rebuilt := memory.Bucket(symbol), Rebuilt(settings, memory, paths, now).Bucket(symbol);
    IsSuffix(live, rebuilt) || IsSuffix(rebuilt, live)
  }

  lemma RebuiltIsInLog(settings: Settings, memory: Memory, symbol: string, paths: seq<string>, now: string)
    requires Filed(settings, memory, symbol) && AllLogs(memory, paths)
    ensures settings.contextMax > 0 ==>
      IsSuffix(Rebuilt(settings, memory, paths, now).Bucket(symbol), LastOccurrences(Logged(settings, memory, symbol)))
  {
    if settings.contextMax > 0 {
      var from := RebuildGivesWindow(settings, memory, paths, now, symbol);
      WindowIsSuffix(settings, Rebuilt(settings, memory, paths, now), symbol, from);
    }
  }

  /**
    * After any run with any number of restarts and torn writes in which no
    * record is appended to a remainder, the live buffer is an end of the
    * deduplicated log, within its bound, and agrees with the buffer a restart
    * would rebuild on their common tail.
    */
  lemma LiveAndRebuiltAgree(settings: Settings, start: Memory, operations: seq<Operation>,
                            symbol: string, paths: seq<string>, now: string)
    requires settings.format.Faithful()
    requires AllAllowed(settings, start, operations, symbol) && NoneSwallowed(settings, start, operations, symbol)
    requires Good(settings, start, symbol)
    requires AllLogs(Run(settings, start, operations), paths)
    ensures
      var live := Run(settings, start, operations);
      InLog(settings, live, symbol) && |live.Bucket(symbol)| <= settings.size && Together(settings, live, symbol, paths, now)
  {
    RunKeepsGood(settings, start, operations, symbol);
    var live := Run(settings, start, operations);
    GoodIsTogether(settings, live, symbol, paths, now);
  }

  lemma GoodIsTogether(settings: Settings, live: Memory, symbol: string, paths: seq<string>, now: string)
    requires Good(settings, live, symbol) && AllLogs(live, paths)
    ensures InLog(settings, live, symbol) && |live.Bucket(symbol)| <= settings.size
    ensures Together(settings, live, symbol, paths, now)
  {
    var from: nat :| Window(settings, live, symbol, from);
    WindowIsSuffix(settings, live, symbol, from);
    RebuiltIsInLog(settings, live, symbol, paths, now);
    hide LastOccurrences, Events, Filed, AllLogs;
    if settings.contextMax > 0 {
      SuffixesAgree(live.Bucket(symbol), Rebuilt(settings, live, paths, now).Bucket(symbol),
                    LastOccurrences(Logged(settings, live, symbol)));
    }
  }

  // ---------- exactly when the log keeps up ----------

  lemma {:induction false} LastOccurrencesWereThere(events: seq<PassiveEvent>)
    ensures forall event :: event in LastOccurrences(events) ==> event in events
  {
    if events != [] {
      LastOccurrencesWereThere(events[1..]);
    }
  }

  /** A record that was not logged before is at the end of its buffer and nowhere in the log. */
  lemma SwallowedIsLost(settings: Settings, memory: Memory, record: PassiveEvent, symbol: string)
    requires settings.size > 0 && !EndsClean(settings, memory, symbol)
    requires record !in Logged(settings, memory, symbol)
    ensures
      var after := Remembered(settings, memory, record, symbol);
      var bucket := after.Bucket(symbol);
      && bucket != [] && bucket[|bucket| - 1] == record
      && record !in LastOccurrences(Logged(settings, after, symbol))
  {
    var file := memory.File(settings.fileOf(symbol));
    var after := Remembered(settings, memory, record, symbol);
    AppendLogs(settings, memory, record, symbol);
    EventsAppend(file.complete, [file.fragment.value]);
    LastOccurrencesWereThere(Logged(settings, after, symbol));
  }

  /**
    * Remembering a record that was not logged before keeps the live buffer an
    * end of the deduplicated log exactly when the log file ended clean; and a
    * restart would rebuild a buffer that agrees with it exactly then, or when it
    * would rebuild none.
    */
  lemma {:induction false} RememberAgreesExactly(settings: Settings, memory: Memory, operation: Operation, symbol: string,
                                                 paths: seq<string>, now: string)
    requires settings.format.Faithful() && settings.size > 0 && settings.contextMax > 0
    requires Good(settings, memory, symbol) && Allowed(settings, memory, operation, symbol)
    requires Appended(settings, operation, symbol).Some?
    requires Appended(settings, operation, symbol).value !in Logged(settings, memory, symbol)
    requires AllLogs(After(settings, memory, operation), paths)
    ensures
      var after := After(settings, memory, operation);
      && (InLog(settings, after, symbol) <==> EndsClean(settings, memory, symbol))
      && (Together(settings, after, symbol, paths, now) <==>
          EndsClean(settings, memory, symbol) || Rebuilt(settings, after, paths, now).Bucket(symbol) == [])
  {
    StepStaysFiled(settings, memory, operation, symbol);
    if EndsClean(settings, memory, symbol) {
      StepKeepsWindow(settings, memory, operation, symbol);
      hide After, Filed, Window, InLog, Together, Allowed, Appended, AllLogs;
      GoodIsTogether(settings, After(settings, memory, operation), symbol, paths, now);
    } else {
      hide Filed, Allowed, Window, EndsClean, InLog, Together, AllLogs;
      SwallowedApart(settings, memory, operation, symbol, paths, now);
    }
  }

  lemma SwallowedApart(settings: Settings, memory: Memory, operation: Operation, symbol: string, paths: seq<string>, now: string)
    requires settings.size > 0 && settings.contextMax > 0
    requires Appended(settings, operation, symbol).Some? && !EndsClean(settings, memory, symbol)
    requires Appended(settings, operation, symbol).value !in Logged(settings, memory, symbol)
    requires Filed(settings, After(settings, memory, operation), symbol) && AllLogs(After(settings, memory, operation), paths)
    ensures
      var after := After(settings, memory, operation);
      && !InLog(settings, after, symbol)
      && (Together(settings, after, symbol, paths, now) <==> Rebuilt(settings, after, paths, now).Bucket(symbol) == [])
  {
    var record := Appended(settings, operation, symbol).value;
    var after := After(settings, memory, operation);
    assert after == Remembered(settings, memory, record, symbol) by {
      hide Remembered, Accepted;
    }
    hide After, Appended, Rebuilt, LastOccurrences, Filed, AllLogs, Remembered, Logged, EndsClean, Memory.Bucket, IsSuffix;
    SwallowedIsLost(settings, memory, record, symbol);
    RebuiltIsInLog(settings, after, symbol, paths, now);
    LostApart(after.Bucket(symbol), Rebuilt(settings, after, paths, now).Bucket(symbol),
              LastOccurrences(Logged(settings, after, symbol)), record);
  }

  lemma NotAnEnd(a: seq<PassiveEvent>, b: seq<PassiveEvent>)
    requires a != [] && a[|a| - 1] !in b
    ensures !IsSuffix(a, b)
  {
  }

  lemma LostApart(live: seq<PassiveEvent>, rebuilt: seq<PassiveEvent>, log: seq<PassiveEvent>, record: PassiveEvent)
    requires live != [] && live[|live| - 1] == record && record !in log && IsSuffix(rebuilt, log)
    ensures !IsSuffix(live, log)
    ensures IsSuffix(live, rebuilt) || IsSuffix(rebuilt, live) <==> rebuilt == []
  {
    NotAnEnd(live, log);
    if rebuilt != [] {
      assert rebuilt[|rebuilt| - 1] == log[|log| - 1];
      assert record !in rebuilt;
      NotAnEnd(live, rebuilt);
    }
  }

  /** Every record appended to the watched log is new to it. */
  predicate AllNew(settings: Settings, memory: Memory, operations: seq<Operation>, symbol: string)
    decreases |operations|
  {
    operations != [] ==>
      && (Appended(settings, operations[0], symbol).Some? ==>
            Appended(settings, operations[0], symbol).value !in Logged(settings, memory, symbol))
      && AllNew(settings, After(settings, memory, operations[0]), operations[1..], symbol)
  }

  /** The live buffer is an end of the deduplicated log after every step. */
  predicate AlwaysInLog(settings: Settings, memory: Memory, operations: seq<Operation>, symbol: string)
    decreases |operations|
  {
    operations != [] ==>
      && InLog(settings, After(settings, memory, operations[0]), symbol)
      && AlwaysInLog(settings, After(settings, memory, operations[0]), operations[1..], symbol)
  }

  /** Over a run of new records the log keeps up throughout exactly when no record is appended to a remainder. */
  lemma {:induction false} LogKeepsUpExactly(settings: Settings, memory: Memory, operations: seq<Operation>, symbol: string)
    requires settings.format.Faithful() && settings.size > 0
    requires Good(settings, memory, symbol)
    requires AllAllowed(settings, memory, operations, symbol) && AllNew(settings, memory, operations, symbol)
    ensures AlwaysInLog(settings, memory, operations, symbol) <==> NoneSwallowed(settings, memory, operations, symbol)
    decreases |operations|
  {
    if operations != [] {
      var operation := operations[0];
      if Swallows(settings, memory, operation, symbol) {
        SwallowBreaksLog(settings, memory, operation, symbol);
      } else {
        var after := After(settings, memory, operation);
        StepStaysFiled(settings, memory, operation, symbol);
        StepKeepsWindow(settings, memory, operation, symbol);
        hide After, Filed, Allowed, Swallows, Appended;
        var from: nat :| Window(settings, after, symbol, from);
        WindowIsSuffix(settings, after, symbol, from);
        hide Window, InLog;
        LogKeepsUpExactly(settings, after, operations[1..], symbol);
      }
    }
  }

  lemma SwallowBreaksLog(settings: Settings, memory: Memory, operation: Operation, symbol: string)
    requires settings.size > 0 && Swallows(settings, memory, operation, symbol)
    requires Appended(settings, operation, symbol).value !in Logged(settings, memory, symbol)
    ensures !InLog(settings, After(settings, memory, operation), symbol)
  {
    var record := Appended(settings, operation, symbol).value;
    var after := After(settings, memory, operation);
    SwallowedIsLost(settings, memory, record, symbol);
    LostApart(after.Bucket(symbol), [], LastOccurrences(Logged(settings, after, symbol)), record);
  }

  /** Without restarts or torn writes the live buffer is exactly the bounded deduplication of the whole log. */
  lemma {:induction false} LiveBufferIsExact(settings: Settings, memory: Memory, operations: seq<Operation>, symbol: string)
    requires forall i :: 0 <= i < |operations| ==> operations[i].Remember?
    requires AllAllowed(settings, memory, operations, symbol) && NoneSwallowed(settings, memory, operations, symbol)
    requires Window(settings, memory, symbol, 0)
    ensures
      var live := Run(settings, memory, operations);
      live.Bucket(symbol) == TakeLast(LastOccurrences(Logged(settings, live, symbol)), settings.size)
    decreases |operations|
  {
    hide Events, LastOccurrences;
    if operations == [] {
      var logged := Logged(settings, memory, symbol);
      assert logged[0..] == logged;
    } else {
      var after := After(settings, memory, operations[0]);
      if Appended(settings, operations[0], symbol).Some? {
        RememberKeepsWindow(settings, memory, Appended(settings, operations[0], symbol).value, symbol, 0);
      } else {
        assert after.Lines(settings.fileOf(symbol)) == memory.Lines(settings.fileOf(symbol));
        assert Window(settings, after, symbol, 0);
      }
      LiveBufferIsExact(settings, after, operations[1..], symbol);
    }
  }

  /** Asking for fewer events than the buffer holds sees no effect of its bound. */
  lemma BoundIsInvisible(settings: Settings, memory: Memory, symbol: string, from: nat,
                         exclude: Option<PassiveEvent>, maxItems: nat)
    requires Window(settings, memory, symbol, from)
    requires maxItems < settings.size
    ensures MostRecent(memory.Bucket(symbol), exclude, maxItems) ==
      MostRecent(LastOccurrences(Logged(settings, memory, symbol)[from..]), exclude, maxItems)
  {
    var all := LastOccurrences(Logged(settings, memory, symbol)[from..]);
    var key := ExcludedKey(exclude);
    LastOccurrencesDistinct(Logged(settings, memory, symbol)[from..]);
    var bucket := memory.Bucket(symbol);
    var older := all[..|all| - |bucket|];
    assert all == older + bucket;
    WithoutAppend(older, bucket, key);
    WithoutSize(bucket, key);
    TakeLastOfConcat(Without(older, key), Without(bucket, key), maxItems);
  }
}
