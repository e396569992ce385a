// Concrete inputs at which tempting stronger claims about the market agent fail.
module AgentWitnesses {
  import opened Options
  import opened Sequences
  import opened Texts
  import opened EventRecords
  import opened EventBuffer
  import opened EventBufferTheorems
  import Opposite = OppositeEvent

  // ---------- a torn write swallows the next record ----------

  function OneTime(): TimeFormat {
    TimeFormat((text: string) => Some(0), (t: Instant) => "t")
  }

  function DemoSettings(): Settings {
    Settings(OneTime(), 10, 10, (symbol: string) => symbol, (file: string) => file)
  }

  function DemoEvent(id: string): PassiveEvent {
    PassiveEvent("s", id, "", "", "t", "t", [], "t", [])
  }

  lemma DemoFormatIsFaithful()
    ensures OneTime().Faithful()
  {
  }

  lemma DemoIsNormal(id: string, now: string)
    requires id != "" && Stripped(id)
    ensures Normalize(OneTime(), DemoEvent(id), now) == DemoEvent(id)
    ensures KeyOf(DemoEvent(id)) == "s" + ":" + id
  {
    assert TimeFields(DemoEvent(id))[0] == "t";
  }

  lemma DemoAccepted(id: string, now: string)
    requires id != "" && Stripped(id)
    ensures SymbolName("A") == "A"
    ensures Accepted(DemoSettings(), Some(DemoEvent(id)), "A", now) == Some(DemoEvent(id))
    ensures Readable(OneTime(), DemoEvent(id))
  {
    DemoIsNormal(id, now);
    assert Upper("A")[0] == 'A';
    forall later ensures Normalize(OneTime(), DemoEvent(id), later) == DemoEvent(id) {
      DemoIsNormal(id, later);
    }
  }

  const FIRST := Entry("A", DemoEvent("0"))

  /** The two states of the demo's log file that matter. */
  predicate DemoLog(file: LogFile) {
    file == LogFile([FIRST], Some(Damaged)) || file == LogFile([FIRST, Damaged], None)
  }

  lemma DemoTail(file: LogFile)
    requires DemoLog(file)
    ensures file.Readable() == [FIRST, Damaged]
    ensures Events(TakeLast(file.Readable(), 10)) == [DemoEvent("0")]
  {
    assert [FIRST] + [Damaged] == [FIRST, Damaged] && [FIRST, Damaged] + [] == [FIRST, Damaged];
    EventsPush([], FIRST);
    assert [] + [FIRST] == [FIRST];
    EventsPush([FIRST], Damaged);
  }

  lemma DemoFiled(memory: Memory)
    requires memory.files.Keys == {"A"} && DemoLog(memory.files["A"])
    ensures WellFiled(DemoSettings(), memory) && OwnFile(DemoSettings(), memory, "A")
    ensures AllLogs(memory, ["A"])
    ensures Tail(DemoSettings(), memory, "A") == [DemoEvent("0")]
  {
    DemoAccepted("0", "");
    DemoTail(memory.files["A"]);
    hide Readable, Normalize, Events;
    assert LineFits(DemoSettings(), "A", FIRST) && LineFits(DemoSettings(), "A", Damaged);
    hide LineFits, DemoLog;
    assert memory.Lines("A") == [FIRST, Damaged];
  }

  lemma DemoRebuilt(memory: Memory)
    requires memory.files.Keys == {"A"} && DemoLog(memory.files["A"])
    ensures Rebuilt(DemoSettings(), memory, ["A"], "").Bucket("A") == [DemoEvent("0")]
  {
    DemoFiled(memory);
    RebuiltBufferIsLogTail(DemoSettings(), memory, ["A"], "", "A");
    assert [DemoEvent("0")][1..] == [];
    assert LastOccurrences([DemoEvent("0")]) == [DemoEvent("0")];
    hide Rebuilt, Tail;
  }

  /**
    * One logged event, a write cut short, a restart, and one more event: the live
    * buffer holds both events, while a restart would find only the first.
    */
  lemma TornWriteSwallowsTheNextRecord()
    ensures DemoSettings().format.Faithful()
    ensures
      var start := Memory(map[], map["A" := LogFile([FIRST], None)]);
      var operations := [Tear(Some(DemoEvent("1")), "A", "", Part), Restart(["A"], ""), Remember(Some(DemoEvent("1")), "A", "")];
      var live := Run(DemoSettings(), start, operations);
      && live.Bucket("A") == [DemoEvent("0"), DemoEvent("1")]
      && Rebuilt(DemoSettings(), live, ["A"], "").Bucket("A") == [DemoEvent("0")]
      && !Together(DemoSettings(), live, "A", ["A"], "")
  {
    DemoFormatIsFaithful();
    var settings := DemoSettings();
    var start := Memory(map[], map["A" := LogFile([FIRST], None)]);
    var tear, restart := Tear(Some(DemoEvent("1")), "A", "", Part), Restart(["A"], "");
    var remember := Remember(Some(DemoEvent("1")), "A", "");
    DemoAccepted("0", "");
    DemoAccepted("1", "");
    hide Accepted, Normalize, KeyOf, Readable, Rebuilt;
    var torn := After(settings, start, tear);
    var restarted := After(settings, torn, restart);
    var live := After(settings, restarted, remember);
    assert torn.files["A"] == LogFile([FIRST], Some(Damaged));
    DemoRebuilt(torn);
    RebuiltKeepsFiles(settings, torn, ["A"], "");
    assert restarted.files["A"] == LogFile([FIRST], Some(Damaged));
    AppendSwallows(restarted);
    DemoRebuilt(live);
    DemoBucket(restarted);
    ThreeSteps(settings, start, tear, restart, remember);
  }

  lemma AppendSwallows(memory: Memory)
    requires memory.files.Keys == {"A"} && memory.files["A"] == LogFile([FIRST], Some(Damaged))
    ensures
      var after := Remembered(DemoSettings(), memory, DemoEvent("1"), "A");
      after.files.Keys == {"A"} && after.files["A"] == LogFile([FIRST, Damaged], None)
  {
    assert [FIRST] + [Damaged] == [FIRST, Damaged];
  }

  lemma RebuiltKeepsFiles(settings: Settings, memory: Memory, paths: seq<string>, now: string)
    ensures Rebuilt(settings, memory, paths, now).files == memory.files
    ensures memory.buffers == map[] ==> memory.(buffers := map[]) == memory
  {
  }

  lemma DemoKeysDiffer()
    ensures KeyOf(DemoEvent("0")) != KeyOf(DemoEvent("1"))
  {
    hide KeyOf, Normalize;
    DemoIsNormal("0", "");
    DemoIsNormal("1", "");
    assert ("s" + ":" + "0")[2] != ("s" + ":" + "1")[2];
  }

  lemma DemoBucket(memory: Memory)
    requires memory.Bucket("A") == [DemoEvent("0")]
    ensures Remembered(DemoSettings(), memory, DemoEvent("1"), "A").Bucket("A") == [DemoEvent("0"), DemoEvent("1")]
  {
    hide KeyOf, Identified, KeyTime, Strip, Normalize, DemoEvent;
    DemoKeysDiffer();
    assert [DemoEvent("0")][1..] == [];
    assert Without([DemoEvent("0")], KeyOf(DemoEvent("1"))) == [DemoEvent("0")];
    hide Without;
  }

  lemma ThreeSteps(settings: Settings, start: Memory, a: Operation, b: Operation, c: Operation)
    ensures Run(settings, start, [a, b, c]) == After(settings, After(settings, After(settings, start, a), b), c)
  {
    hide After;
    assert [a, b, c][1..] == [b, c] && [b, c][1..] == [c] && [c][1..] == [];
    assert Run(settings, start, [a, b, c]) == Run(settings, After(settings, start, a), [b, c]);
    assert Run(settings, After(settings, start, a), [b, c])
        == Run(settings, After(settings, After(settings, start, a), b), [c]);
  }

  // ---------- a reload changes a key ----------

  /** Only the word "now" reads as a time. */
  function OnlyNow(): TimeFormat {
    TimeFormat((text: string) => if text == "now" then Some(0) else None, (t: Instant) => "now")
  }

  /** An event with a title and a blank seen time. */
  function Blank(): PassiveEvent {
    PassiveEvent("", "", "", "title", "", "", [], " ", [])
  }

  /** Reloading the record of an event without identifier or time gives it another key. */
  lemma ReloadChangesKey()
    ensures OnlyNow().Faithful()
    ensures
      var record := Normalize(OnlyNow(), Blank(), "now");
      KeyOf(record) != "" && KeyOf(Normalize(OnlyNow(), record, "now")) != KeyOf(record)
  {
    NowIsATime();
    BlankIsUnsettled();
    hide Normalize, KeyOf, KeyTime, Settled, Identified, OnlyNow, Strip;
    UnsettledKeyFollowsTheClock(OnlyNow(), Blank(), "now", "now");
    TitleGivesKey(Blank().(seenAt := ""));
  }

  lemma NowIsATime()
    ensures OnlyNow().Faithful() && Strip("now") == "now"
    ensures OnlyNow().parse("now") == Some(0) && OnlyNow().render(0) == "now"
  {
    assert Stripped("now") && "now" != "";
  }

  lemma BlankIsUnsettled()
    ensures !Settled(OnlyNow(), Blank(), "now") && !Identified(Blank())
    ensures Normalize(OnlyNow(), Blank(), "now") == Blank().(seenAt := "")
  {
    BlankStrips();
    hide Strip;
    var seen := Blank().(seenAt := "");
    assert TimeFields(seen) == ["", "", ""];
    assert FirstTime(OnlyNow(), TimeFields(seen)) == None;
  }

  lemma BlankStrips()
    ensures Strip(" ") == "" && Strip("") == "" && Strip("title") == "title"
  {
    assert " "[1..] == "";
    assert StripLeft(" ") == "";
    assert Stripped("title");
  }

  lemma TitleGivesKey(event: PassiveEvent)
    requires event == Blank().(seenAt := "")
    ensures KeyOf(event) != "" && KeyTime(event) == ""
  {
    BlankStrips();
    hide Strip;
  }

  // ---------- a clear that does not forget ----------

  /** After a clear the management session's trigger confidence is found again, with no weight. */
  lemma ClearedBasisReturns()
    ensures
      var management := Opposite.Holder(Opposite.Long, Some(0.8), Some(0.7), Some(1.0));
      var holders := Opposite.Holders(Opposite.Holder(Opposite.Long, Some(0.8), None, Some(1.0)), None, Some(management));
      && Opposite.CurrentBasis(holders, Opposite.Long) == Some(Opposite.Basis(0.8, 1.0))
      && Opposite.CurrentBasis(Opposite.Cleared(holders), Opposite.Long) == Some(Opposite.Basis(0.7, 0.0))
  {
  }
}
