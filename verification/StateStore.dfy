// The state file and the transaction that edits it under the process lock.
module StateStore {
  import opened Models
  import opened Options
  import opened Orders

  type Cycles = map<Symbol, Cycle>

  /** Every externally visible step so far, in order; a crash keeps a prefix of it. */
  class Journal {
    ghost var effects: seq<Effect<Cycles>>

    constructor ()
      ensures effects == []
    {
      effects := [];
    }
  }

  /** The records a reader accepts: each filed under its own symbol. */
  predicate Filed(cycles: Cycles) {
    forall s :: s in cycles ==> cycles[s].symbol == s
  }

  function Lookup(cycles: Cycles, s: Symbol): Option<Cycle> {
    if s in cycles then Some(cycles[s]) else None
  }

  /** A tick's effects on one record, as effects on the whole file. */
  function OnFile(file: Cycles, effects: seq<Effect<Cycle>>): seq<Effect<Cycles>> {
    seq(|effects|, i requires 0 <= i < |effects| => LiftEffect(file, effects[i]))
  }

  function LiftEffect(file: Cycles, e: Effect<Cycle>): Effect<Cycles> {
    match e
    case Stored(c) => Stored(file[c.symbol := c])
    case Asked(r) => Asked(r)
    case Posted(o) => Posted(o)
  }

  /** The file once the effects have all happened. */
  function FileAfter(file: Cycles, effects: seq<Effect<Cycle>>): Cycles {
    if effects == [] then file
    else
      var last := effects[|effects| - 1];
      if last.Stored? then file[last.data.symbol := last.data] else FileAfter(file, effects[..|effects| - 1])
  }

  /** A tick that submits leaves the file holding its last record. */
  lemma SubmissionOnFile(file: Cycles, intent: seq<Effect<Cycle>>, calls: seq<Effect<Cycle>>,
                         sameCalls: seq<Effect<Cycles>>, final: Cycle)
    requires |calls| == |sameCalls|
    requires forall i :: 0 <= i < |calls| ==> !calls[i].Stored? && sameCalls[i] == LiftEffect(file, calls[i])
    ensures OnFile(file, intent + calls + [Stored(final)])
            == OnFile(file, intent) + sameCalls + [Stored(file[final.symbol := final])]
    ensures FileAfter(file, intent + calls + [Stored(final)]) == file[final.symbol := final]
  {
  }

  class CycleStateStore {
    var file: Cycles
    const journal: Journal

    constructor (journal: Journal)
      ensures file == map[] && this.journal == journal
    {
      file := map[];
      this.journal := journal;
    }

    /** Atomically replaces the state file. */
    method WriteUnlocked(cycles: Cycles)
      modifies this, journal
      ensures file == cycles
      ensures journal.effects == old(journal.effects) + [Stored(cycles)]
    {
      file := cycles;
      journal.effects := journal.effects + [Stored(cycles)];
    }
  }

  class CycleTransaction {
    var cycles: Cycles
    var dirty: bool
    const store: CycleStateStore

    constructor (store: CycleStateStore)
      ensures this.store == store && cycles == store.file && !dirty
    {
      this.store := store;
      cycles := store.file;
      dirty := false;
    }

    method Put(cycle: Cycle)
      modifies this
      ensures cycles == old(cycles)[cycle.symbol := cycle] && dirty
    {
      cycles := cycles[cycle.symbol := cycle];
      dirty := true;
    }

    /** Nothing is written unless something was put since the last write. */
    method Flush()
      modifies this, store, store.journal
      ensures cycles == old(cycles) && !dirty
      ensures store.file == if old(dirty) then old(cycles) else old(store.file)
      ensures store.journal.effects
              == old(store.journal.effects) + if old(dirty) then [Stored(old(cycles))] else []
    {
      if dirty {
        store.WriteUnlocked(cycles);
        dirty := false;
      }
    }
  }
}
