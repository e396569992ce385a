// One polling iteration over every snapshot: preview, at most one new hedge, and
// a fresh read immediately before it.
module Service {
  import opened Models
  import opened Options
  import opened Texts
  import opened Orders
  import opened StateMachine
  import opened StateMachineTheorems
  import opened StateStore
  import opened Coordinator

  /** What the outside supplies while one snapshot is handled. */
  datatype Round = Round(refreshed: seq<Snapshot>, refreshErrors: seq<string>, clock: Instant, env: Environment)

  datatype Notice = AdapterSaid(text: string) | Deferred(symbol: Symbol) | RefreshFailed(symbol: Symbol)

  datatype RunState = RunState(
    file: Cycles,
    attempted: bool,
    results: seq<CoordinatorResult>,
    errors: seq<Notice>,
    effects: seq<Effect<Cycles>>)

  datatype RunError = RunNotEnabled | CycleMismatch(key: CycleKey)
  datatype RunReport = Report(results: seq<CoordinatorResult>, errors: seq<Notice>) | Refused(error: RunError)

  function Find(snapshots: seq<Snapshot>, s: Symbol): (r: Option<Snapshot>)
    ensures r.Some? ==> exists i :: 0 <= i < |snapshots| && FirstOf(snapshots, i, s) && r.value == snapshots[i]
    ensures r.Some? ==> r.value in snapshots && r.value.symbol == s
    ensures r.None? ==> forall x :: x in snapshots ==> x.symbol != s
  {
    if snapshots == [] then None
    else if snapshots[0].symbol == s then
      assert FirstOf(snapshots, 0, s);
      Some(snapshots[0])
    else
      var found := Find(snapshots[1..], s);
      assert found.Some? ==>
        forall i :: 0 <= i < |snapshots[1..]| && FirstOf(snapshots[1..], i, s) ==> FirstOf(snapshots, i + 1, s);
      found
  }

  /** Position i is the first that holds the symbol. */
  predicate FirstOf(snapshots: seq<Snapshot>, i: nat, s: Symbol)
    requires i < |snapshots|
  {
    snapshots[i].symbol == s && forall j :: 0 <= j < i ==> snapshots[j].symbol != s
  }

  function Said(texts: seq<string>): (r: seq<Notice>)
    ensures |r| == |texts|
  {
    seq(|texts|, i requires 0 <= i < |texts| => AdapterSaid(texts[i]))
  }

  predicate AllValid(snapshots: seq<Snapshot>) {
    forall x :: x in snapshots ==> x.Valid()
  }

  predicate Usable(snapshots: seq<Snapshot>, rounds: seq<Round>) {
    && |rounds| == |snapshots|
    && AllValid(snapshots)
    && forall i :: 0 <= i < |rounds| ==> AllValid(rounds[i].refreshed)
  }

  /** The coordinator's answer counts as an attempt to open. */
  predicate OpenAttempted(result: CoordinatorResult) {
    result.decision.action.OpenHedge? && (result.execution.Some? || result.executionError != "")
  }

  /** One snapshot handled while executing. */
  function ExecuteOn(config: Config, state: RunState, chosen: Snapshot, round: Round, errors: seq<Notice>): RunState
    requires config.Valid() && chosen.Valid()
  {
    var tick := Execute(config, Lookup(state.file, chosen.symbol), chosen, round.clock, round.env);
    RunState(
      FileAfter(state.file, tick.effects),
      state.attempted || OpenAttempted(tick.result),
      state.results + [tick.result],
      errors,
      state.effects + OnFile(state.file, tick.effects))
  }

  function PreviewOf(config: Config, state: RunState, snapshot: Snapshot, at: Instant): CoordinatorResult
    requires config.Valid() && snapshot.Valid()
  {
    Preview(config, Lookup(state.file, snapshot.symbol), snapshot, at)
  }

  function RoundStep(config: Config, state: RunState, snapshot: Snapshot, round: Round, at: Instant, execute: bool)
    : RunState
    requires config.Valid() && snapshot.Valid() && AllValid(round.refreshed)
  {
    var preview := PreviewOf(config, state, snapshot, at);
    if !execute then state.(results := state.results + [preview])
    else if !preview.decision.action.OpenHedge? then ExecuteOn(config, state, snapshot, round, state.errors)
    else if state.attempted then
      state.(errors := state.errors + [Deferred(snapshot.symbol)], results := state.results + [preview])
    else
      var errors := state.errors + Said(round.refreshErrors);
      match Find(round.refreshed, snapshot.symbol)
      case None => state.(errors := errors + [RefreshFailed(snapshot.symbol)], results := state.results + [preview])
      case Some(reread) => ExecuteOn(config, state, reread, round, errors)
  }

  /** The first n snapshots handled. */
  function RunRounds(config: Config, start: RunState, snapshots: seq<Snapshot>, rounds: seq<Round>,
                     at: Instant, execute: bool, n: nat): RunState
    requires config.Valid() && Usable(snapshots, rounds) && n <= |snapshots|
  {
    if n == 0 then start
    else RoundStep(config, RunRounds(config, start, snapshots, rounds, at, execute, n - 1),
                   snapshots[n - 1], rounds[n - 1], at, execute)
  }

  function StartOf(file: Cycles, loadErrors: seq<string>): RunState {
    RunState(file, false, [], Said(loadErrors), [])
  }

  /** An active cycle of another account or network. */
  predicate Foreign(config: Config, c: Cycle) {
    c.Active() && !(Lower(c.primaryAddress) == Lower(config.primaryAddress)
                    && Lower(c.hedgeAddress) == Lower(config.hedgeAddress)
                    && c.network == config.network && c.hedgeKind == config.hedgeKind)
  }

  class HedgeService {
    const config: Config
    const coordinator: HedgeCoordinator

    constructor (config: Config, coordinator: HedgeCoordinator)
      ensures this.config == config && this.coordinator == coordinator
    {
      this.config := config;
      this.coordinator := coordinator;
    }

    predicate Ready() {
      && coordinator.config == config && coordinator.Wired()
      && (config.executionEnabled ==> coordinator.executor != null)
    }

    /** One polling iteration, given what the adapter read and what each round meets. */
    method RunOnce(at: Instant, execute: bool, snapshots: seq<Snapshot>, loadErrors: seq<string>, rounds: seq<Round>)
      returns (report: RunReport)
      requires Ready() && Usable(snapshots, rounds) && Filed(coordinator.store.file)
      modifies coordinator.store, coordinator.store.journal,
               if coordinator.executor != null then {coordinator.executor.exchange} else {}
      ensures var file := old(coordinator.store.file);
              var start := StartOf(file, loadErrors);
              var end := RunRounds(config, start, snapshots, rounds, at, execute, |snapshots|);
              if execute && !config.executionEnabled then
                && report == Refused(RunNotEnabled) && coordinator.store.file == file
                && coordinator.store.journal.effects == old(coordinator.store.journal.effects)
              else if exists s :: s in file && Foreign(config, file[s]) then
                && report.Refused? && coordinator.store.file == file
                && coordinator.store.journal.effects == old(coordinator.store.journal.effects)
              else
                && report == Report(end.results, end.errors)
                && coordinator.store.file == end.file && Filed(end.file)
                && coordinator.store.journal.effects == old(coordinator.store.journal.effects) + end.effects
    {
      hide RoundStep, Execute, Preview, Foreign, OnFile, FileAfter;
      if execute && !config.executionEnabled {
        return Refused(RunNotEnabled);
      }
      ghost var file := coordinator.store.file;
      var cycles := coordinator.store.file;
      var unchecked := cycles.Keys;
      while unchecked != {}
        invariant unchecked <= cycles.Keys
        invariant forall s :: s in cycles.Keys - unchecked ==> !Foreign(config, cycles[s])
        decreases |unchecked|
      {
        var s :| s in unchecked;
        if Foreign(config, cycles[s]) {
          return Refused(CycleMismatch(cycles[s].key));
        }
        unchecked := unchecked - {s};
      }
      var attempted := false;
      var results: seq<CoordinatorResult> := [];
      var errors: seq<Notice> := Said(loadErrors);
      ghost var start := StartOf(file, loadErrors);
      ghost var before := coordinator.store.journal.effects;
      ghost var state := start;
      for i := 0 to |snapshots|
        invariant state == RunRounds(config, start, snapshots, rounds, at, execute, i)
        invariant state.attempted == attempted && state.results == results && state.errors == errors
        invariant coordinator.store.file == state.file && Filed(state.file)
        invariant coordinator.store.journal.effects == before + state.effects
      {
        ghost var earlier := coordinator.store.journal.effects;
        attempted, results, errors := Handle(snapshots[i], rounds[i], at, execute, attempted, results, errors, state);
        state := RoundStep(config, state, snapshots[i], rounds[i], at, execute);
      }
      report := Report(results, errors);
    }

    /** The body of the loop over snapshots. */
    method Handle(snapshot: Snapshot, round: Round, at: Instant, execute: bool, attemptedSoFar: bool,
                  resultsSoFar: seq<CoordinatorResult>, errorsSoFar: seq<Notice>, ghost state: RunState)
      returns (attempted: bool, results: seq<CoordinatorResult>, errors: seq<Notice>)
      requires Ready() && snapshot.Valid() && AllValid(round.refreshed)
      requires execute ==> config.executionEnabled
      requires state.file == coordinator.store.file && Filed(state.file)
      requires state.attempted == attemptedSoFar && state.results == resultsSoFar && state.errors == errorsSoFar
      modifies coordinator.store, coordinator.store.journal,
               if coordinator.executor != null then {coordinator.executor.exchange} else {}
      ensures var after := RoundStep(config, state, snapshot, round, at, execute);
              && attempted == after.attempted && results == after.results && errors == after.errors
              && coordinator.store.file == after.file && Filed(after.file)
              && (exists added :: after.effects == state.effects + added
                    && coordinator.store.journal.effects == old(coordinator.store.journal.effects) + added)
    {
      hide Execute, Preview, FileAfter, OnFile;
      ghost var none: seq<Effect<Cycles>> := [];
      attempted, results, errors := attemptedSoFar, resultsSoFar, errorsSoFar;
      var processed := coordinator.Process(snapshot, at, false, Some(round.clock), round.env);
      var preview := processed.result;
      assert state.effects == state.effects + none;
      if execute && preview.decision.action.OpenHedge? && attempted {
        errors := errors + [Deferred(snapshot.symbol)];
        results := results + [preview];
        return;
      }
      var selected := snapshot;
      if execute && preview.decision.action.OpenHedge? {
        errors := errors + Said(round.refreshErrors);
        var found := Find(round.refreshed, snapshot.symbol);
        if found.None? {
          errors := errors + [RefreshFailed(snapshot.symbol)];
          results := results + [preview];
          return;
        }
        selected := found.value;
      }
      var result := preview;
      if execute {
        TickStaysFiled(config, coordinator.store.file, selected, round.clock, round.env);
        processed := coordinator.Process(selected, at, true, Some(round.clock), round.env);
        result := processed.result;
        if OpenAttempted(result) {
          attempted := true;
        }
      }
      results := results + [result];
    }
  }

  /** A live record is foreign exactly when it differs from the configuration in an account, the network or the kind. */
  lemma ForeignExactly(config: Config, c: Cycle)
    ensures !Foreign(config, c) <==>
              c.status in {Completed, Aborted, RecoveryRequired}
              || (c.network == config.network && c.hedgeKind == config.hedgeKind
                  && Lower(c.primaryAddress) == Lower(config.primaryAddress)
                  && Lower(c.hedgeAddress) == Lower(config.hedgeAddress))
  {
  }

  /** A tick writes only its own symbol's record. */
  lemma TickStaysInLane(config: Config, file: Cycles, snapshot: Snapshot, now: Instant, env: Environment)
    requires config.Valid() && snapshot.Valid() && Filed(file)
    ensures AllFor(snapshot.symbol, Execute(config, Lookup(file, snapshot.symbol), snapshot, now, env).effects)
  {
    var stored := Lookup(file, snapshot.symbol);
    var reconciled := Reconcile(config, stored, snapshot, now);
    ReconcileStaysInLane(config, stored, snapshot, now);
    var decision := Decide(config, snapshot, now, reconciled);
    ActDecision(config, snapshot, now, reconciled, env);
    ActStaysInLane(config, decision, reconciled, now, env);
    hide Reconcile, Decide, Act;
  }

  /** A tick keeps every record filed under its own symbol. */
  lemma TickStaysFiled(config: Config, file: Cycles, snapshot: Snapshot, now: Instant, env: Environment)
    requires config.Valid() && snapshot.Valid() && Filed(file)
    ensures Filed(FileAfter(file, Execute(config, Lookup(file, snapshot.symbol), snapshot, now, env).effects))
  {
    TickStaysInLane(config, file, snapshot, now, env);
    hide Execute;
    FiledAfter(file, snapshot.symbol, Execute(config, Lookup(file, snapshot.symbol), snapshot, now, env).effects);
  }

  lemma {:induction false} FiledAfter(file: Cycles, s: Symbol, effects: seq<Effect<Cycle>>)
    requires Filed(file) && AllFor(s, effects)
    ensures Filed(FileAfter(file, effects))
  {
    if effects != [] && !effects[|effects| - 1].Stored? {
      FiledAfter(file, s, effects[..|effects| - 1]);
    }
  }
}
