// The scenario of a position-management session: observe, arm, execute, or time out.
module ManagementSession {
  import opened Decimals
  import opened Options
  import opened Conditions

  datatype Scenario = Scenario(observeLow: real, observeHigh: real, condition: Option<Condition>, timeoutSeconds: int)

  datatype Plan = Plan(scenario: Option<Scenario>, historySeconds: int)

  const ARMED_KEY: string := "__scenario__::armed"

  /** The observation band in normal form: a missing end takes the other's value. */
  function ObserveBand(low: real, high: real): (real, real) {
    var lo, hi := Max(0.0, low), Max(0.0, high);
    if lo > 0.0 && hi <= 0.0 then (lo, lo)
    else if hi > 0.0 && lo <= 0.0 then (hi, hi)
    else if lo > hi then (hi, lo)
    else (lo, hi)
  }

  /** An empty band contains every price. */
  predicate InBand(scenario: Scenario, price: real) {
    var (lo, hi) := ObserveBand(scenario.observeLow, scenario.observeHigh);
    (lo <= 0.0 && hi <= 0.0) || lo <= price <= hi
  }

  /**
    * The price is one that starts observation: it lies between the two ends,
    * whichever is lower, or on the one end that is positive, or no end is.
    */
  predicate StartsObservation(scenario: Scenario, price: real) {
    var a, b := scenario.observeLow, scenario.observeHigh;
    if a <= 0.0 && b <= 0.0 then true
    else if a <= 0.0 then price == b
    else if b <= 0.0 then price == a
    else (a <= price && price <= b) || (b <= price && price <= a)
  }

  lemma BandIsExact(scenario: Scenario, price: real)
    ensures InBand(scenario, price) <==> StartsObservation(scenario, price)
  {
  }

  /** What executing the management decision reports back. */
  datatype Execution = Execution(accepted: bool, entryOrderPending: bool, positionOpen: bool)

  /** The reason text a tick returns. */
  datatype Outcome = Nothing | ScenarioTimeout | ActionRejected | ActionExecuted

  /** What a tick did to the session. */
  datatype Event =
    | Skipped    // no session, too early, or no price
    | Closed     // the plan has no scenario
    | Watching   // price recorded, nothing decided
    | TimedOut
    | Executed

  datatype SessionState = SessionState(
    history: seq<Sample>, previous: Option<real>,
    observing: bool, observingAt: Option<real>,
    armed: bool, armedAt: Option<real>,
    completed: bool, executedNames: set<string>)

  const FRESH := SessionState([], None, false, None, false, None, false, {})

  /** `executions` lists the audited executions. */
  datatype AgentState = AgentState(lastTick: real, session: Option<SessionState>, executions: seq<Sample>)

  // ---------- one tick on values ----------

  predicate PastTimeout(scenario: Scenario, observingAt: Option<real>, now: real) {
    observingAt.Some? && observingAt.value != 0.0 && now - observingAt.value > scenario.timeoutSeconds as real
  }

  predicate Met(scenario: Scenario, session: SessionState, price: real, now: real) {
    scenario.condition == None ||
    Holds(scenario.condition.value, price, session.previous, session.history, now, session.observingAt)
  }

  /** The session after the price is recorded and, in the band, observation begins. */
  function Observed(plan: Plan, scenario: Scenario, session: SessionState, price: real, now: real): SessionState {
    var recorded := session.(history := Updated(session.history, price, now, plan.historySeconds));
    if !recorded.observing && InBand(scenario, price) then recorded.(observing := true, observingAt := Some(now))
    else recorded
  }

  function ScenarioEvent(plan: Plan, scenario: Scenario, session: SessionState, price: real, now: real): Event {
    var seen := Observed(plan, scenario, session, price, now);
    if session.completed || !seen.observing then Watching
    else if PastTimeout(scenario, seen.observingAt, now) then TimedOut
    else if !seen.armed && !Met(scenario, seen, price, now) then Watching
    else if ARMED_KEY in seen.executedNames then Watching
    else Executed
  }

  function TickEvent(plan: Plan, riskPoll: real, agent: AgentState, price: Option<real>, now: real): Event {
    if agent.session == None || now - agent.lastTick < riskPoll || price == None then Skipped
    else if plan.scenario == None then Closed
    else ScenarioEvent(plan, plan.scenario.value, agent.session.value, price.value, now)
  }

  /** The session that survives a watching tick; a completed one does not. */
  function Watched(plan: Plan, scenario: Scenario, session: SessionState, price: real, now: real): Option<SessionState> {
    var seen := Observed(plan, scenario, session, price, now).(previous := Some(price));
    if session.completed then
      None
    else if seen.observing && (seen.armed || Met(scenario, seen.(previous := session.previous), price, now)) then
      Some(if seen.armed then seen else seen.(armed := true, armedAt := Some(now)))
    else
      Some(seen)
  }

  function AfterTick(plan: Plan, riskPoll: real, agent: AgentState, price: Option<real>, now: real): AgentState {
    if agent.session == None || now - agent.lastTick < riskPoll then agent
    else
      var ticked := agent.(lastTick := now);
      match TickEvent(plan, riskPoll, agent, price, now)
      case Skipped => ticked
      case Closed | TimedOut => ticked.(session := None)
      case Watching => ticked.(session := Watched(plan, plan.scenario.value, agent.session.value, price.value, now))
      case Executed => ticked.(session := None, executions := agent.executions + [Sample(now, price.value)])
  }

  function TickOutcome(event: Event, execution: Execution): Outcome {
    match event
    case TimedOut => ScenarioTimeout
    case Executed =>
      if !execution.accepted then ActionRejected
      else if execution.positionOpen then ActionExecuted else Nothing
    case _ => Nothing
  }

  /** What a tick reports and changes, told from the event. */
  lemma TickFacts(plan: Plan, riskPoll: real, agent: AgentState, price: Option<real>, now: real, execution: Execution)
    ensures
      var event := TickEvent(plan, riskPoll, agent, price, now);
      var after := AfterTick(plan, riskPoll, agent, price, now);
      && (after.executions != agent.executions <==> event == Executed)
      && (event == Executed ==> after.session == None && price.Some?
                                && after.executions == agent.executions + [Sample(now, price.value)])
      && (event == TimedOut ==> after.session == None)
      && (TickOutcome(event, execution) == ActionRejected <==> event == Executed && !execution.accepted)
      && (TickOutcome(event, execution) == ActionExecuted <==>
            event == Executed && execution.accepted && execution.positionOpen)
      && (TickOutcome(event, execution) == ScenarioTimeout <==> event == TimedOut)
      && after.lastTick == if agent.session.Some? && now >= agent.lastTick + riskPoll then now else agent.lastTick
  {
    hide ScenarioEvent, Watched;
  }

  // ---------- the objects ----------

  class Session {
    const plan: Plan
    var history: seq<Sample>
    var previous: Option<real>
    var observing: bool
    var observingAt: Option<real>
    var armed: bool
    var armedAt: Option<real>
    var completed: bool
    var executedNames: set<string>

    constructor (plan: Plan)
      ensures this.plan == plan && State() == FRESH
    {
      this.plan := plan;
      history, previous, observing, observingAt := [], None, false, None;
      armed, armedAt, completed, executedNames := false, None, false, {};
    }

    function State(): SessionState
      reads this
    {
      SessionState(history, previous, observing, observingAt, armed, armedAt, completed, executedNames)
    }

    /** A plan without scenario has nothing left to complete. */
    predicate ScenariosCompleted()
      reads this
    {
      plan.scenario == None || completed
    }

    method UpdatePrice(price: real, now: real)
      modifies this`history
      ensures history == Updated(old(history), price, now, plan.historySeconds)
    {
      history := history + [Sample(now, price)];
      while history != [] && now - history[0].ts > plan.historySeconds as real
        invariant DropOld(history, now, plan.historySeconds) == Updated(old(history), price, now, plan.historySeconds)
        decreases |history|
      {
        history := history[1..];
      }
    }

    /** Begins observing when the price is in the band; false when still waiting for it. */
    method Observe(scenario: Scenario, price: real, now: real) returns (isObserving: bool)
      modifies this`observing, this`observingAt
      ensures isObserving == observing == (old(observing) || StartsObservation(scenario, price))
      ensures observingAt == if !old(observing) && StartsObservation(scenario, price) then Some(now) else old(observingAt)
    {
      BandIsExact(scenario, price);
      hide InBand, StartsObservation;
      if !observing && InBand(scenario, price) {
        observing, observingAt := true, Some(now);
      }
      isObserving := observing;
    }

    /** Arms when the execution condition is met; false when still waiting for it. */
    method Arm(scenario: Scenario, price: real, now: real) returns (isArmed: bool)
      modifies this`armed, this`armedAt
      ensures isArmed == armed == (old(armed) || old(Met(scenario, State(), price, now)))
      ensures armedAt == if !old(armed) && armed then Some(now) else old(armedAt)
    {
      if !armed {
        var met := true;
        if scenario.condition.Some? {
          met := EvaluateCondition(scenario.condition.value, price, previous, history, now, observingAt);
        }
        if met {
          armed, armedAt := true, Some(now);
        }
      }
      isArmed := armed;
    }
  }

  class Agent {
    const riskPoll: real
    var session: Session?
    var lastTick: real
    var executions: seq<Sample>

    constructor (riskPoll: real, session: Session)
      ensures this.riskPoll == riskPoll && this.session == session
      ensures lastTick == 0.0 && executions == []
    {
      this.riskPoll := riskPoll;
      this.session := session;
      lastTick, executions := 0.0, [];
    }

    function State(): AgentState
      reads this, session
    {
      AgentState(lastTick, if session == null then None else Some(session.State()), executions)
    }

    /** One tick of the position-management session. */
    method Step(price: Option<real>, now: real, execution: Execution) returns (outcome: Outcome)
      modifies this, session
      ensures session == null || session == old(session)
      ensures old(session) == null ==> State() == old(State()) && outcome == Nothing
      ensures old(session) != null ==>
        State() == AfterTick(old(session).plan, riskPoll, old(State()), price, now)
      ensures old(session) != null ==>
        outcome == TickOutcome(TickEvent(old(session).plan, riskPoll, old(State()), price, now), execution)
      ensures outcome == ActionRejected <==> executions != old(executions) && !execution.accepted
      ensures outcome == ActionExecuted <==> executions != old(executions) && execution.accepted && execution.positionOpen
      ensures executions != old(executions) ==>
        session == null && price.Some? && executions == old(executions) + [Sample(now, price.value)]
      ensures outcome == ScenarioTimeout ==> session == null && executions == old(executions)
      ensures lastTick == if old(session) != null && now >= old(lastTick) + riskPoll then now else old(lastTick)
    {
      if session == null {
        return Nothing;
      }
      TickFacts(session.plan, riskPoll, State(), price, now, execution);
      hide TickEvent, AfterTick, TickOutcome;
      outcome := Tick(price, now, execution);
    }

    method Tick(price: Option<real>, now: real, execution: Execution) returns (outcome: Outcome)
      modifies this, session
      ensures session == null || session == old(session)
      ensures old(session) == null ==> State() == old(State()) && outcome == Nothing
      ensures old(session) != null ==>
        State() == AfterTick(old(session).plan, riskPoll, old(State()), price, now)
      ensures old(session) != null ==>
        outcome == TickOutcome(TickEvent(old(session).plan, riskPoll, old(State()), price, now), execution)
    {
      hide Updated, InBand, Holds, Met, PastTimeout;
      if session == null || now - lastTick < riskPoll {
        return Nothing;
      }
      lastTick := now;
      if price == None {
        return Nothing;
      }
      var current := session;
      current.UpdatePrice(price.value, now);
      if current.plan.scenario == None {
        CloseIfCompleted(current);
        return Nothing;
      }
      var scenario := current.plan.scenario.value;
      if current.completed {
        current.previous := price;
        CloseIfCompleted(current);
        return Nothing;
      }
      outcome := RunScenario(current, scenario, price.value, now, execution);
    }

    method RunScenario(current: Session, scenario: Scenario, price: real, now: real, execution: Execution)
      returns (outcome: Outcome)
      requires session == current && !current.completed && current.plan.scenario == Some(scenario)
      modifies this`session, this`executions, current
      ensures session == null || session == current
      ensures
        var seen := if !old(current.observing) && InBand(scenario, price)
                    then old(current.State()).(observing := true, observingAt := Some(now)) else old(current.State());
        if !seen.observing then
          outcome == Nothing && session == current && executions == old(executions)
          && current.State() == seen.(previous := Some(price))
        else if PastTimeout(scenario, seen.observingAt, now) then
          outcome == ScenarioTimeout && session == null && executions == old(executions)
        else if !seen.armed && !Met(scenario, seen, price, now) then
          outcome == Nothing && session == current && executions == old(executions)
          && current.State() == seen.(previous := Some(price))
        else if ARMED_KEY in seen.executedNames then
          outcome == Nothing && session == current && executions == old(executions)
          && current.State() == seen.(previous := Some(price), armed := true,
                                      armedAt := if seen.armed then seen.armedAt else Some(now))
        else
          outcome == TickOutcome(Executed, execution) && session == null
          && executions == old(executions) + [Sample(now, price)]
    {
      BandIsExact(scenario, price);
      hide InBand, StartsObservation, Holds, Met, PastTimeout;
      var observing := current.Observe(scenario, price, now);
      if !observing {
        current.previous := Some(price);
        return Nothing;
      }
      if PastTimeout(scenario, current.observingAt, now) {
        current.completed := true;
        current.previous := Some(price);
        CloseIfCompleted(current);
        return ScenarioTimeout;
      }
      var armed := current.Arm(scenario, price, now);
      if !armed {
        current.previous := Some(price);
        return Nothing;
      }
      if ARMED_KEY !in current.executedNames {
        current.executedNames := current.executedNames + {ARMED_KEY};
        current.completed := true;
        executions := executions + [Sample(now, price)];
        if !execution.accepted {
          CloseIfCompleted(current);
          return ActionRejected;
        }
        session := null;
        if execution.entryOrderPending && !execution.positionOpen {
          return Nothing;
        }
        return if execution.positionOpen then ActionExecuted else Nothing;
      }
      current.previous := Some(price);
      CloseIfCompleted(current);
      return Nothing;
    }

    method CloseIfCompleted(current: Session)
      modifies this`session
      ensures session == if current.ScenariosCompleted() then null else old(session)
    {
      if current.ScenariosCompleted() {
        session := null;
      }
    }
  }
}
