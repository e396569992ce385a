// When a management session executes, over any sequence of ticks.
module SessionTheorems {
  import opened Options
  import opened Conditions
  import opened ConditionTheorems
  import opened ManagementSession

  datatype Tick = Tick(price: Option<real>, now: real)

  function Run(plan: Plan, riskPoll: real, start: AgentState, ticks: seq<Tick>): AgentState {
    if ticks == [] then start
    else
      var n := |ticks| - 1;
      AfterTick(plan, riskPoll, Run(plan, riskPoll, start, ticks[..n]), ticks[n].price, ticks[n].now)
  }

  /** The prices the session was shown: ticks past the poll interval, with a price, while it lived. */
  function Shown(plan: Plan, riskPoll: real, start: AgentState, ticks: seq<Tick>): seq<Sample> {
    if ticks == [] then []
    else
      var n := |ticks| - 1;
      var before := Run(plan, riskPoll, start, ticks[..n]);
      Shown(plan, riskPoll, start, ticks[..n]) +
      if TickEvent(plan, riskPoll, before, ticks[n].price, ticks[n].now) == Skipped then []
      else [Sample(ticks[n].now, ticks[n].price.value)]
  }

  // ---------- the declarative account ----------

  /** Observation begins at the first price in the band. */
  predicate ObservedFrom(scenario: Scenario, shown: seq<Sample>, j: nat) {
    && j < |shown|
    && InBand(scenario, shown[j].price)
    && forall i :: 0 <= i < j ==> !InBand(scenario, shown[i].price)
  }

  predicate Late(scenario: Scenario, shown: seq<Sample>, j: nat, k: nat)
    requires j <= k < |shown|
  {
    PastTimeout(scenario, Some(shown[j].ts), shown[k].ts)
  }

  /** The execution condition holds at price k of the stream, observed since price j. */
  predicate Ready(plan: Plan, scenario: Scenario, shown: seq<Sample>, j: nat, k: nat)
    requires j <= k < |shown|
  {
    scenario.condition == None ||
    Holds(scenario.condition.value, shown[k].price, if k == 0 then None else Some(shown[k - 1].price),
          Pruned(shown[..k + 1], plan.historySeconds), shown[k].ts, Some(shown[j].ts))
  }

  /** Nothing was decided from price j up to but not including price k. */
  predicate Undecided(plan: Plan, scenario: Scenario, shown: seq<Sample>, j: nat, k: nat)
    requires j <= k <= |shown|
  {
    forall m :: j <= m < k ==> !Late(scenario, shown, j, m) && !Ready(plan, scenario, shown, j, m)
  }

  /** The last shown price is the first ready one, and in time. */
  predicate Fires(plan: Plan, scenario: Scenario, shown: seq<Sample>, j: nat) {
    && ObservedFrom(scenario, shown, j)
    && Undecided(plan, scenario, shown, j, |shown| - 1)
    && !Late(scenario, shown, j, |shown| - 1)
    && Ready(plan, scenario, shown, j, |shown| - 1)
  }

  ghost predicate SomeFires(plan: Plan, scenario: Scenario, shown: seq<Sample>) {
    exists j: nat :: Fires(plan, scenario, shown, j)
  }

  /** The last shown price came too late and nothing was ready before. */
  predicate Expires(plan: Plan, scenario: Scenario, shown: seq<Sample>, j: nat) {
    && ObservedFrom(scenario, shown, j)
    && Undecided(plan, scenario, shown, j, |shown| - 1)
    && Late(scenario, shown, j, |shown| - 1)
  }

  /** A surviving session: either no price was in the band, or it observes since the first one. */
  ghost predicate Waiting(plan: Plan, scenario: Scenario, shown: seq<Sample>, session: SessionState) {
    && session.history == Pruned(shown, plan.historySeconds)
    && session.previous == (if shown == [] then None else Some(shown[|shown| - 1].price))
    && !session.armed && !session.completed && session.executedNames == {}
    && (!session.observing ==> forall i :: 0 <= i < |shown| ==> !InBand(scenario, shown[i].price))
    && (session.observing ==> exists j: nat :: ObservesSince(plan, scenario, shown, session, j))
  }

  predicate ObservesSince(plan: Plan, scenario: Scenario, shown: seq<Sample>, session: SessionState, j: nat) {
    && ObservedFrom(scenario, shown, j)
    && session.observingAt == Some(shown[j].ts)
    && Undecided(plan, scenario, shown, j, |shown|)
  }

  /** The state of a run in terms of the prices shown alone. */
  ghost predicate Accounted(plan: Plan, scenario: Scenario, shown: seq<Sample>, agent: AgentState) {
    match agent.session
    case Some(session) => agent.executions == [] && Waiting(plan, scenario, shown, session)
    case None =>
      shown != [] &&
      if agent.executions == [] then exists j: nat :: Expires(plan, scenario, shown, j)
      else agent.executions == [shown[|shown| - 1]] && exists j: nat :: Fires(plan, scenario, shown, j)
  }

  // ---------- one tick ----------

  lemma PrunedPush(shown: seq<Sample>, sample: Sample, keepSeconds: int)
    ensures Pruned(shown + [sample], keepSeconds) ==
      Updated(Pruned(shown, keepSeconds), sample.price, sample.ts, keepSeconds)
  {
    assert (shown + [sample])[..|shown|] == shown;
  }

  /** Later prices do not change what was decided earlier. */
  lemma EarlierIsUnchanged(plan: Plan, scenario: Scenario, shown: seq<Sample>, sample: Sample, j: nat)
    requires ObservedFrom(scenario, shown, j)
    ensures ObservedFrom(scenario, shown + [sample], j)
    ensures Undecided(plan, scenario, shown + [sample], j, |shown|) == Undecided(plan, scenario, shown, j, |shown|)
  {
    var all := shown + [sample];
    forall m | j <= m < |shown|
      ensures Late(scenario, all, j, m) == Late(scenario, shown, j, m)
      ensures Ready(plan, scenario, all, j, m) == Ready(plan, scenario, shown, j, m)
    {
      assert all[..m + 1] == shown[..m + 1];
    }
  }

  /** The state in which the tick's decision is taken, described by the stream. */
  lemma ReadyMatchesMet(plan: Plan, scenario: Scenario, shown: seq<Sample>, session: SessionState, sample: Sample, j: nat)
    requires Waiting(plan, scenario, shown, session)
    requires j <= |shown|
    ensures
      var seen := session.(history := Updated(session.history, sample.price, sample.ts, plan.historySeconds),
                           observingAt := Some((shown + [sample])[j].ts));
      Met(scenario, seen, sample.price, sample.ts) == Ready(plan, scenario, shown + [sample], j, |shown|)
  {
    PrunedPush(shown, sample, plan.historySeconds);
    assert (shown + [sample])[..|shown| + 1] == shown + [sample];
  }

  lemma StartsNow(plan: Plan, scenario: Scenario, shown: seq<Sample>, sample: Sample)
    requires forall i :: 0 <= i < |shown| ==> !InBand(scenario, shown[i].price)
    ensures InBand(scenario, sample.price) ==>
      ObservedFrom(scenario, shown + [sample], |shown|) && Undecided(plan, scenario, shown + [sample], |shown|, |shown|)
    ensures !InBand(scenario, sample.price) ==>
      forall i :: 0 <= i <= |shown| ==> !InBand(scenario, (shown + [sample])[i].price)
  {
  }

  /** Observation since price j, where j is the new price itself when it is the first in the band. */
  lemma ObservationIndex(plan: Plan, scenario: Scenario, shown: seq<Sample>, session: SessionState, sample: Sample)
    returns (j: nat)
    requires Waiting(plan, scenario, shown, session)
    requires session.observing || InBand(scenario, sample.price)
    ensures j <= |shown|
    ensures ObservedFrom(scenario, shown + [sample], j)
    ensures Undecided(plan, scenario, shown + [sample], j, |shown|)
    ensures Observed(plan, scenario, session, sample.price, sample.ts).observingAt == Some((shown + [sample])[j].ts)
  {
    if session.observing {
      j :| ObservesSince(plan, scenario, shown, session, j);
      EarlierIsUnchanged(plan, scenario, shown, sample, j);
    } else {
      j := |shown|;
      StartsNow(plan, scenario, shown, sample);
    }
  }

  lemma SeenIs(plan: Plan, scenario: Scenario, session: SessionState, sample: Sample)
    requires session.observing || InBand(scenario, sample.price)
    ensures
      var seen := Observed(plan, scenario, session, sample.price, sample.ts);
      && seen.observing
      && seen == session.(history := Updated(session.history, sample.price, sample.ts, plan.historySeconds),
                          observing := true, observingAt := seen.observingAt)
  {
  }

  lemma UndecidedPush(plan: Plan, scenario: Scenario, shown: seq<Sample>, j: nat, k: nat)
    requires j <= k < |shown|
    requires Undecided(plan, scenario, shown, j, k)
    requires !Late(scenario, shown, j, k) && !Ready(plan, scenario, shown, j, k)
    ensures Undecided(plan, scenario, shown, j, k + 1)
  {
  }

  lemma MetIgnoresFlags(scenario: Scenario, a: SessionState, b: SessionState, price: real, now: real)
    requires a.history == b.history && a.previous == b.previous && a.observingAt == b.observingAt
    ensures Met(scenario, a, price, now) == Met(scenario, b, price, now)
  {
  }

  /** One shown price decides exactly as the declarative account says. */
  lemma {:induction false} ScenarioStep(plan: Plan, scenario: Scenario, shown: seq<Sample>, session: SessionState, sample: Sample)
    returns (j: nat)
    requires Waiting(plan, scenario, shown, session)
    ensures
      var event := ScenarioEvent(plan, scenario, session, sample.price, sample.ts);
      var all := shown + [sample];
      match event
      case Executed => Fires(plan, scenario, all, j)
      case TimedOut => Expires(plan, scenario, all, j)
      case Watching =>
        var after := Watched(plan, scenario, session, sample.price, sample.ts);
        after.Some? && Waiting(plan, scenario, all, after.value)
      case _ => false
  {
    var all := shown + [sample];
    PrunedPush(shown, sample, plan.historySeconds);
    if session.observing || InBand(scenario, sample.price) {
      j := ObservationIndex(plan, scenario, shown, session, sample);
      SeenIs(plan, scenario, session, sample);
      var seen := Observed(plan, scenario, session, sample.price, sample.ts);
      ReadyMatchesMet(plan, scenario, shown, session, sample, j);
      MetIgnoresFlags(scenario, seen, session.(history := seen.history, observingAt := seen.observingAt), sample.price, sample.ts);
      var event := ScenarioEvent(plan, scenario, session, sample.price, sample.ts);
      hide Pruned, Updated, InBand, Met, Ready, PastTimeout, Holds, ObservedFrom, Undecided, Observed;
      if event == Watching {
        UndecidedPush(plan, scenario, all, j, |shown|);
        var after := Watched(plan, scenario, session, sample.price, sample.ts);
        assert ObservesSince(plan, scenario, all, after.value, j);
      }
    } else {
      j := 0;
      StartsNow(plan, scenario, shown, sample);
    }
  }

  /** Where the timer fits the kept history, readiness is that of the whole price stream. */
  lemma ReadyOnWholeStream(plan: Plan, scenario: Scenario, shown: seq<Sample>, j: nat, k: nat)
    requires j <= k < |shown| && Monotone(shown)
    requires scenario.condition.Some? && 0 < scenario.condition.value.timerSeconds <= plan.historySeconds
    ensures Ready(plan, scenario, shown, j, k) ==
      Holds(scenario.condition.value, shown[k].price, if k == 0 then None else Some(shown[k - 1].price),
            shown[..k + 1], shown[k].ts, Some(shown[j].ts))
  {
    var stream := shown[..k + 1];
    TimerWithinHistoryIsKept(scenario.condition.value, stream, plan.historySeconds, shown[k].ts, Some(shown[j].ts));
    PruningIsInvisible(scenario.condition.value, shown[k].price, if k == 0 then None else Some(shown[k - 1].price),
                       stream, plan.historySeconds, shown[k].ts, Some(shown[j].ts));
    hide Holds, Pruned;
  }

  // ---------- every run ----------

  lemma {:induction false} RunIsAccounted(plan: Plan, riskPoll: real, start: AgentState, ticks: seq<Tick>)
    requires plan.scenario.Some? && start.session == Some(FRESH) && start.executions == []
    ensures Accounted(plan, plan.scenario.value, Shown(plan, riskPoll, start, ticks), Run(plan, riskPoll, start, ticks))
  {
    var scenario := plan.scenario.value;
    if ticks != [] {
      var n := |ticks| - 1;
      RunIsAccounted(plan, riskPoll, start, ticks[..n]);
      AccountedStep(plan, riskPoll, Shown(plan, riskPoll, start, ticks[..n]),
                    Run(plan, riskPoll, start, ticks[..n]), ticks[n]);
    }
  }

  lemma {:induction false} AccountedStep(plan: Plan, riskPoll: real, shown: seq<Sample>, agent: AgentState, tick: Tick)
    requires plan.scenario.Some?
    requires Accounted(plan, plan.scenario.value, shown, agent)
    ensures
      var event := TickEvent(plan, riskPoll, agent, tick.price, tick.now);
      var after := AfterTick(plan, riskPoll, agent, tick.price, tick.now);
      Accounted(plan, plan.scenario.value,
                shown + if event == Skipped then [] else [Sample(tick.now, tick.price.value)], after)
  {
    hide Waiting, Fires, Expires, ScenarioEvent, Watched;
    var event := TickEvent(plan, riskPoll, agent, tick.price, tick.now);
    if event == Skipped {
      assert shown + [] == shown;
    } else {
      var sample := Sample(tick.now, tick.price.value);
      var j := ScenarioStep(plan, plan.scenario.value, shown, agent.session.value, sample);
    }
  }

  /** The first price in the band is unique, so firing and expiring exclude each other. */
  lemma FiresOrExpires(plan: Plan, scenario: Scenario, shown: seq<Sample>, i: nat, j: nat)
    requires Fires(plan, scenario, shown, i)
    ensures !Expires(plan, scenario, shown, j)
  {
  }

  lemma WaitingNeverFires(plan: Plan, scenario: Scenario, shown: seq<Sample>, session: SessionState, i: nat)
    requires Waiting(plan, scenario, shown, session)
    ensures !Fires(plan, scenario, shown, i)
  {
    hide InBand, Late, Ready, Pruned;
    if session.observing {
      var j: nat :| ObservesSince(plan, scenario, shown, session, j);
      if ObservedFrom(scenario, shown, i) {
        assert i == j;
        assert !Ready(plan, scenario, shown, j, |shown| - 1);
      }
    }
  }

  /** A session executes exactly when the last price it was shown is the first ready one, in time. */
  lemma ExecutesExactlyWhenReadyInTime(plan: Plan, riskPoll: real, start: AgentState, ticks: seq<Tick>)
    requires plan.scenario.Some? && start.session == Some(FRESH) && start.executions == []
    ensures
      Run(plan, riskPoll, start, ticks).executions != []
      <==> SomeFires(plan, plan.scenario.value, Shown(plan, riskPoll, start, ticks))
  {
    RunIsAccounted(plan, riskPoll, start, ticks);
    var scenario := plan.scenario.value;
    var shown := Shown(plan, riskPoll, start, ticks);
    var agent := Run(plan, riskPoll, start, ticks);
    AccountedExactly(plan, scenario, shown, agent);
  }

  lemma AccountedExactly(plan: Plan, scenario: Scenario, shown: seq<Sample>, agent: AgentState)
    requires Accounted(plan, scenario, shown, agent)
    ensures agent.executions != [] <==> SomeFires(plan, scenario, shown)
  {
    hide Waiting, Fires, Expires;
    if i: nat :| Fires(plan, scenario, shown, i) {
      NotAccountedWithoutExecution(plan, scenario, shown, agent, i);
    }
  }

  lemma NotAccountedWithoutExecution(plan: Plan, scenario: Scenario, shown: seq<Sample>, agent: AgentState, i: nat)
    requires Accounted(plan, scenario, shown, agent) && Fires(plan, scenario, shown, i)
    ensures agent.executions != []
  {
    hide Waiting, Fires, Expires;
    if agent.session.Some? {
      WaitingNeverFires(plan, scenario, shown, agent.session.value, i);
    } else if agent.executions == [] {
      var j: nat :| Expires(plan, scenario, shown, j);
      FiresOrExpires(plan, scenario, shown, i, j);
    }
  }

  lemma {:induction false} ShownAreTicks(plan: Plan, riskPoll: real, start: AgentState, ticks: seq<Tick>)
    ensures forall sample :: sample in Shown(plan, riskPoll, start, ticks) ==>
      Tick(Some(sample.price), sample.ts) in ticks
  {
    if ticks != [] {
      var n := |ticks| - 1;
      ShownAreTicks(plan, riskPoll, start, ticks[..n]);
      assert ticks == ticks[..n] + [ticks[n]];
    }
  }

  /**
    * Over any ticks with positive clock values a session executes at most once,
    * no earlier than a price in its band and no later than its timeout after
    * that price; and a session that survives is never armed.
    */
  lemma ExecutesOnceAndInTime(plan: Plan, riskPoll: real, start: AgentState, ticks: seq<Tick>)
    requires plan.scenario.Some? && start.session == Some(FRESH) && start.executions == []
    requires forall i :: 0 <= i < |ticks| ==> ticks[i].now > 0.0
    ensures
      var agent := Run(plan, riskPoll, start, ticks);
      var shown := Shown(plan, riskPoll, start, ticks);
      && |agent.executions| <= 1
      && (agent.session.Some? ==> agent.executions == [] && !agent.session.value.armed && !agent.session.value.completed)
      && (agent.executions != [] ==> ExecutedAtLast(agent.executions, shown))
      && (agent.executions != [] ==> exists j :: InTime(plan.scenario.value, shown, j))
  {
    RunIsAccounted(plan, riskPoll, start, ticks);
    ShownAreTicks(plan, riskPoll, start, ticks);
    var agent := Run(plan, riskPoll, start, ticks);
    var shown := Shown(plan, riskPoll, start, ticks);
    hide Run, Shown, InBand, Ready, Pruned, Undecided;
    if agent.executions != [] {
      var j: nat :| Fires(plan, plan.scenario.value, shown, j);
      assert shown[j] in shown;
      BandIsExact(plan.scenario.value, shown[j].price);
      assert InTime(plan.scenario.value, shown, j);
    }
  }

  /** Price j is the first that starts observation, and the last price follows it after more than the timeout. */
  predicate TooLate(scenario: Scenario, shown: seq<Sample>, j: nat) {
    && j < |shown|
    && StartsObservation(scenario, shown[j].price)
    && (forall i :: 0 <= i < j ==> !StartsObservation(scenario, shown[i].price))
    && shown[|shown| - 1].ts - shown[j].ts > scenario.timeoutSeconds as real
  }

  /** A session that ends without executing was observed, and ran out of time. */
  lemma EndsUnexecutedOnlyTooLate(plan: Plan, riskPoll: real, start: AgentState, ticks: seq<Tick>)
    requires plan.scenario.Some? && start.session == Some(FRESH) && start.executions == []
    requires Run(plan, riskPoll, start, ticks).session == None && Run(plan, riskPoll, start, ticks).executions == []
    ensures exists j :: TooLate(plan.scenario.value, Shown(plan, riskPoll, start, ticks), j)
  {
    RunIsAccounted(plan, riskPoll, start, ticks);
    var scenario := plan.scenario.value;
    var shown := Shown(plan, riskPoll, start, ticks);
    hide Run, Shown, Ready, Pruned, Undecided;
    var j: nat :| Expires(plan, scenario, shown, j);
    forall i | 0 <= i <= j ensures InBand(scenario, shown[i].price) <==> StartsObservation(scenario, shown[i].price) {
      BandIsExact(scenario, shown[i].price);
    }
    hide InBand, StartsObservation;
    assert TooLate(scenario, shown, j);
  }

  predicate ExecutedAtLast(executions: seq<Sample>, shown: seq<Sample>) {
    shown != [] && executions == [shown[|shown| - 1]]
  }

  /** Price j starts observation and the last price follows it within the timeout. */
  predicate InTime(scenario: Scenario, shown: seq<Sample>, j: nat) {
    && j < |shown|
    && StartsObservation(scenario, shown[j].price)
    && shown[|shown| - 1].ts - shown[j].ts <= scenario.timeoutSeconds as real
  }
}
