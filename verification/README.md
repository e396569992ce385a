# Funding hedge and market agent: verified model

A Dafny model of a trading system's two stateful parts.

**The temporary funding hedge.** A coordinator polls two accounts, a *primary* that
holds a position and a *hedge* that may briefly oppose it, so that the primary need
not pay the next hourly funding. It reconciles a persisted cycle record with what
the exchange reports, lets a policy decide, writes its intent to a state file before
acting, and then sends at most one immediate-or-cancel order. Orders may be lost,
rejected, partially filled or ambiguous, and the process may crash between any two
externally visible effects. The model keeps each effect of a tick (a state file
replaced, the executor called, an order posted) as an element of a sequence; a crash
keeps a prefix of it.

**The market agent's bounded structures.** A log reader, a loader of recent events, an
event buffer rebuilt from its log, price-bar resampling, a fill deduplicator, price
conditions over a pruned history, the scenario of a position-management session, and
the weighing of evidence against an open position.

## Layout

| file | content |
|---|---|
| `Options`, `Sequences`, `Sorting`, `Texts`, `Decimals` | shared vocabulary: options, ends of sequences, stable sorting, text handling, the size lattice |
| `Models` | configuration, snapshots, cycle records, decisions |
| `Policy`, `PolicyTheorems` | sizing, economics and the decision ladder, and what they guarantee |
| `Orders` | what one executor call puts on the wire and learns |
| `StateMachine`, `StateMachineTheorems`, `TickTheorems` | reconciliation and one tick as values; idempotence; lawfulness of every effect; single-tick results |
| `Protocol`, `ProtocolTheorems` | the transition system of disk, clock, running tick, snapshots, wire and exchange; its invariant; safety over all runs |
| `StateStore`, `Executor`, `Coordinator`, `Service` | the classes that perform a tick and a polling iteration, proved against `StateMachine` |
| `AnswerTheorems` | how the executor's answers and the exchange's reports reach the record |
| `ServiceTheorems` | how often and for what an iteration asks to open |
| `Demo`, `Witnesses`, `RunWitnesses`, `AgentWitnesses` | a small concrete account; concrete inputs, and runs from the empty state, at which stronger claims fail |
| `ReverseReader`, `RecentEvents` | the backward chunked reader and the loader on top of it |
| `EventRecords`, `EventBuffer`, `EventBufferTheorems` | event keys, the move-to-end buffer, its rebuild |
| `Resample`, `ResampleTheorems` | bars grouped by time; the tower law |
| `UserFills` | the bounded deduplicator |
| `Conditions`, `ConditionTheorems`, `ManagementSession`, `SessionTheorems` | price conditions and the scenario that uses them |
| `OppositeEvent`, `OppositeEventTheorems` | the opposite-event decision and the decaying basis |

Functions that only compute follow the source expression by expression and carry no
row of their own: `Policy.Evaluate` (`funding_fee_avoidance/policy.py:74-350`),
`StateMachine.Reconcile` (`funding_fee_avoidance/state_machine.py:84-198`),
`StateMachine.Execute` and `Preview` (`funding_fee_avoidance/state_machine.py:230-440`),
`Orders.OpenAttempt` and `CloseAttempt` (`funding_fee_avoidance/executor.py:220-307`),
`Service.RunRounds` (`funding_fee_avoidance/service.py:53-147`), `Conditions.Holds`
(`market_agent/conditions.py:75-142`), `ManagementSession.AfterTick`
(`market_agent/agent_execution_loop.py:1894-2004`), `OppositeEvent.Decide` and `Updated`
(`market_agent/agent_materialization.py:314-482`). The theorems below are about them,
and the classes are proved to compute them.

## Properties found false, with their exact conditions

- A tick leaves the record waiting on the same submitted close exactly when the hedge is still there,
  the close has not ended and is inside its retry delay, no pending adjustment resolves, and some gate of
  waiting is shut (`TickTheorems.CloseIntentSurvivesExactly`). Lost closes: `Witnesses.CloseIntentIsForgotten`
  (the policy waits), `ResolvedAdjustmentForgetsClose` (it adjusts), and `ResolvedAdjustmentRepeatsClose`
  (a second close is asked for while the first is inside its delay).
- A flat account after a submitted close completes the cycle exactly when no adjustment was
  pending; otherwise it ends in recovery (`TickTheorems.FlatAfterCloseEnds`). Such a record is reachable:
  `RunWitnesses.PendingCloseEndsInRecovery`.
- A crash between the first two writes of an opening leaves an armed record that is kept exactly
  while the account is flat and free of unknown orders (`TickTheorems.ArmedIsStuckWhileFlat`); the run is
  `RunWitnesses.ArmedRecordIsReachable`.
- Past the confirmation timeout, once the retry delays of the submissions in doubt have passed and if a
  pending adjustment has not grown or flipped the hedge, a tick asks for a fresh reduction, except exactly when
  the adjustment reports filled and the hedge has not moved: then it stops for recovery
  (`TickTheorems.ForcedExitDoesNotWedge`, `RunWitnesses.FilledWithoutEffectStops`). Over runs the second
  condition follows when the adjustment was decided on the hedge as it was in the same cycle
  (`ProtocolTheorems.ForcedExitInRuns`).
- One polling iteration does not open at most once, even with the coordinator's clock pinned to the preview: a
  failure whose text is empty does not count as an attempt (`Witnesses.WordlessFailureOpensTwice`), and a moving
  clock opens what its preview declined (`Witnesses.MovingClockOpensTwice`). The exact number of openings is
  late plus silent plus at most one noticed (`ServiceTheorems.OpeningsCounted`), so at most one exactly when these
  number at most one together (`AtMostOneOpenExactly`); an opening is silent exactly when the failure text is empty
  (`NoticedUnlessTextIsEmpty`), and for an idle record of another settlement late exactly when the entry window was shut at the preview and
  the snapshot is worth opening by the later clock (`LateExactly`). A caller can rule both out beforehand by the clocks,
  entry windows and failure texts (`AtMostOneOpenWhenSettled`).
- A torn write leaves a remainder that swallows the next record, after which live and rebuilt buffers can
  disagree (`AgentWitnesses.TornWriteSwallowsTheNextRecord`). Remembering a new record keeps the live buffer an end
  of the deduplicated log exactly when the log ended clean (`EventBufferTheorems.RememberAgreesExactly`), and over
  runs of new records exactly when no record is appended to a remainder (`LogKeepsUpExactly`).
- A reloaded event keeps its key unless it has neither an identifier nor any readable time nor a
  non-blank seen time; then the key follows the reload's clock (`EventRecords.UnsettledKeyFollowsTheClock`,
  `AgentWitnesses.ReloadChangesKey`).
- A sustained condition whose timer exceeds the kept history is never met, though prices that meet it
  exist (`ConditionTheorems.LongTimerIsNeverMet`, `LongTimerWouldBeMet`).
- The strict test of a sustained condition is redundant unless a tolerance is applied to a negative
  level, and there it always decides some stream (`ConditionTheorems.SustainedExactly`, `HardDecidesForNegativeLevels`).
- Clearing a basis does not forget it exactly when a management session still carries a trigger confidence
  (`OppositeEventTheorems.ClearedBasisMayReturn`, `AgentWitnesses.ClearedBasisReturns`).

## Model

| member | source | states |
|---|---|---|
| `Decimals.QuantizeDownIsGreatestLatticePoint` | funding_fee_avoidance/policy.py:30-34 | rounding down gives the greatest representable size not above a positive value; other values give zero |
| `Decimals.QuantizeDownMonotone` | funding_fee_avoidance/policy.py:30-34 | a larger value never rounds to a smaller size |
| `Models.NextHour` | funding_fee_avoidance/hyperliquid_adapter.py:49-51 | the next settlement is a whole hour, strictly later and at most one hour away |
| `Models.NextHourMonotone` | funding_fee_avoidance/hyperliquid_adapter.py:49-51 | later observations never name earlier settlements |
| `Models.EarlierSettlementPassed` | funding_fee_avoidance/hyperliquid_adapter.py:49-51 | a settlement before the next hour has already passed, so a new key appears only after the old settlement |
| `PolicyTheorems.TargetQuantityIsBest` | funding_fee_avoidance/policy.py:47-72 | the target is the largest lattice size within the hedge ratio, the notional cap and, when flat, what the withdrawable amount beyond the reserve carries at the leverage and safety margin |
| `PolicyTheorems.MarginGateNeverFires` | funding_fee_avoidance/policy.py:313-318 | in exact arithmetic the late insufficient-margin refusal is unreachable |
| `PolicyTheorems.OpensExactlyWhenWorthwhile` | funding_fee_avoidance/policy.py:113-153 | the decision is to open if and only if the account is flat, the entry gates hold, and the funding earned on the best affordable size less the charges of opening and closing it and one risk buffer, scaled by the safety factor, is at least the configured minimum |
| `PolicyTheorems.OpenIsSound` | funding_fee_avoidance/policy.py:281-327 | an opened hedge opposes the primary, is the best affordable lattice size, its credit is at most the primary's debit, and the net funding after the charges of two executions and one buffer is at most the debit less the minimum saving |
| `PolicyTheorems.RoundTripIsTwoExecutions` | funding_fee_avoidance/policy.py:136-153 | a round trip costs the fee, extra fee and slippage of an opening and again of a closing execution, and one risk buffer, times the safety factor |
| `PolicyTheorems.ExitShrinks` | funding_fee_avoidance/policy.py:189-251 | every close or adjustment is reduce-only and moves the hedge strictly toward zero without crossing it |
| `PolicyTheorems.WaitIsUnconfirmed` | funding_fee_avoidance/policy.py:227-260 | waiting is decided only for a live hedge whose funding is unconfirmed in both snapshot and record, before the confirmation timeout |
| `PolicyTheorems.WaitsExactly` | funding_fee_avoidance/policy.py:189-260 | a live hedge of its own cycle is waited for if and only if the primary is opposed and pays, data are available, the hedge is within its band, nothing is confirmed in snapshot or record, the timeout has not passed and no unknown order is open |
| `PolicyTheorems.ActionExactly` | funding_fee_avoidance/policy.py:174-280 | recovery, adjustment, waiting and closing are each decided if and only if their gates hold; a flat live record is otherwise left alone |
| `PolicyTheorems.ForcedExit` | funding_fee_avoidance/policy.py:189-251 | past settlement plus confirmation timeout the decision for a tracked hedge is to close or adjust |
| `PolicyTheorems.OpeningIsStable` | funding_fee_avoidance/policy.py:47-72 | after an opening fills by any amount, re-evaluation with the same primary, mark and decimals never adjusts it |
| `PolicyTheorems.TrimmingConverges` | funding_fee_avoidance/policy.py:220-226 | after an adjustment fills completely the same data ask for no further adjustment |
| `PolicyTheorems.DeadBandIsExact` | funding_fee_avoidance/policy.py:220-226 | on lattice sizes the half-quantum dead band is exactly: current exceeds target in magnitude |
| `Orders.PostedMatchesRequest` | funding_fee_avoidance/executor.py:220-307 | a posted order has the request's symbol, id, direction, size and reduce-only flag, and an opening's expiry is no later than its deadline |
| `AnswerTheorems.PostedWhenPrepared` | funding_fee_avoidance/executor.py:162-256 | an order is posted if and only if the symbol is allowed, the size is not zero, set-up, leverage and price succeed, and both clock readings are before the deadline |
| `AnswerTheorems.PostedExpiry` | funding_fee_avoidance/executor.py:185-195 | a posted order expires after the validity or at the deadline, whichever is earlier |
| `AnswerTheorems.OutcomeIsWhatIsHeard` | funding_fee_avoidance/executor.py:25-68 | a posted order counts as executed if and only if its reply takes it or refuses it with a text, and otherwise nothing is known |
| `StateMachineTheorems.ReconcileIsIdempotent` | funding_fee_avoidance/state_machine.py:84-198 | reconciling twice against one snapshot and time equals reconciling once, from every status and pending adjustment |
| `StateMachineTheorems.PreviewPredictsExecution` | funding_fee_avoidance/state_machine.py:239-273 | at one time and store the preview's decision is the decision the execution acts on |
| `StateMachineTheorems.ReconcileKeeps` | funding_fee_avoidance/state_machine.py:84-198 | reconciliation keeps a record's identity, counters, ids and confirmation, and ends it only flat |
| `StateMachineTheorems.LaterKeyIsFresh` | funding_fee_avoidance/state_machine.py:32-36 | no id of a later settlement's key was ever used |
| `StateMachineTheorems.ExecuteIsLawful` | funding_fee_avoidance/state_machine.py:230-440 | every effect of a tick, under any answers, is a write that continues the record or starts a later cycle on a quiet lane, or an order announced by the record already on disk with an id never sent before |
| `TickTheorems.PostedEqualsDelta` | funding_fee_avoidance/state_machine.py:277-428 | every order of a tick is for its symbol and its signed size is exactly the policy's delta |
| `AnswerTheorems.AnswersReachTheRecord` | funding_fee_avoidance/state_machine.py:277-428 | after a request that is taken the record is the stored intent; a refusal aborts the opening, reopens the close or clears the adjustment; an unknown fate changes nothing but the error; each if and only if |
| `AnswerTheorems.ReportsReachTheRecord` | funding_fee_avoidance/state_machine.py:100-188 | a live record takes exactly the status that size, order report and delays imply for an opening, a close or a held hedge, and the reported size and funding |
| `AnswerTheorems.AdjustmentReachesTheRecord` | funding_fee_avoidance/state_machine.py:120-146 | a pending adjustment is cleared if and only if the hedge shrank, the order failed, or its delay passed without effect; filled without effect stops; otherwise the rest follows as without it |
| `AnswerTheorems.OtherRecords` | funding_fee_avoidance/state_machine.py:90-98 | an ended record is left alone and one of another account stops |
| `AnswerTheorems.QuietTicksReachTheRecord` | funding_fee_avoidance/state_machine.py:318-347 | a waiting tick records how much is hedged or that funding is awaited, a recovery tick stops, and a holding one changes nothing |
| `TickTheorems.ForcedExitDoesNotWedge` | funding_fee_avoidance/state_machine.py:120-184 | past the timeout and the retry delays, with a hedge a pending adjustment has not grown or flipped, a tick asks for a reduction under the next unused id, except exactly when an adjustment reports filled without effect, which stops for recovery |
| `TickTheorems.FlatAfterCloseEnds` | funding_fee_avoidance/state_machine.py:120-176 | a flat account after a submitted close completes if and only if no adjustment is pending, and otherwise requires recovery |
| `TickTheorems.ArmedIsStuckWhileFlat` | funding_fee_avoidance/state_machine.py:280-290 | an armed record stays armed if and only if the account is flat without unknown orders |
| `TickTheorems.CloseIntentSurvivesExactly` | funding_fee_avoidance/state_machine.py:120-184 | the record waits on the same submitted close after a tick if and only if the close is in doubt, no pending adjustment resolves, and some gate of waiting is shut |
| `Protocol.InitInv` | funding_fee_avoidance/state_machine.py:57-72 | the invariant holds with no records, no orders and flat hedges |
| `Protocol.StepInv` | funding_fee_avoidance/state_machine.py:230-440 | every step (time, read, begin, one effect, crash, delivery of any fill) keeps the invariant |
| `Protocol.OpenNeedsQuiet` | funding_fee_avoidance/policy.py:261-327 | an opening is decided only when nothing is held and no opening order can still arrive |
| `Protocol.FillIsExact` | funding_fee_avoidance/executor.py:283-296 | a fill adds to or takes from the position, and a reduce-only fill takes at most what is there |
| `Protocol.ExpiryIsExact` | funding_fee_avoidance/executor.py:185-195 | an order can be delivered exactly before its expiry |
| `Protocol.DeliveryIsExact` | funding_fee_avoidance/executor.py:249-257 | a posted order is filled at most once, by any part of its size, before its expiry, and changes only its symbol's position |
| `Protocol.TimeAndCrashAreFree` | funding_fee_avoidance/state_store.py:92-97 | time may pass and the process may stop at any moment; a crash loses only what the tick had not done |
| `Protocol.StaleSnapshotsMayBeUsed` | funding_fee_avoidance/service.py:94-133 | any snapshot read may be acted on at any later moment when no tick is running |
| `ProtocolTheorems.IdsSentOnce` | funding_fee_avoidance/state_machine.py:32-36 | over every run with crashes, no client order id is posted twice |
| `ProtocolTheorems.IdsRebuiltFromDisk` | funding_fee_avoidance/state_machine.py:277-428 | every posted id is open:1, close:i or adjust:i within the stored counters, or belongs to an earlier settlement |
| `ProtocolTheorems.OpeningsAdvance` | funding_fee_avoidance/state_machine.py:249-298 | of two openings of a symbol the later is for a strictly later settlement and the earlier has expired: one per settlement, one unexpired at a time |
| `ProtocolTheorems.OpeningExpiresBeforeSettlement` | funding_fee_avoidance/executor.py:185-195 | an opening expires no later than the entry cutoff before its settlement |
| `ProtocolTheorems.HedgeWithinTarget` | funding_fee_avoidance/policy.py:71-72 | the hedge is part of its cycle's target, on the target's side, and zero without a record |
| `ProtocolTheorems.HedgeNeverFlips` | funding_fee_avoidance/executor.py:283-296 | no step flips a hedge, and only an opening from flat enlarges one |
| `ProtocolTheorems.OrdersNeedARecord` | funding_fee_avoidance/state_machine.py:277-428 | every order is posted under an active record naming its id, and only reduce-only orders while a hedge is held |
| `ProtocolTheorems.RecordsMoveForward` | funding_fee_avoidance/state_machine.py:299-428 | over any part of a run a record keeps identity and confirmation, counters never fall, an ended cycle is frozen, and another key is a strictly later settlement |
| `ProtocolTheorems.EndedWithoutHedge` | funding_fee_avoidance/state_machine.py:148-184 | a completed or aborted cycle is recorded with size zero and replaced only for a later settlement |
| `ProtocolTheorems.HeldHedgeOnlyShrinks` | funding_fee_avoidance/executor.py:283-296 | within one cycle of any run a held hedge only shrinks toward zero |
| `ProtocolTheorems.ForcedExitInRuns` | funding_fee_avoidance/state_machine.py:120-184 | over runs, with the adjustment decided on the hedge of the same cycle and the snapshot read after it, the exit past the timeout does not wedge |
| `StateStore.CycleStateStore.WriteUnlocked` | funding_fee_avoidance/state_store.py:68-90 | the file becomes the given records and the journal grows by that one write |
| `StateStore.CycleTransaction.Put` | funding_fee_avoidance/state_store.py:23-25 | the record is filed under its symbol in memory and the transaction is dirty; the file is untouched |
| `StateStore.CycleTransaction.Flush` | funding_fee_avoidance/state_store.py:27-30 | a dirty transaction writes once and becomes clean; a clean one writes nothing |
| `StateStore.SubmissionOnFile` | funding_fee_avoidance/state_store.py:92-97 | a tick that submits leaves the file holding its last record |
| `Coordinator.HedgeCoordinator.Write` | funding_fee_avoidance/state_store.py:23-30 | one put and flush adds exactly one write to what has happened since the file was read |
| `Executor.HedgeExecutor.SetActionExpiry` | funding_fee_avoidance/executor.py:185-195 | the expiry set is the earlier of now plus the validity and the deadline; a passed deadline is refused and nothing is set |
| `Executor.HedgeExecutor.OpenHedge` | funding_fee_avoidance/executor.py:220-268 | journal and outcome are those of the opening attempt, with both deadline checks and the leverage reply |
| `Executor.HedgeExecutor.CloseHedge` | funding_fee_avoidance/executor.py:270-307 | journal and outcome are those of the reduce-only attempt |
| `Coordinator.HedgeCoordinator.OpenBranch` | funding_fee_avoidance/state_machine.py:277-316 | armed and submitted records are written, in that order, before the executor is asked |
| `Coordinator.HedgeCoordinator.AdjustBranch` | funding_fee_avoidance/state_machine.py:349-396 | the adjustment counter is written before the executor is asked; a pending adjustment sends nothing |
| `Coordinator.HedgeCoordinator.CloseBranch` | funding_fee_avoidance/state_machine.py:398-428 | the close counter is written before the executor is asked; a live close sends nothing |
| `Coordinator.HedgeCoordinator.Process` | funding_fee_avoidance/state_machine.py:230-440 | a preview changes nothing; an execution grows the journal by exactly the tick's effects and leaves their last record on file; the error cases change nothing |
| `Coordinator.TickOnFile` | funding_fee_avoidance/state_machine.py:244-273 | the tick on one symbol's record, lifted to the whole file, leaves every other record as it was |
| `Service.Find` | funding_fee_avoidance/service.py:118-121 | the re-read snapshot is the first of its symbol; none only when there is none |
| `Service.ForeignExactly` | funding_fee_avoidance/service.py:63-78 | a live record is foreign if and only if an account, the network or the kind differs from the configuration |
| `ServiceTheorems.ExecuteOpenCalls` | funding_fee_avoidance/state_machine.py:277-316 | a tick asks to open once if its decision is to open, and otherwise never |
| `ServiceTheorems.OpeningsCounted` | funding_fee_avoidance/service.py:92-140 | the number of requests to open is exactly late plus silent plus noticed openings, and at most one opening is noticed |
| `ServiceTheorems.AtMostOneOpenExactly` | funding_fee_avoidance/service.py:92-140 | an iteration opens at most once if and only if late, silent and noticed openings number at most one together |
| `ServiceTheorems.NoticedUnlessTextIsEmpty` | funding_fee_avoidance/service.py:134-139 | an opening counts as an attempt if and only if the executor did not fail with an empty text |
| `ServiceTheorems.LateExactly` | funding_fee_avoidance/service.py:95-131 | for an idle record of another settlement, a snapshot opens after its preview declined if and only if it is openable by the later clock and the entry window was shut at the preview |
| `ServiceTheorems.AtMostOneOpenWhenSettled` | funding_fee_avoidance/service.py:92-140 | with distinct symbols, steady clocks or windows and non-empty failure texts, all checkable beforehand, at most one opening, whether or not the clock moves |
| `ServiceTheorems.AtMostOneOpen` | funding_fee_avoidance/service.py:92-140 | with the clock pinned to the preview and non-empty failure texts, at most one opening per iteration |
| `ServiceTheorems.EveryDecisionProcessed` | funding_fee_avoidance/service.py:92-140 | every snapshot gets its one answer in its place: executed as read if its preview does not open, the preview if an opening was attempted or nothing was re-read, else the execution of the re-read snapshot |
| `ServiceTheorems.AttemptRemembered` | funding_fee_avoidance/service.py:134-139 | the iteration remembers an attempt if and only if some answer so far opened and was executed or failed with a text |
| `ServiceTheorems.RoundRemembers` | funding_fee_avoidance/service.py:94-140 | a round's notices are exactly a deferral, or the errors of the re-read and its failure |
| `ServiceTheorems.OnlyTheRereadOpens` | funding_fee_avoidance/service.py:107-133 | unless it opens late, a round asks to open only after an opening preview with nothing attempted, and for the re-read snapshot with that snapshot's delta |
| `ServiceTheorems.PinnedOnlyTheRereadOpens` | funding_fee_avoidance/service.py:107-133 | so with the pinned clock every request to open is for the re-read snapshot |
| `Service.HedgeService.RunOnce` | funding_fee_avoidance/service.py:53-147 | the loop's results, errors, journal and file are those of the specified fold over the snapshots |
| `Service.HedgeService.Handle` | funding_fee_avoidance/service.py:94-140 | one snapshot is handled as the specified round |
| `Witnesses.MovingClockOpensTwice` | funding_fee_avoidance/service.py:90-95 | two symbols read and previewed just before the window, at one instant, are both opened inside it |
| `Witnesses.WordlessFailureOpensTwice` | funding_fee_avoidance/service.py:134-139 | with the clock pinned, two failures with empty texts make two openings |
| `Witnesses.CloseIntentIsForgotten` | funding_fee_avoidance/state_machine.py:319-347 | a concrete tick overwrites a submitted close with waiting |
| `Witnesses.ResolvedAdjustmentForgetsClose` | funding_fee_avoidance/state_machine.py:120-129 | an adjustment that shrank the hedge takes the submitted close with it though the policy does not wait |
| `Witnesses.ResolvedAdjustmentRepeatsClose` | funding_fee_avoidance/state_machine.py:120-129 | and a second close is asked for while the first is inside its retry delay |
| `RunWitnesses.ArmedRecordIsReachable` | funding_fee_avoidance/state_machine.py:280-290 | a run with one crash ends with an armed record that the next tick keeps |
| `RunWitnesses.PendingCloseEndsInRecovery` | funding_fee_avoidance/state_machine.py:120-176 | a run ends with a submitted close and a pending adjustment, which a flat account turns into recovery |
| `RunWitnesses.FilledWithoutEffectStops` | funding_fee_avoidance/state_machine.py:133-135 | a run ends with a pending adjustment that, reported filled without effect, stops the cycle ten minutes past settlement |
| `ReverseReader.SplitLosesNothing` | market_agent/events.py:46 | joining the split pieces with newlines restores every content |
| `ReverseReader.SplitAcross` | market_agent/events.py:42-47 | bytes put in front of a suffix change only its first piece |
| `ReverseReader.NonBlankKeepsText` | market_agent/events.py:48-53 | a line is kept if and only if some byte is not ASCII white space |
| `ReverseReader.ReadReverse` | market_agent/events.py:34-53 | for every content and chunk size the result is the file's non-blank lines, last first |
| `RecentEvents.KeptOncePerKey` | market_agent/memory_state.py:98-118 | deduplication keeps every key exactly once and is idempotent |
| `RecentEvents.KeyTellsApart` | market_agent/memory_state.py:108-113 | two events share a key if and only if item id, url, title and time agree |
| `RecentEvents.UsableExactly` | market_agent/memory_state.py:78-97 | an item is usable if and only if it is an object with a source, a title and a time that are not blank, and its parts are stripped |
| `RecentEvents.KeptAreFirst` | market_agent/memory_state.py:98-118 | the kept events are the first occurrences, in order |
| `RecentEvents.Normalize` | market_agent/memory_state.py:98-118 | the loop over items yields exactly the deduplicated usable events |
| `RecentEvents.Shown` | market_agent/memory_state.py:119-126 | what is shown of each event is its title |
| `RecentEvents.ReadRecord` | market_agent/memory_state.py:139-150 | a line that is not a record contributes nothing |
| `RecentEvents.LoadRecent` | market_agent/memory_state.py:127-159 | the early-stopping backward loader returns the last `limit` events of the in-order concatenation of all records |
| `EventRecords.FirstTime` | market_agent/events.py:56-68 | the first field that can be read gives the time, and none does exactly when no field can be read |
| `EventRecords.NormalizedExactly` | market_agent/events.py:71-82 | the seen time is filled in and stripped, the first readable time is written out, and otherwise the event time stays or the seen time serves |
| `EventRecords.KeysTellEventsApart` | market_agent/agent_passive_events.py:37-51 | events of one source share a key if and only if their identifiers agree or, without any, title and time agree; an event has no key exactly when source, title and time are blank |
| `Texts.BlankStrips` | market_agent/agent_passive_events.py:52-53 | stripping leaves nothing exactly of a text of white space |
| `Texts.StrippedMiddle` | market_agent/agent_passive_events.py:52-53 | stripping takes white space, and nothing else, from both ends |
| `EventRecords.ReloadKeepsKey` | market_agent/events.py:71-82 | normalising a kept record again keeps its key if a time can be read, the seen time is not blank, or it has an identifier |
| `EventRecords.UnsettledKeyFollowsTheClock` | market_agent/events.py:71-82 | otherwise the key survives exactly the reloads whose clock renders as the time it had |
| `AgentWitnesses.ReloadChangesKey` | market_agent/events.py:71-82 | a concrete event whose key changes on reload |
| `EventBuffer.MoveToEnd` | market_agent/agent_passive_events.py:231-234 | removing a key and appending the event is last-occurrence deduplication of the longer history |
| `EventBuffer.TrimmedMove` | market_agent/agent_passive_events.py:231-234 | bounding before the move loses nothing that bounding after it keeps |
| `EventBuffer.LastOccurrencesOfEnd` | market_agent/agent_passive_events.py:255-278 | deduplicating the end of a history gives an end of its deduplication |
| `EventBuffer.EventMemory.Remember` | market_agent/agent_passive_events.py:220-235 | the symbol's buffer gets the event at its end, bounded, and the log one entry; events without object, symbol or key change nothing |
| `EventBuffer.EventMemory.Persist` | market_agent/agent_passive_events.py:291-307 | one entry joins the symbol's file, sharing the line of a cut-off remainder if there is one; no other file changes |
| `EventBuffer.EventMemory.HydrateFile` | market_agent/agent_passive_events.py:254-278 | one file's tail is loaded as the specified fold, skipping damaged lines |
| `EventBuffer.LineBelongsTo` | market_agent/agent_passive_events.py:262-267 | a line belongs to the symbol it names, and only one that names none to its file's |
| `EventBuffer.EventMemory.Hydrate` | market_agent/agent_passive_events.py:236-279 | all buffers are replaced by those loaded from the files; the files do not change |
| `EventBuffer.EventMemory.Recent` | market_agent/agent_passive_events.py:280-290 | the events of the symbol's buffer from some position on, in order, without the excluded key, at most the limit, and older ones are missing only when the limit is reached |
| `EventBufferTheorems.RebuiltBufferIsLogTail` | market_agent/agent_passive_events.py:236-279 | a rebuilt buffer is the bounded last-occurrence deduplication of the log's tail |
| `EventBufferTheorems.LiveBufferIsExact` | market_agent/agent_passive_events.py:220-235 | without restarts or torn writes the live buffer is the last `size` entries of the deduplication of everything logged |
| `EventBufferTheorems.LiveAndRebuiltAgree` | market_agent/agent_passive_events.py:220-279 | after any run of remembers, restarts and torn writes in which no record is appended to a remainder, live and rebuilt buffers are both ends of the deduplicated log, so one is an end of the other |
| `EventBufferTheorems.AppendLogs` | market_agent/agent_passive_events.py:306-307 | a record appended to a clean file is logged; one appended to a remainder is lost together with it |
| `EventBufferTheorems.RememberAgreesExactly` | market_agent/agent_passive_events.py:220-279 | remembering a new record keeps the live buffer an end of the deduplicated log if and only if the file ended clean, and live and rebuilt agree if and only if so or nothing would be rebuilt |
| `EventBufferTheorems.LogKeepsUpExactly` | market_agent/agent_passive_events.py:220-279 | over runs of new records the live buffer stays an end of the deduplicated log throughout if and only if no record is appended to a remainder |
| `AgentWitnesses.TornWriteSwallowsTheNextRecord` | market_agent/agent_passive_events.py:306-307 | one logged event, a torn write, a restart and one more event: the live buffer holds both, a rebuild only the first |
| `EventBufferTheorems.BoundIsInvisible` | market_agent/agent_passive_events.py:280-290 | asking for fewer events than the bound, with one key excluded, never sees the bound |
| `Sorting.SortIsStable` | cross_asset/trend_fetcher.py:347-352 | sorting orders, keeps every element and keeps equal keys in order |
| `Resample.ResampleBars` | cross_asset/trend_fetcher.py:346-371 | grouping into buckets and summarising each equals one streaming pass over the sorted bars; an unknown timeframe has no result |
| `Resample.Group` | cross_asset/trend_fetcher.py:351-354 | the buckets are created in ascending order and each summarises to its candle |
| `Resample.MergeAssociates` | cross_asset/trend_fetcher.py:359-370 | merging candles is associative |
| `ResampleTheorems.TowerLaw` | cross_asset/trend_fetcher.py:341-371 | resampling to a timeframe and then to a multiple of it is resampling to the multiple, for all bars |
| `ResampleTheorems.SupportedTower` | cross_asset/trend_fetcher.py:24-31 | so it holds between any two supported timeframes |
| `Resample.MinutesOf` | cross_asset/trend_fetcher.py:24-31 | the five timeframe names, without regard to case and surrounding space, and no others |
| `ResampleTheorems.BucketStartIsExact` | cross_asset/trend_fetcher.py:341-343 | a bucket starts at a whole number of intervals, no later than its bars and less than one interval before |
| `ResampleTheorems.ResampledIncreases` | cross_asset/trend_fetcher.py:356-371 | grouped output strictly increases in time |
| `ResampleTheorems.CandlesDescribe` | cross_asset/trend_fetcher.py:351-371 | every bar's bucket has a candle and each candle summarises exactly its non-empty bucket |
| `ResampleTheorems.ExactExtremes` | cross_asset/trend_fetcher.py:359-370 | a candle's high and low are attained extremes of its bucket, it opens and closes with the first and last bar, sums the volume, and is quote-only exactly when all its bars are |
| `ResampleTheorems.VolumeIsConserved` | cross_asset/trend_fetcher.py:366 | total volume is unchanged |
| `UserFills.Deduplicator.Remember` | market_agent/agent_user_fills.py:85-97 | set and queue keep holding the same keys; a new key joins and only the oldest beyond the capacity go |
| `UserFills.Deduplicator.Admit` | market_agent/agent_user_fills.py:110-114 | a fill is new exactly when none of the last deliveries is the same fill in all seven parts, and the memory follows |
| `UserFills.Deduplicator.OnMessage` | market_agent/agent_user_fills.py:99-114 | a batch appends exactly its new fills to the buffer, in order, and advances the latest fill time |
| `UserFills.Deduplicator.Drain` | market_agent/agent_user_fills.py:116-123 | everything buffered is handed over in order and the buffer is empty |
| `UserFills.Deduplicator.Backfill` | market_agent/agent_user_fills.py:125-190 | a due poll hands over exactly the new fills among the fetched ones, in time order; a poll not due or failed hands over none |
| `UserFills.Deduplicator.Recover` | market_agent/agent_user_fills.py:165-180 | the fetched items, taken in order, yield exactly the new fills |
| `UserFills.Polling.QueryWindow` | market_agent/agent_user_fills.py:137-151 | the queried span ends now; it starts the overlap before the latest fill, or one look-back before now when none is known, never before zero |
| `UserFills.WindowIsBounded` | market_agent/agent_user_fills.py:93-97 | the remembered keys are distinct and within the capacity |
| `UserFills.FirstSeenIsDelivered` | market_agent/agent_user_fills.py:110-114 | a fill that differs from every earlier one in symbol, order, trade, time, size, price or hash is delivered |
| `UserFills.KeyTellsApart` | market_agent/agent_user_fills.py:74-83 | two fills share a key if and only if canonical symbol, order id, trade id, time, size, price and hash all agree |
| `UserFills.Rules.Capacity` | market_agent/agent_user_fills.py:93 | the capacity is the configured one, its default for zero, and never below one hundred |
| `UserFills.Polling.Polls` | market_agent/agent_user_fills.py:125-136 | a poll is made if and only if enabled with an address and either forced or due |
| `UserFills.OffersAreInTimeOrder` | market_agent/agent_user_fills.py:167 | polled fills are offered in the order of their times |
| `UserFills.NoEarlyRedelivery` | market_agent/agent_user_fills.py:85-97 | between two deliveries of the same fill lie at least `capacity` others with distinct keys |
| `UserFills.ExactlyOnceWithinCapacity` | market_agent/agent_user_fills.py:85-114 | with no more distinct keys than the capacity, each is delivered exactly once |
| `Conditions.CrossedAboveInSamples` | market_agent/conditions.py:55-62 | true if and only if two adjacent samples step up across the level |
| `Conditions.CrossedBelowInSamples` | market_agent/conditions.py:65-72 | true if and only if two adjacent samples step down across the level |
| `Conditions.EvaluateCondition` | market_agent/conditions.py:75-142 | the answer is yes if and only if the price is on the condition's side of its level or range to within the tolerance and, by kind, it stepped across the level, or the window reaches back far enough and is on side throughout or for the ratio asked |
| `Conditions.HoldsWhenMet` | market_agent/conditions.py:75-142 | the declarative reading of every kind of condition is what evaluating it computes |
| `Conditions.SoftIsOnSide` | market_agent/conditions.py:22-47 | the tolerance moves a level by its ten-thousandths and widens a range by those of its larger end, at least one, unless neither end is positive |
| `Conditions.WindowIsExact` | market_agent/conditions.py:7-19 | the window holds in order exactly the samples no older than the timer and no earlier than the start |
| `Conditions.MinRatio` | market_agent/conditions.py:26-30 | a ratio above zero and at most one is demanded as configured; none means the default and more than one means one |
| `ConditionTheorems.PruningIsInvisible` | market_agent/conditions.py:7-19 | for monotone times, evaluating on the pruned history equals evaluating on the whole stream whenever the window starts within what is kept |
| `ConditionTheorems.TimerWithinHistoryIsKept` | market_agent/models.py:639-642 | which every timer from one second to the kept history does |
| `ConditionTheorems.LongTimerIsNeverMet` | market_agent/conditions.py:115-121 | a sustained condition with a longer timer is never met on the pruned history |
| `ConditionTheorems.LongTimerWouldBeMet` | market_agent/conditions.py:115-121 | while some prices meet it on the whole stream |
| `ConditionTheorems.HardReachesRatio` | market_agent/conditions.py:122-142 | for non-negative levels, and always for ranges, a window strict throughout reaches the ratio |
| `ConditionTheorems.SustainedExactly` | market_agent/conditions.py:115-142 | a sustained condition with a timer holds if and only if the observation is old enough, a sample lies within the slack of the left edge, the price is on side and the soft ratio holds |
| `ConditionTheorems.HardDecidesForNegativeLevels` | market_agent/conditions.py:123-135 | for every negative level with a tolerance a stream ending in the latest price meets the condition though it misses the ratio |
| `ManagementSession.Session.UpdatePrice` | market_agent/models.py:639-642 | the price is appended and exactly the samples older than the window leave the front |
| `ManagementSession.Session.Observe` | market_agent/agent_execution_loop.py:1915-1926 | observation begins exactly at a price between the two ends, on the one positive end, or at any price when neither is positive, and remembers when |
| `ManagementSession.Session.Arm` | market_agent/agent_execution_loop.py:1936-1948 | an unarmed session arms exactly when the execution condition is met |
| `ManagementSession.Agent.RunScenario` | market_agent/agent_execution_loop.py:1914-2004 | wait, time out, arm or execute, with the session's whole new state |
| `ManagementSession.Agent.Step` | market_agent/agent_execution_loop.py:1894-2004 | one tick of the objects is one tick of the specification; what it reports tells exactly whether it executed and was accepted, and at most one execution ends the session |
| `SessionTheorems.ScenarioStep` | market_agent/agent_execution_loop.py:1914-2004 | one price decides as the declarative account of the price stream says |
| `SessionTheorems.ExecutesExactlyWhenReadyInTime` | market_agent/agent_execution_loop.py:1894-2004 | over any ticks a session executes if and only if the last price shown is the first ready one since the first price in the band, and in time |
| `SessionTheorems.ExecutesOnceAndInTime` | market_agent/agent_execution_loop.py:1894-2004 | with positive clocks it executes at most once, after or at a price in the band and within the timeout, and no surviving session is armed |
| `SessionTheorems.EndsUnexecutedOnlyTooLate` | market_agent/agent_execution_loop.py:1927-1935 | a session that ends without executing was observed and ran longer than its timeout |
| `SessionTheorems.ReadyOnWholeStream` | market_agent/agent_execution_loop.py:1936-1938 | for timers within the kept history readiness is judged as on the whole price stream |
| `OppositeEvent.Settings.Clamped` | market_agent/calibration.py:98-135 | every configured value is replaced by the nearest allowed one, full confidence lies above the trim threshold, and a valid configuration is unchanged |
| `OppositeEvent.Agent.ClearPositionBasis` | market_agent/agent_materialization.py:224-253 | agent and both sessions lose their basis |
| `OppositeEvent.Agent.SetPositionBasis` | market_agent/agent_materialization.py:190-223 | the clamped basis is stored on the agent and on every session of the same side; an unusable one clears |
| `OppositeEvent.Agent.DecideOppositeEvent` | market_agent/agent_materialization.py:314-415 | a reversal needs the trim threshold, the edge over the basis and the minimum, or without a basis its own threshold; flatten, trim and no change hold on the intervals below, and a trim closes the stated part |
| `OppositeEvent.Agent.UpdateAfterExecution` | market_agent/agent_materialization.py:416-482 | the basis of all holders after an execution, by action |
| `OppositeEventTheorems.StrongerEvidenceIsNeverMilder` | market_agent/agent_materialization.py:337-415 | severity and close fraction are monotone in the opposing confidence |
| `OppositeEventTheorems.WeakerBasisIsNeverMilder` | market_agent/agent_materialization.py:351-415 | and antitone in the position's basis |
| `OppositeEvent.FlattensExactly` | market_agent/agent_materialization.py:375-398 | a trim reaches the flattening fraction exactly from a threshold on that depends on the basis alone |
| `OppositeEvent.DecisionAnswersBy` | market_agent/agent_materialization.py:337-415 | no change, trim, flatten and reverse each hold on one interval of the confidence; only a reversal reopens, only flatten and reverse close everything, and a trim closes 15% plus up to 85% in proportion, less a tenth of the basis |
| `OppositeEventTheorems.StoredBasisIsCurrent` | market_agent/agent_materialization.py:272-313 | a stored basis is the one read back, whichever holder had one before |
| `OppositeEventTheorems.BasisIsFoundInOrder` | market_agent/agent_materialization.py:272-313 | the agent is asked first, then the risk session, then the management session, which also offers its trigger confidence |
| `OppositeEventTheorems.EffectIsProduct` | market_agent/agent_materialization.py:302-307 | what counts is the confidence times its validity |
| `OppositeEventTheorems.OpeningResetsBasis` | market_agent/agent_materialization.py:425-442 | a rejected execution changes nothing, a flat position clears all holders, and opening or reversing stores the trigger with full validity |
| `OppositeEventTheorems.AddingWeighsBasis` | market_agent/agent_materialization.py:443-460 | adding keeps the validity and weighs the two confidences by size; without a basis it starts afresh |
| `OppositeEventTheorems.ClearedBasisMayReturn` | market_agent/agent_materialization.py:272-313 | after a clear a basis is found if and only if the management session still carries a trigger confidence for the side, and it then weighs nothing |
| `AgentWitnesses.ClearedBasisReturns` | market_agent/agent_materialization.py:224-253 | a concrete clear after which the trigger confidence is found again |
| `OppositeEventTheorems.TrimDecaysBasis` | market_agent/agent_materialization.py:462-481 | a trim that keeps the side keeps the raw confidence and decays its validity |
| `OppositeEventTheorems.DecayIsExact` | market_agent/agent_materialization.py:469-476 | the validity falls by its decayed share of the part closed |
| `OppositeEventTheorems.RepeatIsNeverMilder` | market_agent/agent_materialization.py:462-481 | after an accepted trim the same confidence gets an answer at least as severe |
| `OppositeEventTheorems.RepetitionEscalates` | market_agent/agent_materialization.py:337-481 | over any number of repetitions later answers are at least as severe as earlier ones |
| `OppositeEventTheorems.WeightedLiesBetween` | market_agent/agent_materialization.py:443-460 | adding to a position gives a confidence between the old and the new one |

## Left out

Assumptions of the hedge model:

- Numbers are exact reals: the 28-digit context of the decimal type, binary rounding of prices and sizes on the wire, and non-finite values are not modelled.
- A client order id is the pair of cycle key and phase, so the digest behind it counts as injective; a cycle key is the tuple of its fields, so addresses contain no colons.
- One coordinator process holds the lock and its clock never runs backwards; the exchange rejects an action once its expiry has come and honours reduce-only and immediate-or-cancel; nobody else trades on the hedge account.
- A snapshot reports the position of the moment it was read and may be acted on any time later.
- Recovery from an unreadable state file, the lock, schema versions and JSON text: the file is an atomic map.
- Status texts of the exchange are datatypes; failure texts are strings or datatypes; lower-casing is ASCII.
- Loading snapshots over the network, `_funding_record` and account discovery: what the adapter returns is input, so whether a funding record matches an hour is not modelled.
- Order prices, leverage values, exchange object caching, audit and report rendering have no effect on the properties.
- Service.HedgeService.RunOnce: what the re-reads and exchange calls of an iteration return is passed in as one list, because the network is not part of the model.
- ServiceTheorems.AtMostOneOpen: requires the pinned clock and non-empty failure texts; `ServiceTheorems.OpeningsCounted` is the statement without them.
- ServiceTheorems.LateExactly: for a record that is still active at the preview, lateness also depends on which timeout ends it in between; only the general count covers that.
- TickTheorems.ForcedExitDoesNotWedge: assumes the hedge has not grown or flipped since a pending adjustment was sent; `ProtocolTheorems.ForcedExitInRuns` derives it for adjustments decided within the cycle, and on an older snapshot the source keeps waiting for the adjustment.

Assumptions of the market agent model:

- Decoding bytes as UTF-8 and parsing JSON are parameters; a line that cannot be decoded as text raises in the source and is not modelled.
- RecentEvents.LoadRecent: event fields are texts and a record's list is a list; of an event only its title reaches the model's prompt, as in the source.
- EventBufferTheorems.LiveAndRebuiltAgree: assumes remembered events whose seen time is not blank and a symbol whose log file no other symbol shares; the source's file names can collide, and a reload then mixes their events. A write that is cut short ends the process, and its remainder together with the next record decodes to nothing.
- EventBufferTheorems.LogKeepsUpExactly: about records not logged before; an identical record logged twice can hide that the second was lost.
- EventBuffer.EventMemory.Hydrate: files that cannot be read are skipped by the source and are absent here; the file list is given in sorted order.
- Event records carry no `event_time_source`, `buffer_symbol` or log metadata.
- Texts are stripped of and compared by ASCII white space and letters only.
- Volumes and prices are exact reals, and `summarize_bars`, data fetching and synthetic index levels are not modelled.
- UserFills.Deduplicator.OnMessage: batches, polls and drains are atomic; symbol canonicalisation is a parameter; subscription and reconnection are not modelled.
- UserFills.Deduplicator.Backfill: the fetched list holds objects or nulls; other elements raise in the source.
- ManagementSession.Agent.Step: what executing the decision reports is an input, and the risk or pending-entry session installed afterwards is not modelled.
- SessionTheorems.ExecutesOnceAndInTime: assumes positive clock values, because an observation at clock zero never times out in the source.
- OppositeEvent.Agent.DecideOppositeEvent: reading configuration from the environment is left out; `Settings.Clamped` starts from the values read.
- OppositeEventTheorems.WeightedLiesBetween: assumes a combined notional of at least the source's division guard.
- OppositeEventTheorems.RepetitionEscalates: every trim is accepted and executed with the decided fraction, and the position keeps its side.
- Prompts, model runtimes, charts, watchers, command lines, staged exits and market-name matching hold no property of this kind.
