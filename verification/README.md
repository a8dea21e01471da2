# Verified models of the turn projection, the codecs, the socket and the build plugin

This project models five stateful components of the repository in Dafny and proves what they
guarantee over whole runs.

- **Turn projection** (`shared/turn-builder.ts`). An arbitrary list of agent events is sorted,
  de-duplicated and folded into numbered turns with tool steps, together with a map that assigns
  each event to a turn. `TurnModel` is the pure fold; `TurnObjects` is the program's own form, with
  turns and steps as shared mutable objects and `currentTurn` as an alias of the last turn, proved
  equal to the fold event by event. The `Turn*` modules in between state the results: order of
  processing, ties and reordering, structure, mapping and counts, steps, turns, times and history, and
  `TurnFields` the result field by field.
- **Wire codecs** (`shared/generated/platform/agent.ts`, `shared/generated/platform/common.ts`).
  `Wire` is the format (varints, tags, length-delimited records) as the Protocol Buffers Encoding
  specification defines it; `WireLoop` is the decode loop, generic in the message; `WireSimple` holds
  the flat messages, `WireNested` what all nested ones share, and `WireAgentState`, `WireHealthCheck`
  and `WireErrorMessage` the others; `WireRecords` says which records are written, `WireTruncated` what
  becomes of bytes that end too early; `WireDecoded` says what holds of messages decoded from arbitrary
  bytes; `WireObjects` is the reader with its position, the writer with its stack of open records, and
  the generated `encode` and `decode` bodies.
- **Reconnecting socket** (`src/app/providers/WebSocketProvider.tsx`). `SocketModel` is a transition
  system over one mount (timers, sockets, storage, notifications); `SocketProofs` states safety over
  all runs and `SocketEffects` the effect of each event in a reachable state; `SocketObjects` holds the
  refs and callbacks, proved to take the model's steps.
- **Resume cursor** (`shared/types/stream-events.ts`). `Utf8` (section 3 of RFC 3629) with `Utf8Malformed`
  for bytes that encode nothing, `Base64` (sections 3.2 and 4 of RFC 4648) and `Cursor` (base64url of
  section 5, and the cursor text).
- **Build plugin** (`rust/bins/buildx-plugin/src/lib.rs`). `BuildArgs` is the argument parser against
  a token grammar, `BuildPaths` the path normaliser and its containment in the workspace.

The meaning of each component is stated apart from its code wherever that is possible: the turn
structure and every field of every step and turn are told from the event list alone (`OpenAfter`,
`TurnCount`, `OwnerIndex`, `ExpectedStep`, `ExpectedTurnStatus`, `FixedTurn`), the wire messages from
sequences of records, the parser from a bijective grammar of argument groups, and path cleaning from
component lists.

Points where the code does not do what its text or a first reading suggests:

- The comment before the last pass of `buildTurns` (line 160) speaks of marking open turns as
  pending or thinking; the code marks stale ones as interrupted, exactly when `StaleVerdict` says. The
  verdict is provisional (`InterruptionIsProvisional`), and a turn without tool calls that starts at
  time 0 never becomes stale (`PromptAtZeroIsNeverStale`).
- `permission_request` is a declared event type but not a known one, so it counts as unknown.
- Delivery order does matter among events with equal timestamps (`TiesDependOnDelivery`):
  `ProcessingOrder` says exactly which deliveries are processed alike, and `TiesCommuteExactly` which
  neighbours of one instant may change places all the same. Deliveries that put only such events in
  different orders give the same result (`ReorderedTiesDoNotMatter`).
- Turn ids are unique exactly when no event id is another one's id plus "-assistant" in the places
  that `IdsClash` names (`TurnIdsUniqueIffNoClash`, `ClashingIdsExist`).
- Turn times are sound except when the stale pass acts on a tool call whose last result reports a
  negative duration (`ResultTimesAreSound`, `NegativeDurationRewindsTime`).
- A notified token reaches the new socket exactly when it is stored already, because `connect` reads
  the storage and not the notification (`NotifiedTokenIsUsed`, `UnstoredTokenIsNotUsed`).
- An integer beyond 2^53 - 1 is encoded but refused by the decoder, a byte order mark at the start of
  a text is lost in decoding, and so is an error detail named `__proto__`. The round trips hold
  exactly without these (`AgentStateRoundTrip`, `HealthCheckResultRoundTrip`, `ErrorSurvivesIffPlain`).
- A nested decoder may read past the length that was announced for it, and the outer one goes on from
  there (`TruncatedRecordReadsOn`).
- A message that is cut between two of its records decodes without an error, to what the records before
  the cut mean; cut anywhere else it is refused (`DecodeBeginning`, `AgentStateIsNotCut`).
- A cursor with an empty id encodes to a text that decodes to null (`CursorRoundTrip`), and a text
  without a timestamp decodes as time 0 (`MissingTimestampIsZero`).
- An unknown flag, and so also the joined form of a known one such as `--tag=app`, consumes a
  following path (`PathIsSwallowed`, `JoinedFlagSwallowsContext`).

`dafny verify dfyconfig.toml` checks the whole project.

## Model

| member | source | states |
|---|---|---|
| `TurnBuilder.DeliveryMattersByInstant` | shared/turn-builder.ts:127-178 | two deliveries that bring the same events first at every instant, repetitions and ids met earlier aside, give the same turns, map and unknown count, and differ in the duplicate count by exactly the difference in length; ids and timestamps may repeat at will |
| `TurnBuilder.DeliveryDoesNotMatter` | shared/turn-builder.ts:127-178 | every permutation and repetition of the same events is such a delivery when distinct events have distinct ids and timestamps |
| `TurnBuilder.CommutingTiesDoNotMatter` | shared/turn-builder.ts:130 | neighbours in processing order that commute may be delivered either way: turns, map and unknown count stay the same |
| `TurnBuilder.ReorderedTiesDoNotMatter` | shared/turn-builder.ts:127-178 | whole deliveries, with no condition on ids or timestamps: when two bring the same events first at every instant and every two of these that they put in different orders commute, with a turn open and without, turns, map and unknown count are the same |
| `TurnBuilder.ReorderedDeliveryDoesNotMatter` | shared/turn-builder.ts:127-178 | the same told from the deliveries when an id always carries one timestamp: same first occurrences, and those of one instant that change order commute |
| `TurnBuilder.TiesDependOnDelivery` | shared/turn-builder.ts:130 | distinct timestamps are needed: a prompt and a stop of one instant give different turns in the two orders |
| `TurnBuilder.HistoryIsStable` | shared/turn-builder.ts:127-178 | appending fresh events that are not earlier keeps every turn but the last unchanged, keeps the last turn's identity and the fixed fields of its steps while only appending steps, and keeps every map entry, whatever the two clock readings |
| `TurnBuilder.ResultIsSettled` | shared/turn-builder.ts:127-178 | in every result turn i has number i + 1, every turn but the last is closed (complete or interrupted, completion time set, no pending step), and the last is closed or an assistant turn that is thinking or using a tool |
| `TurnBuilder.ResultIsGrammatical` | shared/turn-builder.ts:127-178 | the turn types of every result match A? (U A \| S A?)*, and their number is 2 * prompts + session starts + session ends + tool calls that found no open turn |
| `TurnBuilder.ResultMapsEvents` | shared/turn-builder.ts:143-158 | in every result the map has an entry for exactly the events that belong to a turn, the entry names a turn of the result at the position that the events determine, and there are no entries but for given events |
| `TurnBuilder.ResultCountsEvents` | shared/turn-builder.ts:143-158 | when no event id is another one's plus "-assistant", turn ids are unique and each assistant turn's raw count is 1 plus the non-stop events that the returned map sends to it; other turns keep 1 |
| `TurnBuilder.ResultStepStatus` | shared/turn-builder.ts:264-314 | every tool call has its step in the result, at the place and with the status that the later events determine; a pending step shows as timed out when the stale pass interrupted its turn |
| `TurnBuilder.ResultStepFate` | shared/turn-builder.ts:160-169 | the whole step record of every tool call in the result is told from the events: as `TurnSteps.StepHasFate` says, and then timed out if it was pending, its turn was still current and the stale pass acts |
| `TurnBuilder.ResultStepsMatchToolCalls` | shared/turn-builder.ts:264-294 | the result has exactly one step per processed tool call |
| `TurnBuilder.ResultTurnFate` | shared/turn-builder.ts:230-363 | every assistant turn of the result is told from the events: id (the event's plus "-assistant"), session, number, tool and start, no prompt; its response is that of the last stop with a non-empty one, its thinking the first non-empty text given with a tool call, its completion the last event that finalised it (or the last sign of life when the stale pass interrupted it), its duration the difference, and its status thinking, tool use, complete or interrupted accordingly |
| `TurnBuilder.ResultFixedTurns` | shared/turn-builder.ts:239-250 | every user and system turn of the result is, in all fourteen fields, as its event says |
| `TurnFields.PromptTurnFields` | shared/turn-builder.ts:239-250 | the user turn of every prompt, field by field: the prompt's id, text, tool and session ("" when absent), its position as number, complete from start to completion at the prompt's time, no thinking, response or steps, one raw event |
| `TurnFields.SessionTurnFields` | shared/turn-builder.ts:325-361 | the system turn of every session event, field by field: response "Session " and the source, or "Session ended: " and the reason; no prompt and no tool |
| `TurnFields.StepFields` | shared/turn-builder.ts:283-305 | the step of every tool call, field by field: id, tool, metadata, start, input cut at 200 characters, subagent for "Task" and "dispatch_agent" only; output cut at 500, success, duration and status of its last result; without one pending, or timed out once its turn was finalised or interrupted |
| `TurnFields.ProcessedIffFirst` | shared/turn-builder.ts:127-138 | an event is processed if and only if it is the first of its id, by time and then by delivery |
| `TurnFields.DuplicatesAreCounted` | shared/turn-builder.ts:171 | the duplicate count is the number of delivered events beyond one per id |
| `TurnFields.UnknownAreCounted` | shared/turn-builder.ts:143-147 | the unknown count is the number of processed permission requests and events of undeclared types |
| `TurnBuilder.ResultTimesAreSound` | shared/turn-builder.ts:160-169 | for every event list and clock, all times of the result are sound if and only if the stale pass does not act on a tool call whose last result reports a negative duration |
| `TurnBuilder.SoundWithoutNegativeDurations` | shared/turn-builder.ts:386-409 | with non-negative reported durations all times of the result are sound, also those of a turn interrupted by the stale pass |
| `TurnBuilder.NegativeDurationRewindsTime` | shared/turn-builder.ts:400-409 | a prompt, a tool call and a result with duration -3 that give a turn completed before its step started |
| `TurnBuilder.StaleVerdict` | shared/turn-builder.ts:160-169 | for every event list and clock: the last turn is reported as interrupted if and only if a prompt or tool call was followed by no other one, no stop and no session event, and the last sign of life after it (the tool call plus the duration of its last result, or the prompt) is more than 120 s old; its completion is then that sign of life |
| `TurnBuilder.LonePromptGoesStale` | shared/turn-builder.ts:160-169 | in particular a prompt without further events is reported as interrupted if and only if it is older than 120 s and its time is not 0 |
| `TurnBuilder.PromptAtZeroIsNeverStale` | shared/turn-builder.ts:408 | an open turn without tool calls that starts at time 0 is never reported as interrupted, whatever the clock |
| `TurnBuilder.InterruptionIsProvisional` | shared/turn-builder.ts:160-169 | for every event list reported with an interrupted last turn: once any fresh stop that is not earlier is delivered, that turn is complete at the time of the stop for every clock, and the other turns are unchanged |
| `TurnShape.AdvanceShape` | shared/turn-builder.ts:198-363 | every event changes at most the open turn, in place, and otherwise appends; which turns it appends and whether a turn is open afterwards depend on the event and on whether one was open, on nothing else |
| `TurnShape.AdvanceKeepsInv` | shared/turn-builder.ts:198-363 | one event keeps the state-machine invariant: numbering, `currentTurn` null or the last turn and an assistant turn that is thinking, using a tool or complete (then with no pending step), all other turns closed |
| `TurnShape.RunKeepsInv` | shared/turn-builder.ts:143-158 | the invariant holds after every event of every run |
| `TurnShape.TouchedTurnStaysValid` | shared/turn-builder.ts:386-398 | the open turn keeps its number and stays open in a legal status under every event that does not replace it, and is closed by those that do |
| `TurnShape.CloseStaleSettles` | shared/turn-builder.ts:160-169 | the last pass changes nothing but a stale open turn, which becomes interrupted and closed |
| `TurnStructure.CurrentIffOpen` | shared/turn-builder.ts:198-363 | after every run there is a current turn if and only if a prompt or tool call has arrived and no session event since |
| `TurnStructure.TurnsAreCounted` | shared/turn-builder.ts:230-276 | the number of turns is 2 * prompts + session starts + session ends + tool calls that arrived with no turn open |
| `TurnStructure.TurnHasOrigin` | shared/turn-builder.ts:239-276 | every turn has an event that created it, at the position that the counts before that event give, and still has the identity it was created with |
| `TurnStructure.CreatedTurnPersists` | shared/turn-builder.ts:239-276 | every turn that an event creates is still in the list at that position with that identity after all later events |
| `TurnStructure.OriginIsUnique` | shared/turn-builder.ts:239-276 | positions in the turn list and creating events correspond one to one |
| `TurnStructure.TurnsMatchGrammar` | shared/turn-builder.ts:230-363 | the turn types of every run match A? (U A \| S A?)*, and with no turn open the last one is a system turn |
| `TurnStructure.PromptTurnsComeInPairs` | shared/turn-builder.ts:230-262 | every user turn is directly followed by an assistant turn with its id plus "-assistant" and the same start and session |
| `TurnMapping.MapNamesOwner` | shared/turn-builder.ts:143-158 | an event is in the map if and only if it is known, no session event, and a turn was open or opened for it; then the map names the turn at its owner position: the latest turn, or the user turn for a prompt |
| `TurnMapping.MapHasOnlyEventIds` | shared/turn-builder.ts:143-158 | the map has no keys but ids of processed events |
| `TurnMapping.OwnersAreMonotone` | shared/turn-builder.ts:143-158 | the owner position never decreases in processing order, so the map is a segmentation of the event list |
| `TurnMapping.TurnIdsUniqueIffNoClash` | shared/turn-builder.ts:239-267 | turn ids are unique if and only if no prompt or session event has the id that a prompt or orphan tool call gives its assistant turn |
| `TurnMapping.ClashingIdsExist` | shared/turn-builder.ts:239-261 | two prompts with distinct ids for which the builder makes two turns with one id |
| `TurnMapping.CountsAreConserved` | shared/turn-builder.ts:218-307 | each assistant turn's raw count is 1 plus the non-stop events owned by it, and every other turn's is 1, for every run and without conditions on ids |
| `TurnMapping.RawEventCountsMatchMap` | shared/turn-builder.ts:143-158 | with unique turn ids the raw counts can be read off the map |
| `TurnSteps.StepsAreCounted` | shared/turn-builder.ts:264-294 | every turn has one step per tool call that belongs to it |
| `TurnSteps.StepsMatchToolCalls` | shared/turn-builder.ts:264-294 | over all turns there is exactly one step per tool call: none is lost and none is doubled |
| `TurnSteps.ToolCallHasStep` | shared/turn-builder.ts:283-292 | the step of every tool call stays at its place in its turn, with the fields it was created with, after all later events |
| `TurnSteps.StepHasToolCall` | shared/turn-builder.ts:283-292 | every step position of a turn belongs to a tool call |
| `TurnSteps.TouchExtendsSteps` | shared/turn-builder.ts:278-314 | an event only appends steps to the open turn, keeps the fixed fields of its steps, and returns no step to pending |
| `TurnSteps.FindsStepById` | shared/turn-builder.ts:299 | the search by tool-use id finds the step of a given call if and only if that call is the first of its turn with the id |
| `TurnSteps.StepHasFate` | shared/turn-builder.ts:264-314 | every tool call's step is told from the events: as it was created, with the output, success, duration and status of the last result with its id that arrived while its turn was current (for the turn's first call with that id); without one it is timed out if a stop, prompt or session event followed, and pending otherwise; no distinctness of ids is assumed |
| `TurnFate.OpenTurnStatus` | shared/turn-builder.ts:198-363 | after every run the open turn is complete if and only if its last prompt or tool call was followed by a stop; otherwise it is thinking after a prompt and using a tool after a tool call |
| `TurnFate.StaleIffIdle` | shared/turn-builder.ts:160-169 | the guard of the last pass holds if and only if the events leave a turn unfinished and idle for more than 120 s |
| `TurnFate.TurnHasFate` | shared/turn-builder.ts:230-363 | after every run each assistant turn has the response, thinking, completion, duration and status that the events tell |
| `TurnFate.FixedTurnStays` | shared/turn-builder.ts:239-250 | after every run each user and system turn is, in every field, as its event says, whatever came later |
| `TurnOrder.SortIsStable` | shared/turn-builder.ts:130 | sorting orders by time and keeps the delivery order within each instant |
| `TurnOrder.StableSortIsUnique` | shared/turn-builder.ts:130 | there is only one stable sort, so nothing depends on the engine's algorithm |
| `TurnOrder.DedupKeepsIds` | shared/turn-builder.ts:132-138 | removing duplicates keeps the set of ids and leaves no id twice |
| `TurnOrder.CanonicalIsOrdered` | shared/turn-builder.ts:128-138 | the processed list is in time order, has distinct ids, the ids of the input, and only events of the input |
| `TurnOrder.CanonicalAt` | shared/turn-builder.ts:128-138 | what is processed at one instant: the first event of every id delivered for that instant, in delivery order, unless the id occurs at an earlier instant |
| `TurnOrder.ProcessingOrder` | shared/turn-builder.ts:128-138 | two deliveries are processed as the same list if and only if these events agree at every instant; no condition on ids or timestamps |
| `TurnOrder.ProcessingOrderByOccurrence` | shared/turn-builder.ts:128-138 | when repetitions of an id carry its timestamp: if and only if at every instant the lists of first occurrences agree |
| `TurnOrder.CanonicalIgnoresDelivery` | shared/turn-builder.ts:128-138 | deliveries of the same distinguishable events are processed as the same list |
| `TurnOrder.CanonicalLater` | shared/turn-builder.ts:128-138 | fresh events that are not earlier are processed after all others, so the earlier list is a prefix |
| `TurnTies.TiesCommute` | shared/turn-builder.ts:198-314 | anywhere in a run two neighbours with different ids that commute may change places without changing turns, map or counts |
| `TurnTies.TiesCommuteExactly` | shared/turn-builder.ts:130 | two events of one instant may change places after every start in time order with a turn open, or with none, and before every continuation if and only if they commute: one is unknown; or with a turn open one is only counted and the other creates no turn, or they are a result and a stop, name different tool uses, or have the same effect; or with none open one does nothing without a turn and the other does not either or is a session event |
| `TurnReorder.ReorderedRunsAgree` | shared/turn-builder.ts:143-158 | two runs over the same events with distinct ids end in the same context when every two events that they take in different orders commute, with a turn open and without |
| `TurnTime.RunKeepsTime` | shared/turn-builder.ts:198-398 | in every run turn starts never decrease, completion is not before start, a closed turn's completion is not before its steps' starts, and set durations are completion minus start |
| `TurnTime.TimesAreSound` | shared/turn-builder.ts:160-169 | after the last pass all of that still holds if and only if the pass did not act on a tool call whose last result reports a negative duration, told from the events |
| `TurnHistory.RunKeepsHistory` | shared/turn-builder.ts:143-158 | further events leave all turns but the current one identical, extend the current one's steps without un-resolving any, and keep every map entry |
| `TurnObjects.Turn.Finalize` | shared/turn-builder.ts:386-398 | on the objects: closes the turn, times out exactly its pending steps, keeps the step objects, and has the whole effect of the model's `FinalizeTurn` |
| `TurnObjects.Turn.AddStep` | shared/turn-builder.ts:278-293 | on the objects: appends one new step object, keeps the others, and has the model's effect on the turn |
| `TurnObjects.Turn.ResolveByEvent` | shared/turn-builder.ts:299-306 | on the objects: updates the first step object with the id, and no other, and has the model's effect on the turn |
| `TurnObjects.Turn.Stop` | shared/turn-builder.ts:309-314 | on the objects: the whole effect of a stop on the turn is the model's |
| `TurnObjects.Turn.LastActivity` | shared/turn-builder.ts:400-409 | returns the model's last-activity time: a step duration of 0 and a start of 0 count as missing |
| `TurnObjects.BuildContext.HandlePromptSubmit` | shared/turn-builder.ts:230-262 | turns, steps and `currentTurn` stay unshared and aliased as they should be, only the context and the current turn's objects change, and the context's value changes as in the model |
| `TurnObjects.BuildContext.HandlePreToolUse` | shared/turn-builder.ts:264-294 | the same for a tool call, with or without an open turn |
| `TurnObjects.BuildContext.HandlePostToolUse` | shared/turn-builder.ts:296-307 | the same for a tool result |
| `TurnObjects.BuildContext.HandleStop` | shared/turn-builder.ts:309-314 | the same for a stop |
| `TurnObjects.BuildContext.HandleSessionStart` | shared/turn-builder.ts:316-338 | the same for a session start |
| `TurnObjects.BuildContext.HandleSessionEnd` | shared/turn-builder.ts:340-363 | the same for a session end |
| `TurnObjects.BuildContext.Step` | shared/turn-builder.ts:143-158 | one pass of the event loop on the objects, with its map, is one step of the fold |
| `TurnObjects.BuildContext.InterruptStale` | shared/turn-builder.ts:160-169 | the last pass on the objects keeps all objects and has the model's effect |
| `TurnObjects.RemoveDuplicates` | shared/turn-builder.ts:132-138 | the loop with the set of seen ids keeps exactly the first event of every id |
| `TurnObjects.BuildTurns` | shared/turn-builder.ts:127-178 | the whole projection on objects returns fresh turns with fresh steps, none of them shared, whose values, counters and map are those of the pure result, so every result above holds of it |
| `SocketProofs.StepKeepsInv` | src/app/providers/WebSocketProvider.tsx:39-144 | every event within a mount keeps the refs in agreement with the sockets and timers that exist |
| `SocketProofs.RunsHaveOneWayForward` | src/app/providers/WebSocketProvider.tsx:62-144 | from the first connect on, in every run within a mount: while not closed intentionally there is exactly one attached socket or exactly one pending timer, never both, and after an intentional close neither |
| `SocketProofs.UnmountStops` | src/app/providers/WebSocketProvider.tsx:116-120 | unmounting leaves no timer pending and a socket at most closing |
| `SocketProofs.ClosedIffLoggedOut` | src/app/providers/WebSocketProvider.tsx:128-144 | in every run the provider is closed intentionally if and only if a null notification has come and no token notification since |
| `SocketProofs.LoggedOutIsSilent` | src/app/providers/WebSocketProvider.tsx:128-136 | while logged out no event but a token notification opens a socket or passes a message on |
| `SocketProofs.NotifiedTokenIsUsed` | src/app/providers/WebSocketProvider.tsx:138-141 | after a token notification every attached socket carries that token if and only if it was the connected token, or is the stored one, or none is stored |
| `SocketProofs.TokensStayRecent` | src/app/providers/WebSocketProvider.tsx:62-144 | in every run within a mount in which each token is stored before it is notified, every attached socket carries the token last notified or one stored since |
| `SocketProofs.UnstoredTokenIsNotUsed` | src/app/providers/WebSocketProvider.tsx:138-141 | without that order it fails: a token notified just after mount while another one is stored is not used |
| `SocketProofs.TokenStaysFresh` | src/app/providers/WebSocketProvider.tsx:62-112 | from any reachable state, a token that is stored before its notification is carried by every attached socket until storage changes or another notification comes, through any number of reconnects |
| `SocketProofs.RetriesBackOff` | src/app/providers/WebSocketProvider.tsx:66-107 | in every run a pending timer has the delay of the number of consecutive failed attempts since mount, last open or last rebuild: the interval first, then doubled each time up to 30000 |
| `SocketProofs.DelayIsCapped` | src/app/providers/WebSocketProvider.tsx:66-72 | that delay is min(interval * 2^k, 30000) for every k if and only if the interval is at most 30000 |
| `SocketEffects.MountEffect` | src/app/providers/WebSocketProvider.tsx:114-116 | the mount connects once: with a non-empty stored token to an opening socket that carries it, and without one waits for the interval |
| `SocketEffects.TimerEffect` | src/app/providers/WebSocketProvider.tsx:62-84 | in every reachable state the timer that fires is the only one; it connects in the same way, or waits for the current backoff, which is doubled up to 30000 |
| `SocketEffects.OpenEffect` | src/app/providers/WebSocketProvider.tsx:82-85 | an attached socket that opens sets the status to connected and the backoff to the interval; a detached one changes nothing else |
| `SocketEffects.MessageEffect` | src/app/providers/WebSocketProvider.tsx:87-97 | a message is passed on, once, if and only if its socket is open and attached; nothing else changes |
| `SocketEffects.ErrorEffect` | src/app/providers/WebSocketProvider.tsx:109-111 | an error closes an attached socket and leaves the rest to its close event |
| `SocketEffects.CloseEffect` | src/app/providers/WebSocketProvider.tsx:99-107 | in every reachable state, the attached socket that is closed leaves status disconnected, no current socket and exactly one timer with the current backoff, which is doubled up to 30000; a detached one changes nothing else |
| `SocketEffects.IntendedCloseEffect` | src/app/providers/WebSocketProvider.tsx:99-107 | once the provider means to stay closed, a socket that is closed starts no timer, in any state |
| `SocketEffects.LogoutEffect` | src/app/providers/WebSocketProvider.tsx:130-137 | a null notification detaches and closes the socket, clears the timer and both refs, and leaves status disconnected and the intent to stay closed |
| `SocketEffects.LoginEffect` | src/app/providers/WebSocketProvider.tsx:138-141 | a notified token other than the connected one detaches and closes the old socket, resets the backoff and connects; the connected one changes nothing |
| `SocketEffects.UnmountEffect` | src/app/providers/WebSocketProvider.tsx:116-120 | unmounting clears the timer and closes the socket without detaching it |
| `SocketEffects.OtherEffect` | src/app/providers/WebSocketProvider.tsx:62-144 | a storage write changes what is stored and nothing else; an event that cannot happen changes nothing |
| `SocketEffects.MessagesAreDelivered` | src/app/providers/WebSocketProvider.tsx:87-97 | in every run within a mount, the messages passed on are exactly the message events that met the current socket while it was open |
| `SocketEffects.StatusShowsPhase` | src/app/providers/WebSocketProvider.tsx:62-107 | in every run within a mount the status is disconnected if and only if there is no current socket, connecting while it opens and connected while it is open |
| `SocketObjects.WebSocketProvider.Connect` | src/app/providers/WebSocketProvider.tsx:62-112 | on the refs: keeps the existing sockets, adds at most a fresh one, and has the model's whole effect |
| `SocketObjects.WebSocketProvider.TeardownSocket` | src/app/providers/WebSocketProvider.tsx:39-53 | on the refs: clears the timer and both refs, detaches and closes exactly the current socket, as in the model |
| `SocketObjects.WebSocketProvider.OnAccessTokenChange` | src/app/providers/WebSocketProvider.tsx:130-142 | on the refs: a logout, an unchanged and a changed token have the model's whole effect |
| `SocketObjects.WebSocketProvider.OnSocketClose` | src/app/providers/WebSocketProvider.tsx:99-107 | on the refs: the close handler has the model's whole effect, rescheduling unless closed intentionally |
| `SocketObjects.WebSocketProvider.Deliver` | src/app/providers/WebSocketProvider.tsx:62-144 | each event has exactly the effect of the model's step, and none when it cannot happen |
| `SocketObjects.RunProvider` | src/app/providers/WebSocketProvider.tsx:114-144 | every run on the refs and socket objects ends in the state of the model's run, so the results above hold of it |
| `Utf8.DecodeEncodedChar` | shared/types/stream-events.ts:174-175 | the decoder turns the encoding of any character back into it and is ready for the next one, whatever bytes follow |
| `Utf8.DecodeEncoded` | shared/types/stream-events.ts:177-192 | text survives encoding and decoding if and only if it does not start with a byte order mark, which the decoder drops |
| `Utf8Malformed.MalformedIsReplaced` | shared/types/stream-events.ts:191 | bytes that start with no encoded character: the longest beginning of one, or else one byte, becomes U+FFFD, and decoding goes on behind it, as the WHATWG Encoding Standard asks |
| `Utf8Malformed.BeginsIffAllowed` | shared/types/stream-events.ts:191 | the byte ranges of the decoder's states are exactly those of beginnings of encoded characters: no overlong form, no surrogate and nothing beyond U+10FFFF |
| `Base64.DigitsAreDigits` | shared/types/stream-events.ts:182 | the encoder emits base64 digits only, ceil(4n/3) of them for n bytes |
| `Base64.Alphabet` | shared/types/stream-events.ts:182-188 | upper-case letters, lower-case letters, digits, "+" and "/" stand for 0 to 63 in this order, in both directions |
| `Base64.BtoaPads` | shared/types/stream-events.ts:182 | the encoding is the digits followed by padding up to a multiple of four |
| `Base64.AtobUndoesBtoa` | shared/types/stream-events.ts:188 | decoding any encoded bytes returns them |
| `Base64.WhitespaceIsIgnored` | shared/types/stream-events.ts:188 | white space anywhere in a text makes no difference to the decoder |
| `Base64.ForeignIsRefused` | shared/types/stream-events.ts:188 | any other character outside the alphabet, "=" apart, makes it refuse the text |
| `Cursor.EncodedForm` | shared/types/stream-events.ts:182-187 | the encoder's text is the unpadded digits in the URL alphabet, and the decoder's replacements and re-padding give back exactly what `btoa` produced |
| `Cursor.NumberIsPlain` | shared/types/stream-events.ts:196 | a timestamp is printed as its decimal digits without a leading zero, behind a minus sign if it is negative |
| `Cursor.RepadRestores` | shared/types/stream-events.ts:187 | re-padding appends exactly the padding that was stripped |
| `Cursor.Base64UrlRoundTrip` | shared/types/stream-events.ts:177-192 | decoding an encoded text returns it, for all texts, save a leading byte order mark |
| `Cursor.NumberRoundTrip` | shared/types/stream-events.ts:196-205 | every safe integer survives printing and `Number`, and its print has no colon |
| `Cursor.CursorRoundTrip` | shared/types/stream-events.ts:195-212 | for every timestamp from -(2^53 - 1) to 2^53 - 1 and every id, colons included, decoding the encoded cursor returns it, except that it returns null when the id is empty |
| `Cursor.DecodedForm` | shared/types/stream-events.ts:200-212 | for every text: decoding returns null if and only if the text is no base64, its bytes hold no colon, what stands before the first colon is no finite number, or nothing stands behind it; otherwise just that number and the rest |
| `Cursor.UrlSafeDecodes` | shared/types/stream-events.ts:185-190 | a text of the URL alphabet is refused by the base64 decoder if and only if its length leaves a single digit over |
| `Cursor.CursorIsInjective` | shared/types/stream-events.ts:195-197 | different cursors have different encodings |
| `Cursor.CursorIsUrlSafe` | shared/types/stream-events.ts:177-183 | the encoding uses the section 5 alphabet of RFC 4648 only, with no padding |
| `Cursor.MissingTimestampIsZero` | shared/types/stream-events.ts:205-208 | a text without a timestamp decodes as time 0 although no cursor encodes to it |
| `BuildArgs.TokenizeRendered` | rust/bins/buildx-plugin/src/lib.rs:73-116 | the groups of an argument list are recovered from its rendering, for every well-formed group list |
| `BuildArgs.RenderTokenized` | rust/bins/buildx-plugin/src/lib.rs:73-116 | conversely every argument list that lacks no required value is the rendering of its groups, so the grammar is a bijection |
| `BuildArgs.ParseBuildArgs` | rust/bins/buildx-plugin/src/lib.rs:61-123 | the index loop, with its skips and early errors, computes the meaning of the groups from an empty command with dockerfile "Dockerfile" |
| `BuildArgs.ParseMeaning` | rust/bins/buildx-plugin/src/lib.rs:61-123 | parsing fails if and only if a required value is missing or no non-empty context remains; otherwise context, file and target are the last ones given, tags and cache sources all in order, switches on if present, and each build argument the last with its key |
| `BuildArgs.SpelledValue` | rust/bins/buildx-plugin/src/lib.rs:76-103 | at every position and for every command built so far: `-f` and `--file` set the dockerfile, `-t` and `--tag` add a tag, `--target` sets the target and `--cache-from` adds a source, each to the next argument, and parsing goes on behind it |
| `BuildArgs.SpelledBuildArg` | rust/bins/buildx-plugin/src/lib.rs:86-91 | `--build-arg key=text` sets the key to the text, and without "=" to the empty text |
| `BuildArgs.MissingValue` | rust/bins/buildx-plugin/src/lib.rs:77-102 | each of these flags as the last argument is an error that names it |
| `BuildArgs.SpelledSwitch` | rust/bins/buildx-plugin/src/lib.rs:92-107 | `--no-cache`, `--pull` and `--load` stand alone; `--progress`, `--platform`, `--ssh` and `--secret` drop the next argument, also one with a leading dash |
| `BuildArgs.UnknownFlag` | rust/bins/buildx-plugin/src/lib.rs:108-112 | any other argument with a leading dash drops the next one unless that has a leading dash too |
| `BuildArgs.SpelledPath` | rust/bins/buildx-plugin/src/lib.rs:113 | any argument without a leading dash becomes the context |
| `BuildArgs.ParserUndoesPrinter` | rust/bins/buildx-plugin/src/lib.rs:61-123 | parsing any rendering of a command returns it, for every interleaving of groups and context that keeps tag and cache source order |
| `BuildArgs.PrintThenParse` | rust/bins/buildx-plugin/src/lib.rs:61-123 | such a rendering exists for every command with a non-empty context without leading dash and keys without "=", in any order of keys |
| `BuildArgs.SplitAssignment` | rust/bins/buildx-plugin/src/lib.rs:214-219 | a key without "=" and any value, "=" included, are recovered from "key=value" |
| `BuildArgs.ContextIsLastFreePath` | rust/bins/buildx-plugin/src/lib.rs:73-120 | for every argument list that lacks no required value: the context is the last path that no flag consumes, and parsing fails if and only if there is none or it is empty |
| `BuildArgs.PathIsSwallowed` | rust/bins/buildx-plugin/src/lib.rs:105-112 | in every argument list a path is consumed if and only if the token before it is not consumed itself and is a flag that takes a value, an ignored flag with a value, or an unknown flag |
| `BuildArgs.UnknownFlagSwallowsContext` | rust/bins/buildx-plugin/src/lib.rs:108-113 | so an unknown flag before a lone path makes parsing fail for want of a context; after the path it does no harm |
| `BuildArgs.JoinedFlagSwallowsContext` | rust/bins/buildx-plugin/src/lib.rs:108-113 | parsing `--tag=app .` fails for want of a context |
| `BuildPaths.NormalizePath` | rust/bins/buildx-plugin/src/lib.rs:244-258 | the push and pop loop computes the clean path of the names that remain |
| `BuildPaths.PopName` | rust/bins/buildx-plugin/src/lib.rs:250-252 | popping the buffer removes exactly its last name, and nothing at the root or from the empty path |
| `BuildPaths.PushName` | rust/bins/buildx-plugin/src/lib.rs:253 | pushing a name appends exactly that name |
| `BuildPaths.ComponentsOfClean` | rust/bins/buildx-plugin/src/lib.rs:247 | a clean path has the root, if any, and its names as components |
| `BuildPaths.NormalizedIsClean` | rust/bins/buildx-plugin/src/lib.rs:244-258 | a normalised path is rooted if and only if the path was, and has no "." or ".." component |
| `BuildPaths.NormalizeIsIdempotent` | rust/bins/buildx-plugin/src/lib.rs:244-258 | normalising twice is normalising once |
| `BuildPaths.CleanNamesOfJoin` | rust/bins/buildx-plugin/src/lib.rs:234-242 | joining a relative path continues the cleaning where the first path stopped |
| `BuildPaths.NormalizeOfJoin` | rust/bins/buildx-plugin/src/lib.rs:234-258 | normalising p/q equals normalising normalise(p)/q, for every p and q |
| `BuildPaths.SubdirOfClean` | rust/bins/buildx-plugin/src/lib.rs:226-232 | the subdirectory of a clean absolute path is the rest after the name "workspace", if that comes first, and none otherwise |
| `BuildPaths.UnderWorkspaceText` | rust/bins/buildx-plugin/src/lib.rs:226-232 | being component-wise under the workspace means, as text, being "/workspace" or starting with "/workspace/" |
| `BuildPaths.SubdirIsContained` | rust/bins/buildx-plugin/src/lib.rs:221-242 | for every context and working directory a subdirectory is produced if and only if the cleaned absolute context is the workspace or below it; it is relative, has no "..", and joined back to the workspace it gives the cleaned context |
| `BuildPaths.ContextIsWalked` | rust/bins/buildx-plugin/src/lib.rs:234-258 | for every context and absolute working directory: the cleaned path is what a walk from the root along the pieces of the working directory and then of the context reaches, ".." going up one name, "." and empty pieces staying; the working directory plays no part for an absolute context |
| `BuildPaths.OneMorePiece` | rust/bins/buildx-plugin/src/lib.rs:244-258 | a further "/.." takes the last name off the cleaned context, be it one of the context or of the working directory; "/." and "/" change nothing, and a name is added |
| `BuildPaths.RelativeContext` | rust/bins/buildx-plugin/src/lib.rs:234-242 | from a clean working directory a clean relative context has the names of both, and the subdirectory is what follows "workspace" in them |
| `BuildPaths.SplitJoins` | rust/bins/buildx-plugin/src/lib.rs:247 | the pieces, which hold no slash, joined by slashes are the path |
| `BuildPaths.SiblingIsNotContained` | rust/bins/buildx-plugin/src/lib.rs:226-232 | every clean path with another first name yields no subdirectory, also when that name starts with "workspace" |
| `Wire.ReadWrittenVarint` | shared/generated/platform/agent.ts:204 | reading a written varint, anywhere in a buffer, returns the number and the position behind it |
| `Wire.Int32RoundTrip` | shared/generated/platform/agent.ts:749 | an int32, sign-extended to 64 bits on the wire, is read back |
| `Wire.SignedIsCongruent` | shared/generated/platform/agent.ts:797 | any number on the wire is read as the 32-bit or 64-bit integer that it is congruent to |
| `Wire.TenBytesAreTheMost` | shared/generated/platform/agent.ts:200 | ten bytes that all announce another one are refused as tag, length or integer, wherever they stand |
| `Wire.SkipsRecord` | shared/generated/platform/agent.ts:262 | skipping by wire type lands exactly behind the record, whatever it holds |
| `WireLoop.DecodeLoop` | shared/generated/platform/agent.ts:199-264 | the decode loop ends for every input, never moves back and never passes the end of the buffer |
| `WireLoop.DecodeFields` | shared/generated/platform/agent.ts:199-264 | decoding a run of records, anywhere in a buffer, applies their meanings in order and goes on behind them |
| `WireLoop.DecodeRecords` | shared/generated/platform/agent.ts:195-265 | decoding a record sequence gives the base message with the meanings applied in order |
| `WireLoop.DecodeOrRefuse` | shared/generated/platform/agent.ts:195-265 | for records of the right shape decoding succeeds if and only if the message accepts all of them, and throws otherwise wherever the offending one stands |
| `WireLoop.EndTagStops` | shared/generated/platform/agent.ts:258-260 | a zero byte or the end tag of a group behind any records ends the message with these, whatever follows |
| `WireLoop.ForwardCompatible` | shared/generated/platform/agent.ts:258-263 | for every message, records that it does not know (wire types 0, 1, 2 and 5) may stand anywhere without changing the decoded message |
| `WireLoop.OrderAcrossFieldsDoesNotMatter` | shared/generated/platform/agent.ts:199-264 | reordering records of different fields does not change the meaning of a record sequence |
| `WireLoop.OrderFree` | shared/generated/platform/agent.ts:199-264 | nor the decoded message |
| `WireSimple.TimestampHandles` | shared/generated/platform/common.ts:93-123 | the cases of the decoder's switch read every acceptable record as its meaning says, ignore all others, and commute across fields |
| `WireSimple.TimestampRoundTrip` | shared/generated/platform/common.ts:83-91 | the records of an encoded timestamp, with zero fields elided, mean that timestamp, and are acceptable if and only if its seconds are a safe integer |
| `WireSimple.TimestampSurvivesIffSafe` | shared/generated/platform/common.ts:434-437 | all 64-bit seconds and 32-bit nanos are encoded; decoding returns the timestamp if and only if the seconds are from -9007199254740991 to 9007199254740991, and throws otherwise |
| `WireSimple.TextRoundTrip` | shared/generated/platform/agent.ts:177 | an encoded text is read back without the byte order mark that it may start with |
| `WireSimple.TokenInfoHandles` | shared/generated/platform/agent.ts:1035-1065 | the same for the token counts |
| `WireSimple.TokenInfoSurvivesIffSafe` | shared/generated/platform/agent.ts:1024-1065 | all 64-bit counts are encoded; decoding returns them if and only if both are from -9007199254740991 to 9007199254740991, and throws otherwise |
| `WireSimple.UnsafeRecordFails` | shared/generated/platform/agent.ts:1428-1437 | a record with an unsafe integer makes decoding throw, wherever it stands |
| `WireSimple.GitStatusHandles` | shared/generated/platform/agent.ts:769-847 | the switch of the git status, as above |
| `WireSimple.GitStatusRoundTrip` | shared/generated/platform/agent.ts:741-767 | the records of an encoded git status, with any list of files, mean that git status without leading byte order marks |
| `WireSimple.AgentHealthEntryHandles` | shared/generated/platform/agent.ts:607-661 | the switch of the health entry, as above |
| `WireSimple.AgentHealthEntryRoundTrip` | shared/generated/platform/agent.ts:588-605 | the records of an encoded health entry mean that entry without leading byte order marks |
| `WireSimple.DetailsEntryHandles` | shared/generated/platform/common.ts:361-391 | the switch of the map entry, as above |
| `WireSimple.DetailsEntryRoundTrip` | shared/generated/platform/common.ts:351-359 | the records of an encoded map entry mean that entry without leading byte order marks |
| `WireNested.StripDecodesAlike` | shared/generated/platform/agent.ts:258-263 | for every message with nested ones, unknown records at both levels may be left out, whether decoding succeeds or throws |
| `WireNested.ReorderedDecodesAlike` | shared/generated/platform/agent.ts:195-265 | for every message with nested ones, records in any order across fields and mixed with unknown ones, at both levels, decode to what the given records mean |
| `WireAgentState.AgentStateHandles` | shared/generated/platform/agent.ts:195-265 | the switch of the agent state, with its nested decoders, as above; it throws on nested integers that are not safe |
| `WireAgentState.AgentStateRoundTrip` | shared/generated/platform/agent.ts:170-265 | for every agent state with int32 and int64 fields, decoding its encoding throws if and only if a 64-bit integer is beyond 9007199254740991 in size, and returns the state if and only if none is and no text starts with a byte order mark; absent nested messages stay absent, and nested messages with default values only stay present |
| `WireAgentState.AgentStateForwardCompatible` | shared/generated/platform/agent.ts:258-263 | unknown records may stand between its own records and inside its nested messages: the result, a state or an error, is the same |
| `WireAgentState.TruncatedRecordReadsOn` | shared/generated/platform/agent.ts:234-241 | beyond sequences of records forward compatibility fails: token counts that end in a tag without payload throw at the end of the buffer, and with an unknown record behind them take that record's bytes as the count |
| `WireAgentState.AgentStateIsOrderFree` | shared/generated/platform/agent.ts:195-265 | any reordering across fields of an encoded agent state's records and of its nested messages' records, mixed with unknown ones at both levels, decodes to that agent state |
| `WireHealthCheck.HealthCheckResultHandles` | shared/generated/platform/agent.ts:473-527 | the switch of the health check result, with its repeated field, as above |
| `WireHealthCheck.HealthCheckResultRoundTrip` | shared/generated/platform/agent.ts:454-527 | every health check result, with any number of entries, is returned by decoding its encoding if and only if no text starts with a byte order mark; otherwise just those marks are lost |
| `WireHealthCheck.HealthCheckResultForwardCompatible` | shared/generated/platform/agent.ts:521-526 | unknown records may stand between its own records and inside its entries |
| `WireHealthCheck.HealthCheckResultIsOrderFree` | shared/generated/platform/agent.ts:473-527 | its records and those inside its entries may be reordered across fields and mixed with unknown ones; the entries keep their order |
| `WireErrorMessage.StoredDetails` | shared/generated/platform/common.ts:276-279 | the details that are read back, told key by key: every key without its byte order mark except "__proto__", with the value of the last detail that is read back under it |
| `WireErrorMessage.ErrorSurvivesIffPlain` | shared/generated/platform/common.ts:235-289 | an error, its details written in any order, is returned by decoding its encoding if and only if no text in it starts with a byte order mark and no detail is named "__proto__"; without marks just that detail is lost |
| `WireErrorMessage.ErrorForwardCompatible` | shared/generated/platform/common.ts:283-286 | unknown records may stand between its own records and inside its details |
| `WireErrorMessage.ErrorIsOrderFree` | shared/generated/platform/common.ts:248-289 | its records and those inside its details may be reordered across fields and mixed with unknown ones; the details keep their order |
| `WireRecords.AgentStateRecords` | shared/generated/platform/agent.ts:170-193 | the encoder writes records in the order of their field numbers, none for an empty text, and one for every nested message that is present |
| `WireRecords.GitStatusRecords` | shared/generated/platform/agent.ts:741-767 | records in field order, none for an empty branch, a false switch or a zero count, value 1 for a true switch, and one for every file, empty ones too |
| `WireRecords.TimestampRecords` | shared/generated/platform/common.ts:83-91 | records in field order, none for zero, and two's complement of 64 bits for negative integers |
| `WireRecords.TokenInfoRecords` | shared/generated/platform/agent.ts:1025-1033 | the same for the token counts |
| `WireRecords.AgentHealthEntryRecords` | shared/generated/platform/agent.ts:588-605 | the same for the health entry: none for empty texts and a false switch |
| `WireRecords.HealthCheckResultRecords` | shared/generated/platform/agent.ts:454-471 | the same for the health check result: none for zero, and one for every entry |
| `WireRecords.DetailsEntryRecords` | shared/generated/platform/common.ts:351-359 | the same for the map entry |
| `WireRecords.ErrorRecords` | shared/generated/platform/common.ts:235-246 | the same for the error: one record for every detail, in the order of the keys |
| `WireTruncated.DecodeBeginning` | shared/generated/platform/agent.ts:195-265 | for every message: a proper beginning of its records' bytes decodes if and only if it ends between two records, and then to what the records before the cut mean |
| `WireTruncated.AgentStateIsNotCut` | shared/generated/platform/agent.ts:195-265 | so a proper beginning of an encoded agent state is refused unless it ends between two of its own records; a cut inside a nested message is always refused |
| `WireTruncated.HealthCheckResultIsNotCut` | shared/generated/platform/agent.ts:473-527 | the same for the health check result and its entries |
| `WireTruncated.ErrorIsNotCut` | shared/generated/platform/common.ts:248-289 | the same for the error and its details |
| `WireDecoded.DecodeLoopKeeps` | shared/generated/platform/agent.ts:195-265 | what every case of a switch keeps holds of whatever the loop decodes, from arbitrary bytes and positions |
| `WireDecoded.DecodedTimestampSurvives` | shared/generated/platform/common.ts:93-123 | whatever bytes a timestamp is decoded from, its seconds are safe and its nanos 32-bit, the encoder accepts it, and the copy decodes to the same timestamp |
| `WireDecoded.DecodedTokenInfoSurvives` | shared/generated/platform/agent.ts:1035-1065 | whatever bytes token counts are decoded from, they are safe integers, the encoder accepts them, and the copy decodes to the same counts |
| `WireDecoded.DecodedAgentStateSurvives` | shared/generated/platform/agent.ts:195-265 | whatever bytes an agent state is decoded from, all its integers are safe and in range, also those of nested messages; the encoder accepts it if and only if its texts fit their length prefixes, and the copy decodes to the same state without leading byte order marks |
| `WireDecoded.DecodedHealthCheckResultSurvives` | shared/generated/platform/agent.ts:473-527 | whatever bytes a health check result is decoded from, its totals are 32-bit; the encoder accepts it if and only if its entries fit, and the copy decodes to the same result without leading byte order marks |
| `WireDecoded.DecodedErrorHasNoProto` | shared/generated/platform/common.ts:276-279 | no bytes decode to an error with a detail named "__proto__" |
| `WireDecoded.AgentStateAccepted` | shared/generated/platform/agent.ts:170-193 | the encoder accepts an agent state if and only if its integers fit 32 or 64 bits and its texts and its git status take fewer than 2^32 bytes |
| `WireDecoded.GitStatusAccepted` | shared/generated/platform/agent.ts:741-767 | the same for the git status |
| `WireDecoded.HealthCheckResultAccepted` | shared/generated/platform/agent.ts:454-471 | the same for the health check result and its entries |
| `WireDecoded.ErrorAccepted` | shared/generated/platform/common.ts:235-246 | the same for the error, with the keys of its details listed in any order |
| `WireObjects.Reader.Varint` | shared/generated/platform/agent.ts:200 | the loop over at most ten bytes, least significant digit first, returns and stops as the recursive reading says, also when the bytes end or the varint is too long |
| `WireObjects.Reader.Skip` | shared/generated/platform/agent.ts:262 | skipping by wire type, with a loop over a varint's bytes, stops as the specification function says |
| `WireObjects.Writer.Digits` | shared/generated/platform/agent.ts:172 | the loop that divides by 128 appends exactly the varint |
| `WireObjects.Writer.Join` | shared/generated/platform/agent.ts:181 | closing a nested record puts its length and its bytes behind what the enclosing record held before |
| `WireObjects.DecodeAgentState` | shared/generated/platform/agent.ts:195-265 | the loop over the reader's position returns, and leaves the reader, as the decode loop's function says |
| `WireObjects.DecodeGitStatus` | shared/generated/platform/agent.ts:769-847 | the same for the git status |
| `WireObjects.DecodeTokenInfo` | shared/generated/platform/agent.ts:1035-1065 | the same for the token counts |
| `WireObjects.DecodeTimestamp` | shared/generated/platform/common.ts:93-123 | the same for the timestamp |
| `WireObjects.DecodeHealthCheckResult` | shared/generated/platform/agent.ts:473-527 | the same for the health check result |
| `WireObjects.DecodeAgentHealthEntry` | shared/generated/platform/agent.ts:607-661 | the same for the health entry |
| `WireObjects.DecodeError` | shared/generated/platform/common.ts:248-289 | the same for the error |
| `WireObjects.DecodeDetailsEntry` | shared/generated/platform/common.ts:361-391 | the same for the map entry |
| `WireObjects.EncodeAgentState` | shared/generated/platform/agent.ts:170-193 | the writes append exactly the bytes of the message's records and restore the stack of open records |
| `WireObjects.EncodeGitStatus` | shared/generated/platform/agent.ts:741-767 | the same for the git status |
| `WireObjects.EncodeTokenInfo` | shared/generated/platform/agent.ts:1025-1033 | the same for the token counts |
| `WireObjects.EncodeTimestamp` | shared/generated/platform/common.ts:83-91 | the same for the timestamp |
| `WireObjects.EncodeHealthCheckResult` | shared/generated/platform/agent.ts:454-471 | the same for the health check result |
| `WireObjects.EncodeAgentHealthEntry` | shared/generated/platform/agent.ts:588-605 | the same for the health entry |
| `WireObjects.EncodeError` | shared/generated/platform/common.ts:235-246 | the same for the error |
| `WireObjects.EncodeDetailsEntry` | shared/generated/platform/common.ts:351-359 | the same for the map entry |
| `WireObjects.TransferAgentState` | shared/generated/platform/agent.ts:170-265 | writing an agent state with a new writer and reading it with a new reader returns it if and only if its integers are safe and its texts unmarked |
| `WireObjects.TransferHealthCheckResult` | shared/generated/platform/agent.ts:454-527 | writing a health check result with a new writer and reading it with a new reader returns it if and only if its texts are unmarked |
| `WireObjects.TransferError` | shared/generated/platform/common.ts:235-289 | writing an error with a new writer and reading it with a new reader returns it if and only if its texts are unmarked and no detail is named "__proto__" |

## Left out

- `fromJSON`, `toJSON`, `create` and `fromPartial` of the messages, the other generated messages (the same pattern again), and the gRPC service definitions and clients.
- The protobuf runtime library is not part of this model: reader and writer, with their loops over varints, follow the Protocol Buffers Encoding specification, and text fields are read as a `TextDecoder` does (WHATWG Encoding Standard), malformed input replaced and a leading byte order mark dropped.
- Groups: skipping wire type 3 is an error here; a tag with wire type 4 ends the loop, as in the code.
- Length prefixes: texts and nested messages are shorter than 2^32 bytes.
- Decoded messages are values here and not objects, so sharing between a caller's message and the decoder's is not captured.
- AgentStateForwardCompatible: nested messages are sequences of records that fit the wire format; for other nested bytes it fails (`TruncatedRecordReadsOn`), and of those only the properties in `WireDecoded` are stated.
- HealthCheckResultForwardCompatible: the bytes of an entry are a sequence of records that fit the wire format, for the same reason.
- ErrorForwardCompatible: the bytes of a detail are a sequence of records that fit the wire format, for the same reason.
- The built-in sort of the turn builder is taken as the stable sort that the language requires; its algorithm is not modelled.
- JSON.stringify, tool inputs and outputs (texts here) and the extraction of step metadata (a parameter of the event); `hasFullContent`, which is constant, and the turn fields that the builder never sets.
- TruncateText: previews are cut at Unicode scalar values, where the source cuts at UTF-16 code units, so texts with characters beyond the basic plane are cut elsewhere.
- Timestamps, durations and the clock are integers, the clock a parameter.
- Lone surrogates: strings are sequences of Unicode scalar values.
- Binary strings between `btoa` and `atob` are sequences of bytes.
- DecodeCursor: timestamps are integers; the syntax of ECMAScript numbers beyond optionally negated decimal integers is the parameter `other`.
- React rendering and state batching, `send`, the subscription set (deliveries are counted), changes of the `url` and `reconnectInterval` properties during a mount, and exceptions for malformed URLs.
- Unmounting is terminal: events that reach handlers of the closing socket afterwards, and a second mount, are outside the model.
- The token manager that calls the listeners: storage writes and notifications are events of the environment.
- `normalize_args`, `build_request`, `ProxyClient` and the plugin's metadata output: strings for I/O.
- Paths are Unix paths of text; `PathBuf::pop` is modelled on paths without trailing or repeated slashes, which are the only ones that the loop builds, and the text of `strip_prefix` on clean paths.
