/**
 `buildTurns`: the results about runs, restated for arbitrary event lists as they are delivered.
 */
module TurnBuilder {
  import opened Options
  import opened TurnModel
  import opened TurnShape
  import opened TurnStructure
  import opened TurnMapping
  import opened TurnSteps
  import opened TurnOrder
  import opened TurnHistory
  import opened TurnFate
  import opened TurnTies
  import opened TurnReorder
  import opened TurnTime

  datatype BuildResult = BuildResult(
    turns: seq<TurnRecord>,
    unknownEventTypeCount: nat,
    deduplicatedEventCount: nat,
    eventTurnMap: map<string, string>)

  function BuildTurns(events: seq<Event>, now: int): BuildResult {
    var c := Run(Canonical(events));
    BuildResult(CloseStale(c, now).turns, c.unknownEventTypeCount,
                |events| - |Canonical(events)|, c.eventTurnMap)
  }

  // ---------------------------------------------------------------------------------------------
  // Delivery order and duplicates
  // ---------------------------------------------------------------------------------------------

  /** Deliveries that bring the same events first at every instant give the same result. */
  lemma DeliveryMattersByInstant(xs: seq<Event>, ys: seq<Event>, now: int)
    requires SameFirsts(xs, ys)
    ensures SameResult(xs, ys, now)
  {
    hide Run, CloseStale, Canonical, FirstsAt;
    ProcessingOrder(xs, ys);
  }

  /** The results agree in all but the number of duplicates. */
  predicate SameResult(xs: seq<Event>, ys: seq<Event>, now: int) {
    var a, b := BuildTurns(xs, now), BuildTurns(ys, now);
    && a.turns == b.turns
    && a.unknownEventTypeCount == b.unknownEventTypeCount
    && a.eventTurnMap == b.eventTurnMap
    && a.deduplicatedEventCount - |xs| == b.deduplicatedEventCount - |ys|
  }

  /**
   Permuting or repeating the events changes nothing but the number of duplicates, when distinct
   events share no id and no instant.
   */
  lemma DeliveryDoesNotMatter(xs: seq<Event>, ys: seq<Event>, now: int)
    requires SameEvents(xs, ys) && Distinguishable(xs)
    ensures SameFirsts(xs, ys) && SameResult(xs, ys, now)
  {
    hide Canonical, SameFirsts, SameResult;
    CanonicalIgnoresDelivery(xs, ys);
    ProcessingOrder(xs, ys);
    DeliveryMattersByInstant(xs, ys, now);
  }

  /** Neighbours in processing order that commute may be delivered either way. */
  lemma CommutingTiesDoNotMatter(xs: seq<Event>, ys: seq<Event>, now: int,
                                 before: seq<Event>, e: Event, f: Event, after: seq<Event>)
    requires Canonical(xs) == before + [e, f] + after && Canonical(ys) == before + [f, e] + after
    requires Commute(OpenAfter(before), e, f)
    ensures SameResult(xs, ys, now)
  {
    hide Run, CloseStale, Canonical, Commute, OpenAfter;
    CanonicalIsOrdered(xs);
    var i := |before|;
    assert Canonical(xs)[i] == e && Canonical(xs)[i + 1] == f;
    TiesCommute(before, e, f, after);
  }

  /**
   Two deliveries give the same result when at every instant they bring the same events first, and
   every two of these that change order commute.
   */
  lemma ReorderedTiesDoNotMatter(xs: seq<Event>, ys: seq<Event>, now: int)
    requires forall t :: SameEvents(FirstsAt(xs, t), FirstsAt(ys, t))
    requires forall t :: ReordersOnlyCommuting(FirstsAt(xs, t), FirstsAt(ys, t))
    ensures SameResult(xs, ys, now)
  {
    hide Run, CloseStale, Canonical, FirstsAt, AtTime, SortedByTime, SameEvents, ReordersOnlyCommuting;
    var a, b := Canonical(xs), Canonical(ys);
    forall t
      ensures SameEvents(AtTime(a, t), AtTime(b, t)) && ReordersOnlyCommuting(AtTime(a, t), AtTime(b, t))
    {
      CanonicalAt(xs, t);
      CanonicalAt(ys, t);
      assert SameEvents(FirstsAt(xs, t), FirstsAt(ys, t)) && ReordersOnlyCommuting(FirstsAt(xs, t), FirstsAt(ys, t));
    }
    CanonicalIsOrdered(xs);
    CanonicalIsOrdered(ys);
    SortedReorderTies(a, b);
    ReorderedRunsAgree(a, b);
  }

  /**
   With one timestamp per id, two deliveries of the same events give the same result when every two
   events of one instant commute whose first occurrences change order.
   */
  lemma {:induction false} ReorderedDeliveryDoesNotMatter(xs: seq<Event>, ys: seq<Event>, now: int)
    requires OneTimePerId(xs) && OneTimePerId(ys)
    requires SameEvents(Dedup(xs), Dedup(ys)) && ReordersOnlyCommutingTies(Dedup(xs), Dedup(ys))
    ensures SameResult(xs, ys, now)
  {
    hide FirstsAt, AtTime, Dedup, OneTimePerId, SameResult, SameEvents, ReordersOnlyCommuting;
    ReordersTiesOf(Dedup(xs), Dedup(ys));
    forall t
      ensures SameEvents(FirstsAt(xs, t), FirstsAt(ys, t))
      ensures ReordersOnlyCommuting(FirstsAt(xs, t), FirstsAt(ys, t))
    {
      FirstsAreOccurrences(xs, t);
      FirstsAreOccurrences(ys, t);
      assert SameEvents(AtTime(Dedup(xs), t), AtTime(Dedup(ys), t));
    }
    ReorderedTiesDoNotMatter(xs, ys, now);
  }

  lemma PromptAlone(p: Event)
    requires p.kind.PromptSubmit?
    ensures Run([p]).turns == [UserTurn(p, 1), AssistantTurn(p, 2, Thinking)]
    ensures Run([p]).current == Some(1)
  {
    hide Advance;
    assert [p][..0] == [];
    assert Run([p]) == Advance(EMPTY_CONTEXT, p);
    AdvanceShape(EMPTY_CONTEXT, p);
  }

  lemma PromptThenStop(p: Event, s: Event)
    requires p.kind.PromptSubmit? && s.kind.Stop?
    ensures Run([p, s]).turns == [UserTurn(p, 1), StopTurn(AssistantTurn(p, 2, Thinking), s)]
    ensures Run([p, s]).current == Some(1)
  {
    hide Advance, Run;
    assert [p, s] == [p] + [s];
    PromptAlone(p);
    RunAppend([p], s);
    RunKeepsInv([p]);
    AdvanceShape(Run([p]), s);
  }

  lemma StopThenPrompt(s: Event, p: Event)
    requires p.kind.PromptSubmit? && s.kind.Stop?
    ensures Run([s, p]).turns == [UserTurn(p, 1), AssistantTurn(p, 2, Thinking)]
    ensures Run([s, p]).current == Some(1)
  {
    hide Advance;
    assert [s, p] == [s] + [p] && [s][..0] == [];
    RunAppend([s], p);
    assert Run([s]) == Advance(EMPTY_CONTEXT, s);
    AdvanceShape(EMPTY_CONTEXT, s);
    RunKeepsInv([s]);
    AdvanceShape(Run([s]), p);
  }

  /** Distinct timestamps are needed: a prompt and a stop at the same instant do not commute. */
  lemma TiesDependOnDelivery()
    ensures var prompt := Event("p", 5, None, None, PromptSubmit("x"));
            var stop := Event("s", 5, None, None, Stop(None));
            BuildTurns([prompt, stop], 5).turns != BuildTurns([stop, prompt], 5).turns
  {
    var prompt := Event("p", 5, None, None, PromptSubmit("x"));
    var stop := Event("s", 5, None, None, Stop(None));
    hide Run, Canonical;
    CanonicalOfOrdered([prompt, stop]);
    CanonicalOfOrdered([stop, prompt]);
    PromptThenStop(prompt, stop);
    StopThenPrompt(stop, prompt);
    assert BuildTurns([prompt, stop], 5).turns[1].status == Complete;
    assert BuildTurns([stop, prompt], 5).turns[1].status == Thinking;
  }

  // ---------------------------------------------------------------------------------------------
  // History
  // ---------------------------------------------------------------------------------------------

  /** Steps keep their fixed fields and are only appended. */
  predicate FieldsExtend(before: seq<StepRecord>, after: seq<StepRecord>) {
    |before| <= |after| && forall k :: 0 <= k < |before| ==> SameStep(before[k], after[k])
  }

  /** What the stale pass may change: the last turn's status, times and pending steps. */
  lemma StalePassChanges(c: Context, now: int)
    requires Inv(c)
    ensures var r := CloseStale(c, now).turns;
            && |r| == |c.turns|
            && forall i :: 0 <= i < |r| ==>
                 && SameIdentity(c.turns[i], r[i])
                 && r[i].rawEventCount == c.turns[i].rawEventCount
                 && FieldsExtend(c.turns[i].steps, r[i].steps)
                 && FieldsExtend(r[i].steps, c.turns[i].steps)
                 && (i + 1 < |r| || c.current.None? || !IsStale(c.Turn(), now) ==> r[i] == c.turns[i])
  {
  }

  /**
   Fresh events that are not earlier than any other leave every turn but the last alone, only
   extend the last one, and keep every entry of the map.
   */
  lemma HistoryIsStable(events: seq<Event>, more: seq<Event>, now: int, later: int)
    requires NotBefore(events, more)
    requires Ids(events) !! Ids(more)
    ensures var before, after := BuildTurns(events, now), BuildTurns(events + more, later);
            && |before.turns| <= |after.turns|
            && (forall i :: 0 <= i < |before.turns| - 1 ==> after.turns[i] == before.turns[i])
            && (before.turns != [] ==>
                  var i := |before.turns| - 1;
                  && SameIdentity(before.turns[i], after.turns[i])
                  && FieldsExtend(before.turns[i].steps, after.turns[i].steps)
                  && (before.turns[i].kind == System ==> after.turns[i] == before.turns[i]))
            && (forall id :: id in before.eventTurnMap ==>
                  id in after.eventTurnMap && after.eventTurnMap[id] == before.eventTurnMap[id])
  {
    hide Run, CloseStale, Canonical, IsStale, IsClosed;
    var es, fs := Canonical(events), Canonical(more);
    CanonicalLater(events, more);
    CanonicalIsOrdered(events + more);
    RunKeepsHistory(es, fs);
    RunKeepsInv(es);
    RunKeepsInv(es + fs);
    StalePassChanges(Run(es), now);
    StalePassChanges(Run(es + fs), later);
  }

  // ---------------------------------------------------------------------------------------------
  // The stale verdict
  // ---------------------------------------------------------------------------------------------

  /**
   The last turn is reported as interrupted exactly when a prompt or tool call was not followed by
   another one, a stop or a session event, and the last sign of life after it is more than two minutes
   old. Its completion is then that sign of life.
   */
  lemma StaleVerdict(events: seq<Event>, now: int)
    ensures var es, turns := Canonical(events), BuildTurns(events, now).turns;
            && (turns != [] && turns[|turns| - 1].status == Interrupted <==> GoesStale(es, now))
            && (GoesStale(es, now) ==>
                  LastOpening(es).Some? &&
                  turns[|turns| - 1].completedAt == Some(Activity(es, LastOpening(es).value, now)))
  {
    hide Run, Canonical, LastOpening, Activity, LastActivityTime;
    var es := Canonical(events);
    RunKeepsInv(es);
    StaleIffIdle(es, now);
    hide GoesStale;
    CloseStaleSettles(Run(es), now);
    LastTurnIsOpen(es);
  }

  /** A turn list ends with an interrupted turn only after the stale pass. */
  lemma {:induction false} LastTurnIsOpen(es: seq<Event>)
    ensures Run(es).turns != [] ==> Run(es).turns[|Run(es).turns| - 1].status != Interrupted
  {
    hide Run, MatchesGrammar;
    RunKeepsInv(es);
    CurrentIffOpen(es);
    TurnsMatchGrammar(es);
    if Run(es).current.None? && Run(es).turns != [] {
      SystemTurnIsComplete(es, |Run(es).turns| - 1);
    }
  }

  lemma {:induction false} SystemTurnIsComplete(es: seq<Event>, i: nat)
    requires i < |Run(es).turns| && Run(es).turns[i].kind == System
    ensures Run(es).turns[i].status == Complete
  {
    hide Run, OpenAfter, TurnCount;
    var k, j := TurnHasOrigin(es, i);
    CreatedIdentity(es, k, j);
    FixedTurnStays(es, k);
  }

  /** A turn without tool calls that starts at time 0 never becomes stale: zero counts as no start. */
  lemma PromptAtZeroIsNeverStale(events: seq<Event>, now: int, k: nat)
    requires k < |Canonical(events)| && Unfinished(Canonical(events), k)
    requires Canonical(events)[k].kind.PromptSubmit? && Canonical(events)[k].timestamp == 0
    ensures var turns := BuildTurns(events, now).turns;
            turns != [] ==> turns[|turns| - 1].status != Interrupted
  {
    hide Run, Canonical, BuildTurns;
    var es := Canonical(events);
    StaleVerdict(events, now);
    if GoesStale(es, now) {
      var j :| 0 <= j < |es| && Unfinished(es, j) && now - Activity(es, j, now) > 120000;
      LastOpeningIsUnique(es, j);
      LastOpeningIsUnique(es, k);
    }
  }

  lemma {:induction false} LonePromptCount(p: Event)
    requires p.kind.PromptSubmit?
    ensures TurnCount([p]) == 2 && [p][..1] == [p]
  {
    hide OpenAfter;
    assert [] + [p] == [p];
    TurnCountAppend([], p);
    assert TurnCount([]) == 0;
  }

  lemma {:induction false} LonePromptIsOpen(p: Event)
    requires p.kind.PromptSubmit?
    ensures CreatesReply([p], 0) && StillCurrent([p], 0, 1) && Unfinished([p], 0)
    ensures LastOpening([p]) == Some(0)
  {
    hide LastOpening, OpenAfter;
    LastOpeningIsUnique([p], 0);
  }

  lemma {:induction false} LonePromptIsIdle(p: Event, now: int)
    requires p.kind.PromptSubmit?
    ensures ExpectedTurnStatus([p], 0) == Thinking
    ensures GoesStale([p], now) <==> p.timestamp != 0 && now - p.timestamp > 120000
  {
    hide LastOpening, OpenAfter, CreatesReply, StillCurrent, Unfinished, LastEnd;
    LonePromptIsOpen(p);
    assert Activity([p], 0, now) == if p.timestamp != 0 then p.timestamp else now;
  }

  /** A lone prompt is reported as interrupted exactly when it is older than two minutes and not at time 0. */
  lemma LonePromptGoesStale(p: Event, now: int)
    requires p.kind.PromptSubmit?
    ensures |BuildTurns([p], now).turns| == 2
    ensures BuildTurns([p], now).turns[1].status ==
            if p.timestamp != 0 && now - p.timestamp > 120000 then Interrupted else Thinking
  {
    CanonicalOfOrdered([p]);
    hide BuildTurns, Canonical, LastOpening, OpenAfter, TurnCount, CreatesReply, StillCurrent, GoesStale, Activity;
    hide ExpectedTurnStatus, ExpectedResponse, ExpectedThinking, ExpectedEnd, MatchesGrammar, Kinds;
    LonePromptCount(p);
    LonePromptIsOpen(p);
    LonePromptIsIdle(p, now);
    ResultIsGrammatical([p], now);
    ResultTurnFate([p], now, 0);
  }

  /**
   The verdict is provisional: once a fresh stop arrives that is not earlier than the other events,
   the turn is complete, at the time of that stop and for every clock.
   */
  lemma InterruptionIsProvisional(events: seq<Event>, now: int, stop: Event, later: int)
    requires BuildTurns(events, now).turns != []
    requires BuildTurns(events, now).turns[|BuildTurns(events, now).turns| - 1].status == Interrupted
    requires stop.kind.Stop? && NotBefore(events, [stop]) && stop.id !in Ids(events)
    ensures var before, after := BuildTurns(events, now).turns, BuildTurns(events + [stop], later).turns;
            && |after| == |before|
            && (forall i :: 0 <= i < |before| - 1 ==> after[i] == before[i])
            && after[|after| - 1].status == Complete
            && after[|after| - 1].completedAt == Some(stop.timestamp)
  {
    hide Run, Canonical, LastOpening, Activity, GoesStale, StopTurn, Inv, CloseStale, IsStale, IsClosed, Advance;
    var es := Canonical(events);
    StaleVerdict(events, now);
    OpenTurnStatus(es);
    CanonicalLater(events, [stop]);
    CanonicalOfOrdered([stop]);
    RunKeepsInv(es);
    RunAppend(es, stop);
    CloseStaleSettles(Run(es), now);
    StopCompletes(Run(es), stop, later);
  }

  lemma StopCompletes(c: Context, stop: Event, now: int)
    requires Inv(c) && c.current.Some? && stop.kind.Stop?
    ensures var turns := CloseStale(Advance(c, stop), now).turns;
            && |turns| == |c.turns|
            && (forall i :: 0 <= i < |turns| - 1 ==> turns[i] == c.turns[i])
            && turns[|turns| - 1].status == Complete
            && turns[|turns| - 1].completedAt == Some(stop.timestamp)
  {
    hide Advance, TimeOutAll;
    AdvanceShape(c, stop);
    AdvanceKeepsInv(c, stop);
  }

  // ---------------------------------------------------------------------------------------------
  // The result of a build
  // ---------------------------------------------------------------------------------------------

  /** The state-machine invariant of the result: numbered turns, all closed but an open last one. */
  lemma ResultIsSettled(events: seq<Event>, now: int)
    ensures var turns := BuildTurns(events, now).turns;
            && Numbered(turns)
            && (forall i :: 0 <= i < |turns| - 1 ==> IsClosed(turns[i]))
            && (turns != [] ==>
                  var last := turns[|turns| - 1];
                  IsClosed(last) || (last.kind == Assistant && (last.status == Thinking || last.status == ToolUse)))
  {
    hide Run, CloseStale, Canonical, IsStale;
    RunKeepsInv(Canonical(events));
    CloseStaleSettles(Run(Canonical(events)), now);
  }

  /** Turn grammar and turn count of the result. */
  lemma ResultIsGrammatical(events: seq<Event>, now: int)
    ensures MatchesGrammar(Kinds(BuildTurns(events, now).turns))
    ensures |BuildTurns(events, now).turns| == TurnCount(Canonical(events))
  {
    hide Run, CloseStale, Canonical, IsStale, MatchesGrammar, TurnCount;
    var es := Canonical(events);
    RunKeepsInv(es);
    TurnsMatchGrammar(es);
    TurnsAreCounted(es);
    StalePassChanges(Run(es), now);
    assert Kinds(BuildTurns(events, now).turns) == Kinds(Run(es).turns);
  }

  /**
   Event counts of the result, read off the map it comes with, when no event that opens an
   assistant turn has an id that clashes with another event's.
   */
  lemma ResultCountsEvents(events: seq<Event>, now: int, i: nat)
    requires i < |BuildTurns(events, now).turns|
    requires forall e, f :: e in events && f in events ==> e.id != f.id + "-assistant"
    ensures var es, r := Canonical(events), BuildTurns(events, now);
            && UniqueTurnIds(r.turns)
            && r.turns[i].rawEventCount == 1 +
               if r.turns[i].kind == Assistant
               then MappedEvents(es, |es|, r.eventTurnMap, r.turns[i].id) else 0
  {
    hide Run, CloseStale, Canonical, IsStale, OpenAfter;
    var es := Canonical(events);
    CanonicalIsOrdered(events);
    RunKeepsInv(es);
    StalePassChanges(Run(es), now);
    TurnIdsUniqueIffNoClash(es);
    assert forall k :: 0 <= k < |es| ==> es[k] in es;
    RawEventCountsMatchMap(es, i);
  }

  /** The map of the result names turns of the result, for exactly the events that belong to one. */
  lemma ResultMapsEvents(events: seq<Event>, now: int, k: nat)
    requires k < |Canonical(events)|
    ensures var es, r := Canonical(events), BuildTurns(events, now);
            && (es[k].id in r.eventTurnMap <==> IsMapped(es, k))
            && (IsMapped(es, k) ==>
                  && 0 <= OwnerIndex(es, k) < |r.turns|
                  && r.eventTurnMap[es[k].id] == r.turns[OwnerIndex(es, k)].id)
            && (forall id :: id in r.eventTurnMap ==> exists e :: e in events && e.id == id)
  {
    hide Run, CloseStale, Canonical, IsStale, IsMapped, OwnerIndex;
    var es := Canonical(events);
    CanonicalIsOrdered(events);
    RunKeepsInv(es);
    MapNamesOwner(es, k);
    StalePassChanges(Run(es), now);
    MapHasOnlyEventIds(es);
    forall id | id in Run(es).eventTurnMap
      ensures exists e :: e in events && e.id == id
    {
      var n :| 0 <= n < |es| && es[n].id == id;
      assert es[n] in es;
    }
  }

  /**
   The step of every tool call in the result, told from the events: as the events leave it, and then
   timed out when the stale pass acts on its turn.
   */
  lemma {:induction false} ResultStepFate(events: seq<Event>, now: int, k: nat)
    requires k < |Canonical(events)| && IsToolCall(Canonical(events)[k])
    ensures var es, turns := Canonical(events), BuildTurns(events, now).turns;
            var i, s := OwnerIndex(es, k), ToolCalls(es, k, OwnerIndex(es, k));
            && 0 <= i < |turns| && s < |turns[i].steps|
            && turns[i].steps[s] ==
               if GoesStale(es, now) && StillCurrent(es, k, |es|) then TimeOut(ExpectedStep(es, k))
               else ExpectedStep(es, k)
  {
    hide Run, CloseStale, Canonical, IsStale, OwnerIndex, ToolCalls, OpenAfter, TurnCount, ExpectedStep, GoesStale;
    hide StillCurrent, TimeOut;
    var es := Canonical(events);
    RunKeepsInv(es);
    ToolCallHasStep(es, k);
    StepHasFate(es, k);
    StaleIffIdle(es, now);
    CurrentIffOpen(es);
    TurnsAreCounted(es);
    CurrentWhileNotReplaced(es, k);
    StalePassOnSteps(Run(es), now, OwnerIndex(es, k));
  }

  /** The pass times out the pending steps of a stale current turn, and no others. */
  lemma StalePassOnSteps(c: Context, now: int, i: nat)
    requires Inv(c) && i < |c.turns|
    ensures |CloseStale(c, now).turns| == |c.turns|
    ensures var t := CloseStale(c, now).turns[i];
            t.steps == if c.HasAssistant() && IsStale(c.Turn(), now) && i + 1 == |c.turns|
                       then TimeOutAll(c.turns[i].steps) else c.turns[i].steps
  {
    hide IsStale, LastActivityTime, TimeOutAll;
  }

  /** The status of every tool call's step in the result, told from the step's events and its turn. */
  lemma {:induction false} ResultStepStatus(events: seq<Event>, now: int, k: nat)
    requires k < |Canonical(events)| && IsToolCall(Canonical(events)[k])
    ensures var es, turns := Canonical(events), BuildTurns(events, now).turns;
            var i, s := OwnerIndex(es, k), ToolCalls(es, k, OwnerIndex(es, k));
            && 0 <= i < |turns| && s < |turns[i].steps|
            && SameStep(NewStep(es[k]), turns[i].steps[s])
            && turns[i].steps[s].status ==
               (if Fate(es, k) == StepPending && turns[i].status == Interrupted then StepTimeout
                else Fate(es, k))
  {
    hide Run, CloseStale, Canonical, IsStale, OwnerIndex, ToolCalls, Fate;
    var es := Canonical(events);
    RunKeepsInv(es);
    ToolCallHasStep(es, k);
    StepHasFate(es, k);
    StalePassChanges(Run(es), now);
    StalePassTimesOut(Run(es), now, OwnerIndex(es, k));
  }

  lemma StalePassTimesOut(c: Context, now: int, i: nat)
    requires Inv(c) && i < |c.turns|
    ensures var t := CloseStale(c, now).turns[i];
            && |t.steps| == |c.turns[i].steps|
            && forall s :: 0 <= s < |t.steps| ==>
                 t.steps[s].status ==
                 if c.turns[i].steps[s].status == StepPending && t.status == Interrupted then StepTimeout
                 else c.turns[i].steps[s].status
  {
  }

  lemma {:induction false} SameStepCounts(turns: seq<TurnRecord>, others: seq<TurnRecord>)
    requires |turns| == |others| && forall i :: 0 <= i < |turns| ==> |turns[i].steps| == |others[i].steps|
    ensures TotalSteps(turns) == TotalSteps(others)
  {
    if turns != [] {
      SameStepCounts(turns[..|turns| - 1], others[..|turns| - 1]);
    }
  }

  /** The result has exactly one step per tool call that is processed. */
  lemma ResultStepsMatchToolCalls(events: seq<Event>, now: int)
    ensures TotalSteps(BuildTurns(events, now).turns) == Count(Canonical(events), IsToolCall)
  {
    hide Run, CloseStale, Canonical, TotalSteps, IsStale;
    var es := Canonical(events);
    RunKeepsInv(es);
    StalePassChanges(Run(es), now);
    StepsMatchToolCalls(es);
    SameStepCounts(Run(es).turns, BuildTurns(events, now).turns);
  }

  /**
   All times of the result are sound exactly when the stale pass does not act on a tool call whose
   last result reports a negative duration.
   */
  lemma ResultTimesAreSound(events: seq<Event>, now: int)
    ensures SoundTimes(BuildTurns(events, now).turns) <==> !RewindsTime(Canonical(events), now)
  {
    hide Run, CloseStale, Canonical, IsStale;
    CanonicalIsOrdered(events);
    TimesAreSound(Canonical(events), now);
  }

  /** Without negative reported durations all times of the result are sound. */
  lemma SoundWithoutNegativeDurations(events: seq<Event>, now: int)
    requires forall e :: e in events && e.kind.PostToolUse? && e.kind.duration.Some? ==> e.kind.duration.value >= 0
    ensures SoundTimes(BuildTurns(events, now).turns)
  {
    hide BuildTurns, Canonical, SoundTimes, Activity, LastResult;
    var es := Canonical(events);
    ResultTimesAreSound(events, now);
    CanonicalIsOrdered(events);
    forall k | 0 <= k < |es| && IsToolCall(es[k])
      ensures ReportedDuration(es, k) >= 0
    {
      var last := LastResult(es, k, |es|);
      if last.Some? {
        assert es[last.value] in events;
      }
    }
  }

  /** A negative duration does rewind time: a tool call that started at 5 is in a turn completed at 2. */
  lemma NegativeDurationRewindsTime()
    ensures var prompt := Event("p", 1, None, None, PromptSubmit("x"));
            var call := Event("c", 5, None, None, PreToolUse("t", "", None, "u", None));
            var result := Event("r", 6, None, None, PostToolUse("u", "", None, Some(-3)));
            !SoundTimes(BuildTurns([prompt, call, result], 200000).turns)
  {
    var prompt := Event("p", 1, None, None, PromptSubmit("x"));
    var call := Event("c", 5, None, None, PreToolUse("t", "", None, "u", None));
    var result := Event("r", 6, None, None, PostToolUse("u", "", None, Some(-3)));
    var es := [prompt, call, result];
    hide BuildTurns, Canonical, SoundTimes;
    CanonicalOfOrdered(es);
    ResultTimesAreSound(es, 200000);
    assert Resolves(es, 1, 2);
    assert LastResult(es, 1, 3) == Some(2);
    assert ReportedDuration(es, 1) == -3;
    assert Unfinished(es, 1) && IsToolCall(es[1]);
  }

  /** The turn is the one that event `k` creates, as the events and the clock tell it. */
  predicate IsReply(t: TurnRecord, es: seq<Event>, k: nat, now: int)
    requires k < |es|
  {
    var stale := GoesStale(es, now) && StillCurrent(es, k, |es|);
    && t.kind == Assistant
    && t.id == es[k].id + "-assistant"
    && t.sessionId == (if es[k].sessionId.Some? then es[k].sessionId.value else "")
    && t.sequence == ReplyIndex(es, k) + 1
    && t.cliTool == es[k].cliTool
    && t.prompt == None
    && t.startedAt == es[k].timestamp
    && t.response == ExpectedResponse(es, k)
    && t.thinking == ExpectedThinking(es, k)
    && t.status == (if stale then Interrupted else ExpectedTurnStatus(es, k))
    && t.completedAt == (if stale && LastOpening(es).Some? then Some(Activity(es, LastOpening(es).value, now))
                         else ExpectedEnd(es, k))
    && t.durationMs == (if t.completedAt.Some? then Some(t.completedAt.value - t.startedAt) else None)
  }

  /** Every assistant turn of the result, told from the events. */
  lemma ResultTurnFate(events: seq<Event>, now: int, k: nat)
    requires k < |Canonical(events)| && CreatesReply(Canonical(events), k)
    ensures var es, turns := Canonical(events), BuildTurns(events, now).turns;
            0 <= ReplyIndex(es, k) < |turns| && IsReply(turns[ReplyIndex(es, k)], es, k, now)
  {
    hide Run, Canonical, OpenAfter, TurnCount, LastOpening, Activity, GoesStale, ExpectedResponse, ExpectedThinking;
    hide ExpectedEnd, ExpectedTurnStatus, LastActivityTime, StillCurrent, IsClosed, TimeOutAll;
    var es := Canonical(events);
    TurnHasFate(es, k);
    RunKeepsInv(es);
    StaleIffIdle(es, now);
    CurrentIffOpen(es);
    TurnsAreCounted(es);
    ReplyStaysCurrent(es, k);
  }

  /** Every user and system turn of the result is as its event created it. */
  lemma ResultFixedTurns(events: seq<Event>, now: int, k: nat)
    requires k < |Canonical(events)| && ReplacesTurn(Canonical(events)[k])
    ensures var es, turns := Canonical(events), BuildTurns(events, now).turns;
            && TurnCount(es[..k]) < |turns|
            && turns[TurnCount(es[..k])] == FixedTurn(es[k], TurnCount(es[..k]))
  {
    hide Run, Canonical, TurnCount, IsStale, FinalizeTurn;
    RunKeepsInv(Canonical(events));
    FixedTurnStays(Canonical(events), k);
  }
}
