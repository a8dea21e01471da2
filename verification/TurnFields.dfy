/**
 The result of a build field by field, every constant written out: what each turn and step holds, which
 of the delivered events are processed, and which of them the builder does not know.
 */
module TurnFields {
  import opened Options
  import opened TurnModel
  import opened TurnShape
  import opened TurnStructure
  import opened TurnMapping
  import opened TurnSteps
  import opened TurnOrder
  import opened TurnFate
  import opened TurnBuilder

  // ---------------------------------------------------------------------------------------------
  // User and system turns
  // ---------------------------------------------------------------------------------------------

  /** The turn holds what it was created with, and nothing that belongs to assistant turns. */
  predicate IsFixed(t: TurnRecord, e: Event, i: nat, kind: TurnType) {
    && t.id == e.id
    && t.sessionId == (if e.sessionId.Some? then e.sessionId.value else "")
    && t.sequence == i + 1
    && t.kind == kind
    && t.status == Complete
    && t.thinking == None
    && t.steps == []
    && t.startedAt == e.timestamp
    && t.completedAt == Some(e.timestamp)
    && t.durationMs == None
    && t.rawEventCount == 1
  }

  /** The user turn of every prompt: the prompt's text and tool, complete at once. */
  lemma PromptTurnFields(events: seq<Event>, now: int, k: nat)
    requires k < |Canonical(events)| && Canonical(events)[k].kind.PromptSubmit?
    ensures var es, turns := Canonical(events), BuildTurns(events, now).turns;
            var e, i := es[k], TurnCount(es[..k]);
            && i < |turns|
            && IsFixed(turns[i], e, i, User)
            && turns[i].prompt == Some(e.kind.prompt)
            && turns[i].response == None
            && turns[i].cliTool == e.cliTool
  {
    hide Canonical, BuildTurns, TurnCount;
    ResultFixedTurns(events, now, k);
  }

  /** The system turn of every session event: a response that names the source or the reason, and no tool. */
  lemma SessionTurnFields(events: seq<Event>, now: int, k: nat)
    requires k < |Canonical(events)|
    requires Canonical(events)[k].kind.SessionStart? || Canonical(events)[k].kind.SessionEnd?
    ensures var es, turns := Canonical(events), BuildTurns(events, now).turns;
            var e, i := es[k], TurnCount(es[..k]);
            && i < |turns|
            && IsFixed(turns[i], e, i, System)
            && turns[i].prompt == None
            && turns[i].response == Some(if e.kind.SessionStart? then "Session " + e.kind.source
                                         else "Session ended: " + e.kind.reason)
            && turns[i].cliTool == None
  {
    hide Canonical, BuildTurns, TurnCount;
    ResultFixedTurns(events, now, k);
  }

  // ---------------------------------------------------------------------------------------------
  // Steps
  // ---------------------------------------------------------------------------------------------

  /**
   The step of every tool call: its id, tool and cut input; the cut output, success and duration of its
   last result; and a status that is the result's, or timeout once its turn was finalised or interrupted.
   */
  lemma {:induction false} StepFields(events: seq<Event>, now: int, k: nat)
    requires k < |Canonical(events)| && Canonical(events)[k].kind.PreToolUse?
    ensures var es, turns := Canonical(events), BuildTurns(events, now).turns;
            var i, s := OwnerIndex(es, k), ToolCalls(es, k, OwnerIndex(es, k));
            && 0 <= i < |turns| && s < |turns[i].steps|
            && var step, call, last := turns[i].steps[s], es[k], LastResult(es, k, |es|);
               && step.id == call.kind.toolUseId
               && step.toolName == call.kind.tool
               && step.input == (if |call.kind.toolInput| <= 200 then call.kind.toolInput
                                 else call.kind.toolInput[..200] + "...")
               && step.startedAt == call.timestamp
               && (step.isSubagent <==> call.kind.tool == "Task" || call.kind.tool == "dispatch_agent")
               && step.metadata == call.kind.metadata
               && if last.Some? then
                    var result := es[last.value];
                    && step.output == Some(if |result.kind.toolResponse| <= 500 then result.kind.toolResponse
                                           else result.kind.toolResponse[..500] + "...")
                    && step.success == result.kind.success
                    && step.durationMs == result.kind.duration
                    && step.status == (if result.kind.success == Some(false) then StepError else StepComplete)
                  else
                    && step.output == None && step.success == None && step.durationMs == None
                    && step.status ==
                       if FinalizedAfter(es, k) || (GoesStale(es, now) && StillCurrent(es, k, |es|))
                       then StepTimeout else StepPending
  {
    hide Canonical, BuildTurns, OwnerIndex, ToolCalls, LastResult, FinalizedAfter, GoesStale, StillCurrent;
    ResultStepFate(events, now, k);
  }

  // ---------------------------------------------------------------------------------------------
  // Which events are processed
  // ---------------------------------------------------------------------------------------------

  /** Delivered event `k` is the first of its id: no other one is earlier, or of its time and delivered before. */
  predicate IsFirst(events: seq<Event>, k: nat)
    requires k < |events|
  {
    forall j :: 0 <= j < |events| && events[j].id == events[k].id ==>
      events[k].timestamp <= events[j].timestamp &&
      (events[k].timestamp == events[j].timestamp ==> k <= j)
  }

  lemma {:induction false} WithoutIdsMembers(es: seq<Event>, ids: set<string>)
    ensures forall e :: e in WithoutIds(es, ids) <==> e in es && e.id !in ids
  {
    if es != [] {
      WithoutIdsMembers(es[..|es| - 1], ids);
      assert es == es[..|es| - 1] + [es[|es| - 1]];
    }
  }

  /** Event `k` is the first one of its id at its own instant. */
  predicate IsFirstThen(es: seq<Event>, k: nat)
    requires k < |es|
  {
    forall j :: 0 <= j < k && es[j].timestamp == es[k].timestamp ==> es[j].id != es[k].id
  }

  /** The event occurs in the list, and first of its id at its instant. */
  predicate OccursFirst(es: seq<Event>, e: Event) {
    exists k :: 0 <= k < |es| && es[k] == e && IsFirstThen(es, k)
  }

  lemma OccursFirstAppend(es: seq<Event>, e: Event, last: Event)
    ensures OccursFirst(es + [last], e) <==> OccursFirst(es, e) || (last == e && IsFirstThen(es + [last], |es|))
  {
    var all := es + [last];
    assert forall k :: 0 <= k < |es| ==> all[k] == es[k];
    forall k | 0 <= k < |es|
      ensures IsFirstThen(all, k) <==> IsFirstThen(es, k)
    {
    }
    hide IsFirstThen;
    if OccursFirst(es, e) {
      var k :| 0 <= k < |es| && es[k] == e && IsFirstThen(es, k);
      assert all[k] == e && IsFirstThen(all, k);
    }
    if last == e && IsFirstThen(all, |es|) {
      assert all[|es|] == e;
    }
  }

  lemma {:induction false} KeptAtInstant(es: seq<Event>, t: int, e: Event)
    ensures e in Dedup(AtTime(es, t)) <==> e.timestamp == t && OccursFirst(es, e)
  {
    if es == [] {
      NothingSeen();
    } else {
      hide Dedup, AtTime, Ids, IsFirstThen, OccursFirst;
      var init, last := es[..|es| - 1], es[|es| - 1];
      assert es == init + [last];
      KeptAtInstant(init, t, e);
      AtTimeAppend(init, last, t);
      assert AtTime(init, t) + [] == AtTime(init, t);
      DedupAppend(AtTime(init, t), last);
      OccursFirstAppend(init, e, last);
      LastIsFirst(init, last);
    }
  }

  lemma {:induction false} LastIsFirst(es: seq<Event>, e: Event)
    ensures IsFirstThen(es + [e], |es|) <==> e.id !in Ids(AtTime(es, e.timestamp))
  {
    var all := es + [e];
    AtTimeMembers(es, e.timestamp);
    assert forall j :: 0 <= j < |es| ==> all[j] == es[j];
    if e.id in Ids(AtTime(es, e.timestamp)) {
      var f :| f in AtTime(es, e.timestamp) && f.id == e.id;
      var j :| 0 <= j < |es| && es[j] == f;
      assert all[j].timestamp == e.timestamp && all[j].id == e.id;
    } else {
      forall j | 0 <= j < |es| && es[j].timestamp == e.timestamp
        ensures es[j].id != e.id
      {
        assert es[j] in AtTime(es, e.timestamp);
      }
    }
  }

  /** An event is processed exactly when it is the first one delivered with its id, in order of time. */
  lemma ProcessedIffFirst(events: seq<Event>, e: Event)
    ensures e in Canonical(events) <==> exists k :: 0 <= k < |events| && events[k] == e && IsFirst(events, k)
  {
    hide Canonical, Dedup, AtTime, WithoutIds;
    var t := e.timestamp;
    CanonicalAt(events, t);
    AtTimeMembers(Canonical(events), t);
    WithoutIdsMembers(Dedup(AtTime(events, t)), IdsBefore(events, t));
    KeptAtInstant(events, t, e);
    forall k | 0 <= k < |events| && events[k] == e
      ensures IsFirst(events, k) <==> IsFirstThen(events, k) && e.id !in IdsBefore(events, t)
    {
    }
  }

  lemma {:induction false} DistinctIdsAreCounted(es: seq<Event>)
    requires DistinctIds(es)
    ensures |Ids(es)| == |es|
  {
    if es == [] {
      NothingSeen();
    } else {
      hide Ids;
      var init, last := es[..|es| - 1], es[|es| - 1];
      assert es == init + [last];
      DistinctIdsAreCounted(init);
      IdsAppend(init, last);
      NewId(init, last);
    }
  }

  /** The result counts as duplicates all delivered events beyond one per id. */
  lemma DuplicatesAreCounted(events: seq<Event>, now: int)
    ensures BuildTurns(events, now).deduplicatedEventCount == |events| - |set e | e in events :: e.id|
  {
    hide Canonical, Run, CloseStale;
    CanonicalIsOrdered(events);
    DistinctIdsAreCounted(Canonical(events));
    assert (set e | e in events :: e.id) == Ids(events);
  }

  // ---------------------------------------------------------------------------------------------
  // Unknown events
  // ---------------------------------------------------------------------------------------------

  predicate IsUnknown(e: Event) {
    e.kind.PermissionRequest? || e.kind.OtherType?
  }

  lemma {:induction false} UnknownInRun(es: seq<Event>)
    ensures Run(es).unknownEventTypeCount == Count(es, IsUnknown)
  {
    if es != [] {
      UnknownInRun(es[..|es| - 1]);
      StepCountsUnknown(Run(es[..|es| - 1]), es[|es| - 1]);
    }
  }

  lemma StepCountsUnknown(c: Context, e: Event)
    ensures Advance(c, e).unknownEventTypeCount == c.unknownEventTypeCount + if IsUnknown(e) then 1 else 0
  {
    hide FinalizeTurn, BeginStep, EndStep, StopTurn, CountEvent, UserTurn, SystemTurn, AssistantTurn;
  }

  /** The result counts the processed permission requests and events of undeclared types, and no others. */
  lemma UnknownAreCounted(events: seq<Event>, now: int)
    ensures BuildTurns(events, now).unknownEventTypeCount ==
            Count(Canonical(events), (e: Event) => e.kind.PermissionRequest? || e.kind.OtherType?)
  {
    hide Canonical, Run, CloseStale;
    UnknownInRun(Canonical(events));
    CountAgrees(Canonical(events), IsUnknown, (e: Event) => e.kind.PermissionRequest? || e.kind.OtherType?);
  }

  lemma {:induction false} CountAgrees(es: seq<Event>, p: Event -> bool, q: Event -> bool)
    requires forall e :: p(e) == q(e)
    ensures Count(es, p) == Count(es, q)
  {
    if es != [] {
      CountAgrees(es[..|es| - 1], p, q);
    }
  }
}
