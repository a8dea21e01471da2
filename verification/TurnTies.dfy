/**
 Events of one instant: which neighbours may change places without changing the run.
 */
module TurnTies {
  import opened Options
  import opened TurnModel
  import opened TurnShape
  import opened TurnStructure
  import opened TurnMapping
  import opened TurnSteps
  import opened TurnOrder

  /** Events that the builder only counts. */
  predicate IsCounting(e: Event) {
    || e.kind.SubagentStop? || e.kind.Notification? || e.kind.PreCompact?
    || e.kind.TerminalOutput? || e.kind.TextStream?
  }

  /** Tool calls and results that name different calls. */
  predicate OtherCall(e: Event, f: Event) {
    e.kind.PostToolUse? && (f.kind.PostToolUse? || f.kind.PreToolUse?) && e.kind.toolUseId != f.kind.toolUseId
  }

  /** Of two texts at most one counts, or they agree. */
  predicate NoConflict(a: Option<string>, b: Option<string>) {
    !IsNonEmpty(a) || !IsNonEmpty(b) || a == b
  }

  predicate SameStop(e: Event, f: Event) {
    && e.kind.Stop? && f.kind.Stop? && e.timestamp == f.timestamp
    && NoConflict(e.kind.response, f.kind.response)
  }

  /** Results that leave the same in the step. */
  predicate EqualResults(e: Event, f: Event) {
    && e.kind.PostToolUse? && f.kind.PostToolUse? && e.kind.toolUseId == f.kind.toolUseId
    && TruncateText(e.kind.toolResponse, MAX_OUTPUT_PREVIEW) == TruncateText(f.kind.toolResponse, MAX_OUTPUT_PREVIEW)
    && e.kind.success == f.kind.success && e.kind.duration == f.kind.duration
  }

  /** Tool calls with the same step. */
  predicate SameCall(e: Event, f: Event) {
    && IsToolCall(e) && IsToolCall(f) && NewStep(e) == NewStep(f)
    && NoConflict(e.kind.assistantText, f.kind.assistantText)
  }

  /** Events that do nothing without an open turn. */
  predicate NeedsTurn(e: Event) {
    IsCounting(e) || e.kind.PostToolUse? || e.kind.Stop?
  }

  predicate IndependentInTurn(e: Event, f: Event) {
    || (IsCounting(e) && (NeedsTurn(f) || IsToolCall(f)))
    || (e.kind.PostToolUse? && f.kind.Stop?)
    || OtherCall(e, f)
    || EqualResults(e, f)
    || SameCall(e, f)
    || SameStop(e, f)
  }

  /** `e` and `f` may change places, for one of the two orders in which they are named. */
  predicate Independent(isOpen: bool, e: Event, f: Event) {
    || !IsKnown(e)
    || (if isOpen then IndependentInTurn(e, f) else NeedsTurn(e) && (NeedsTurn(f) || IsSession(f)))
  }

  /** `e` and `f` may change places when a turn is open, or not, before them. */
  predicate Commute(isOpen: bool, e: Event, f: Event) {
    Independent(isOpen, e, f) || Independent(isOpen, f, e)
  }

  // ---------------------------------------------------------------------------------------------
  // On one turn
  // ---------------------------------------------------------------------------------------------

  lemma {:induction false} FindsAlike(steps: seq<StepRecord>, others: seq<StepRecord>, id: string)
    requires |steps| == |others| && forall i :: 0 <= i < |steps| ==> steps[i].id == others[i].id
    ensures FindStep(steps, id) == FindStep(others, id)
  {
  }

  lemma {:induction false} FindsPastNewStep(steps: seq<StepRecord>, s: StepRecord, id: string)
    requires s.id != id
    ensures FindStep(steps + [s], id) == FindStep(steps, id) || FindStep(steps, id) == |steps|
    ensures FindStep(steps, id) == |steps| ==> FindStep(steps + [s], id) == |steps| + 1
  {
    var k := FindStep(steps + [s], id);
    assert forall i :: 0 <= i < |steps| ==> (steps + [s])[i] == steps[i];
  }

  lemma ResultsCommute(t: TurnRecord, e: Event, f: Event)
    requires OtherCall(e, f) && f.kind.PostToolUse?
    ensures EndStep(EndStep(t, e), f) == EndStep(EndStep(t, f), e)
  {
    hide TruncateText, FindStep;
    FindsAlike(t.steps, EndStep(t, e).steps, f.kind.toolUseId);
    FindsAlike(t.steps, EndStep(t, f).steps, e.kind.toolUseId);
    var i, j := FindStep(t.steps, e.kind.toolUseId), FindStep(t.steps, f.kind.toolUseId);
    assert i < |t.steps| && j < |t.steps| ==> i != j;
    assert EndStep(EndStep(t, e), f).steps == EndStep(EndStep(t, f), e).steps;
  }

  lemma ResultAndCallCommute(t: TurnRecord, e: Event, f: Event)
    requires OtherCall(e, f) && f.kind.PreToolUse?
    ensures EndStep(BeginStep(t, f), e) == BeginStep(EndStep(t, e), f)
  {
    hide TruncateText, FindStep;
    FindsPastNewStep(t.steps, NewStep(f), e.kind.toolUseId);
    assert EndStep(BeginStep(t, f), e).steps == BeginStep(EndStep(t, e), f).steps;
  }

  lemma ResultAndStopCommute(t: TurnRecord, e: Event, f: Event)
    requires e.kind.PostToolUse? && f.kind.Stop?
    ensures StopTurn(EndStep(t, e), f) == EndStep(StopTurn(t, f), e)
  {
    hide TruncateText, FindStep;
    FindsAlike(t.steps, StopTurn(t, f).steps, e.kind.toolUseId);
    assert StopTurn(EndStep(t, e), f).steps == EndStep(StopTurn(t, f), e).steps;
  }

  lemma StopsCommute(t: TurnRecord, e: Event, f: Event)
    requires SameStop(e, f)
    ensures StopTurn(StopTurn(t, e), f) == StopTurn(StopTurn(t, f), e)
  {
    assert StopTurn(StopTurn(t, e), f).steps == StopTurn(StopTurn(t, f), e).steps;
  }

  /** Counting an event commutes with everything that happens to an open turn. */
  lemma CountCommutes(t: TurnRecord, f: Event)
    ensures f.kind.PostToolUse? ==> EndStep(CountEvent(t), f) == CountEvent(EndStep(t, f))
    ensures f.kind.PreToolUse? ==> BeginStep(CountEvent(t), f) == CountEvent(BeginStep(t, f))
    ensures f.kind.Stop? ==> StopTurn(CountEvent(t), f) == CountEvent(StopTurn(t, f))
  {
    hide TruncateText, FindStep, TimeOutAll, SessionOf;
  }

  lemma CallsCommute(t: TurnRecord, e: Event, f: Event)
    requires SameCall(e, f)
    ensures BeginStep(BeginStep(t, e), f) == BeginStep(BeginStep(t, f), e)
  {
    hide TruncateText;
    assert BeginStep(BeginStep(t, e), f).steps == BeginStep(BeginStep(t, f), e).steps;
  }

  lemma SameResultsCommute(t: TurnRecord, e: Event, f: Event)
    requires EqualResults(e, f)
    ensures EndStep(t, e) == EndStep(t, f)
  {
    hide TruncateText, FindStep;
  }

  lemma TouchesCommute(t: TurnRecord, e: Event, f: Event)
    requires IndependentInTurn(e, f)
    ensures Touch(Touch(t, e), f) == Touch(Touch(t, f), e)
  {
    hide EndStep, StopTurn, BeginStep, FinalizeTurn, CountEvent;
    if EqualResults(e, f) {
      SameResultsCommute(t, e, f);
      SameResultsCommute(EndStep(t, e), e, f);
    } else if SameCall(e, f) {
      CallsCommute(t, e, f);
    } else if OtherCall(e, f) && f.kind.PostToolUse? {
      ResultsCommute(t, e, f);
    } else if OtherCall(e, f) {
      ResultAndCallCommute(t, e, f);
    } else if e.kind.PostToolUse? && f.kind.Stop? {
      ResultAndStopCommute(t, e, f);
    } else if SameStop(e, f) {
      StopsCommute(t, e, f);
    } else {
      CountCommutes(t, f);
    }
  }

  // ---------------------------------------------------------------------------------------------
  // On the context
  // ---------------------------------------------------------------------------------------------

  /** Events that open and replace no turn. */
  predicate StaysInTurn(isOpen: bool, e: Event) {
    !e.kind.PromptSubmit? && !IsSession(e) && (IsToolCall(e) ==> isOpen)
  }

  function Mapped(c: Context, e: Event): map<string, string>
    requires Inv(c)
  {
    if IsKnown(e) && c.current.Some? then c.eventTurnMap[e.id := c.turns[|c.turns| - 1].id] else c.eventTurnMap
  }

  /** The whole effect of an event that stays in the turn. */
  function InTurn(c: Context, e: Event): Context
    requires Inv(c)
  {
    Context(TouchLast(c, e), c.current, c.sequence,
            c.unknownEventTypeCount + (if IsKnown(e) then 0 else 1), Mapped(c, e))
  }

  lemma AdvanceInTurn(c: Context, e: Event)
    requires Inv(c) && StaysInTurn(c.current.Some?, e)
    ensures Advance(c, e) == InTurn(c, e)
  {
    hide EndStep, StopTurn, CountEvent, BeginStep, Numbered, IsClosed;
    if c.current.Some? {
      assert c.HasAssistant();
      assert Touch(c.Turn(), e).id == c.Turn().id by { TouchKeepsIdentity(c.Turn(), e); }
    }
  }

  lemma InTurnsCommute(c: Context, e: Event, f: Event)
    requires Inv(c) && c.current.Some? && IndependentInTurn(e, f) && e.id != f.id
    ensures Advance(Advance(c, e), f) == Advance(Advance(c, f), e)
  {
    hide Advance, Touch, Inv;
    IndependentStaysInTurn(e, f);
    hide IndependentInTurn;
    AdvanceInTurn(c, e);
    AdvanceInTurn(c, f);
    AdvanceKeepsInv(c, e);
    AdvanceKeepsInv(c, f);
    AdvanceInTurn(InTurn(c, e), f);
    AdvanceInTurn(InTurn(c, f), e);
    InTurnsSwap(c, e, f);
  }

  lemma InTurnsSwap(c: Context, e: Event, f: Event)
    requires Inv(c) && Inv(InTurn(c, e)) && Inv(InTurn(c, f))
    requires c.current.Some? && IndependentInTurn(e, f) && e.id != f.id
    ensures InTurn(InTurn(c, e), f) == InTurn(InTurn(c, f), e)
  {
    hide Touch, IsCurrent, IsClosed, Numbered, IndependentInTurn;
    var n := |c.turns| - 1;
    var t := c.turns[n];
    TouchesCommute(t, e, f);
    TouchKeepsIdentity(t, e);
    TouchKeepsIdentity(t, f);
    assert c.turns[n := Touch(t, e)][n := Touch(Touch(t, e), f)] == c.turns[n := Touch(Touch(t, e), f)];
    assert c.turns[n := Touch(t, f)][n := Touch(Touch(t, f), e)] == c.turns[n := Touch(Touch(t, f), e)];
    var m := c.eventTurnMap;
    assert m[e.id := t.id][f.id := t.id] == m[f.id := t.id][e.id := t.id];
  }

  /** Without an open turn such an event changes nothing. */
  lemma NothingWithoutTurn(c: Context, e: Event)
    requires Inv(c) && c.current.None? && NeedsTurn(e)
    ensures Advance(c, e) == c
  {
    hide Advance, Inv;
    AdvanceInTurn(c, e);
  }

  lemma ClosedCommute(c: Context, e: Event, f: Event)
    requires Inv(c) && c.current.None? && NeedsTurn(e) && (NeedsTurn(f) || IsSession(f))
    ensures Advance(Advance(c, e), f) == Advance(Advance(c, f), e)
  {
    hide Advance, Inv, NewTurns, TouchLast;
    NothingWithoutTurn(c, e);
    AdvanceKeepsInv(c, f);
    AdvanceShape(c, f);
    NothingWithoutTurn(Advance(c, f), e);
  }

  /** An unknown event changes nothing but its count. */
  lemma UnknownCommutes(c: Context, e: Event, f: Event)
    requires !IsKnown(e)
    ensures Advance(Advance(c, e), f) == Advance(Advance(c, f), e)
  {
    hide ProcessEvent, MapEvent;
    CountIsIrrelevant(c, c.unknownEventTypeCount + 1, f);
  }

  lemma CountIsIrrelevant(c: Context, n: nat, e: Event)
    ensures MapEvent(ProcessEvent(c.(unknownEventTypeCount := n), e), e) ==
            MapEvent(ProcessEvent(c, e), e).(unknownEventTypeCount := n)
    ensures MapEvent(ProcessEvent(c, e), e).unknownEventTypeCount == c.unknownEventTypeCount
  {
    hide ProcessEvent;
    HandlersIgnoreCount(c, n, e);
  }

  /** The context with another count of unknown events. */
  function Recounted(c: Context, n: nat): Context {
    c.(unknownEventTypeCount := n)
  }

  lemma ClosingIgnoresCount(c: Context, n: nat, timestamp: int)
    ensures FinalizeCurrent(Recounted(c, n), timestamp) == Recounted(FinalizeCurrent(c, timestamp), n)
    ensures InterruptCurrent(Recounted(c, n), timestamp) == Recounted(InterruptCurrent(c, timestamp), n)
    ensures FinalizeCurrent(c, timestamp).unknownEventTypeCount == c.unknownEventTypeCount
    ensures InterruptCurrent(c, timestamp).unknownEventTypeCount == c.unknownEventTypeCount
  {
    hide FinalizeTurn;
  }

  lemma HandlersIgnoreCount(c: Context, n: nat, e: Event)
    ensures ProcessEvent(Recounted(c, n), e) == Recounted(ProcessEvent(c, e), n)
    ensures ProcessEvent(c, e).unknownEventTypeCount == c.unknownEventTypeCount
  {
    hide ProcessEvent;
    if e.kind.PromptSubmit? || IsSession(e) {
      ClosersIgnoreCount(c, n, e);
    } else if e.kind.PreToolUse? {
      ToolCallIgnoresCount(c, n, e);
    } else {
      OthersIgnoreCount(c, n, e);
    }
  }

  lemma ClosersIgnoreCount(c: Context, n: nat, e: Event)
    requires e.kind.PromptSubmit? || IsSession(e)
    ensures ProcessEvent(Recounted(c, n), e) == Recounted(ProcessEvent(c, e), n)
    ensures ProcessEvent(c, e).unknownEventTypeCount == c.unknownEventTypeCount
  {
    hide UserTurn, SystemTurn, AssistantTurn, FinalizeCurrent, InterruptCurrent;
    ClosingIgnoresCount(c, n, e.timestamp);
  }

  lemma ToolCallIgnoresCount(c: Context, n: nat, e: Event)
    requires e.kind.PreToolUse?
    ensures ProcessEvent(Recounted(c, n), e) == Recounted(ProcessEvent(c, e), n)
    ensures ProcessEvent(c, e).unknownEventTypeCount == c.unknownEventTypeCount
  {
    hide BeginStep, EndStep, StopTurn, CountEvent, AssistantTurn;
    var ready := EnsureAssistant(c, e);
    assert EnsureAssistant(Recounted(c, n), e) == Recounted(ready, n);
    assert ready.unknownEventTypeCount == c.unknownEventTypeCount;
    hide EnsureAssistant;
    UpdateIgnoresCount(ready, n, BeginStep(ready.Turn(), e));
  }

  lemma UpdateIgnoresCount(c: Context, n: nat, t: TurnRecord)
    requires c.HasTurn()
    ensures Recounted(c, n).HasTurn() && Recounted(c, n).Turn() == c.Turn()
    ensures Recounted(c, n).WithTurn(t) == Recounted(c.WithTurn(t), n)
    ensures c.WithTurn(t).unknownEventTypeCount == c.unknownEventTypeCount
  {
  }

  lemma OthersIgnoreCount(c: Context, n: nat, e: Event)
    requires !e.kind.PromptSubmit? && !IsSession(e) && !e.kind.PreToolUse?
    ensures ProcessEvent(Recounted(c, n), e) == Recounted(ProcessEvent(c, e), n)
    ensures ProcessEvent(c, e).unknownEventTypeCount == c.unknownEventTypeCount
  {
    hide BeginStep, EndStep, StopTurn, CountEvent, HandlePreToolUse;
    if c.HasTurn() {
      UpdateIgnoresCount(c, n, c.Turn());
    }
  }

  lemma IndependentStaysInTurn(e: Event, f: Event)
    requires IndependentInTurn(e, f)
    ensures StaysInTurn(true, e) && StaysInTurn(true, f)
  {
  }

  lemma NeighboursCommute(c: Context, e: Event, f: Event)
    requires Inv(c) && Commute(c.current.Some?, e, f) && e.id != f.id
    ensures Advance(Advance(c, e), f) == Advance(Advance(c, f), e)
  {
    hide Advance, Inv, IndependentInTurn, NeedsTurn;
    if !IsKnown(e) {
      UnknownCommutes(c, e, f);
    } else if !IsKnown(f) {
      UnknownCommutes(c, f, e);
    } else if c.current.None? {
      if NeedsTurn(e) && (NeedsTurn(f) || IsSession(f)) {
        ClosedCommute(c, e, f);
      } else {
        ClosedCommute(c, f, e);
      }
    } else if IndependentInTurn(e, f) {
      InTurnsCommute(c, e, f);
    } else {
      InTurnsCommute(c, f, e);
    }
  }

  // ---------------------------------------------------------------------------------------------
  // On the run
  // ---------------------------------------------------------------------------------------------

  lemma {:induction false} RunContinues(es: seq<Event>, fs: seq<Event>, rest: seq<Event>)
    requires Run(es) == Run(fs)
    ensures Run(es + rest) == Run(fs + rest)
  {
    hide Run;
    if rest == [] {
      assert es + rest == es && fs + rest == fs;
    } else {
      var init, e := rest[..|rest| - 1], rest[|rest| - 1];
      RunContinues(es, fs, init);
      RunAppend(es + init, e);
      RunAppend(fs + init, e);
      assert es + rest == es + init + [e] && fs + rest == fs + init + [e];
    }
  }

  /** Neighbours that commute may change places anywhere in a run. */
  lemma {:induction false} TiesCommute(es: seq<Event>, e: Event, f: Event, rest: seq<Event>)
    requires Commute(OpenAfter(es), e, f) && e.id != f.id
    ensures Run(es + [e, f] + rest) == Run(es + [f, e] + rest)
  {
    hide Run, Advance, Commute, OpenAfter;
    RunKeepsInv(es);
    CurrentIffOpen(es);
    NeighboursCommute(Run(es), e, f);
    RunAppend(es, e);
    RunAppend(es + [e], f);
    RunAppend(es, f);
    RunAppend(es + [f], e);
    assert es + [e, f] == es + [e] + [f] && es + [f, e] == es + [f] + [e];
    RunContinues(es + [e, f], es + [f, e], rest);
  }

  // ---------------------------------------------------------------------------------------------
  // No other neighbours commute
  // ---------------------------------------------------------------------------------------------

  /** Two events that both create a turn create different ones at the same place. */
  lemma CreatorsDiffer(c: Context, e: Event, f: Event)
    requires Inv(c) && e.id != f.id
    requires NewTurns(c.current.Some?, |c.turns|, e) != [] && NewTurns(c.current.Some?, |c.turns|, f) != []
    ensures Advance(Advance(c, e), f) != Advance(Advance(c, f), e)
  {
    hide Advance, Inv;
    FirstCreated(c, e, f);
    FirstCreated(c, f, e);
    if IsToolCall(e) && IsToolCall(f) && AssistantId(e.id) == AssistantId(f.id) {
      AssistantIdIsInjective(e.id, f.id);
    }
  }

  /** The first turn that `e` creates keeps its place and identity when `f` follows. */
  lemma FirstCreated(c: Context, e: Event, f: Event)
    requires Inv(c) && NewTurns(c.current.Some?, |c.turns|, e) != []
    ensures var turns := Advance(Advance(c, e), f).turns;
            && |turns| > |c.turns|
            && turns[|c.turns|].kind == (if IsToolCall(e) then Assistant else if IsSession(e) then System else User)
            && turns[|c.turns|].id == if IsToolCall(e) then AssistantId(e.id) else e.id
  {
    hide Advance, Touch;
    AdvanceShape(c, e);
    AdvanceKeepsInv(c, e);
    var d := Advance(c, e);
    assert d.turns[|c.turns|] == NewTurns(c.current.Some?, |c.turns|, e)[0];
    AdvanceShape(d, f);
    if d.current.Some? {
      TouchKeepsIdentity(d.turns[|d.turns| - 1], f);
    }
  }

  /** The turn id that an event is mapped to, if it is mapped. */
  function Owner(m: map<string, string>, e: Event): Option<string> {
    if e.id in m then Some(m[e.id]) else None
  }

  /** Where an event is mapped when another one precedes it, and that later ones do not change it. */
  lemma OwnerAfter(c: Context, e: Event, f: Event)
    requires Inv(c) && e.id != f.id && IsKnown(e) && !e.kind.PromptSubmit? && e.id !in c.eventTurnMap
    ensures Owner(Advance(Advance(c, e), f).eventTurnMap, e) ==
            if Advance(c, e).current.Some? then Some(Advance(c, e).turns[|Advance(c, e).turns| - 1].id) else None
    ensures e.id !in Advance(c, f).eventTurnMap
  {
    hide Advance, Touch, NewTurns;
    AdvanceMap(c, e);
    AdvanceMap(c, f);
    AdvanceKeepsInv(c, e);
    AdvanceMap(Advance(c, e), f);
  }

  /** The open turn after an event, by its id. */
  lemma OpenTurnId(c: Context, e: Event)
    requires Inv(c) && Advance(c, e).current.Some?
    ensures var turns := Advance(c, e).turns;
            && turns != []
            && turns[|turns| - 1].id ==
               if e.kind.PromptSubmit? || (IsToolCall(e) && c.current.None?) then AssistantId(e.id)
               else c.turns[|c.turns| - 1].id
  {
    hide Advance, Touch;
    AdvanceShape(c, e);
    if c.current.Some? {
      TouchKeepsIdentity(c.turns[|c.turns| - 1], e);
    }
  }

  /** A prompt, session event or orphan call and an event that stays in a turn put the latter in different turns. */
  lemma OwnersDiffer(c: Context, e: Event, f: Event)
    requires Inv(c) && e.id != f.id && IsKnown(f) && f.id !in c.eventTurnMap
    requires NewTurns(c.current.Some?, |c.turns|, e) != [] && NewTurns(c.current.Some?, |c.turns|, f) == []
    requires c.current.None? ==> !IsSession(e)
    requires c.current.Some? ==>
               c.turns[|c.turns| - 1].id != AssistantId(e.id) && c.turns[|c.turns| - 1].id != AssistantId(f.id)
    ensures Advance(Advance(c, e), f) != Advance(Advance(c, f), e)
  {
    hide Advance, Touch, Inv;
    AdvanceShape(c, e);
    AdvanceShape(c, f);
    AdvanceKeepsInv(c, e);
    AdvanceKeepsInv(c, f);
    OwnerAfter(c, f, e);
    var d := Advance(c, e);
    AdvanceMap(c, e);
    AdvanceMap(d, f);
    AdvanceShape(d, f);
    if Advance(c, f).current.Some? {
      OpenTurnId(c, f);
    }
    if Advance(d, f).current.Some? {
      OpenTurnId(d, f);
    }
    if d.current.Some? {
      OpenTurnId(c, e);
    }
  }

  // ---------------------------------------------------------------------------------------------
  // Witnesses
  // ---------------------------------------------------------------------------------------------

  /** A prompt and a tool call that come before `e` and `f`, at the time of `e`. */
  function Opening(e: Event, f: Event, toolUseId: string): seq<Event> {
    [Event(e.id + f.id + "p", e.timestamp, None, None, PromptSubmit("")),
     Event(e.id + f.id + "call", e.timestamp, None, None, PreToolUse("", "", None, toolUseId, None))]
  }

  /** The turn that is open then. */
  function Opened(e: Event, f: Event, toolUseId: string): TurnRecord {
    var es := Opening(e, f, toolUseId);
    BeginStep(AssistantTurn(es[0], 2, Thinking), es[1])
  }

  lemma OpeningIsFresh(e: Event, f: Event, toolUseId: string)
    requires e.id != f.id && e.timestamp == f.timestamp
    ensures DistinctIds(Opening(e, f, toolUseId) + [e, f]) && DistinctIds(Opening(e, f, toolUseId) + [f, e])
    ensures SortedByTime(Opening(e, f, toolUseId) + [e, f])
    ensures OpenAfter(Opening(e, f, toolUseId))
  {
    var es := Opening(e, f, toolUseId);
    assert |es[0].id| == |e.id| + |f.id| + 1 && |es[1].id| == |e.id| + |f.id| + 4;
    assert OpensTurn(es[1]);
  }

  lemma OpeningRuns(e: Event, f: Event, toolUseId: string)
    ensures var c, es := Run(Opening(e, f, toolUseId)), Opening(e, f, toolUseId);
            && c.turns == [UserTurn(es[0], 1), Opened(e, f, toolUseId)]
            && c.current == Some(1)
            && c.eventTurnMap.Keys == {es[0].id, es[1].id}
  {
    hide Advance, BeginStep;
    var es := Opening(e, f, toolUseId);
    EmptyRun();
    assert es == [es[0]] + [es[1]] && [] + [es[0]] == [es[0]];
    RunAppend([], es[0]);
    AdvanceShape(EMPTY_CONTEXT, es[0]);
    AdvanceMap(EMPTY_CONTEXT, es[0]);
    RunKeepsInv([es[0]]);
    RunAppend([es[0]], es[1]);
    AdvanceShape(Run([es[0]]), es[1]);
    AdvanceMap(Run([es[0]]), es[1]);
  }

  /** The tool-use id of the witness: that of two results, and another one than a single result names. */
  function WitnessId(e: Event, f: Event): string {
    if e.kind.PostToolUse? then (if f.kind.PostToolUse? then e.kind.toolUseId else e.kind.toolUseId + "x")
    else if f.kind.PostToolUse? then f.kind.toolUseId + "x"
    else ""
  }

  predicate IsSettling(e: Event) {
    e.kind.Stop? || IsToolCall(e) || e.kind.PostToolUse?
  }

  lemma ResultsDiffer(e: Event, f: Event)
    requires e.kind.PostToolUse? && f.kind.PostToolUse? && e.kind.toolUseId == f.kind.toolUseId && !EqualResults(e, f)
    ensures var t := Opened(e, f, WitnessId(e, f)); Touch(Touch(t, e), f) != Touch(Touch(t, f), e)
  {
    hide TruncateText;
    var t := Opened(e, f, WitnessId(e, f));
    assert |t.steps| == 1 && t.steps[0].id == e.kind.toolUseId;
    assert Touch(Touch(t, e), f).steps[0] == ResolveStep(ResolveStep(t.steps[0], e), f);
    assert Touch(Touch(t, f), e).steps[0] == ResolveStep(ResolveStep(t.steps[0], f), e);
  }

  lemma ResultAndCallDiffer(t: TurnRecord, e: Event, f: Event)
    requires e.kind.PostToolUse? && IsToolCall(f) && e.kind.toolUseId == f.kind.toolUseId
    requires |t.steps| == 1 && t.steps[0].id != e.kind.toolUseId
    ensures Touch(Touch(t, e), f) != Touch(Touch(t, f), e)
  {
    hide TruncateText;
    assert FindStep(t.steps, e.kind.toolUseId) == 1;
    var ready := Touch(t, f);
    assert ready.steps[1] == NewStep(f) && FindStep(ready.steps, e.kind.toolUseId) == 1;
    assert Touch(Touch(t, e), f).steps[1] == NewStep(f);
    assert Touch(ready, e).steps[1] == ResolveStep(NewStep(f), e);
  }

  lemma OthersDiffer(t: TurnRecord, e: Event, f: Event)
    requires t.thinking == None && t.response == None && e.timestamp == f.timestamp
    requires (e.kind.Stop? && IsToolCall(f)) || (e.kind.Stop? && f.kind.Stop? && !SameStop(e, f)) ||
             (IsToolCall(e) && IsToolCall(f) && !SameCall(e, f))
    ensures Touch(Touch(t, e), f) != Touch(Touch(t, f), e)
  {
    hide TruncateText;
    if IsToolCall(e) {
      assert Touch(Touch(t, e), f).steps[|t.steps|] == NewStep(e);
      assert Touch(Touch(t, f), e).steps[|t.steps|] == NewStep(f);
    }
  }

  /** In an open turn, events that do not commute leave the turn in different states. */
  lemma TouchesDiffer(e: Event, f: Event)
    requires e.timestamp == f.timestamp && IsSettling(e) && IsSettling(f)
    requires !IndependentInTurn(e, f) && !IndependentInTurn(f, e)
    ensures var t := Opened(e, f, WitnessId(e, f)); Touch(Touch(t, e), f) != Touch(Touch(t, f), e)
  {
    hide Touch, EqualResults, SameCall, SameStop;
    var t := Opened(e, f, WitnessId(e, f));
    if e.kind.PostToolUse? && f.kind.PostToolUse? {
      ResultsDiffer(e, f);
    } else if e.kind.PostToolUse? {
      ResultAndCallDiffer(t, e, f);
    } else if f.kind.PostToolUse? {
      ResultAndCallDiffer(t, f, e);
    } else if e.kind.Stop? || f.kind.PreToolUse? {
      OthersDiffer(t, e, f);
    } else {
      OthersDiffer(t, f, e);
    }
  }

  lemma TouchedTwice(c: Context, e: Event, f: Event)
    requires Inv(c) && c.current.Some? && StaysInTurn(true, e) && StaysInTurn(true, f)
    ensures |Advance(Advance(c, e), f).turns| == |c.turns|
    ensures var n := |c.turns| - 1; Advance(Advance(c, e), f).turns[n..] == [Touch(Touch(c.turns[n], e), f)]
  {
    hide Advance, Touch, IsCurrent, IsClosed, Numbered;
    AdvanceInTurn(c, e);
    AdvanceKeepsInv(c, e);
    AdvanceInTurn(Advance(c, e), f);
  }

  lemma ClosedDiffer(c: Context, e: Event, f: Event)
    requires Inv(c) && c.current.None? && e.id != f.id && e.id !in c.eventTurnMap && f.id !in c.eventTurnMap
    requires !Commute(false, e, f)
    ensures Advance(Advance(c, e), f) != Advance(Advance(c, f), e)
  {
    hide Advance, Inv, NewTurns;
    NewTurnsFit(false, |c.turns|, e);
    NewTurnsFit(false, |c.turns|, f);
    if NeedsTurn(f) {
      OwnersDiffer(c, e, f);
    } else if NeedsTurn(e) {
      OwnersDiffer(c, f, e);
    } else {
      CreatorsDiffer(c, e, f);
    }
  }

  lemma OpenDiffer(c: Context, e: Event, f: Event)
    requires Inv(c) && c.current.Some? && e.id != f.id && e.timestamp == f.timestamp
    requires e.id !in c.eventTurnMap && f.id !in c.eventTurnMap
    requires var t := c.turns[|c.turns| - 1];
             t == Opened(e, f, WitnessId(e, f)) && t.id != AssistantId(e.id) && t.id != AssistantId(f.id)
    requires !Commute(true, e, f)
    ensures Advance(Advance(c, e), f) != Advance(Advance(c, f), e)
  {
    hide Advance, NewTurns, Opened, WitnessId, Touch, IsCurrent, IsClosed, Numbered;
    hide OtherCall, EqualResults, SameCall, SameStop;
    NewTurnsFit(true, |c.turns|, e);
    NewTurnsFit(true, |c.turns|, f);
    if ReplacesTurn(e) && ReplacesTurn(f) {
      CreatorsDiffer(c, e, f);
    } else if ReplacesTurn(e) {
      OwnersDiffer(c, e, f);
    } else if ReplacesTurn(f) {
      OwnersDiffer(c, f, e);
    } else {
      TouchesDiffer(e, f);
      TouchedTwice(c, e, f);
      TouchedTwice(c, f, e);
    }
  }

  /** The start at which the order of two events shows. */
  function Witness(isOpen: bool, e: Event, f: Event): seq<Event> {
    if isOpen then Opening(e, f, WitnessId(e, f)) else []
  }

  /** Neighbours that do not commute leave different contexts behind, in either case at some start. */
  lemma OrderShows(isOpen: bool, e: Event, f: Event)
    requires e.id != f.id && e.timestamp == f.timestamp && !Commute(isOpen, e, f)
    ensures var es := Witness(isOpen, e, f);
            IsStart(es, isOpen, e, f) && Run(es + [e, f]) != Run(es + [f, e])
  {
    hide Run, Advance, Inv, IsStart, Witness, Commute;
    var es := Witness(isOpen, e, f);
    WitnessIsStart(isOpen, e, f);
    RunKeepsInv(es);
    RunAppend(es, e);
    RunAppend(es + [e], f);
    RunAppend(es, f);
    RunAppend(es + [f], e);
    assert es + [e, f] == es + [e] + [f] && es + [f, e] == es + [f] + [e];
    if isOpen {
      OpenWitness(e, f);
    } else {
      ClosedWitness(e, f);
    }
  }

  lemma WitnessIsStart(isOpen: bool, e: Event, f: Event)
    requires e.id != f.id && e.timestamp == f.timestamp
    ensures IsStart(Witness(isOpen, e, f), isOpen, e, f)
  {
    hide Opening, WitnessId, OpenAfter, DistinctIds, SortedByTime;
    if isOpen {
      OpeningIsFresh(e, f, WitnessId(e, f));
    } else {
      EmptyIsStart(e, f);
    }
  }

  lemma EmptyIsStart(e: Event, f: Event)
    requires e.id != f.id && e.timestamp == f.timestamp
    ensures IsStart([], false, e, f)
  {
    hide Run, Advance, OpenAfter;
    EmptyRun();
    CurrentIffOpen([]);
    assert [] + [e, f] == [e, f];
  }

  lemma OpenWitness(e: Event, f: Event)
    requires e.id != f.id && e.timestamp == f.timestamp && !Commute(true, e, f)
    ensures var c := Run(Witness(true, e, f)); Advance(Advance(c, e), f) != Advance(Advance(c, f), e)
  {
    hide Run, Advance, Inv, Opening, Opened, WitnessId, Commute;
    RunKeepsInv(Opening(e, f, WitnessId(e, f)));
    OpeningRuns(e, f, WitnessId(e, f));
    OpeningIsElse(e, f, WitnessId(e, f));
    OpenDiffer(Run(Opening(e, f, WitnessId(e, f))), e, f);
  }

  lemma ClosedWitness(e: Event, f: Event)
    requires e.id != f.id && !Commute(false, e, f)
    ensures var c := Run(Witness(false, e, f)); Advance(Advance(c, e), f) != Advance(Advance(c, f), e)
  {
    hide Run, Advance, Inv, Commute;
    RunKeepsInv([]);
    EmptyRun();
    ClosedDiffer(Run([]), e, f);
  }

  lemma OpeningIsElse(e: Event, f: Event, toolUseId: string)
    ensures var es := Opening(e, f, toolUseId);
            && e.id != es[0].id && e.id != es[1].id && f.id != es[0].id && f.id != es[1].id
            && Opened(e, f, toolUseId).id != AssistantId(e.id) && Opened(e, f, toolUseId).id != AssistantId(f.id)
  {
    var es := Opening(e, f, toolUseId);
    assert |es[0].id| == |e.id| + |f.id| + 1 && |es[1].id| == |e.id| + |f.id| + 4;
    assert |Opened(e, f, toolUseId).id| == |es[0].id| + |AssistantId(e.id)| - |e.id|;
  }

  /** A start in time order after which `e` and `f` come with fresh ids, a turn being open or not. */
  predicate IsStart(es: seq<Event>, isOpen: bool, e: Event, f: Event) {
    OpenAfter(es) == isOpen && DistinctIds(es + [e, f]) && SortedByTime(es + [e, f])
  }

  /** The two events may change places after every start that leaves a turn open, or not, and before every end. */
  ghost predicate Swappable(isOpen: bool, e: Event, f: Event) {
    forall es, rest :: IsStart(es, isOpen, e, f) ==> Run(es + [e, f] + rest) == Run(es + [f, e] + rest)
  }

  /** Two events of one instant may change places exactly when they commute. */
  lemma TiesCommuteExactly(isOpen: bool, e: Event, f: Event)
    requires e.id != f.id && e.timestamp == f.timestamp
    ensures Swappable(isOpen, e, f) <==> Commute(isOpen, e, f)
  {
    hide Commute, OpenAfter, Run;
    if Commute(isOpen, e, f) {
      forall es, rest | IsStart(es, isOpen, e, f)
        ensures Run(es + [e, f] + rest) == Run(es + [f, e] + rest)
      {
        TiesCommute(es, e, f, rest);
      }
    } else {
      OrderShows(isOpen, e, f);
      var es := Witness(isOpen, e, f);
      assert es + [e, f] + [] == es + [e, f] && es + [f, e] + [] == es + [f, e];
    }
  }
}
