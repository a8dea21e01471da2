/**
 What one event may do to the turn list, and the invariant that every event keeps.
 */
module TurnShape {
  import opened Options
  import opened TurnModel

  // ---------------------------------------------------------------------------------------------
  // The state-machine invariant
  // ---------------------------------------------------------------------------------------------

  predicate NoPendingStep(t: TurnRecord) {
    forall k :: 0 <= k < |t.steps| ==> t.steps[k].status != StepPending
  }

  /** A turn that the builder will not change again. */
  predicate IsClosed(t: TurnRecord) {
    && (t.status == Complete || t.status == Interrupted)
    && t.completedAt.Some?
    && NoPendingStep(t)
  }

  /** What `currentTurn` may look like between two events. */
  predicate IsCurrent(t: TurnRecord) {
    && t.kind == Assistant
    && (t.status == Thinking || t.status == ToolUse || (t.status == Complete && IsClosed(t)))
  }

  predicate Numbered(turns: seq<TurnRecord>) {
    forall i :: 0 <= i < |turns| ==> turns[i].sequence == i + 1
  }

  predicate Inv(c: Context) {
    && c.sequence == |c.turns|
    && Numbered(c.turns)
    && (c.current.Some? ==> c.current.value + 1 == |c.turns| && IsCurrent(c.turns[c.current.value]))
    && (forall i :: 0 <= i < |c.turns| && c.current != Some(i) ==> IsClosed(c.turns[i]))
  }

  // ---------------------------------------------------------------------------------------------
  // One event, seen from the turn list
  // ---------------------------------------------------------------------------------------------

  /** What event `e` does to the turn that is current when it arrives. */
  function Touch(t: TurnRecord, e: Event): TurnRecord {
    match e.kind
    case PromptSubmit(_) => if t.status == Complete then t else FinalizeTurn(t, e.timestamp)
    case SessionStart(_) => if t.status == Complete then t else FinalizeTurn(t, e.timestamp)
    case SessionEnd(_) =>
      if t.status == Complete then t else FinalizeTurn(t.(status := Interrupted), e.timestamp)
    case PreToolUse(_, _, _, _, _) => BeginStep(t, e)
    case PostToolUse(_, _, _, _) => EndStep(t, e)
    case Stop(_) => StopTurn(t, e)
    case PermissionRequest => t
    case OtherType(_) => t
    case _ => CountEvent(t)
  }

  /** The turns that `e` appends when `n` turns exist; only a tool call cares whether one is open. */
  function NewTurns(isOpen: bool, n: nat, e: Event): seq<TurnRecord> {
    match e.kind
    case PromptSubmit(_) => [UserTurn(e, n + 1), AssistantTurn(e, n + 2, Thinking)]
    case SessionStart(source) => [SystemTurn(e, n + 1, "Session " + source)]
    case SessionEnd(reason) => [SystemTurn(e, n + 1, "Session ended: " + reason)]
    case PreToolUse(_, _, _, _, _) =>
      if isOpen then [] else [BeginStep(AssistantTurn(e, n + 1, ToolUse), e)]
    case _ => []
  }

  /** The fields of a turn that are fixed when it is created. */
  predicate SameIdentity(s: TurnRecord, t: TurnRecord) {
    && s.id == t.id && s.sessionId == t.sessionId && s.sequence == t.sequence && s.kind == t.kind
    && s.startedAt == t.startedAt && s.prompt == t.prompt && s.cliTool == t.cliTool
  }

  predicate StaysOpen(isOpen: bool, e: Event) {
    e.kind.PromptSubmit? || e.kind.PreToolUse? || (isOpen && !IsSession(e))
  }

  function TouchLast(c: Context, e: Event): (turns: seq<TurnRecord>)
    requires Inv(c)
    ensures |turns| == |c.turns|
  {
    if c.current.Some? then c.turns[|c.turns| - 1 := Touch(c.turns[|c.turns| - 1], e)] else c.turns
  }

  lemma UnknownShape(c: Context, e: Event)
    requires Inv(c) && !IsKnown(e)
    ensures ProcessEvent(c, e) == c
  {
  }

  lemma MapKeepsTurns(c: Context, e: Event)
    ensures MapEvent(c, e).turns == c.turns && MapEvent(c, e).current == c.current
    ensures MapEvent(c, e).sequence == c.sequence
  {
  }

  /** What a handler leaves: the touched turns, then the new ones, and the open turn last. */
  predicate HasShape(r: Context, c: Context, e: Event)
    requires Inv(c)
  {
    && r.turns == TouchLast(c, e) + NewTurns(c.current.Some?, |c.turns|, e)
    && (r.current.Some? <==> StaysOpen(c.current.Some?, e))
    && (r.current.Some? ==> r.current.value + 1 == |r.turns|)
    && r.sequence == |r.turns|
  }

  lemma ClosersShape(c: Context, e: Event)
    requires Inv(c) && (e.kind.PromptSubmit? || IsSession(e))
    ensures HasShape(ProcessEvent(c, e), c, e)
  {
    hide FinalizeTurn, UserTurn, SystemTurn, AssistantTurn, IsClosed, Numbered;
    assert (if e.kind.SessionEnd? then InterruptCurrent(c, e.timestamp) else FinalizeCurrent(c, e.timestamp)).turns
           == TouchLast(c, e);
    if e.kind.PromptSubmit? {
      var user, reply := UserTurn(e, |c.turns| + 1), AssistantTurn(e, |c.turns| + 2, Thinking);
      assert TouchLast(c, e) + [user] + [reply] == TouchLast(c, e) + [user, reply];
    }
  }

  lemma ToolCallShape(c: Context, e: Event)
    requires Inv(c) && e.kind.PreToolUse?
    ensures HasShape(ProcessEvent(c, e), c, e)
  {
    hide BeginStep, IsClosed, Numbered;
    if c.current.None? {
      var opening := AssistantTurn(e, |c.turns| + 1, ToolUse);
      assert (c.turns + [opening])[|c.turns| := BeginStep(opening, e)] == c.turns + [BeginStep(opening, e)];
    } else {
      assert TouchLast(c, e) + [] == TouchLast(c, e);
    }
  }

  lemma OthersShape(c: Context, e: Event)
    requires Inv(c) && !e.kind.PromptSubmit? && !IsSession(e) && !e.kind.PreToolUse?
    ensures HasShape(ProcessEvent(c, e), c, e)
  {
    hide EndStep, StopTurn, CountEvent, IsClosed, Numbered;
    assert c.current.Some? ==> c.HasAssistant() && c.current.value == |c.turns| - 1;
    assert TouchLast(c, e) + [] == TouchLast(c, e);
  }

  lemma ProcessKeepsMap(c: Context, e: Event)
    ensures ProcessEvent(c, e).eventTurnMap == c.eventTurnMap
  {
    hide FinalizeTurn, BeginStep, EndStep, StopTurn, CountEvent, UserTurn, SystemTurn, AssistantTurn;
  }

  lemma ProcessShape(c: Context, e: Event)
    requires Inv(c)
    ensures HasShape(ProcessEvent(c, e), c, e)
  {
    hide HasShape, ProcessEvent, Inv;
    if e.kind.PromptSubmit? || IsSession(e) {
      ClosersShape(c, e);
    } else if e.kind.PreToolUse? {
      ToolCallShape(c, e);
    } else {
      OthersShape(c, e);
    }
  }

  /** Every event touches the open turn only, and otherwise appends. */
  lemma AdvanceShape(c: Context, e: Event)
    requires Inv(c)
    ensures Advance(c, e).turns == TouchLast(c, e) + NewTurns(c.current.Some?, |c.turns|, e)
    ensures Advance(c, e).current.Some? <==> StaysOpen(c.current.Some?, e)
    ensures Advance(c, e).current.Some? ==> Advance(c, e).current.value + 1 == |Advance(c, e).turns|
    ensures Advance(c, e).sequence == |Advance(c, e).turns|
  {
    hide MapEvent, ProcessEvent, Inv, TouchLast, NewTurns;
    MapKeepsTurns(ProcessEvent(c, e), e);
    ProcessShape(c, e);
    if !IsKnown(e) {
      UnknownShape(c, e);
    }
  }

  lemma TouchKeepsIdentity(t: TurnRecord, e: Event)
    ensures SameIdentity(t, Touch(t, e))
  {
  }

  lemma TouchedTurnStaysValid(t: TurnRecord, e: Event)
    requires IsCurrent(t)
    ensures Touch(t, e).sequence == t.sequence
    ensures StaysOpen(true, e) && !e.kind.PromptSubmit? ==> IsCurrent(Touch(t, e))
    ensures e.kind.PromptSubmit? || IsSession(e) ==> IsClosed(Touch(t, e))
  {
    if e.kind.PostToolUse? && t.status == Complete {
      var k := FindStep(t.steps, e.kind.toolUseId);
      var t' := Touch(t, e);
      assert forall i :: 0 <= i < |t.steps| && i != k ==> t'.steps[i] == t.steps[i];
    }
  }

  /** New turns are numbered on; only the last of them may be open. */
  lemma NewTurnsFit(isOpen: bool, n: nat, e: Event)
    ensures var created := NewTurns(isOpen, n, e);
            && (created == [] <==> !e.kind.PromptSubmit? && !IsSession(e) && (e.kind.PreToolUse? ==> isOpen))
            && (forall i :: 0 <= i < |created| ==> created[i].sequence == n + 1 + i)
            && (forall i :: 0 <= i < |created| - 1 ==> IsClosed(created[i]))
            && (created != [] ==>
                  var last := created[|created| - 1];
                  if StaysOpen(isOpen, e) then IsCurrent(last) else IsClosed(last))
  {
  }

  lemma AdvanceKeepsInv(c: Context, e: Event)
    requires Inv(c)
    ensures Inv(Advance(c, e))
  {
    hide Advance, Touch, NewTurns, IsClosed, IsCurrent;
    AdvanceShape(c, e);
    NewTurnsFit(c.current.Some?, |c.turns|, e);
    if c.current.Some? {
      TouchedTurnStaysValid(c.turns[c.current.value], e);
    }
  }

  /** The invariant holds after every event of every run. */
  lemma {:induction false} RunKeepsInv(es: seq<Event>)
    ensures Inv(Run(es))
  {
    if es != [] {
      RunKeepsInv(es[..|es| - 1]);
      AdvanceKeepsInv(Run(es[..|es| - 1]), es[|es| - 1]);
    }
  }

  lemma EmptyRun()
    ensures Run([]) == EMPTY_CONTEXT
  {
  }

  lemma {:induction false} RunAppend(es: seq<Event>, e: Event)
    ensures Run(es + [e]) == Advance(Run(es), e)
  {
    assert (es + [e])[..|es + [e]| - 1] == es;
  }

  /** After the stale pass every turn is closed, except possibly an open last assistant turn. */
  lemma CloseStaleSettles(c: Context, now: int)
    requires Inv(c)
    ensures var r := CloseStale(c, now);
            && Numbered(r.turns)
            && |r.turns| == |c.turns|
            && (forall i :: 0 <= i < |r.turns| && c.current != Some(i) ==>
                  r.turns[i] == c.turns[i] && IsClosed(r.turns[i]))
            && (c.current.Some? ==>
                  var last := r.turns[|r.turns| - 1];
                  && last.kind == Assistant
                  && (IsClosed(last) || last.status == Thinking || last.status == ToolUse)
                  && (last.status == Interrupted <==> IsStale(c.Turn(), now))
                  && (last.status != Interrupted ==> last == c.Turn()))
  {
  }
}
