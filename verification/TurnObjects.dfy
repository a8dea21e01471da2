/**
 The builder as it runs: turns and steps are objects that are shared between `turns` and
 `currentTurn` and updated in place. Every method is proved to do what `TurnModel` says.
 */
module TurnObjects {
  import opened Options
  import opened TurnModel
  import TurnOrder
  import TurnShape
  import TurnBuilder

  class TurnStep {
    const id: string
    const toolName: string
    const input: string
    const startedAt: int
    const isSubagent: bool
    const metadata: Option<StepMetadata>
    var output: Option<string>
    var success: Option<bool>
    var durationMs: Option<int>
    var status: StepStatus

    constructor (e: Event)
      requires e.kind.PreToolUse?
      ensures View() == NewStep(e)
    {
      id := e.kind.toolUseId;
      toolName := e.kind.tool;
      input := TruncateText(e.kind.toolInput, MAX_INPUT_PREVIEW);
      startedAt := e.timestamp;
      isSubagent := e.kind.tool in {"Task", "dispatch_agent"};
      metadata := e.kind.metadata;
      output, success, durationMs, status := None, None, None, StepPending;
    }

    method Resolve(e: Event)
      requires e.kind.PostToolUse?
      modifies this
      ensures View() == ResolveStep(old(View()), e)
    {
      output := Some(TruncateText(e.kind.toolResponse, MAX_OUTPUT_PREVIEW));
      success := e.kind.success;
      durationMs := e.kind.duration;
      status := if e.kind.success == Some(false) then StepError else StepComplete;
    }

    function View(): StepRecord
      reads this
    {
      StepRecord(id, toolName, input, output, success, durationMs, startedAt, status, isSubagent, metadata)
    }
  }

  function StepViews(steps: seq<TurnStep>): (r: seq<StepRecord>)
    reads steps
    ensures |r| == |steps|
  {
    seq(|steps|, i requires 0 <= i < |steps| reads steps => steps[i].View())
  }

  lemma StepViewsAppend(steps: seq<TurnStep>, step: TurnStep)
    ensures StepViews(steps + [step]) == StepViews(steps) + [step.View()]
  {
  }

  class Turn {
    const id: string
    const sessionId: string
    const sequence: nat
    const kind: TurnType
    const prompt: Option<string>
    const cliTool: Option<string>
    const startedAt: int
    var status: TurnStatus
    var thinking: Option<string>
    var response: Option<string>
    var steps: seq<TurnStep>
    var completedAt: Option<int>
    var durationMs: Option<int>
    var rawEventCount: nat

    /** `createTurn`: the given fields over the defaults. */
    constructor (t: TurnRecord)
      requires t.steps == []
      ensures View() == t && Valid() && steps == []
    {
      id, sessionId, sequence, kind := t.id, t.sessionId, t.sequence, t.kind;
      prompt, cliTool, startedAt := t.prompt, t.cliTool, t.startedAt;
      status, thinking, response, steps := t.status, t.thinking, t.response, [];
      completedAt, durationMs, rawEventCount := t.completedAt, t.durationMs, t.rawEventCount;
    }

    ghost predicate Valid()
      reads this
    {
      NoRepeats(steps)
    }

    function View(): TurnRecord
      reads this, steps
    {
      TurnRecord(id, sessionId, sequence, kind, status, prompt, thinking, response, StepViews(steps), cliTool,
                 startedAt, completedAt, durationMs, rawEventCount)
    }

    /** The loop of `finalizeTurn` over the steps. */
    method TimeOutSteps()
      requires Valid()
      modifies steps
      ensures StepViews(steps) == TimeOutAll(old(StepViews(steps)))
    {
      ghost var before := StepViews(steps);
      for k := 0 to |steps|
        invariant forall i :: 0 <= i < k ==> steps[i].View() == TimeOut(before[i])
        invariant forall i :: k <= i < |steps| ==> steps[i].View() == before[i]
      {
        if steps[k].status == StepPending {
          steps[k].status := StepTimeout;
        }
      }
      assert StepViews(steps) == TimeOutAll(before);
    }

    method Finalize(timestamp: int)
      requires Valid()
      modifies this, steps
      ensures steps == old(steps)
      ensures View() == FinalizeTurn(old(View()), timestamp)
    {
      hide StepViews, TimeOutAll;
      if status == Thinking || status == ToolUse {
        status := Complete;
      }
      TimeOutSteps();
      completedAt := Some(timestamp);
      durationMs := Some(timestamp - startedAt);
    }

    method Close(timestamp: int, interrupt: bool)
      requires Valid()
      modifies this, steps
      ensures steps == old(steps)
      ensures View() == FinalizeTurn(if interrupt then old(View()).(status := Interrupted) else old(View()),
                                     timestamp)
    {
      hide StepViews, FinalizeTurn;
      if interrupt {
        status := Interrupted;
      }
      Finalize(timestamp);
    }

    /** The part of `handlePreToolUse` that updates the current turn. */
    method AddStep(e: Event)
      requires Valid() && e.kind.PreToolUse?
      modifies this
      ensures Valid()
      ensures |steps| == |old(steps)| + 1 && steps[..|old(steps)|] == old(steps)
      ensures fresh(steps[|old(steps)|])
      ensures View() == BeginStep(old(View()), e)
    {
      status := ToolUse;
      if IsNonEmpty(e.kind.assistantText) && !IsNonEmpty(thinking) {
        thinking := e.kind.assistantText;
      }
      var step := new TurnStep(e);
      hide NewStep;
      StepViewsAppend(steps, step);
      steps := steps + [step];
      hide StepViews;
      rawEventCount := rawEventCount + 1;
    }

    /** `steps.find((s) => s.id === id)` */
    method Find(id: string) returns (k: nat)
      ensures k == FindStep(StepViews(steps), id)
    {
      k := 0;
      while k < |steps| && steps[k].id != id
        invariant k <= |steps|
        invariant forall i :: 0 <= i < k ==> StepViews(steps)[i].id != id
      {
        assert StepViews(steps)[k].id == steps[k].id;
        k := k + 1;
      }
      assert k < |steps| ==> StepViews(steps)[k].id == id;
    }

    /** The part of `handlePostToolUse` that updates the current turn. */
    method ResolveByEvent(e: Event)
      requires Valid() && e.kind.PostToolUse?
      modifies this, steps
      ensures steps == old(steps)
      ensures View() == EndStep(old(View()), e)
    {
      hide ResolveStep, FindStep, StepViews;
      var k := Find(e.kind.toolUseId);
      if k < |steps| {
        ResolveAt(k, e);
      }
      rawEventCount := rawEventCount + 1;
    }

    method ResolveAt(k: nat, e: Event)
      requires Valid() && k < |steps| && e.kind.PostToolUse?
      modifies steps
      ensures StepViews(steps) == (var before := old(StepViews(steps)); before[k := ResolveStep(before[k], e)])
    {
      hide ResolveStep;
      steps[k].Resolve(e);
      assert forall i :: 0 <= i < |steps| && i != k ==> steps[i].View() == old(steps[i].View());
    }

    method Stop(e: Event)
      requires Valid() && e.kind.Stop?
      modifies this, steps
      ensures steps == old(steps)
      ensures View() == StopTurn(old(View()), e)
    {
      hide StepViews, FinalizeTurn;
      if IsNonEmpty(e.kind.response) {
        response := e.kind.response;
      }
      Finalize(e.timestamp);
    }

    /** The events that are only counted. */
    method Count()
      requires Valid()
      modifies this
      ensures steps == old(steps)
      ensures View() == CountEvent(old(View()))
    {
      rawEventCount := rawEventCount + 1;
    }

    method LastActivity(fallback: int) returns (time: int)
      ensures time == LastActivityTime(View(), fallback)
    {
      if |steps| > 0 {
        var lastStep := steps[|steps| - 1];
        assert StepViews(steps)[|steps| - 1] == lastStep.View();
        if lastStep.durationMs.Some? && lastStep.durationMs.value != 0 {
          return lastStep.startedAt + lastStep.durationMs.value;
        }
        return lastStep.startedAt;
      }
      return if startedAt != 0 then startedAt else fallback;
    }
  }

  // ---------------------------------------------------------------------------------------------
  // The build context
  // ---------------------------------------------------------------------------------------------

  ghost function StepsOf(shape: seq<seq<TurnStep>>): set<TurnStep> {
    set i, s | 0 <= i < |shape| && s in shape[i] :: s
  }

  /** The step objects of every turn. */
  ghost function ShapeOf(turns: seq<Turn>): (r: seq<seq<TurnStep>>)
    reads turns
    ensures |r| == |turns|
  {
    seq(|turns|, i requires 0 <= i < |turns| reads turns => turns[i].steps)
  }

  ghost function ViewsOf(turns: seq<Turn>): (r: seq<TurnRecord>)
    reads turns, StepsOf(ShapeOf(turns))
    ensures |r| == |turns|
  {
    seq(|turns|, i requires 0 <= i < |turns| reads turns, StepsOf(ShapeOf(turns)) =>
      assert forall s :: s in ShapeOf(turns)[i] ==> s in StepsOf(ShapeOf(turns));
      turns[i].View())
  }

  /** Changes elsewhere leave the turns as they are. */
  twostate lemma TurnsKept(turns: seq<Turn>)
    requires forall t :: t in turns ==> unchanged(t) && forall s :: s in t.steps ==> unchanged(s)
    ensures ViewsOf(turns) == old(ViewsOf(turns)) && ShapeOf(turns) == old(ShapeOf(turns))
  {
    forall i | 0 <= i < |turns|
      ensures turns[i].View() == old(turns[i].View()) && turns[i].steps == old(turns[i].steps)
    {
      var t := turns[i];
      assert t in turns;
      forall k | 0 <= k < |t.steps|
        ensures t.steps[k].View() == old(t.steps[k].View())
      {
        assert t.steps[k] in t.steps;
      }
      assert StepViews(t.steps) == old(StepViews(t.steps));
    }
  }

  ghost predicate WellShaped(turns: seq<Turn>, shape: seq<seq<TurnStep>>) {
    && |turns| == |shape|
    && (forall i, j :: 0 <= i < j < |turns| ==> turns[i] != turns[j])
    && (forall i :: 0 <= i < |shape| ==> NoRepeats(shape[i]))
    && (forall i, j, s :: 0 <= i < j < |shape| && s in shape[i] ==> s !in shape[j])
  }

  /** Appending a turn without steps. */
  lemma AppendTurn(turns: seq<Turn>, turn: Turn)
    requires turn.steps == []
    ensures ShapeOf(turns + [turn]) == ShapeOf(turns) + [[]]
    ensures StepsOf(ShapeOf(turns + [turn])) == StepsOf(ShapeOf(turns))
    ensures ViewsOf(turns + [turn]) == ViewsOf(turns) + [turn.View()]
    ensures (set t: object | t in turns + [turn]) == (set t: object | t in turns) + {turn}
    ensures WellShaped(turns, ShapeOf(turns)) && turn !in turns ==>
              WellShaped(turns + [turn], ShapeOf(turns + [turn]))
  {
    var shape := ShapeOf(turns);
    assert ShapeOf(turns + [turn]) == shape + [[]];
    forall s
      ensures s in StepsOf(shape + [[]]) <==> s in StepsOf(shape)
    {
      if s in StepsOf(shape) {
        var i :| 0 <= i < |shape| && s in shape[i];
        assert s in (shape + [[]])[i];
      }
    }
    assert StepsOf(shape + [[]]) == StepsOf(shape);
    assert ViewsOf(turns + [turn]) == ViewsOf(turns) + [turn.View()];
  }

  /** Appending a new step to the last turn. */
  lemma AppendStep(turns: seq<Turn>, shape: seq<seq<TurnStep>>, step: TurnStep)
    requires WellShaped(turns, shape) && shape != [] && step !in StepsOf(shape)
    ensures var shape' := shape[|shape| - 1 := shape[|shape| - 1] + [step]];
            WellShaped(turns, shape') && StepsOf(shape') == StepsOf(shape) + {step}
  {
    var n := |shape| - 1;
    var shape' := shape[n := shape[n] + [step]];
    assert forall i :: 0 <= i < n ==> shape'[i] == shape[i];
    assert shape'[n] == shape[n] + [step] && step in shape'[n];
    assert forall i, s :: 0 <= i < |shape| && s in shape[i] ==> s in StepsOf(shape);
    forall s
      ensures s in StepsOf(shape') <==> s in StepsOf(shape) || s == step
    {
      if s in StepsOf(shape) {
        var i :| 0 <= i < |shape| && s in shape[i];
        assert s in shape'[i];
      }
    }
  }

  ghost predicate NoRepeats(steps: seq<TurnStep>) {
    forall i, j :: 0 <= i < j < |steps| ==> steps[i] != steps[j]
  }

  class BuildContext {
    var turns: seq<Turn>
    var currentTurn: Turn?
    var sequence: nat
    var unknownEventTypeCount: nat
    ghost var eventTurnMap: map<string, string>  // the map that `buildTurns` keeps beside the context

    ghost function Shape(): seq<seq<TurnStep>>
      reads this`turns, turns
    {
      ShapeOf(turns)
    }

    ghost function Steps(): set<TurnStep>
      reads this`turns, turns
    {
      StepsOf(Shape())
    }

    ghost function Repr(): set<object>
      reads this`turns, turns
    {
      {this} + (set t: object | t in turns) + (set s: object | s in Steps())
    }

    /** The objects that an event may change, besides the context itself. */
    ghost function Touched(): set<object>
      reads this, currentTurn
    {
      if currentTurn == null then {} else {currentTurn} + set s: object | s in currentTurn.steps
    }

    /** Turns and steps are never shared, and `currentTurn` is an alias of the last turn. */
    ghost predicate Valid()
      reads this, turns
    {
      && WellShaped(turns, Shape())
      && (currentTurn != null ==> turns != [] && currentTurn == turns[|turns| - 1])
    }

    ghost function TurnViews(): (r: seq<TurnRecord>)
      reads this`turns, turns, Steps()
      ensures |r| == |turns|
    {
      ViewsOf(turns)
    }

    /** The context's value. */
    ghost function Abs(): Context
      reads this, turns, Steps()
    {
      Context(TurnViews(), if currentTurn == null || turns == [] then None else Some(|turns| - 1),
              sequence, unknownEventTypeCount, eventTurnMap)
    }

    constructor ()
      ensures Valid() && fresh(Repr())
      ensures Abs() == EMPTY_CONTEXT && eventTurnMap == map[]
    {
      turns, currentTurn, sequence, unknownEventTypeCount := [], null, 0, 0;
      eventTurnMap := map[];
    }

    /** `ctx.currentTurn = turn`, for the last turn or null. */
    method SetCurrent(turn: Turn?)
      requires WellShaped(turns, Shape())
      requires turn != null ==> turns != [] && turn == turns[|turns| - 1]
      modifies this`currentTurn
      ensures Valid() && Repr() == old(Repr()) && turns == old(turns) && currentTurn == turn
      ensures sequence == old(sequence) && unknownEventTypeCount == old(unknownEventTypeCount)
      ensures eventTurnMap == old(eventTurnMap) && TurnViews() == old(TurnViews())
    {
      hide WellShaped, ViewsOf, StepsOf, ShapeOf;
      currentTurn := turn;
      TurnsKept(turns);
    }

    /** `ctx.turns.push(createTurn(...))`; `currentTurn` may lag behind until the caller sets it. */
    method Push(t: TurnRecord) returns (turn: Turn)
      requires WellShaped(turns, Shape())
      requires t.steps == [] && t.sequence == sequence + 1
      modifies this
      ensures WellShaped(turns, Shape())
      ensures fresh(turn) && Repr() == old(Repr()) + {turn}
      ensures turns == old(turns) + [turn] && currentTurn == old(currentTurn)
      ensures sequence == old(sequence) + 1 && unknownEventTypeCount == old(unknownEventTypeCount)
      ensures eventTurnMap == old(eventTurnMap)
      ensures TurnViews() == old(TurnViews()) + [t]
    {
      hide WellShaped, StepsOf, ViewsOf, Turn.View, StepViews, Turn.Valid;
      ghost var before := turns;
      turn := new Turn(t);
      assert turn !in before;
      turns := turns + [turn];
      sequence := sequence + 1;
      TurnsKept(before);
      AppendTurn(before, turn);
      hide ShapeOf;
    }

    /** The current turn shares nothing with the turns before it. */
    lemma CurrentIsSeparate()
      requires Valid() && currentTurn != null
      ensures currentTurn.Valid()
      ensures Abs().HasTurn() && Abs().Turn() == currentTurn.View()
      ensures forall i :: 0 <= i < |turns| - 1 ==>
                turns[i] != currentTurn && forall s :: s in turns[i].steps ==> s !in currentTurn.steps
    {
      assert Shape()[|turns| - 1] == currentTurn.steps;
      assert forall i :: 0 <= i < |turns| ==> Shape()[i] == turns[i].steps;
    }

    /** Updating the current turn updates just that turn in the context's value. */
    twostate lemma CurrentUpdated()
      requires old(Valid()) && old(currentTurn) != null
      requires turns == old(turns) && currentTurn == old(currentTurn)
      requires sequence == old(sequence) && unknownEventTypeCount == old(unknownEventTypeCount)
      requires eventTurnMap == old(eventTurnMap)
      requires forall i :: 0 <= i < |turns| - 1 ==>
                 unchanged(turns[i]) && forall s :: s in turns[i].steps ==> unchanged(s)
      ensures Abs() == old(Abs()).WithTurn(currentTurn.View())
      ensures Shape() == old(Shape())[|turns| - 1 := currentTurn.steps]
    {
      forall i | 0 <= i < |turns| - 1
        ensures turns[i].View() == old(turns[i].View())
      {
        forall k | 0 <= k < |turns[i].steps|
          ensures turns[i].steps[k].View() == old(turns[i].steps[k].View())
        {
          assert turns[i].steps[k] in turns[i].steps;
        }
        assert StepViews(turns[i].steps) == old(StepViews(turns[i].steps));
      }
      assert TurnViews() == old(TurnViews())[|turns| - 1 := currentTurn.View()];
    }

    /** The same for updates that leave the current turn's step objects in place. */
    twostate lemma CurrentKept()
      requires old(Valid()) && old(currentTurn) != null
      requires turns == old(turns) && currentTurn == old(currentTurn)
      requires sequence == old(sequence) && unknownEventTypeCount == old(unknownEventTypeCount)
      requires eventTurnMap == old(eventTurnMap)
      requires forall i :: 0 <= i < |turns| - 1 ==>
                 unchanged(turns[i]) && forall s :: s in turns[i].steps ==> unchanged(s)
      requires currentTurn.steps == old(currentTurn.steps)
      ensures Valid() && Repr() == old(Repr())
      ensures Abs() == old(Abs()).WithTurn(currentTurn.View())
    {
      hide WellShaped, ViewsOf, StepsOf, Turn.View;
      CurrentUpdated();
      assert old(Shape())[|turns| - 1] == old(currentTurn.steps);
      assert Shape() == old(Shape());
    }

    /** The same for a new step object behind the others. */
    twostate lemma CurrentExtended(new step: TurnStep)
      requires old(Valid()) && old(currentTurn) != null
      requires turns == old(turns) && currentTurn == old(currentTurn)
      requires sequence == old(sequence) && unknownEventTypeCount == old(unknownEventTypeCount)
      requires eventTurnMap == old(eventTurnMap)
      requires forall i :: 0 <= i < |turns| - 1 ==>
                 unchanged(turns[i]) && forall s :: s in turns[i].steps ==> unchanged(s)
      requires currentTurn.steps == old(currentTurn.steps) + [step] && fresh(step)
      ensures Valid() && Repr() == old(Repr()) + {step}
      ensures Abs() == old(Abs()).WithTurn(currentTurn.View())
    {
      hide WellShaped, ViewsOf, Turn.View;
      CurrentUpdated();
      assert old(Shape())[|turns| - 1] == old(currentTurn.steps);
      ghost var shape := old(Shape());
      assert forall i, s :: 0 <= i < |turns| && s in shape[i] ==> s in old(turns[i].steps) && s != step;
      AppendStep(turns, shape, step);
      assert Steps() == StepsOf(shape) + {step};
      hide StepsOf;
    }

    method CloseCurrent(timestamp: int, interrupt: bool)
      requires Valid()
      modifies this, Touched()
      ensures Valid() && Repr() == old(Repr())
      ensures turns == old(turns) && currentTurn == old(currentTurn)
      ensures Abs() == if interrupt then InterruptCurrent(old(Abs()), timestamp)
                       else FinalizeCurrent(old(Abs()), timestamp)
    {
      hide FinalizeTurn, Turn.View, StepViews, ViewsOf, WellShaped;
      if currentTurn != null {
        CurrentIsSeparate();
        SameFields(currentTurn);
        if currentTurn.status != Complete && currentTurn.status != Error {
          currentTurn.Close(timestamp, interrupt);
          CurrentKept();
        }
      }
    }

    method HandlePromptSubmit(e: Event)
      requires Valid() && e.kind.PromptSubmit?
      modifies this, Touched()
      ensures Valid() && fresh(Repr() - old(Repr()))
      ensures Abs() == TurnModel.HandlePromptSubmit(old(Abs()), e)
    {
      hide TurnModel.HandlePromptSubmit, FinalizeCurrent, UserTurn, AssistantTurn, Turn.View, StepViews;
      hide Touched, Repr, WellShaped, Steps, StepsOf, Shape, ShapeOf, ViewsOf;
      PromptCreates(Abs(), e);
      TurnsStartEmpty(e);
      CloseCurrent(e.timestamp, false);
      var userTurn := Push(UserTurn(e, sequence + 1));
      var assistantTurn := Push(AssistantTurn(e, sequence + 1, Thinking));
      SetCurrent(assistantTurn);
    }

    method HandleSessionStart(e: Event)
      requires Valid() && e.kind.SessionStart?
      modifies this, Touched()
      ensures Valid() && fresh(Repr() - old(Repr()))
      ensures Abs() == TurnModel.HandleSessionStart(old(Abs()), e)
    {
      hide TurnModel.HandleSessionStart, FinalizeCurrent, SystemTurn, Turn.View, StepViews;
      hide Touched, Repr, WellShaped, Steps, StepsOf, Shape, ShapeOf, ViewsOf;
      SessionCreates(Abs(), e);
      TurnsStartEmpty(e);
      CloseCurrent(e.timestamp, false);
      var systemTurn := Push(SystemTurn(e, sequence + 1, "Session " + e.kind.source));
      SetCurrent(null);
    }

    method HandleSessionEnd(e: Event)
      requires Valid() && e.kind.SessionEnd?
      modifies this, Touched()
      ensures Valid() && fresh(Repr() - old(Repr()))
      ensures Abs() == TurnModel.HandleSessionEnd(old(Abs()), e)
    {
      hide TurnModel.HandleSessionEnd, InterruptCurrent, SystemTurn, Turn.View, StepViews;
      hide Touched, Repr, WellShaped, Steps, StepsOf, Shape, ShapeOf, ViewsOf;
      SessionCreates(Abs(), e);
      TurnsStartEmpty(e);
      CloseCurrent(e.timestamp, true);
      var systemTurn := Push(SystemTurn(e, sequence + 1, "Session ended: " + e.kind.reason));
      SetCurrent(null);
    }

    method HandlePreToolUse(e: Event)
      requires Valid() && e.kind.PreToolUse?
      modifies this, Touched()
      ensures Valid() && fresh(Repr() - old(Repr()))
      ensures Abs() == TurnModel.HandlePreToolUse(old(Abs()), e)
    {
      hide BeginStep, EnsureAssistant, Turn.View, StepViews, Repr, WellShaped;
      EnsureAssistantTurn(e);
      ghost var ready := Repr();
      label Ready:
      AddStepToCurrent(e);
      assert forall o :: o in Repr() && o !in old(Repr()) && old(allocated(o)) ==>
               old@Ready(allocated(o)) && o in ready;
    }

    method AddStepToCurrent(e: Event)
      requires Valid() && e.kind.PreToolUse? && currentTurn != null
      modifies currentTurn
      ensures Valid() && fresh(Repr() - old(Repr())) && currentTurn == old(currentTurn)
      ensures old(Abs()).HasTurn() && Abs() == old(Abs()).WithTurn(BeginStep(old(Abs()).Turn(), e))
    {
      hide BeginStep, Turn.View, StepViews, ViewsOf, WellShaped, StepsOf, ShapeOf;
      CurrentIsSeparate();
      currentTurn.AddStep(e);
      ghost var step := currentTurn.steps[|currentTurn.steps| - 1];
      assert currentTurn.steps == old(currentTurn.steps) + [step];
      CurrentExtended(step);
    }

    method EnsureAssistantTurn(e: Event)
      requires Valid()
      modifies this
      ensures Valid() && fresh(Repr() - old(Repr()))
      ensures currentTurn != null && (currentTurn == old(currentTurn) || fresh(currentTurn))
      ensures Abs() == EnsureAssistant(old(Abs()), e)
    {
      hide Repr, WellShaped, Steps, StepsOf, ShapeOf, ViewsOf, Turn.View, StepViews;
      if currentTurn != null {
        CurrentIsSeparate();
        SameFields(currentTurn);
      }
      if currentTurn == null || currentTurn.kind != Assistant {
        var turn := Push(AssistantTurn(e, sequence + 1, ToolUse));
        SetCurrent(turn);
      }
    }

    method HandlePostToolUse(e: Event)
      requires Valid() && e.kind.PostToolUse?
      modifies this, Touched()
      ensures Valid() && fresh(Repr() - old(Repr()))
      ensures Abs() == TurnModel.HandlePostToolUse(old(Abs()), e)
    {
      hide EndStep, Turn.View, StepViews, ViewsOf, WellShaped, StepsOf, ShapeOf;
      if currentTurn != null {
        CurrentIsSeparate();
        SameFields(currentTurn);
        if currentTurn.kind == Assistant {
          currentTurn.ResolveByEvent(e);
          CurrentKept();
        }
      }
    }

    method HandleStop(e: Event)
      requires Valid() && e.kind.Stop?
      modifies this, Touched()
      ensures Valid() && fresh(Repr() - old(Repr()))
      ensures Abs() == TurnModel.HandleStop(old(Abs()), e)
    {
      hide StopTurn, Turn.View, StepViews, ViewsOf, WellShaped, StepsOf, ShapeOf;
      if currentTurn != null {
        CurrentIsSeparate();
        SameFields(currentTurn);
        if currentTurn.kind == Assistant {
          currentTurn.Stop(e);
          CurrentKept();
        }
      }
    }

    method CountForCurrent(e: Event)
      requires Valid()
      modifies this, Touched()
      ensures Valid() && fresh(Repr() - old(Repr()))
      ensures Abs() == if old(Abs()).HasAssistant()
                       then old(Abs()).WithTurn(CountEvent(old(Abs()).Turn())) else old(Abs())
    {
      hide CountEvent, Turn.View, StepViews, ViewsOf, WellShaped, StepsOf, ShapeOf;
      if currentTurn != null {
        CurrentIsSeparate();
        SameFields(currentTurn);
        if currentTurn.kind == Assistant {
          currentTurn.Count();
          CurrentKept();
        }
      }
    }

    method ProcessEvent(e: Event)
      requires Valid()
      modifies this, Touched()
      ensures Valid() && fresh(Repr() - old(Repr()))
      ensures Abs() == TurnModel.ProcessEvent(old(Abs()), e)
    {
      hide TurnModel.HandlePromptSubmit, TurnModel.HandlePreToolUse, TurnModel.HandlePostToolUse;
      hide TurnModel.HandleStop, TurnModel.HandleSessionStart, TurnModel.HandleSessionEnd, CountEvent;
      hide Abs, Valid, Repr, Touched;
      match e.kind
      case PromptSubmit(_) => HandlePromptSubmit(e);
      case PreToolUse(_, _, _, _, _) => HandlePreToolUse(e);
      case PostToolUse(_, _, _, _) => HandlePostToolUse(e);
      case Stop(_) => HandleStop(e);
      case SessionStart(_) => HandleSessionStart(e);
      case SessionEnd(_) => HandleSessionEnd(e);
      case PermissionRequest =>
      case OtherType(_) =>
      case _ => CountForCurrent(e);
    }

    /** The part of the loop of `buildTurns` that records the turn of a known event. */
    method RecordOwner(event: Event, m: map<string, string>) returns (r: map<string, string>)
      requires Valid() && m == eventTurnMap
      modifies this`eventTurnMap
      ensures Valid() && Repr() == old(Repr()) && r == eventTurnMap
      ensures Abs() == MapEvent(old(Abs()), event)
    {
      hide Turn.View, StepViews, WellShaped, ViewsOf, StepsOf, ShapeOf;
      r := m;
      if currentTurn != null {
        CurrentIsSeparate();
        SameFields(currentTurn);
        r := r[event.id := currentTurn.id];
      }
      if event.kind.PromptSubmit? {
        r := r[event.id := event.id];
      }
      eventTurnMap := r;
      TurnsKept(turns);
    }

    /** One pass of the loop of `buildTurns`; `m` is its `eventTurnMap`. */
    method Step(event: Event, m: map<string, string>) returns (r: map<string, string>)
      requires Valid() && m == eventTurnMap
      modifies this, Touched()
      ensures Valid() && fresh(Repr() - old(Repr())) && r == eventTurnMap
      ensures Abs() == Advance(old(Abs()), event)
    {
      hide TurnModel.ProcessEvent, MapEvent, ViewsOf, WellShaped, Repr;
      if !IsKnown(event) {
        unknownEventTypeCount := unknownEventTypeCount + 1;
        TurnsKept(turns);
        return m;
      }
      ProcessEvent(event);
      TurnShape.ProcessKeepsMap(old(Abs()), event);
      r := RecordOwner(event, m);
    }

    lemma SameFields(turn: Turn)
      ensures turn.View().id == turn.id && turn.View().kind == turn.kind && turn.View().status == turn.status
    {
    }

    lemma OwnsItsObjects()
      requires Valid()
      ensures WellShaped(turns, ShapeOf(turns))
      ensures forall t :: t in turns ==> t in Repr() && forall s :: s in t.steps ==> s in Repr()
    {
      forall i | 0 <= i < |turns|
        ensures forall s :: s in turns[i].steps ==> s in Repr()
      {
        assert Shape()[i] == turns[i].steps;
        assert forall s :: s in Shape()[i] ==> s in Steps();
      }
    }

    lemma TouchedIsOwned()
      requires Valid()
      ensures this in Repr() && Touched() <= Repr()
      ensures forall t: Turn :: t in turns ==> t in Repr()
    {
      if currentTurn != null {
        assert Shape()[|turns| - 1] == currentTurn.steps;
        assert forall s :: s in currentTurn.steps ==> s in Steps();
      }
    }

    /** The pass over the turn that is still open after the loop. */
    method InterruptStale(now: int)
      requires Valid()
      modifies this, Touched()
      ensures Valid() && Repr() == old(Repr()) && turns == old(turns)
      ensures Abs() == CloseStale(old(Abs()), now)
    {
      hide CloseStale, InterruptCurrent, LastActivityTime, Turn.View, StepViews;
      hide ViewsOf, Repr, WellShaped;
      StalePassInterrupts(Abs(), now);
      if currentTurn != null {
        CurrentIsSeparate();
        SameFields(currentTurn);
        if currentTurn.kind == Assistant && currentTurn.status != Complete && currentTurn.status != Error {
          var lastActivity := currentTurn.LastActivity(now);
          TurnsKept(turns);
          if now - lastActivity > STALE_AFTER {
            CloseCurrent(lastActivity, true);
          }
        }
      }
    }
  }

  lemma TurnsStartEmpty(e: Event)
    ensures e.kind.PromptSubmit? ==>
              forall n: nat :: UserTurn(e, n).steps == [] && UserTurn(e, n).sequence == n
    ensures forall n: nat, status ::
              AssistantTurn(e, n, status).steps == [] && AssistantTurn(e, n, status).sequence == n
    ensures forall n: nat, text :: SystemTurn(e, n, text).steps == [] && SystemTurn(e, n, text).sequence == n
  {
  }

  /** What a prompt pushes, and where that leaves the context. */
  lemma PromptCreates(c: Context, e: Event)
    requires e.kind.PromptSubmit?
    ensures var closed := FinalizeCurrent(c, e.timestamp);
            TurnModel.HandlePromptSubmit(c, e) ==
            Context(closed.turns + [UserTurn(e, closed.sequence + 1)] +
                    [AssistantTurn(e, closed.sequence + 2, Thinking)],
                    Some(|closed.turns| + 1), closed.sequence + 2, closed.unknownEventTypeCount, closed.eventTurnMap)
  {
    hide FinalizeCurrent, UserTurn, AssistantTurn;
  }

  /** What a session event pushes. */
  lemma SessionCreates(c: Context, e: Event)
    ensures e.kind.SessionStart? ==>
              var closed := FinalizeCurrent(c, e.timestamp);
              TurnModel.HandleSessionStart(c, e) ==
              Context(closed.turns + [SystemTurn(e, closed.sequence + 1, "Session " + e.kind.source)], None,
                      closed.sequence + 1, closed.unknownEventTypeCount, closed.eventTurnMap)
    ensures e.kind.SessionEnd? ==>
              var closed := InterruptCurrent(c, e.timestamp);
              TurnModel.HandleSessionEnd(c, e) ==
              Context(closed.turns + [SystemTurn(e, closed.sequence + 1, "Session ended: " + e.kind.reason)], None,
                      closed.sequence + 1, closed.unknownEventTypeCount, closed.eventTurnMap)
  {
    hide FinalizeCurrent, InterruptCurrent, SystemTurn;
  }

  // ---------------------------------------------------------------------------------------------
  // buildTurns
  // ---------------------------------------------------------------------------------------------

  /** `sorted.filter(...)` with the set of ids seen so far. */
  method RemoveDuplicates(sorted: seq<Event>) returns (deduped: seq<Event>)
    ensures deduped == TurnOrder.Dedup(sorted)
  {
    hide TurnOrder.Dedup, TurnOrder.Ids;
    var seen: set<string> := {};
    deduped := [];
    TurnOrder.NothingSeen();
    for k := 0 to |sorted|
      invariant seen == TurnOrder.Ids(sorted[..k])
      invariant deduped == TurnOrder.Dedup(sorted[..k])
    {
      assert sorted[..k + 1] == sorted[..k] + [sorted[k]];
      TurnOrder.DedupAppend(sorted[..k], sorted[k]);
      TurnOrder.IdsAppend(sorted[..k], sorted[k]);
      if sorted[k].id !in seen {
        seen := seen + {sorted[k].id};
        deduped := deduped + [sorted[k]];
      }
    }
    assert sorted[..|sorted|] == sorted;
  }

  /** The event loop, on a new context. */
  method RunEvents(deduped: seq<Event>) returns (ctx: BuildContext, eventTurnMap: map<string, string>)
    ensures ctx.Valid() && fresh(ctx) && fresh(ctx.Repr())
    ensures ctx.Abs() == Run(deduped) && eventTurnMap == ctx.eventTurnMap
  {
    hide Run, Advance, BuildContext.Abs, BuildContext.Valid, BuildContext.Repr, BuildContext.Touched;
    ctx := new BuildContext();
    eventTurnMap := map[];
    TurnShape.EmptyRun();
    for k := 0 to |deduped|
      invariant ctx.Valid() && fresh(ctx) && fresh(ctx.Repr())
      invariant ctx.Abs() == Run(deduped[..k])
      invariant eventTurnMap == ctx.eventTurnMap
    {
      assert deduped[..k + 1] == deduped[..k] + [deduped[k]];
      TurnShape.RunAppend(deduped[..k], deduped[k]);
      ctx.TouchedIsOwned();
      ghost var owned := ctx.Repr();
      label Before:
      eventTurnMap := ctx.Step(deduped[k], eventTurnMap);
      assert forall o :: o in ctx.Repr() && old(allocated(o)) ==> old@Before(allocated(o)) && o in owned;
    }
    assert deduped[..|deduped|] == deduped;
  }

  /**
   The projection as it runs, on objects. The returned turns and steps are new and unshared; the views
   of the turns, the counters and the map are those of `TurnBuilder.BuildTurns`.
   */
  method BuildTurns(events: seq<Event>, now: int)
    returns (turns: seq<Turn>, unknownEventTypeCount: nat, deduplicatedEventCount: nat,
             eventTurnMap: map<string, string>)
    ensures forall t :: t in turns ==> fresh(t) && forall s :: s in t.steps ==> fresh(s)
    ensures WellShaped(turns, ShapeOf(turns))
    ensures TurnBuilder.BuildResult(ViewsOf(turns), unknownEventTypeCount, deduplicatedEventCount, eventTurnMap)
            == TurnBuilder.BuildTurns(events, now)
  {
    hide Run, CloseStale, WellShaped, ViewsOf, StepsOf, ShapeOf, TurnOrder.Dedup, TurnOrder.SortByTime;
    hide BuildContext.Valid, BuildContext.Repr, BuildContext.Touched, BuildContext.Steps, BuildContext.Shape;
    var sorted := TurnOrder.SortByTime(events);
    var deduped := RemoveDuplicates(sorted);
    var ctx;
    ctx, eventTurnMap := RunEvents(deduped);
    ctx.TouchedIsOwned();
    ghost var c := ctx.Abs();
    ctx.InterruptStale(now);
    ctx.OwnsItsObjects();
    StalePassKeepsRest(c, now);
    return ctx.turns, ctx.unknownEventTypeCount, |sorted| - |deduped|, eventTurnMap;
  }

  /** The stale pass interrupts the current turn at its last sign of life, or does nothing. */
  lemma StalePassInterrupts(c: Context, now: int)
    ensures CloseStale(c, now) ==
            if c.HasAssistant() && IsStale(c.Turn(), now)
            then InterruptCurrent(c, LastActivityTime(c.Turn(), now)) else c
  {
  }

  lemma StalePassKeepsRest(c: Context, now: int)
    ensures CloseStale(c, now).unknownEventTypeCount == c.unknownEventTypeCount
    ensures CloseStale(c, now).eventTurnMap == c.eventTurnMap
  {
  }
}
