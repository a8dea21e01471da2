/**
 Tool steps: where each tool call's step ends up, and the status it ends with, told from the
 event list alone.
 */
module TurnSteps {
  import opened Options
  import opened TurnModel
  import opened TurnShape
  import opened TurnStructure
  import opened TurnMapping

  predicate IsToolCall(e: Event) {
    e.kind.PreToolUse?
  }

  /** An existing turn changes only when it is the current one, and then as `Touch` says. */
  lemma {:induction false} RunTouches(es: seq<Event>, e: Event, i: nat)
    requires i < |Run(es).turns|
    ensures i < |Run(es + [e]).turns|
    ensures Run(es + [e]).turns[i] ==
            if OpenAfter(es) && i + 1 == TurnCount(es) then Touch(Run(es).turns[i], e)
            else Run(es).turns[i]
  {
    hide Advance, OpenAfter, TurnCount;
    RunAppend(es, e);
    RunKeepsInv(es);
    AdvanceShape(Run(es), e);
    CurrentIffOpen(es);
    TurnsAreCounted(es);
  }

  // ---------------------------------------------------------------------------------------------
  // Where a step is
  // ---------------------------------------------------------------------------------------------

  /** Tool calls among the first `n` events that belong to turn `i`. */
  function ToolCalls(es: seq<Event>, n: nat, i: int): nat
    requires n <= |es|
  {
    if n == 0 then 0
    else ToolCalls(es, n - 1, i) + if IsToolCall(es[n - 1]) && OwnerIndex(es, n - 1) == i then 1 else 0
  }

  lemma {:induction false} ToolCallsOfPrefix(es: seq<Event>, e: Event, n: nat, i: int)
    requires n <= |es|
    ensures ToolCalls(es + [e], n, i) == ToolCalls(es, n, i)
  {
    if n > 0 {
      hide OwnerIndex, ToolCalls;
      ToolCallsOfPrefix(es, e, n - 1, i);
      OwnerOfPrefix(es, e, n - 1);
      ToolCallsAppend(es, n - 1, i);
      ToolCallsAppend(es + [e], n - 1, i);
    } else {
      hide OwnerIndex;
    }
  }

  lemma ToolCallsAppend(es: seq<Event>, n: nat, i: int)
    requires n < |es|
    ensures ToolCalls(es, n + 1, i) ==
            ToolCalls(es, n, i) + if IsToolCall(es[n]) && OwnerIndex(es, n) == i then 1 else 0
  {
    hide OwnerIndex;
  }

  lemma {:induction false} NoToolCallsBeyondLastTurn(es: seq<Event>, n: nat, i: int)
    requires n <= |es| && i >= TurnCount(es[..n])
    ensures ToolCalls(es, n, i) == 0
  {
    if n > 0 {
      hide TurnCount;
      TurnCountMonotone(es, n - 1, n);
      NoToolCallsBeyondLastTurn(es, n - 1, i);
    }
  }

  /** The fields of a step that are fixed when it is created. */
  predicate SameStep(s: StepRecord, t: StepRecord) {
    && s.id == t.id && s.toolName == t.toolName && s.input == t.input && s.startedAt == t.startedAt
    && s.isSubagent == t.isSubagent && s.metadata == t.metadata
  }

  /** Steps are only appended, keep their fixed fields, and never return to pending. */
  predicate StepsExtend(before: seq<StepRecord>, after: seq<StepRecord>) {
    && |before| <= |after|
    && forall k :: 0 <= k < |before| ==>
         && SameStep(before[k], after[k])
         && (before[k].status != StepPending ==> after[k].status != StepPending)
  }

  lemma TouchExtendsSteps(t: TurnRecord, e: Event)
    ensures StepsExtend(t.steps, Touch(t, e).steps)
    ensures |Touch(t, e).steps| == |t.steps| + if IsToolCall(e) then 1 else 0
    ensures IsToolCall(e) ==> Touch(t, e).steps[|t.steps|] == NewStep(e)
  {
    hide FinalizeTurn, EndStep, StepsExtend;
    FinalizingExtendsSteps(t, e.timestamp);
    if e.kind.SessionEnd? {
      FinalizingExtendsSteps(t.(status := Interrupted), e.timestamp);
    } else if e.kind.Stop? {
      FinalizingExtendsSteps(t.(response := e.kind.response), e.timestamp);
    } else if e.kind.PostToolUse? {
      EndingStepExtendsSteps(t, e);
    }
    assert StepsExtend(t.steps, t.steps) && (IsToolCall(e) ==> StepsExtend(t.steps, t.steps + [NewStep(e)])) by {
      SameStepsExtend(t.steps);
      if IsToolCall(e) {
        NewStepExtends(t.steps, NewStep(e));
      }
    }
  }

  lemma SameStepsExtend(steps: seq<StepRecord>)
    ensures StepsExtend(steps, steps)
  {
  }

  lemma NewStepExtends(steps: seq<StepRecord>, s: StepRecord)
    ensures StepsExtend(steps, steps + [s])
  {
  }

  lemma FinalizingExtendsSteps(t: TurnRecord, timestamp: int)
    ensures StepsExtend(t.steps, FinalizeTurn(t, timestamp).steps)
    ensures |FinalizeTurn(t, timestamp).steps| == |t.steps|
  {
  }

  lemma EndingStepExtendsSteps(t: TurnRecord, e: Event)
    requires e.kind.PostToolUse?
    ensures StepsExtend(t.steps, EndStep(t, e).steps) && |EndStep(t, e).steps| == |t.steps|
  {
  }

  lemma OwnerOfToolCall(es: seq<Event>, e: Event)
    requires IsToolCall(e)
    ensures OwnerIndex(es + [e], |es|) == if OpenAfter(es) then TurnCount(es) - 1 else TurnCount(es)
  {
    hide OpenAfter, TurnCount;
    assert (es + [e])[..|es|] == es && (es + [e])[..|es| + 1] == es + [e];
    TurnCountAppend(es, e);
  }

  /** Every turn has one step per tool call that belongs to it. */
  lemma {:induction false} StepsAreCounted(es: seq<Event>, i: nat)
    requires i < |Run(es).turns|
    ensures |Run(es).turns[i].steps| == ToolCalls(es, |es|, i)
  {
    hide Run, ToolCalls;
    if es == [] {
      EmptyRun();
    } else {
      var init, e := es[..|es| - 1], es[|es| - 1];
      assert es == init + [e];
      if i < |Run(init).turns| {
        StepsAreCounted(init, i);
        OldTurnSteps(init, e, i);
      } else {
        NewTurnSteps(init, e, i);
      }
    }
  }

  lemma {:induction false} OldTurnSteps(es: seq<Event>, e: Event, i: nat)
    requires i < |Run(es).turns| && |Run(es).turns[i].steps| == ToolCalls(es, |es|, i)
    ensures i < |Run(es + [e]).turns| && |Run(es + [e]).turns[i].steps| == ToolCalls(es + [e], |es| + 1, i)
  {
    hide Advance, Run, OpenAfter, TurnCount, OwnerIndex, Touch, ToolCalls;
    assert (es + [e])[|es|] == e;
    ToolCallsAppend(es + [e], |es|, i);
    ToolCallsOfPrefix(es, e, |es|, i);
    TurnsAreCounted(es);
    if IsToolCall(e) {
      OwnerOfToolCall(es, e);
    }
    RunTouches(es, e, i);
    TouchExtendsSteps(Run(es).turns[i], e);
  }

  lemma {:induction false} NewTurnSteps(es: seq<Event>, e: Event, i: nat)
    requires |Run(es).turns| <= i < |Run(es + [e]).turns|
    ensures |Run(es + [e]).turns[i].steps| == ToolCalls(es + [e], |es| + 1, i)
  {
    hide Advance, Run, OpenAfter, TurnCount, OwnerIndex, ToolCalls, CreatedBy;
    var all, n := es + [e], |es|;
    assert all[n] == e && all[..n] == es;
    RunExtends(es, e);
    ToolCallsAppend(all, n, i);
    NoToolCallsBeyondLastTurn(all, n, i);
    assert Run(all).turns[i] == CreatedBy(all, n)[i - |Run(es).turns|];
    CreatedSteps(all, n, i - |Run(es).turns|);
    if IsToolCall(e) {
      OwnerOfToolCall(es, e);
    }
  }

  lemma CreatedSteps(es: seq<Event>, k: nat, j: nat)
    requires k < |es| && j < |CreatedBy(es, k)|
    ensures CreatedBy(es, k)[j].steps == if IsToolCall(es[k]) then [NewStep(es[k])] else []
    ensures IsToolCall(es[k]) ==> j == 0 && !OpenAfter(es[..k])
  {
    hide OpenAfter, TurnCount;
  }

  /** The step of tool call `k`. */
  function StepOf(es: seq<Event>, k: nat): (s: StepRecord)
    requires k < |es| && IsToolCall(es[k])
    requires IsPlaced(es, k)
  {
    Run(es).turns[OwnerIndex(es, k)].steps[ToolCalls(es, k, OwnerIndex(es, k))]
  }

  predicate IsPlaced(es: seq<Event>, k: nat)
    requires k < |es|
  {
    && 0 <= OwnerIndex(es, k) < |Run(es).turns|
    && ToolCalls(es, k, OwnerIndex(es, k)) < |Run(es).turns[OwnerIndex(es, k)].steps|
  }

  /** How one more event changes the step of an earlier tool call. */
  lemma {:induction false} StepEvolves(es: seq<Event>, e: Event, k: nat)
    requires k < |es| && IsToolCall(es[k]) && IsPlaced(es, k)
    ensures IsPlaced(es + [e], k)
    ensures OwnerIndex(es + [e], k) == OwnerIndex(es, k)
    ensures ToolCalls(es + [e], k, OwnerIndex(es, k)) == ToolCalls(es, k, OwnerIndex(es, k))
    ensures ToolCalls(es, k, OwnerIndex(es, k)) < |Touch(Run(es).turns[OwnerIndex(es, k)], e).steps|
    ensures StepOf(es + [e], k) ==
            if OpenAfter(es) && OwnerIndex(es, k) + 1 == TurnCount(es)
            then Touch(Run(es).turns[OwnerIndex(es, k)], e).steps[ToolCalls(es, k, OwnerIndex(es, k))]
            else StepOf(es, k)
  {
    hide Advance, Run, OpenAfter, TurnCount, Touch;
    assert (es + [e])[..k + 1] == es[..k + 1];
    ToolCallsOfPrefix(es, e, k, OwnerIndex(es, k));
    RunTouches(es, e, OwnerIndex(es, k));
    TouchExtendsSteps(Run(es).turns[OwnerIndex(es, k)], e);
  }

  lemma NewestStep(es: seq<Event>, e: Event)
    requires IsToolCall(e)
    ensures IsPlaced(es + [e], |es|)
    ensures StepOf(es + [e], |es|) == NewStep(e)
  {
    hide Advance, Run, OpenAfter, TurnCount, Touch, OwnerIndex;
    var all := es + [e];
    var i := OwnerIndex(all, |es|);
    OwnerOfToolCall(es, e);
    assert es[..|es|] == es;
    RunExtends(es, e);
    TurnsAreCounted(es);
    assert all[..|es|] == es;
    ToolCallsOfPrefix(es, e, |es|, i);
    if OpenAfter(es) {
      RunKeepsInv(es);
      CurrentIffOpen(es);
      StepsAreCounted(es, i);
      RunTouches(es, e, i);
      TouchExtendsSteps(Run(es).turns[i], e);
    } else {
      NoToolCallsBeyondLastTurn(es, |es|, i);
      CreatedOrphan(es, e);
      assert Run(all).turns[i] == CreatedBy(all, |es|)[0];
      CreatedSteps(all, |es|, 0);
    }
  }

  lemma CreatedOrphan(es: seq<Event>, e: Event)
    requires IsToolCall(e) && !OpenAfter(es)
    ensures |CreatedBy(es + [e], |es|)| == 1
  {
    hide OpenAfter, TurnCount;
    assert (es + [e])[..|es|] == es;
  }

  /** Every tool call has its step, with the fields that it was created with. */
  lemma {:induction false} ToolCallHasStep(es: seq<Event>, k: nat)
    requires k < |es| && IsToolCall(es[k])
    ensures IsPlaced(es, k)
    ensures SameStep(StepOf(es, k), NewStep(es[k]))
  {
    var n := |es| - 1;
    var init, e := es[..n], es[n];
    assert es == init + [e];
    hide Run, OwnerIndex, ToolCalls, IsPlaced, NewStep, StepOf, SameStep;
    if k < n {
      ToolCallHasStep(init, k);
      OlderStepStays(init, e, k);
    } else {
      NewestStep(init, e);
    }
  }

  lemma OlderStepStays(es: seq<Event>, e: Event, k: nat)
    requires k < |es| && IsToolCall(es[k]) && IsPlaced(es, k) && SameStep(StepOf(es, k), NewStep(es[k]))
    ensures (es + [e])[k] == es[k] && IsPlaced(es + [e], k)
    ensures SameStep(StepOf(es + [e], k), NewStep(es[k]))
  {
    hide Run, OwnerIndex, ToolCalls, IsPlaced, NewStep, StepOf, OpenAfter, TurnCount, Touch;
    StepEvolves(es, e, k);
    StepKeepsFields(es, e, k);
  }

  lemma StepKeepsFields(es: seq<Event>, e: Event, k: nat)
    requires k < |es| && IsToolCall(es[k]) && IsPlaced(es, k) && IsPlaced(es + [e], k)
    ensures SameStep(StepOf(es, k), StepOf(es + [e], k))
  {
    hide Advance, Run, OpenAfter, TurnCount, Touch, OwnerIndex, ToolCalls;
    StepEvolves(es, e, k);
    TouchExtendsSteps(Run(es).turns[OwnerIndex(es, k)], e);
  }

  /** Every step belongs to a tool call. */
  lemma {:induction false} StepHasToolCall(es: seq<Event>, i: nat, s: nat, n: nat) returns (k: nat)
    requires n <= |es| && s < ToolCalls(es, n, i)
    ensures k < n && IsToolCall(es[k]) && OwnerIndex(es, k) == i && ToolCalls(es, k, i) == s
  {
    if s < ToolCalls(es, n - 1, i) {
      k := StepHasToolCall(es, i, s, n - 1);
    } else {
      k := n - 1;
    }
  }

  function TotalSteps(turns: seq<TurnRecord>): nat {
    if turns == [] then 0 else TotalSteps(turns[..|turns| - 1]) + |turns[|turns| - 1].steps|
  }

  lemma {:induction false} TotalStepsAppend(turns: seq<TurnRecord>, more: seq<TurnRecord>)
    ensures TotalSteps(turns + more) == TotalSteps(turns) + TotalSteps(more)
  {
    if more == [] {
      assert turns + more == turns;
    } else {
      assert (turns + more)[..|turns + more| - 1] == turns + more[..|more| - 1];
      TotalStepsAppend(turns, more[..|more| - 1]);
    }
  }

  lemma TouchLastAddsStep(c: Context, e: Event)
    requires Inv(c)
    ensures TotalSteps(TouchLast(c, e)) ==
            TotalSteps(c.turns) + if IsToolCall(e) && c.current.Some? then 1 else 0
  {
    if c.current.Some? {
      hide Touch;
      TouchExtendsSteps(c.Turn(), e);
      assert TouchLast(c, e)[..|c.turns| - 1] == c.turns[..|c.turns| - 1];
    }
  }

  lemma NewTurnsAddStep(isOpen: bool, n: nat, e: Event)
    ensures TotalSteps(NewTurns(isOpen, n, e)) == if IsToolCall(e) && !isOpen then 1 else 0
  {
    var created := NewTurns(isOpen, n, e);
    if |created| == 1 {
      assert created[..0] == [];
    } else if |created| == 2 {
      var first := created[..1];
      assert first == [created[0]] && first[..0] == [];
      assert TotalSteps(first) == 0;
    }
  }

  /** Over all turns there is exactly one step per tool call. */
  lemma {:induction false} StepsMatchToolCalls(es: seq<Event>)
    ensures TotalSteps(Run(es).turns) == Count(es, IsToolCall)
  {
    if es != [] {
      hide Advance, Touch, NewTurns, TouchLast;
      var init, e := es[..|es| - 1], es[|es| - 1];
      var c := Run(init);
      assert es == init + [e];
      StepsMatchToolCalls(init);
      RunKeepsInv(init);
      AdvanceShape(c, e);
      TouchLastAddsStep(c, e);
      NewTurnsAddStep(c.current.Some?, |c.turns|, e);
      TotalStepsAppend(TouchLast(c, e), NewTurns(c.current.Some?, |c.turns|, e));
    }
  }

  // ---------------------------------------------------------------------------------------------
  // How a step ends
  // ---------------------------------------------------------------------------------------------

  /** Prompts and session events replace the current turn. */
  predicate ReplacesTurn(e: Event) {
    e.kind.PromptSubmit? || IsSession(e)
  }

  predicate Finalizes(e: Event) {
    e.kind.Stop? || ReplacesTurn(e)
  }

  /** The turn of event `k` is still the current one when event `n` arrives. */
  predicate StillCurrent(es: seq<Event>, k: nat, n: nat)
    requires n <= |es|
  {
    forall m :: k < m < n ==> !ReplacesTurn(es[m])
  }

  /** No earlier tool call of the same turn uses the tool-use id of tool call `k`. */
  predicate IsFirstUse(es: seq<Event>, k: nat)
    requires k < |es| && IsToolCall(es[k])
  {
    forall j :: 0 <= j < k && IsToolCall(es[j]) && StillCurrent(es, j, k) ==>
      es[j].kind.toolUseId != es[k].kind.toolUseId
  }

  /**
   Event `n` is a result for tool call `k`: it carries the call's id and arrives while the call's
   turn is current. A result goes to the first call of the turn with that id.
   */
  predicate Resolves(es: seq<Event>, k: nat, n: nat)
    requires k < |es| && IsToolCall(es[k])
  {
    && k < n < |es|
    && es[n].kind.PostToolUse?
    && es[n].kind.toolUseId == es[k].kind.toolUseId
    && StillCurrent(es, k, n)
    && IsFirstUse(es, k)
  }

  function Outcome(e: Event): StepStatus
    requires e.kind.PostToolUse?
  {
    if e.kind.success == Some(false) then StepError else StepComplete
  }

  /** The last of the first `n` events that is a result for tool call `k`. */
  function LastResult(es: seq<Event>, k: nat, n: nat): (r: Option<nat>)
    requires k < |es| && IsToolCall(es[k]) && n <= |es|
    ensures r.Some? ==> r.value < n && Resolves(es, k, r.value)
    ensures forall m :: (if r.Some? then r.value else 0 - 1) < m < n ==> !Resolves(es, k, m)
  {
    if n == 0 then None
    else if Resolves(es, k, n - 1) then Some(n - 1)
    else LastResult(es, k, n - 1)
  }

  predicate FinalizedAfter(es: seq<Event>, k: nat) {
    exists n :: k < n < |es| && Finalizes(es[n])
  }

  /** The status that the events after tool call `k` give its step. */
  function Fate(es: seq<Event>, k: nat): StepStatus
    requires k < |es| && IsToolCall(es[k])
  {
    var last := LastResult(es, k, |es|);
    if last.Some? then Outcome(es[last.value])
    else if FinalizedAfter(es, k) then StepTimeout
    else StepPending
  }

  /** The step that the events after tool call `k` make of it. */
  function ExpectedStep(es: seq<Event>, k: nat): StepRecord
    requires k < |es| && IsToolCall(es[k])
  {
    var s, last := NewStep(es[k]), LastResult(es, k, |es|);
    if last.Some? then ResolveStep(s, es[last.value])
    else if FinalizedAfter(es, k) then TimeOut(s)
    else s
  }

  lemma ExpectedStatus(es: seq<Event>, k: nat)
    requires k < |es| && IsToolCall(es[k])
    ensures ExpectedStep(es, k).status == Fate(es, k)
  {
  }

  /** The turn of a tool call is current exactly as long as no event replaces it. */
  lemma {:induction false} CurrentWhileNotReplaced(es: seq<Event>, k: nat)
    requires k < |es| && IsToolCall(es[k])
    ensures OpenAfter(es) && OwnerIndex(es, k) + 1 == TurnCount(es) <==> StillCurrent(es, k, |es|)
    ensures OwnerIndex(es, k) + 1 <= TurnCount(es)
  {
    var n := |es| - 1;
    var init, e := es[..n], es[n];
    assert es == init + [e];
    hide OpenAfter, TurnCount, Orphans;
    OpenAfterAppend(init, e);
    TurnCountAppend(init, e);
    if k < n {
      CurrentWhileNotReplaced(init, k);
      assert es[..k + 1] == init[..k + 1];
      assert StillCurrent(es, k, |es|) <==> StillCurrent(init, k, n) && !ReplacesTurn(e);
    } else {
      assert es[..k + 1] == es;
    }
  }

  /** Two tool calls belong to one turn exactly when nothing replaced the turn in between. */
  lemma SameTurnIffNotReplaced(es: seq<Event>, j: nat, k: nat)
    requires j < k < |es| && IsToolCall(es[j]) && IsToolCall(es[k])
    ensures OwnerIndex(es, j) == OwnerIndex(es, k) <==> StillCurrent(es, j, k)
  {
    hide OpenAfter, TurnCount;
    var init := es[..k];
    CurrentWhileNotReplaced(init, j);
    OwnerOfToolCall(init, es[k]);
    assert es[..k + 1] == init + [es[k]] == (init + [es[k]])[..k + 1] && es[..j + 1] == init[..j + 1];
    assert StillCurrent(init, j, k) == StillCurrent(es, j, k);
  }

  lemma {:induction false} ToolCallsMonotone(es: seq<Event>, j: nat, k: nat, i: int)
    requires j <= k <= |es|
    ensures ToolCalls(es, j, i) <= ToolCalls(es, k, i)
    decreases k - j
  {
    hide OwnerIndex, ToolCalls;
    if j < k {
      ToolCallsMonotone(es, j, k - 1, i);
      ToolCallsAppend(es, k - 1, i);
    }
  }

  lemma {:induction false} ToolCallsGrow(es: seq<Event>, j: nat, k: nat, i: int)
    requires j < k <= |es| && IsToolCall(es[j]) && OwnerIndex(es, j) == i
    ensures ToolCalls(es, j, i) < ToolCalls(es, k, i)
  {
    hide OwnerIndex, ToolCalls;
    ToolCallsAppend(es, j, i);
    ToolCallsMonotone(es, j + 1, k, i);
  }

  lemma TouchedStep(t: TurnRecord, e: Event, s: nat)
    requires s < |t.steps|
    requires IsCurrent(t)
    ensures s < |Touch(t, e).steps|
    ensures Touch(t, e).steps[s] ==
            if e.kind.PostToolUse? && FindStep(t.steps, e.kind.toolUseId) == s then ResolveStep(t.steps[s], e)
            else if Finalizes(e) then TimeOut(t.steps[s])
            else t.steps[s]
  {
    hide FindStep, ResolveStep, NewStep;
  }

  lemma {:induction false} CurrentTurnIsOpen(es: seq<Event>, i: nat)
    requires OpenAfter(es) && i + 1 == TurnCount(es)
    ensures i < |Run(es).turns| && IsCurrent(Run(es).turns[i])
  {
    hide Advance, Run, OpenAfter, TurnCount;
    RunKeepsInv(es);
    CurrentIffOpen(es);
    TurnsAreCounted(es);
  }

  /** A result finds the step of tool call `k` exactly when `k` is the turn's first call with its id. */
  lemma {:induction false} FindsStepById(es: seq<Event>, k: nat, id: string)
    requires k < |es| && IsToolCall(es[k]) && IsPlaced(es, k)
    ensures FindStep(Run(es).turns[OwnerIndex(es, k)].steps, id) == ToolCalls(es, k, OwnerIndex(es, k))
            <==> id == es[k].kind.toolUseId && IsFirstUse(es, k)
  {
    hide Advance, Run, OpenAfter, TurnCount, OwnerIndex;
    var i := OwnerIndex(es, k);
    var found := FindStep(Run(es).turns[i].steps, id);
    ToolCallHasStep(es, k);
    StepsAreCounted(es, i);
    forall j | 0 <= j < k && IsToolCall(es[j]) && StillCurrent(es, j, k)
      ensures es[j].kind.toolUseId == id ==> found < ToolCalls(es, k, i)
    {
      SameTurnIffNotReplaced(es, j, k);
      ToolCallHasStep(es, j);
      ToolCallsGrow(es, j, k, i);
    }
    if found < ToolCalls(es, k, i) {
      var j := StepHasToolCall(es, i, found, k);
      ToolCallHasStep(es, j);
      SameTurnIffNotReplaced(es, j, k);
    }
  }

  /** How one more event changes a step, when it arrives while the step's turn is current. */
  function Evolve(s: StepRecord, e: Event, isResult: bool): StepRecord
    requires isResult ==> e.kind.PostToolUse?
  {
    if isResult then ResolveStep(s, e) else if Finalizes(e) then TimeOut(s) else s
  }

  predicate IsResultFor(es: seq<Event>, e: Event, k: nat)
    requires k < |es| && IsToolCall(es[k])
  {
    e.kind.PostToolUse? && e.kind.toolUseId == es[k].kind.toolUseId && IsFirstUse(es, k)
  }

  /** How one more event changes an earlier tool call's step. */
  lemma StepRecordEvolves(es: seq<Event>, e: Event, k: nat)
    requires k < |es| && IsToolCall(es[k]) && IsPlaced(es, k) && IsPlaced(es + [e], k)
    ensures StepOf(es + [e], k) ==
            if StillCurrent(es, k, |es|) then Evolve(StepOf(es, k), e, IsResultFor(es, e, k)) else StepOf(es, k)
  {
    hide Advance, Run, OpenAfter, TurnCount, Touch, OwnerIndex, ToolCalls, FindStep, IsCurrent, IsFirstUse;
    hide ResolveStep, TimeOut;
    var i, s := OwnerIndex(es, k), ToolCalls(es, k, OwnerIndex(es, k));
    StepEvolves(es, e, k);
    CurrentWhileNotReplaced(es, k);
    if StillCurrent(es, k, |es|) {
      CurrentTurnIsOpen(es, i);
      TouchedStep(Run(es).turns[i], e, s);
      if e.kind.PostToolUse? {
        FindsStepById(es, k, e.kind.toolUseId);
      }
    }
  }

  lemma StillCurrentOfPrefix(es: seq<Event>, e: Event, k: nat, n: nat)
    requires n <= |es|
    ensures StillCurrent(es + [e], k, n) == StillCurrent(es, k, n)
  {
    assert forall m :: 0 <= m < |es| ==> (es + [e])[m] == es[m];
    if StillCurrent(es + [e], k, n) {
      assert forall m :: k < m < n ==> es[m] == (es + [e])[m] && !ReplacesTurn(es[m]);
    }
  }

  lemma FirstUseOfPrefix(es: seq<Event>, e: Event, k: nat)
    requires k < |es| && IsToolCall(es[k])
    ensures IsFirstUse(es + [e], k) == IsFirstUse(es, k)
  {
    assert forall m :: 0 <= m < |es| ==> (es + [e])[m] == es[m];
    forall j | 0 <= j < k
      ensures StillCurrent(es + [e], j, k) == StillCurrent(es, j, k)
    {
      StillCurrentOfPrefix(es, e, j, k);
    }
  }

  lemma {:induction false} LastResultOfPrefix(es: seq<Event>, e: Event, k: nat, n: nat)
    requires k < |es| && IsToolCall(es[k]) && n <= |es|
    ensures LastResult(es + [e], k, n) == LastResult(es, k, n)
  {
    if n > 0 {
      LastResultOfPrefix(es, e, k, n - 1);
      FirstUseOfPrefix(es, e, k);
      StillCurrentOfPrefix(es, e, k, n - 1);
    }
  }

  lemma FinalizedAfterAppend(es: seq<Event>, e: Event, k: nat)
    requires k < |es|
    ensures FinalizedAfter(es + [e], k) <==> FinalizedAfter(es, k) || Finalizes(e)
    ensures !StillCurrent(es, k, |es|) ==> FinalizedAfter(es, k)
  {
    var all := es + [e];
    assert all[|es|] == e;
    if FinalizedAfter(es, k) {
      var n :| k < n < |es| && Finalizes(es[n]);
      assert Finalizes(all[n]);
    }
  }

  /** What the events tell of an earlier tool call's step, after one more event. */
  lemma ExpectedStepEvolves(es: seq<Event>, e: Event, k: nat)
    requires k < |es| && IsToolCall(es[k])
    ensures ExpectedStep(es + [e], k) ==
            if StillCurrent(es, k, |es|) then Evolve(ExpectedStep(es, k), e, IsResultFor(es, e, k))
            else ExpectedStep(es, k)
  {
    hide IsFirstUse, TruncateText;
    LastResultOfPrefix(es, e, k, |es|);
    FinalizedAfterAppend(es, e, k);
    StillCurrentOfPrefix(es, e, k, |es|);
    FirstUseOfPrefix(es, e, k);
  }

  /**
   The step of every tool call, told from the events: as it was created, with the output, success,
   duration and status of its last result, if it has one. The status is the outcome of the last result
   that arrived while its turn was current; without one, timeout if a stop, prompt or session event came
   later, else pending. When a turn uses a tool-use id twice, results go to its first call, and the
   second one times out.
   */
  lemma {:induction false} StepHasFate(es: seq<Event>, k: nat)
    requires k < |es| && IsToolCall(es[k])
    ensures IsPlaced(es, k)
    ensures StepOf(es, k) == ExpectedStep(es, k)
    ensures StepOf(es, k).status == Fate(es, k)
  {
    var n := |es| - 1;
    var init, e := es[..n], es[n];
    assert es == init + [e];
    hide Advance, Run, OpenAfter, TurnCount, Touch, OwnerIndex, ToolCalls;
    ToolCallHasStep(es, k);
    if k < n {
      hide IsPlaced, ExpectedStep, IsResultFor;
      StepHasFate(init, k);
      StepRecordEvolves(init, e, k);
      ExpectedStepEvolves(init, e, k);
    } else {
      NewestStep(init, e);
    }
    ExpectedStatus(es, k);
  }
}
