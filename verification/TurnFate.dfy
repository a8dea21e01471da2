/**
 Turns told from the event list alone: whether the open turn is unfinished and since when it has been
 idle, and what every assistant turn says, how it ends and when.
 */
module TurnFate {
  import opened Options
  import opened TurnModel
  import opened TurnShape
  import opened TurnStructure
  import opened TurnMapping
  import opened TurnSteps

  // ---------------------------------------------------------------------------------------------
  // The open turn
  // ---------------------------------------------------------------------------------------------

  /** Events that decide whether the open turn is finished. */
  predicate Decides(e: Event) {
    OpensTurn(e) || e.kind.Stop? || IsSession(e)
  }

  /** Event `k` is a prompt or tool call, and no other one, no stop and no session event came after it. */
  predicate Unfinished(es: seq<Event>, k: nat)
    requires k < |es|
  {
    OpensTurn(es[k]) && forall m :: k < m < |es| ==> !Decides(es[m])
  }

  /** The event that leaves the open turn unfinished, if there is one. */
  function LastOpening(es: seq<Event>): (r: Option<nat>)
    ensures r.Some? ==> r.value < |es| && Unfinished(es, r.value)
    ensures r.None? ==> forall k :: 0 <= k < |es| ==> !Unfinished(es, k)
  {
    if es == [] then None
    else
      var init, e := es[..|es| - 1], es[|es| - 1];
      assert forall k :: 0 <= k < |init| ==> es[k] == init[k];
      assert forall k :: 0 <= k < |init| ==> (Unfinished(es, k) <==> Unfinished(init, k) && !Decides(e));
      if OpensTurn(e) then Some(|es| - 1)
      else if Decides(e) then None
      else LastOpening(init)
  }

  lemma {:induction false} LastOpeningAppend(es: seq<Event>, e: Event)
    ensures LastOpening(es + [e]) == if OpensTurn(e) then Some(|es|) else if Decides(e) then None else LastOpening(es)
  {
    assert (es + [e])[..|es + [e]| - 1] == es;
  }

  lemma {:induction false} LastOpeningIsUnique(es: seq<Event>, k: nat)
    requires k < |es| && Unfinished(es, k)
    ensures LastOpening(es) == Some(k)
  {
    var j := LastOpening(es).value;
    assert OpensTurn(es[j]) && OpensTurn(es[k]);
  }

  /** The status of the open turn, when event `opening` left it unfinished. */
  function OpenStatus(es: seq<Event>, opening: Option<nat>): TurnStatus
    requires opening.Some? ==> opening.value < |es|
  {
    if opening.None? then Complete else if es[opening.value].kind.PromptSubmit? then Thinking else ToolUse
  }

  /** How an event changes the status of the open turn, and of no turn opened by it. */
  lemma TouchedStatus(t: TurnRecord, e: Event)
    requires IsCurrent(t)
    ensures e.kind.PreToolUse? ==> Touch(t, e).status == ToolUse
    ensures e.kind.Stop? ==> Touch(t, e).status == Complete
    ensures !Decides(e) ==> Touch(t, e).status == t.status
  {
  }

  /** The open turn is thinking or using a tool if and only if its last prompt or tool call is not settled. */
  lemma {:induction false} OpenTurnStatus(es: seq<Event>)
    ensures LastOpening(es).Some? ==> Run(es).current.Some?
    ensures Run(es).current.Some? ==>
              Run(es).HasTurn() && Run(es).Turn().status == OpenStatus(es, LastOpening(es))
  {
    hide Advance, Touch;
    if es != [] {
      var init, e := es[..|es| - 1], es[|es| - 1];
      var c := Run(init);
      assert es == init + [e];
      OpenTurnStatus(init);
      LastOpeningAppend(init, e);
      RunKeepsInv(init);
      AdvanceShape(c, e);
      if c.current.Some? {
        TouchedStatus(c.Turn(), e);
      }
    }
  }

  // ---------------------------------------------------------------------------------------------
  // Since when the open turn has been idle
  // ---------------------------------------------------------------------------------------------

  lemma TouchKeepsNoSteps(t: TurnRecord, e: Event)
    requires t.steps == [] && !Decides(e)
    ensures Touch(t, e).steps == [] && Touch(t, e).startedAt == t.startedAt
  {
  }

  /** A turn whose last opening is a prompt has no steps, and starts at that prompt. */
  lemma {:induction false} PromptedTurn(es: seq<Event>, k: nat)
    requires LastOpening(es) == Some(k) && es[k].kind.PromptSubmit?
    ensures Run(es).HasTurn() && Run(es).Turn().steps == [] && Run(es).Turn().startedAt == es[k].timestamp
  {
    hide Advance, Touch, Run, LastOpening, OpenStatus;
    var init, e := es[..|es| - 1], es[|es| - 1];
    var c := Run(init);
    assert es == init + [e];
    RunAppend(init, e);
    OpenTurnStatus(es);
    LastOpeningAppend(init, e);
    RunKeepsInv(init);
    AdvanceShape(c, e);
    if k < |es| - 1 {
      PromptedTurn(init, k);
      TouchKeepsNoSteps(c.Turn(), e);
    }
  }

  lemma {:induction false} NoToolCallsAfter(es: seq<Event>, k: nat, n: nat, i: int)
    requires k <= n <= |es| && forall m :: k <= m < n ==> !IsToolCall(es[m])
    ensures ToolCalls(es, n, i) == ToolCalls(es, k, i)
    decreases n - k
  {
    if k < n {
      NoToolCallsAfter(es, k, n - 1, i);
    }
  }

  /** The last step of a turn whose last opening is a tool call is the step of that call. */
  lemma {:induction false} CalledTurn(es: seq<Event>, k: nat)
    requires LastOpening(es) == Some(k) && IsToolCall(es[k])
    ensures IsPlaced(es, k)
    ensures Run(es).HasTurn() && Run(es).Turn().steps != []
    ensures Run(es).Turn().steps[|Run(es).Turn().steps| - 1] == StepOf(es, k)
  {
    hide Run, OpenAfter, TurnCount;
    OpenTurnStatus(es);
    RunKeepsInv(es);
    ToolCallHasStep(es, k);
    assert StillCurrent(es, k, |es|) by {
      assert forall m :: k < m < |es| ==> !Decides(es[m]);
    }
    CurrentWhileNotReplaced(es, k);
    TurnsAreCounted(es);
    var i := OwnerIndex(es, k);
    StepsAreCounted(es, i);
    NoToolCallsAfter(es, k + 1, |es|, i);
  }

  /** The duration that the last result of tool call `k` reports; a missing one counts as none. */
  function ReportedDuration(es: seq<Event>, k: nat): int
    requires k < |es| && IsToolCall(es[k])
  {
    var last := LastResult(es, k, |es|);
    if last.Some? && es[last.value].kind.duration.Some? then es[last.value].kind.duration.value else 0
  }

  /** The last sign of life after opening `k`; a prompt at time 0 counts as one at `now`. */
  function Activity(es: seq<Event>, k: nat, now: int): int
    requires k < |es| && OpensTurn(es[k])
  {
    if IsToolCall(es[k]) then es[k].timestamp + ReportedDuration(es, k)
    else if es[k].timestamp != 0 then es[k].timestamp
    else now
  }

  lemma {:induction false} ActivityOfOpenTurn(es: seq<Event>, k: nat, now: int)
    requires LastOpening(es) == Some(k)
    ensures Run(es).HasTurn() && LastActivityTime(Run(es).Turn(), now) == Activity(es, k, now)
  {
    hide Run, LastResult, IsPlaced, TruncateText;
    if IsToolCall(es[k]) {
      CalledTurn(es, k);
      StepHasFate(es, k);
    } else {
      PromptedTurn(es, k);
    }
  }

  /** The open turn is unfinished and has been idle for more than two minutes. */
  predicate GoesStale(es: seq<Event>, now: int) {
    exists k :: 0 <= k < |es| && Unfinished(es, k) && now - Activity(es, k, now) > 120000
  }

  /** The guard of the last pass, told from the events. */
  lemma {:induction false} StaleIffIdle(es: seq<Event>, now: int)
    ensures Run(es).HasAssistant() && IsStale(Run(es).Turn(), now) <==> GoesStale(es, now)
    ensures GoesStale(es, now) ==>
              LastOpening(es).Some? &&
              LastActivityTime(Run(es).Turn(), now) == Activity(es, LastOpening(es).value, now)
  {
    hide Run, Activity, LastActivityTime;
    OpenTurnStatus(es);
    RunKeepsInv(es);
    var last := LastOpening(es);
    if last.Some? {
      ActivityOfOpenTurn(es, last.value, now);
      assert Unfinished(es, last.value);
    }
    if GoesStale(es, now) {
      var k :| 0 <= k < |es| && Unfinished(es, k) && now - Activity(es, k, now) > 120000;
      LastOpeningIsUnique(es, k);
    }
  }

  // ---------------------------------------------------------------------------------------------
  // First and last positions
  // ---------------------------------------------------------------------------------------------

  /** The last position below `n` with property `p`. */
  function Last(n: nat, p: nat -> bool): (r: Option<nat>)
    ensures r.Some? ==> r.value < n && p(r.value) && forall m :: r.value < m < n ==> !p(m)
    ensures r.None? ==> forall m :: 0 <= m < n ==> !p(m)
  {
    if n == 0 then None else if p(n - 1) then Some(n - 1) else Last(n - 1, p)
  }

  /** The first position below `n` with property `p`. */
  function First(n: nat, p: nat -> bool): (r: Option<nat>)
    ensures r.Some? ==> r.value < n && p(r.value) && forall m :: 0 <= m < r.value ==> !p(m)
    ensures r.None? ==> forall m :: 0 <= m < n ==> !p(m)
  {
    if n == 0 then None
    else
      var r := First(n - 1, p);
      if r.Some? then r else if p(n - 1) then Some(n - 1) else None
  }

  lemma {:induction false} LastAgrees(n: nat, p: nat -> bool, q: nat -> bool)
    requires forall m: nat :: m < n ==> p(m) == q(m)
    ensures Last(n, p) == Last(n, q) && First(n, p) == First(n, q)
  {
    if n > 0 {
      LastAgrees(n - 1, p, q);
    }
  }

  // ---------------------------------------------------------------------------------------------
  // What the events tell of an assistant turn
  // ---------------------------------------------------------------------------------------------

  /** Event `k` creates an assistant turn. */
  predicate CreatesReply(es: seq<Event>, k: nat)
    requires k < |es|
  {
    es[k].kind.PromptSubmit? || (IsToolCall(es[k]) && !OpenAfter(es[..k]))
  }

  /** The position of the assistant turn that event `k` creates. */
  function ReplyIndex(es: seq<Event>, k: nat): int
    requires k < |es|
  {
    TurnCount(es[..k + 1]) - 1
  }

  /** Event `m` gives the turn of `k` a response. */
  predicate Answers(es: seq<Event>, k: nat, m: nat) {
    && k < m < |es| && StillCurrent(es, k, m)
    && es[m].kind.Stop? && es[m].kind.response.Some? && es[m].kind.response.value != ""
  }

  /** Event `m` brings the turn of `k` a text of the assistant. */
  predicate Thinks(es: seq<Event>, k: nat, m: nat) {
    && k <= m < |es| && StillCurrent(es, k, m)
    && IsToolCall(es[m]) && es[m].kind.assistantText.Some? && es[m].kind.assistantText.value != ""
  }

  /** Event `m` finalises the turn of `k`: a stop does, and what replaces the turn while it is unfinished. */
  predicate Ends(es: seq<Event>, k: nat, m: nat) {
    && k < m < |es|
    && StillCurrent(es, k, m)
    && (es[m].kind.Stop? || (ReplacesTurn(es[m]) && LastOpening(es[..m]).Some?))
  }

  /** The response of the last stop that has one. */
  function ExpectedResponse(es: seq<Event>, k: nat): Option<string> {
    var m := Last(|es|, (m: nat) => Answers(es, k, m));
    if m.Some? then es[m.value].kind.response else None
  }

  /** The first text of the assistant. */
  function ExpectedThinking(es: seq<Event>, k: nat): Option<string> {
    var m := First(|es|, (m: nat) => Thinks(es, k, m));
    if m.Some? then es[m.value].kind.assistantText else None
  }

  function LastEnd(es: seq<Event>, k: nat): Option<nat> {
    Last(|es|, (m: nat) => Ends(es, k, m))
  }

  /** The time of the last finalising event. */
  function ExpectedEnd(es: seq<Event>, k: nat): Option<int> {
    var m := LastEnd(es, k);
    if m.Some? then Some(es[m.value].timestamp) else None
  }

  /** A current turn is as open as its last opening; a replaced one is interrupted if a session end ended it. */
  function ExpectedTurnStatus(es: seq<Event>, k: nat): TurnStatus {
    if StillCurrent(es, k, |es|) then OpenStatus(es, LastOpening(es))
    else if LastEnd(es, k).Some? && es[LastEnd(es, k).value].kind.SessionEnd? then Interrupted
    else Complete
  }

  // ---------------------------------------------------------------------------------------------
  // One more event
  // ---------------------------------------------------------------------------------------------

  lemma PositionsOfPrefix(es: seq<Event>, e: Event, k: nat, m: nat)
    requires m < |es|
    ensures Answers(es + [e], k, m) == Answers(es, k, m)
    ensures Thinks(es + [e], k, m) == Thinks(es, k, m)
    ensures Ends(es + [e], k, m) == Ends(es, k, m)
  {
    StillCurrentOfPrefix(es, e, k, m);
    assert (es + [e])[m] == es[m] && (es + [e])[..m] == es[..m];
  }

  lemma ResponseEvolves(es: seq<Event>, e: Event, k: nat)
    requires k < |es|
    ensures ExpectedResponse(es + [e], k) ==
            if StillCurrent(es, k, |es|) && e.kind.Stop? && IsNonEmpty(e.kind.response) then e.kind.response
            else ExpectedResponse(es, k)
  {
    hide StillCurrent;
    var all := es + [e];
    forall m: nat | m < |es| { PositionsOfPrefix(es, e, k, m); }
    StillCurrentOfPrefix(es, e, k, |es|);
    LastAgrees(|es|, (m: nat) => Answers(all, k, m), (m: nat) => Answers(es, k, m));
  }

  lemma ThinkingEvolves(es: seq<Event>, e: Event, k: nat)
    requires k < |es|
    ensures ExpectedThinking(es + [e], k) ==
            if StillCurrent(es, k, |es|) && IsToolCall(e) && IsNonEmpty(e.kind.assistantText) &&
               !IsNonEmpty(ExpectedThinking(es, k))
            then e.kind.assistantText
            else ExpectedThinking(es, k)
    ensures ExpectedThinking(es, k).Some? ==> IsNonEmpty(ExpectedThinking(es, k))
  {
    hide StillCurrent;
    var all := es + [e];
    forall m: nat | m < |es| { PositionsOfPrefix(es, e, k, m); }
    StillCurrentOfPrefix(es, e, k, |es|);
    LastAgrees(|es|, (m: nat) => Thinks(all, k, m), (m: nat) => Thinks(es, k, m));
  }

  lemma {:induction false} EndsNow(es: seq<Event>, e: Event, k: nat)
    requires k < |es|
    ensures Ends(es + [e], k, |es|) <==>
            StillCurrent(es, k, |es|) && (e.kind.Stop? || (ReplacesTurn(e) && LastOpening(es).Some?))
  {
    hide StillCurrent, LastOpening;
    StillCurrentOfPrefix(es, e, k, |es|);
    assert (es + [e])[..|es|] == es;
  }

  lemma {:induction false} EndEvolves(es: seq<Event>, e: Event, k: nat)
    requires k < |es|
    ensures LastEnd(es + [e], k) ==
            if StillCurrent(es, k, |es|) && (e.kind.Stop? || (ReplacesTurn(e) && LastOpening(es).Some?))
            then Some(|es|) else LastEnd(es, k)
  {
    hide StillCurrent, LastOpening, Ends;
    var all := es + [e];
    forall m: nat | m < |es| { PositionsOfPrefix(es, e, k, m); }
    EndsNow(es, e, k);
    LastAgrees(|es|, (m: nat) => Ends(all, k, m), (m: nat) => Ends(es, k, m));
  }

  /** How an event changes what a current turn says and when it ends. */
  lemma TouchedFields(t: TurnRecord, e: Event)
    requires IsCurrent(t)
    ensures var r := Touch(t, e);
            && r.response == (if e.kind.Stop? && IsNonEmpty(e.kind.response) then e.kind.response else t.response)
            && r.thinking == (if IsToolCall(e) && IsNonEmpty(e.kind.assistantText) && !IsNonEmpty(t.thinking)
                              then e.kind.assistantText else t.thinking)
            && (if e.kind.Stop? || (ReplacesTurn(e) && t.status != Complete)
                then r.completedAt == Some(e.timestamp) && r.durationMs == Some(e.timestamp - t.startedAt)
                else r.completedAt == t.completedAt && r.durationMs == t.durationMs)
            && (ReplacesTurn(e) ==>
                  r.status == if e.kind.SessionEnd? && t.status != Complete then Interrupted else Complete)
  {
  }

  /** A prompt or tool call opens a turn that is current until it is replaced. */
  lemma {:induction false} ReplyStaysCurrent(es: seq<Event>, k: nat)
    requires k < |es| && OpensTurn(es[k])
    ensures OpenAfter(es) && ReplyIndex(es, k) + 1 == TurnCount(es) <==> StillCurrent(es, k, |es|)
    ensures ReplyIndex(es, k) + 1 <= TurnCount(es)
  {
    var n := |es| - 1;
    var init, e := es[..n], es[n];
    assert es == init + [e];
    hide OpenAfter, TurnCount;
    OpenAfterAppend(init, e);
    TurnCountAppend(init, e);
    if k < n {
      ReplyStaysCurrent(init, k);
      assert es[..k + 1] == init[..k + 1];
      assert StillCurrent(es, k, |es|) <==> StillCurrent(init, k, n) && !ReplacesTurn(e);
    } else {
      assert es[..k + 1] == es;
    }
  }

  /** The assistant turn of `k` is as the events tell. */
  predicate IsAsTold(es: seq<Event>, k: nat)
    requires k < |es|
  {
    0 <= ReplyIndex(es, k) < |Run(es).turns| && HasToldFields(Run(es).turns[ReplyIndex(es, k)], es, k)
  }

  predicate HasToldFields(t: TurnRecord, es: seq<Event>, k: nat)
    requires k < |es|
  {
    && t.kind == Assistant
    && t.id == es[k].id + "-assistant"
    && t.sessionId == (if es[k].sessionId.Some? then es[k].sessionId.value else "")
    && t.cliTool == es[k].cliTool
    && t.prompt == None
    && t.startedAt == es[k].timestamp
    && t.response == ExpectedResponse(es, k)
    && t.thinking == ExpectedThinking(es, k)
    && t.completedAt == ExpectedEnd(es, k)
    && t.durationMs == (if t.completedAt.Some? then Some(t.completedAt.value - t.startedAt) else None)
    && t.status == ExpectedTurnStatus(es, k)
  }

  lemma NewTurnIsAsTold(es: seq<Event>, e: Event)
    requires CreatesReply(es + [e], |es|)
    ensures IsAsTold(es + [e], |es|)
  {
    hide Advance, Run, OpenAfter, TurnCount, HasToldFields, CreatedBy, CreatesReply;
    var all, created := es + [e], CreatedBy(es + [e], |es|);
    assert all[..|es| + 1] == all;
    CreatedHasToldFields(es, e);
    RunExtends(es, e);
    TurnsAreCounted(all);
    assert Run(all).turns[|Run(all).turns| - 1] == Run(all).turns[|Run(es).turns|..][|created| - 1];
  }

  lemma CreatedHasToldFields(es: seq<Event>, e: Event)
    requires CreatesReply(es + [e], |es|)
    ensures var created := CreatedBy(es + [e], |es|);
            created != [] && HasToldFields(created[|created| - 1], es + [e], |es|)
  {
    hide OpenAfter, TurnCount, LastOpening;
    assert (es + [e])[..|es|] == es;
    LastOpeningAppend(es, e);
  }

  lemma OldTurnIsAsTold(es: seq<Event>, e: Event, k: nat)
    requires k < |es| && OpensTurn(es[k]) && IsAsTold(es, k)
    ensures IsAsTold(es + [e], k)
  {
    hide Advance, Run, OpenAfter, TurnCount, Touch, LastOpening, ExpectedResponse, ExpectedThinking, LastEnd;
    var all, i := es + [e], ReplyIndex(es, k);
    assert all[..k + 1] == es[..k + 1];
    ReplyStaysCurrent(es, k);
    RunTouches(es, e, i);
    ResponseEvolves(es, e, k);
    ThinkingEvolves(es, e, k);
    EndEvolves(es, e, k);
    assert StillCurrent(all, k, |all|) <==> StillCurrent(es, k, |es|) && !ReplacesTurn(e) by {
      StillCurrentOfPrefix(es, e, k, |es|);
      assert all[|es|] == e;
    }
    if StillCurrent(es, k, |es|) {
      CurrentTurnIsOpen(es, i);
      TouchedFields(Run(es).turns[i], e);
      TouchKeepsIdentity(Run(es).turns[i], e);
    }
    if StillCurrent(all, k, |all|) {
      ReplyStaysCurrent(all, k);
      CurrentStatusIsOpenStatus(all, i);
    }
    LastEndIsBefore(es, k);
    LastEndIsBefore(all, k);
  }

  lemma {:induction false} CurrentStatusIsOpenStatus(es: seq<Event>, i: nat)
    requires i < |Run(es).turns| && OpenAfter(es) && i + 1 == TurnCount(es)
    ensures Run(es).turns[i].status == OpenStatus(es, LastOpening(es))
  {
    hide Run, OpenAfter, TurnCount, LastOpening;
    OpenTurnStatus(es);
    RunKeepsInv(es);
    CurrentIffOpen(es);
    TurnsAreCounted(es);
  }

  lemma LastEndIsBefore(es: seq<Event>, k: nat)
    ensures LastEnd(es, k).Some? ==> Ends(es, k, LastEnd(es, k).value)
  {
  }

  /**
   Every assistant turn, told from the events: its response is that of the last stop with one, its
   text the first that the assistant gave with a tool call, its completion the last finalising event,
   and its status the one that its last opening or its end gives it.
   */
  lemma {:induction false} TurnHasFate(es: seq<Event>, k: nat)
    requires k < |es| && CreatesReply(es, k)
    ensures IsAsTold(es, k)
  {
    hide IsAsTold, OpenAfter;
    var n := |es| - 1;
    var init, e := es[..n], es[n];
    assert es == init + [e];
    if k < n {
      assert es[..k] == init[..k];
      TurnHasFate(init, k);
      OldTurnIsAsTold(init, e, k);
    } else {
      NewTurnIsAsTold(init, e);
    }
  }

  // ---------------------------------------------------------------------------------------------
  // User and system turns
  // ---------------------------------------------------------------------------------------------

  /** The user or system turn that event `k` creates as turn number `n + 1`. */
  function FixedTurn(e: Event, n: nat): TurnRecord
    requires ReplacesTurn(e)
  {
    var session := if e.sessionId.Some? then e.sessionId.value else "";
    match e.kind
    case PromptSubmit(prompt) =>
      TurnRecord(e.id, session, n + 1, User, Complete, Some(prompt), None, None, [], e.cliTool,
                 e.timestamp, Some(e.timestamp), None, 1)
    case SessionStart(source) =>
      TurnRecord(e.id, session, n + 1, System, Complete, None, None, Some("Session " + source), [], None,
                 e.timestamp, Some(e.timestamp), None, 1)
    case SessionEnd(reason) =>
      TurnRecord(e.id, session, n + 1, System, Complete, None, None, Some("Session ended: " + reason), [], None,
                 e.timestamp, Some(e.timestamp), None, 1)
  }

  /** User and system turns stay as they were created. */
  lemma {:induction false} FixedTurnStays(es: seq<Event>, k: nat)
    requires k < |es| && ReplacesTurn(es[k])
    ensures TurnCount(es[..k]) < |Run(es).turns|
    ensures Run(es).turns[TurnCount(es[..k])] == FixedTurn(es[k], TurnCount(es[..k]))
  {
    hide Advance, OpenAfter, TurnCount, Touch;
    var init, e := es[..|es| - 1], es[|es| - 1];
    assert es == init + [e];
    RunExtends(init, e);
    if k < |init| {
      assert es[..k] == init[..k];
      var i := TurnCount(es[..k]);
      FixedTurnStays(init, k);
      RunTouches(init, e, i);
      if OpenAfter(init) && i + 1 == TurnCount(init) {
        CurrentTurnIsOpen(init, i);
      }
    } else {
      assert es[..|init|] == init;
      assert Run(es).turns[|Run(init).turns|] == CreatedBy(es, |init|)[0];
    }
  }
}
