/**
 Events, turns and the turn projection as a pure fold.

 The records below are the values of the objects that the builder mutates; `TurnObjects` holds
 those objects and proves that every handler changes them exactly as the functions here say.
 */
module TurnModel {
  import opened Options

  // ---------------------------------------------------------------------------------------------
  // Events
  // ---------------------------------------------------------------------------------------------

  datatype StepMetadata = StepMetadata(filePath: Option<string>, command: Option<string>)

  /** One constructor per event type; texts of tool inputs and outputs arrive already stringified. */
  datatype EventKind =
    | PromptSubmit(prompt: string)
    | PreToolUse(tool: string, toolInput: string, metadata: Option<StepMetadata>,
                 toolUseId: string, assistantText: Option<string>)
    | PostToolUse(toolUseId: string, toolResponse: string, success: Option<bool>, duration: Option<int>)
    | Stop(response: Option<string>)
    | SubagentStop
    | SessionStart(source: string)
    | SessionEnd(reason: string)
    | Notification
    | PreCompact
    | TerminalOutput
    | TextStream
    | PermissionRequest
    | OtherType(name: string)

  datatype Event = Event(id: string, timestamp: int, sessionId: Option<string>,
                         cliTool: Option<string>, kind: EventKind)

  /** Membership in KNOWN_EVENT_TYPES: permission requests are declared events but not known ones. */
  predicate IsKnown(e: Event) {
    !e.kind.PermissionRequest? && !e.kind.OtherType?
  }

  predicate IsSession(e: Event) {
    e.kind.SessionStart? || e.kind.SessionEnd?
  }

  // ---------------------------------------------------------------------------------------------
  // Turns
  // ---------------------------------------------------------------------------------------------

  datatype TurnType = User | Assistant | System | Worker
  datatype TurnStatus = TurnPending | Thinking | ToolUse | Complete | Error | Interrupted
  datatype StepStatus = StepPending | StepComplete | StepError | StepTimeout

  datatype StepRecord = StepRecord(
    id: string,
    toolName: string,
    input: string,
    output: Option<string>,
    success: Option<bool>,
    durationMs: Option<int>,
    startedAt: int,
    status: StepStatus,
    isSubagent: bool,
    metadata: Option<StepMetadata>)

  datatype TurnRecord = TurnRecord(
    id: string,
    sessionId: string,
    sequence: nat,
    kind: TurnType,
    status: TurnStatus,
    prompt: Option<string>,
    thinking: Option<string>,
    response: Option<string>,
    steps: seq<StepRecord>,
    cliTool: Option<string>,
    startedAt: int,
    completedAt: Option<int>,
    durationMs: Option<int>,
    rawEventCount: nat)

  /** `BuildContext` together with `eventTurnMap`; `current` is the position of `currentTurn`. */
  datatype Context = Context(
    turns: seq<TurnRecord>,
    current: Option<nat>,
    sequence: nat,
    unknownEventTypeCount: nat,
    eventTurnMap: map<string, string>)
  {
    predicate WellFormed() {
      current.Some? ==> current.value < |turns|
    }

    predicate HasTurn() {
      WellFormed() && current.Some?
    }

    function Turn(): TurnRecord
      requires HasTurn()
    {
      turns[current.value]
    }

    predicate HasAssistant() {
      HasTurn() && Turn().kind == Assistant
    }

    function WithTurn(t: TurnRecord): (c: Context)
      requires HasTurn()
    {
      this.(turns := turns[current.value := t])
    }

    /** `turns.push(t)` with `t` numbered by `++sequence`. */
    function Push(t: TurnRecord): Context {
      this.(turns := turns + [t], sequence := sequence + 1)
    }
  }

  const EMPTY_CONTEXT := Context([], None, 0, 0, map[])

  const MAX_INPUT_PREVIEW: nat := 200
  const MAX_OUTPUT_PREVIEW: nat := 500
  const STALE_AFTER: int := 120000

  function TruncateText(text: string, maxLen: nat): string {
    if |text| <= maxLen then text else text[..maxLen] + "..."
  }

  predicate IsNonEmpty(text: Option<string>) {
    text.Some? && text.value != ""
  }

  function SessionOf(e: Event): string {
    if e.sessionId.Some? then e.sessionId.value else ""
  }

  function AssistantId(eventId: string): string {
    eventId + "-assistant"
  }

  // ---------------------------------------------------------------------------------------------
  // Closing a turn
  // ---------------------------------------------------------------------------------------------

  function TimeOut(s: StepRecord): StepRecord {
    if s.status == StepPending then s.(status := StepTimeout) else s
  }

  function TimeOutAll(steps: seq<StepRecord>): seq<StepRecord> {
    seq(|steps|, i requires 0 <= i < |steps| => TimeOut(steps[i]))
  }

  function FinalizeTurn(t: TurnRecord, timestamp: int): TurnRecord {
    t.(status := if t.status == Thinking || t.status == ToolUse then Complete else t.status,
       steps := TimeOutAll(t.steps),
       completedAt := Some(timestamp),
       durationMs := Some(timestamp - t.startedAt))
  }

  predicate NeedsFinalizing(c: Context) {
    c.HasTurn() && c.Turn().status != Complete && c.Turn().status != Error
  }

  function FinalizeCurrent(c: Context, timestamp: int): Context {
    if NeedsFinalizing(c) then c.WithTurn(FinalizeTurn(c.Turn(), timestamp)) else c
  }

  function InterruptCurrent(c: Context, timestamp: int): Context {
    if NeedsFinalizing(c)
    then c.WithTurn(FinalizeTurn(c.Turn().(status := Interrupted), timestamp))
    else c
  }

  // ---------------------------------------------------------------------------------------------
  // New turns and steps
  // ---------------------------------------------------------------------------------------------

  function UserTurn(e: Event, sequence: nat): TurnRecord
    requires e.kind.PromptSubmit?
  {
    TurnRecord(e.id, SessionOf(e), sequence, User, Complete, Some(e.kind.prompt), None, None, [],
               e.cliTool, e.timestamp, Some(e.timestamp), None, 1)
  }

  function AssistantTurn(e: Event, sequence: nat, status: TurnStatus): TurnRecord {
    TurnRecord(AssistantId(e.id), SessionOf(e), sequence, Assistant, status, None, None, None, [],
               e.cliTool, e.timestamp, None, None, 1)
  }

  function SystemTurn(e: Event, sequence: nat, response: string): TurnRecord {
    TurnRecord(e.id, SessionOf(e), sequence, System, Complete, None, None, Some(response), [],
               None, e.timestamp, Some(e.timestamp), None, 1)
  }

  function NewStep(e: Event): StepRecord
    requires e.kind.PreToolUse?
  {
    StepRecord(e.kind.toolUseId, e.kind.tool, TruncateText(e.kind.toolInput, MAX_INPUT_PREVIEW),
               None, None, None, e.timestamp, StepPending,
               e.kind.tool in {"Task", "dispatch_agent"}, e.kind.metadata)
  }

  function ResolveStep(s: StepRecord, e: Event): StepRecord
    requires e.kind.PostToolUse?
  {
    s.(output := Some(TruncateText(e.kind.toolResponse, MAX_OUTPUT_PREVIEW)),
       success := e.kind.success,
       durationMs := e.kind.duration,
       status := if e.kind.success == Some(false) then StepError else StepComplete)
  }

  /** `steps.find`: the position of the first step with this id, or the length when there is none. */
  function FindStep(steps: seq<StepRecord>, id: string): (k: nat)
    ensures k <= |steps|
    ensures k < |steps| ==> steps[k].id == id
    ensures forall i :: 0 <= i < k ==> steps[i].id != id
  {
    if steps == [] then 0
    else if steps[0].id == id then 0
    else 1 + FindStep(steps[1..], id)
  }

  // ---------------------------------------------------------------------------------------------
  // Event handlers
  // ---------------------------------------------------------------------------------------------

  function CountEvent(t: TurnRecord): TurnRecord {
    t.(rawEventCount := t.rawEventCount + 1)
  }

  function HandlePromptSubmit(c: Context, e: Event): Context
    requires e.kind.PromptSubmit?
  {
    var closed := FinalizeCurrent(c, e.timestamp);
    var asked := closed.Push(UserTurn(e, closed.sequence + 1));
    asked.Push(AssistantTurn(e, asked.sequence + 1, Thinking)).(current := Some(|asked.turns|))
  }

  /** Opens an assistant turn for a tool call that arrives without one. */
  function EnsureAssistant(c: Context, e: Event): (r: Context)
    ensures r.HasTurn()
  {
    if c.HasAssistant() then c
    else c.Push(AssistantTurn(e, c.sequence + 1, ToolUse)).(current := Some(|c.turns|))
  }

  function BeginStep(t: TurnRecord, e: Event): TurnRecord
    requires e.kind.PreToolUse?
  {
    CountEvent(t.(status := ToolUse,
                  thinking := if IsNonEmpty(e.kind.assistantText) && !IsNonEmpty(t.thinking)
                              then e.kind.assistantText else t.thinking,
                  steps := t.steps + [NewStep(e)]))
  }

  function HandlePreToolUse(c: Context, e: Event): Context
    requires e.kind.PreToolUse?
  {
    var ready := EnsureAssistant(c, e);
    ready.WithTurn(BeginStep(ready.Turn(), e))
  }

  function EndStep(t: TurnRecord, e: Event): TurnRecord
    requires e.kind.PostToolUse?
  {
    var k := FindStep(t.steps, e.kind.toolUseId);
    CountEvent(if k < |t.steps| then t.(steps := t.steps[k := ResolveStep(t.steps[k], e)]) else t)
  }

  function HandlePostToolUse(c: Context, e: Event): Context
    requires e.kind.PostToolUse?
  {
    if c.HasAssistant() then c.WithTurn(EndStep(c.Turn(), e)) else c
  }

  function StopTurn(t: TurnRecord, e: Event): TurnRecord
    requires e.kind.Stop?
  {
    FinalizeTurn(if IsNonEmpty(e.kind.response) then t.(response := e.kind.response) else t, e.timestamp)
  }

  function HandleStop(c: Context, e: Event): Context
    requires e.kind.Stop?
  {
    if c.HasAssistant() then c.WithTurn(StopTurn(c.Turn(), e)) else c
  }

  function HandleSessionStart(c: Context, e: Event): Context
    requires e.kind.SessionStart?
  {
    var closed := FinalizeCurrent(c, e.timestamp);
    closed.Push(SystemTurn(e, closed.sequence + 1, "Session " + e.kind.source)).(current := None)
  }

  function HandleSessionEnd(c: Context, e: Event): Context
    requires e.kind.SessionEnd?
  {
    var closed := InterruptCurrent(c, e.timestamp);
    closed.Push(SystemTurn(e, closed.sequence + 1, "Session ended: " + e.kind.reason)).(current := None)
  }

  function ProcessEvent(c: Context, e: Event): Context {
    match e.kind
    case PromptSubmit(_) => HandlePromptSubmit(c, e)
    case PreToolUse(_, _, _, _, _) => HandlePreToolUse(c, e)
    case PostToolUse(_, _, _, _) => HandlePostToolUse(c, e)
    case Stop(_) => HandleStop(c, e)
    case SessionStart(_) => HandleSessionStart(c, e)
    case SessionEnd(_) => HandleSessionEnd(c, e)
    case PermissionRequest => c
    case OtherType(_) => c
    case _ => if c.HasAssistant() then c.WithTurn(CountEvent(c.Turn())) else c
  }

  // ---------------------------------------------------------------------------------------------
  // The whole run
  // ---------------------------------------------------------------------------------------------

  function MapEvent(c: Context, e: Event): Context {
    var m := if c.HasTurn() then c.eventTurnMap[e.id := c.Turn().id] else c.eventTurnMap;
    c.(eventTurnMap := if e.kind.PromptSubmit? then m[e.id := e.id] else m)
  }

  /** One pass of the event loop. */
  function Advance(c: Context, e: Event): Context {
    if IsKnown(e) then MapEvent(ProcessEvent(c, e), e)
    else c.(unknownEventTypeCount := c.unknownEventTypeCount + 1)
  }

  /** The event loop over a sorted, duplicate-free list. */
  function Run(es: seq<Event>): Context {
    if es == [] then EMPTY_CONTEXT
    else Advance(Run(es[..|es| - 1]), es[|es| - 1])
  }

  function LastActivityTime(t: TurnRecord, fallback: int): int {
    if |t.steps| > 0 then
      var last := t.steps[|t.steps| - 1];
      if last.durationMs.Some? && last.durationMs.value != 0 then last.startedAt + last.durationMs.value
      else last.startedAt
    else if t.startedAt != 0 then t.startedAt
    else fallback
  }

  predicate IsStale(t: TurnRecord, now: int) {
    t.status != Complete && t.status != Error && now - LastActivityTime(t, now) > STALE_AFTER
  }

  /** The pass after the loop: a turn left open without recent activity becomes interrupted. */
  function CloseStale(c: Context, now: int): Context {
    if c.HasAssistant() && IsStale(c.Turn(), now)
    then c.WithTurn(FinalizeTurn(c.Turn().(status := Interrupted), LastActivityTime(c.Turn(), now)))
    else c
  }
}
