/**
 `AgentState`, with its nested git status, token counts and timestamps.
 */
module WireAgentState {
  import opened Options
  import opened SafeIntegers
  import opened Wire
  import opened WireLoop
  import opened WireSimple
  import opened WireNested
  import Utf8

  datatype AgentState = AgentState(
    agentId: string, status: string, containerId: string, gitStatus: Option<GitStatus>,
    tokens: Option<TokenInfo>, lastActivity: Option<Timestamp>, createdAt: Option<Timestamp>)

  const BASE_AGENT_STATE := AgentState("", "", "", None, None, None, None)

  function AgentStateField(tag: nat, buf: seq<byte>, pos: nat, m: AgentState)
    : Result<Option<(AgentState, nat)>, WireError>
  {
    if tag == 10 then
      var (s, next) :- ReadString(buf, pos);
      Ok(Some((m.(agentId := s), next)))
    else if tag == 18 then
      var (s, next) :- ReadString(buf, pos);
      Ok(Some((m.(status := s), next)))
    else if tag == 26 then
      var (s, next) :- ReadString(buf, pos);
      Ok(Some((m.(containerId := s), next)))
    else if tag == 34 then
      var (g, next) :- ReadMessage(GitStatusField, BASE_GIT_STATUS, buf, pos);
      Ok(Some((m.(gitStatus := Some(g)), next)))
    else if tag == 42 then
      var (t, next) :- ReadMessage(TokenInfoField, BASE_TOKEN_INFO, buf, pos);
      Ok(Some((m.(tokens := Some(t)), next)))
    else if tag == 50 then
      var (t, next) :- ReadMessage(TimestampField, BASE_TIMESTAMP, buf, pos);
      Ok(Some((m.(lastActivity := Some(t)), next)))
    else if tag == 58 then
      var (t, next) :- ReadMessage(TimestampField, BASE_TIMESTAMP, buf, pos);
      Ok(Some((m.(createdAt := Some(t)), next)))
    else Ok(None)
  }

  predicate AgentStateKnown(f: Field) {
    IsBytes(f) && 1 <= f.num <= 7
  }

  /** A later record replaces a nested message instead of merging into it. */
  function AgentStateMeaning(m: AgentState, f: Field): Option<AgentState> {
    if !AgentStateKnown(f) then None
    else if f.num == 1 then Some(m.(agentId := Text(Content(f))))
    else if f.num == 2 then Some(m.(status := Text(Content(f))))
    else if f.num == 3 then Some(m.(containerId := Text(Content(f))))
    else if f.Bytes? then None
    else if f.num == 4 then Some(m.(gitStatus := Some(ApplyAll(GitStatusMeaning, BASE_GIT_STATUS, f.fields))))
    else if f.num == 5 then Some(m.(tokens := Some(ApplyAll(TokenInfoMeaning, BASE_TOKEN_INFO, f.fields))))
    else if f.num == 6 then Some(m.(lastActivity := Some(ApplyAll(TimestampMeaning, BASE_TIMESTAMP, f.fields))))
    else Some(m.(createdAt := Some(ApplyAll(TimestampMeaning, BASE_TIMESTAMP, f.fields))))
  }

  predicate AgentStateNests(f: Field) {
    IsBytes(f) && 4 <= f.num <= 7
  }

  /** Nested messages are sequences of records that fit the wire. */
  predicate AgentStateShape(f: Field) {
    AgentStateNests(f) ==> f.Sub? && Acceptable(AnyRecord, f.fields)
  }

  /** The integers of nested messages are ones that a double can hold. */
  predicate AgentStateOk(f: Field) {
    AgentStateNests(f) ==>
      && f.Sub?
      && (f.num == 4 ==> Acceptable(AnyRecord, f.fields))
      && (f.num == 5 ==> Acceptable(TokenInfoOk, f.fields))
      && (f.num == 6 || f.num == 7 ==> Acceptable(TimestampOk, f.fields))
  }

  lemma BytesOnWire(f: Field)
    requires OnWire(f) && IsBytes(f)
    ensures (f.Bytes? || f.Sub?) && f.num >= 1
  {
  }

  lemma {:induction false} AgentStateReadsText(f: Field, buf: seq<byte>, pos: nat, m: AgentState)
    requires OnWire(f) && IsBytes(f) && f.num <= 3 && At(buf, pos, Payload(f))
    ensures AgentStateField(Tag(f), buf, pos, m) == Reads(AgentStateMeaning(m, f), pos + |Payload(f)|)
  {
    hide ReadMessage, ReadString, Payload, At, Content, Text, ApplyAll, Concat, Acceptable, OnWire;
    assert (f.Bytes? || f.Sub?) && f.num >= 1 by { BytesOnWire(f); }
    ReadText(f, buf, pos);
  }

  lemma {:induction false} AgentStateReadsSub(f: Field, buf: seq<byte>, pos: nat, m: AgentState)
    requires OnWire(f) && f.Sub? && 4 <= f.num <= 7 && AgentStateShape(f) && At(buf, pos, Payload(f))
    ensures AgentStateField(Tag(f), buf, pos, m) ==
            if AgentStateOk(f) then Reads(AgentStateMeaning(m, f), pos + |Payload(f)|) else Err(UnsafeInteger)
  {
    hide Handles, Refuses, ReadMessage, ReadString, Payload, At, Content, Text, ApplyAll, OnWire, Acceptable;
    hide IgnoresUnknown, Commutes;
    if f.num == 4 {
      GitStatusHandles();
      ReadSub(GitStatusField, AnyRecord, GitStatusMeaning, BASE_GIT_STATUS, f, buf, pos);
    } else if f.num == 5 {
      TokenInfoHandles();
      if AgentStateOk(f) {
        ReadSub(TokenInfoField, TokenInfoOk, TokenInfoMeaning, BASE_TOKEN_INFO, f, buf, pos);
      } else {
        RefuseSub(TokenInfoField, AnyRecord, TokenInfoOk, TokenInfoMeaning, BASE_TOKEN_INFO, f, buf, pos);
      }
    } else {
      TimestampHandles();
      if AgentStateOk(f) {
        ReadSub(TimestampField, TimestampOk, TimestampMeaning, BASE_TIMESTAMP, f, buf, pos);
      } else {
        RefuseSub(TimestampField, AnyRecord, TimestampOk, TimestampMeaning, BASE_TIMESTAMP, f, buf, pos);
      }
    }
  }

  lemma {:induction false} AgentStateReads(f: Field, buf: seq<byte>, pos: nat, m: AgentState)
    requires OnWire(f) && AgentStateShape(f) && At(buf, pos, Payload(f))
    ensures AgentStateField(Tag(f), buf, pos, m) ==
            if AgentStateOk(f) then Reads(AgentStateMeaning(m, f), pos + |Payload(f)|) else Err(UnsafeInteger)
  {
    if IsBytes(f) && f.num <= 3 {
      AgentStateReadsText(f, buf, pos, m);
    } else if IsBytes(f) && f.num <= 7 {
      AgentStateReadsSub(f, buf, pos, m);
    } else {
      AgentStateReadsOther(f, buf, pos, m);
    }
    hide *;
  }

  lemma {:induction false} AgentStateReadsOther(f: Field, buf: seq<byte>, pos: nat, m: AgentState)
    requires OnWire(f) && !AgentStateKnown(f)
    ensures AgentStateOk(f)
    ensures AgentStateField(Tag(f), buf, pos, m) == Reads(AgentStateMeaning(m, f), pos + |Payload(f)|)
  {
    hide ReadMessage, ReadString, Payload, Content, Text, ApplyAll, Acceptable;
  }

  lemma AgentStateHandles()
    ensures Handles(AgentStateField, AgentStateOk, AgentStateMeaning)
    ensures Refuses(AgentStateField, AgentStateShape, AgentStateOk)
    ensures IgnoresUnknown(AgentStateMeaning, AgentStateKnown)
    ensures Commutes(AgentStateMeaning)
  {
    hide OnWire, At, Payload, Tag, AgentStateField, AgentStateOk, AgentStateShape, Content, Text, ApplyAll;
    forall f: Field, buf: seq<byte>, pos: nat, m: AgentState |
      OnWire(f) && AgentStateShape(f) && At(buf, pos, Payload(f))
      ensures AgentStateField(Tag(f), buf, pos, m) ==
              if AgentStateOk(f) then Reads(AgentStateMeaning(m, f), pos + |Payload(f)|) else Err(UnsafeInteger)
    {
      AgentStateReads(f, buf, pos, m);
    }
    forall f: Field | AgentStateOk(f) && OnWire(f)
      ensures AgentStateShape(f)
    {
      OkHasShape(f);
    }
  }

  lemma OkHasShape(f: Field)
    requires AgentStateOk(f)
    ensures AgentStateShape(f)
  {
  }

  predicate IsAgentState(m: AgentState) {
    && IsText(m.agentId) && IsText(m.status) && IsText(m.containerId)
    && (m.gitStatus.Some? ==> IsGitStatus(m.gitStatus.value) && FitsPrefix(GitStatusFields(m.gitStatus.value)))
    && (m.tokens.Some? ==> IsTokenInfo(m.tokens.value) && FitsPrefix(TokenInfoFields(m.tokens.value)))
    && (m.lastActivity.Some? ==>
          IsTimestamp(m.lastActivity.value) && FitsPrefix(TimestampFields(m.lastActivity.value)))
    && (m.createdAt.Some? ==> IsTimestamp(m.createdAt.value) && FitsPrefix(TimestampFields(m.createdAt.value)))
  }

  function GitStatusSub(o: Option<GitStatus>): seq<Field>
    requires o.Some? ==> IsGitStatus(o.value)
  {
    SubFields(4, if o.Some? then Some(GitStatusFields(o.value)) else None)
  }

  function TokenInfoSub(o: Option<TokenInfo>): seq<Field>
    requires o.Some? ==> IsTokenInfo(o.value)
  {
    SubFields(5, if o.Some? then Some(TokenInfoFields(o.value)) else None)
  }

  function TimestampSub(num: nat, o: Option<Timestamp>): seq<Field>
    requires o.Some? ==> IsTimestamp(o.value)
  {
    SubFields(num, if o.Some? then Some(TimestampFields(o.value)) else None)
  }

  /** The records of `AgentState.encode`. */
  function AgentStateFields(m: AgentState): seq<Field>
    requires IsAgentState(m)
  {
    TextFields(1, m.agentId) + (TextFields(2, m.status) + (TextFields(3, m.containerId)
    + (GitStatusSub(m.gitStatus) + (TokenInfoSub(m.tokens)
    + (TimestampSub(6, m.lastActivity) + TimestampSub(7, m.createdAt))))))
  }

  function PlainGitStatusOf(o: Option<GitStatus>): Option<GitStatus> {
    if o.Some? then Some(PlainGitStatus(o.value)) else None
  }

  /** The agent state as it is read back. */
  function PlainAgentState(m: AgentState): AgentState {
    m.(agentId := Plain(m.agentId), status := Plain(m.status), containerId := Plain(m.containerId),
       gitStatus := PlainGitStatusOf(m.gitStatus))
  }

  predicate IsSafeTimestamp(m: Timestamp) {
    -9007199254740991 <= m.seconds <= 9007199254740991
  }

  /** Every 64-bit integer is one that a double can hold. */
  predicate IsSafeAgentState(m: AgentState) {
    && (m.tokens.Some? ==> IsSafeTokenInfo(m.tokens.value))
    && (m.lastActivity.Some? ==> IsSafeTimestamp(m.lastActivity.value))
    && (m.createdAt.Some? ==> IsSafeTimestamp(m.createdAt.value))
  }

  /** No text starts with a byte order mark. */
  predicate IsUnmarkedAgentState(m: AgentState) {
    && !Utf8.IsMarked(m.agentId) && !Utf8.IsMarked(m.status) && !Utf8.IsMarked(m.containerId)
    && (m.gitStatus.Some? ==>
          && !Utf8.IsMarked(m.gitStatus.value.branch)
          && forall i :: 0 <= i < |m.gitStatus.value.modifiedFiles| ==>
               !Utf8.IsMarked(m.gitStatus.value.modifiedFiles[i]))
  }

  lemma PlainIsUnmarked(m: AgentState)
    ensures PlainAgentState(m) == m <==> IsUnmarkedAgentState(m)
  {
    hide Plain, Utf8.IsMarked, PlainTexts;
    PlainIsSame(m.agentId);
    PlainIsSame(m.status);
    PlainIsSame(m.containerId);
    if m.gitStatus.Some? {
      PlainIsSame(m.gitStatus.value.branch);
      PlainTextsAreSame(m.gitStatus.value.modifiedFiles);
    }
  }

  lemma {:induction false} AgentStateText(m: AgentState, num: nat, s: string)
    requires IsText(s) && 1 <= num <= 3
    ensures Acceptable(AgentStateShape, TextFields(num, s)) && Acceptable(AgentStateOk, TextFields(num, s))
    ensures ApplyAll(AgentStateMeaning, m, TextFields(num, s)) ==
            if s == "" then m
            else if num == 1 then m.(agentId := Plain(s))
            else if num == 2 then m.(status := Plain(s))
            else m.(containerId := Plain(s))
  {
    TextRoundTrip(s);
    hide Text;
  }

  lemma {:induction false} AgentStateGitStatus(m: AgentState, o: Option<GitStatus>)
    requires m.gitStatus == None
    requires o.Some? ==> IsGitStatus(o.value) && FitsPrefix(GitStatusFields(o.value))
    ensures Acceptable(AgentStateShape, GitStatusSub(o)) && Acceptable(AgentStateOk, GitStatusSub(o))
    ensures ApplyAll(AgentStateMeaning, m, GitStatusSub(o)) == m.(gitStatus := PlainGitStatusOf(o))
  {
    if o.Some? {
      GitStatusRoundTrip(o.value);
      hide GitStatusFields, GitStatusMeaning, Concat;
      ApplySingle(AgentStateMeaning, m, Sub(4, GitStatusFields(o.value)));
    }
  }

  lemma {:induction false} AgentStateTokens(m: AgentState, o: Option<TokenInfo>)
    requires m.tokens == None
    requires o.Some? ==> IsTokenInfo(o.value) && FitsPrefix(TokenInfoFields(o.value))
    ensures Acceptable(AgentStateShape, TokenInfoSub(o))
    ensures Acceptable(AgentStateOk, TokenInfoSub(o)) <==> (o.Some? ==> IsSafeTokenInfo(o.value))
    ensures ApplyAll(AgentStateMeaning, m, TokenInfoSub(o)) == m.(tokens := o)
  {
    if o.Some? {
      TokenInfoRoundTrip(o.value);
      hide TokenInfoFields, TokenInfoMeaning, Concat;
      ApplySingle(AgentStateMeaning, m, Sub(5, TokenInfoFields(o.value)));
    }
  }

  lemma {:induction false} AgentStateTimestamp(m: AgentState, num: nat, o: Option<Timestamp>)
    requires (num == 6 && m.lastActivity == None) || (num == 7 && m.createdAt == None)
    requires o.Some? ==> IsTimestamp(o.value) && FitsPrefix(TimestampFields(o.value))
    ensures Acceptable(AgentStateShape, TimestampSub(num, o))
    ensures Acceptable(AgentStateOk, TimestampSub(num, o)) <==> (o.Some? ==> IsSafeTimestamp(o.value))
    ensures ApplyAll(AgentStateMeaning, m, TimestampSub(num, o)) ==
            if num == 6 then m.(lastActivity := o) else m.(createdAt := o)
  {
    if o.Some? {
      TimestampRoundTrip(o.value);
      hide TimestampFields, TimestampMeaning, Concat;
      ApplySingle(AgentStateMeaning, m, Sub(num, TimestampFields(o.value)));
    }
  }

  lemma AgentStateApplied(m: AgentState)
    requires IsAgentState(m)
    ensures Acceptable(AgentStateShape, AgentStateFields(m))
    ensures Acceptable(AgentStateOk, AgentStateFields(m)) <==> IsSafeAgentState(m)
    ensures ApplyAll(AgentStateMeaning, BASE_AGENT_STATE, AgentStateFields(m)) == PlainAgentState(m)
  {
    hide ApplyAll, TextFields, GitStatusSub, TokenInfoSub, TimestampSub, Acceptable, Plain, PlainGitStatusOf;
    hide IsSafeTimestamp, IsSafeTokenInfo;
    hide IsText, IsGitStatus, IsTimestamp, FitsPrefix;
    var f7 := TimestampSub(7, m.createdAt);
    var f6 := TimestampSub(6, m.lastActivity) + f7;
    var f5 := TokenInfoSub(m.tokens) + f6;
    var f4 := GitStatusSub(m.gitStatus) + f5;
    var f3 := TextFields(3, m.containerId) + f4;
    var f2 := TextFields(2, m.status) + f3;
    var m1 := BASE_AGENT_STATE.(agentId := Plain(m.agentId));
    var m2 := m1.(status := Plain(m.status));
    var m3 := m2.(containerId := Plain(m.containerId));
    var m4 := m3.(gitStatus := PlainGitStatusOf(m.gitStatus));
    var m5 := m4.(tokens := m.tokens);
    var m6 := m5.(lastActivity := m.lastActivity);
    ApplyAppend(AgentStateMeaning, BASE_AGENT_STATE, TextFields(1, m.agentId), f2);
    AgentStateText(BASE_AGENT_STATE, 1, m.agentId);
    ApplyAppend(AgentStateMeaning, m1, TextFields(2, m.status), f3);
    AgentStateText(m1, 2, m.status);
    ApplyAppend(AgentStateMeaning, m2, TextFields(3, m.containerId), f4);
    AgentStateText(m2, 3, m.containerId);
    ApplyAppend(AgentStateMeaning, m3, GitStatusSub(m.gitStatus), f5);
    AgentStateGitStatus(m3, m.gitStatus);
    ApplyAppend(AgentStateMeaning, m4, TokenInfoSub(m.tokens), f6);
    AgentStateTokens(m4, m.tokens);
    ApplyAppend(AgentStateMeaning, m5, TimestampSub(6, m.lastActivity), f7);
    AgentStateTimestamp(m5, 6, m.lastActivity);
    AgentStateTimestamp(m6, 7, m.createdAt);
    AcceptableSplits(AgentStateOk, TimestampSub(6, m.lastActivity), f7);
    AcceptableSplits(AgentStateOk, TokenInfoSub(m.tokens), f6);
    AcceptableSplits(AgentStateOk, GitStatusSub(m.gitStatus), f5);
    AcceptableSplits(AgentStateOk, TextFields(3, m.containerId), f4);
    AcceptableSplits(AgentStateOk, TextFields(2, m.status), f3);
    AcceptableSplits(AgentStateOk, TextFields(1, m.agentId), f2);
    AcceptableSplits(AgentStateShape, TimestampSub(6, m.lastActivity), f7);
    AcceptableSplits(AgentStateShape, TokenInfoSub(m.tokens), f6);
    AcceptableSplits(AgentStateShape, GitStatusSub(m.gitStatus), f5);
    AcceptableSplits(AgentStateShape, TextFields(3, m.containerId), f4);
    AcceptableSplits(AgentStateShape, TextFields(2, m.status), f3);
    AcceptableSplits(AgentStateShape, TextFields(1, m.agentId), f2);
  }

  /**
   Encoding and decoding an agent state: decoding throws exactly when a 64-bit integer is not safe.
   Otherwise it returns the state without the byte order marks that its texts start with: absent nested
   messages stay absent, and nested messages with default values only stay present.
   */
  lemma AgentStateRoundTrip(m: AgentState)
    requires IsAgentState(m)
    ensures Decode(AgentStateField, BASE_AGENT_STATE, Concat(AgentStateFields(m))) ==
            if IsSafeAgentState(m) then Ok(PlainAgentState(m)) else Err(UnsafeInteger)
    ensures Decode(AgentStateField, BASE_AGENT_STATE, Concat(AgentStateFields(m))) == Ok(m) <==>
            IsSafeAgentState(m) && IsUnmarkedAgentState(m)
  {
    hide IsAgentState, AgentStateFields, Decode, Handles, Refuses, IgnoresUnknown, Commutes, Acceptable, ApplyAll;
    hide IsSafeAgentState, IsUnmarkedAgentState, PlainAgentState;
    AgentStateHandles();
    AgentStateApplied(m);
    PlainIsUnmarked(m);
    DecodeOrRefuse(AgentStateField, AgentStateShape, AgentStateOk, AgentStateMeaning, BASE_AGENT_STATE,
                   AgentStateFields(m));
  }

  // ---------------------------------------------------------------------------------------------
  // Unknown records and order at both levels
  // ---------------------------------------------------------------------------------------------

  /** The record without the records that its nested message does not know. */
  function StripAgentState(f: Field): Field {
    if !f.Sub? then f
    else if f.num == 4 then Sub(4, Filter(GitStatusKnown, f.fields))
    else if f.num == 5 then Sub(5, Filter(TokenInfoKnown, f.fields))
    else if f.num == 6 || f.num == 7 then Sub(f.num, Filter(TimestampKnown, f.fields))
    else f
  }

  lemma StrippedMeansSame(m: AgentState, f: Field)
    ensures AgentStateMeaning(m, f) == AgentStateMeaning(m, StripAgentState(f))
  {
    hide ApplyAll, Handles, Refuses, Commutes, GitStatusKnown, TokenInfoKnown, TimestampKnown, IgnoresUnknown;
    hide GitStatusMeaning, TokenInfoMeaning, TimestampMeaning, Filter, Text;
    if f.Sub? {
      GitStatusHandles();
      TokenInfoHandles();
      TimestampHandles();
      UnknownRecordsDoNotMatter(GitStatusMeaning, GitStatusKnown, BASE_GIT_STATUS, f.fields);
      UnknownRecordsDoNotMatter(TokenInfoMeaning, TokenInfoKnown, BASE_TOKEN_INFO, f.fields);
      UnknownRecordsDoNotMatter(TimestampMeaning, TimestampKnown, BASE_TIMESTAMP, f.fields);
    }
  }

  lemma {:induction false} StrippedIsAccepted(f: Field)
    requires OnWire(f) && AgentStateShape(f)
    ensures OnWire(StripAgentState(f)) && AgentStateShape(StripAgentState(f))
    ensures AgentStateOk(StripAgentState(f)) <==> AgentStateOk(f)
  {
    if f.Sub? && 4 <= f.num <= 7 {
      FilterShortens(GitStatusKnown, f.fields);
      FilterShortens(TokenInfoKnown, f.fields);
      FilterShortens(TimestampKnown, f.fields);
      hide Concat, Acceptable;
      if f.num == 4 {
        FilterIsAcceptable(AnyRecord, GitStatusKnown, f.fields);
      } else if f.num == 5 {
        FilterIsAcceptable(AnyRecord, TokenInfoKnown, f.fields);
        FilterKeepsRefusal(TokenInfoOk, TokenInfoKnown, f.fields);
      } else {
        FilterIsAcceptable(AnyRecord, TimestampKnown, f.fields);
        FilterKeepsRefusal(TimestampOk, TimestampKnown, f.fields);
      }
    }
  }

  lemma AgentStateStrips()
    ensures Strips(AgentStateShape, AgentStateOk, AgentStateMeaning, AgentStateKnown, StripAgentState)
  {
    forall f: Field | !AgentStateKnown(f)
      ensures AgentStateOk(f)
    {
    }
    hide AgentStateShape, AgentStateOk, AgentStateMeaning, AgentStateKnown, StripAgentState, OnWire;
    forall m, f: Field
      ensures AgentStateMeaning(m, StripAgentState(f)) == AgentStateMeaning(m, f)
    {
      StrippedMeansSame(m, f);
    }
    forall f: Field | OnWire(f) && AgentStateShape(f)
      ensures OnWire(StripAgentState(f)) && AgentStateShape(StripAgentState(f))
      ensures AgentStateOk(StripAgentState(f)) <==> AgentStateOk(f)
    {
      StrippedIsAccepted(f);
    }
  }

  lemma {:induction false} AgentStateMeansAlike()
    ensures MeansAlike(AgentStateMeaning, AgentStateNests)
  {
    hide Handles, Refuses, IgnoresUnknown, Commutes, SameByNumber, ApplyAll, Text, Content;
    hide GitStatusMeaning, TokenInfoMeaning, TimestampMeaning;
    GitStatusHandles();
    TokenInfoHandles();
    TimestampHandles();
    forall m, f, g | Alike(AgentStateNests, f, g)
      ensures AgentStateMeaning(m, f) == AgentStateMeaning(m, g)
    {
      if f != g {
        OrderAcrossFieldsDoesNotMatter(GitStatusMeaning, BASE_GIT_STATUS, f.fields, g.fields);
        OrderAcrossFieldsDoesNotMatter(TokenInfoMeaning, BASE_TOKEN_INFO, f.fields, g.fields);
        OrderAcrossFieldsDoesNotMatter(TimestampMeaning, BASE_TIMESTAMP, f.fields, g.fields);
      }
    }
  }

  /**
   Forward compatibility of `AgentState`: unknown records may stand between its own records and inside
   its nested messages; the decoder returns the same state, or throws the same error.
   */
  lemma {:induction false} AgentStateForwardCompatible(fs: seq<Field>)
    requires Acceptable(AgentStateShape, fs)
    ensures Decode(AgentStateField, BASE_AGENT_STATE, Concat(fs)) ==
            Decode(AgentStateField, BASE_AGENT_STATE, Concat(Strip(AgentStateKnown, StripAgentState, fs)))
  {
    hide Decode, Handles, Refuses, IgnoresUnknown, Commutes, Acceptable, ApplyAll, Strip, Strips;
    AgentStateHandles();
    AgentStateStrips();
    StripDecodesAlike(AgentStateField, AgentStateShape, AgentStateOk, AgentStateMeaning, AgentStateKnown,
                      StripAgentState, BASE_AGENT_STATE, fs);
  }

  lemma {:induction false} ReadSmall(buf: seq<byte>, pos: nat)
    requires pos < |buf| && buf[pos] < 128
    ensures ReadVarint(buf, pos, 10) == Ok((buf[pos], pos + 1))
    ensures ReadUint32(buf, pos) == Ok((buf[pos], pos + 1))
    ensures ReadSafeInt64(buf, pos) == Ok((buf[pos], pos + 1))
  {
  }

  /** A tag without its payload at the end of nested token counts takes the byte behind them, if any. */
  lemma {:induction false} TruncatedTokens(buf: seq<byte>)
    requires |buf| >= 3 && buf[0] == 42 && buf[1] == 1 && buf[2] == 8
    requires |buf| == 3 || buf[3] < 128
    ensures AgentStateField(42, buf, 1, BASE_AGENT_STATE) ==
            if |buf| == 3 then Err(PrematureEof)
            else Ok(Some((BASE_AGENT_STATE.(tokens := Some(TokenInfo(buf[3], 0))), 4)))
  {
    ReadSmall(buf, 1);
    ReadSmall(buf, 2);
    if |buf| == 3 {
      hide ReadSafeInt64, ReadUint32, ReadString;
      assert DecodeLoop(TokenInfoField, buf, 2, 3, BASE_TOKEN_INFO) == Err(PrematureEof);
    } else {
      ReadSmall(buf, 3);
      hide ReadSafeInt64, ReadUint32, ReadString;
      assert DecodeLoop(TokenInfoField, buf, 2, 3, BASE_TOKEN_INFO) == Ok((TokenInfo(buf[3], 0), 4));
    }
  }

  /**
   Nested bytes that are no sequence of records are not forward compatible: a tag without its payload
   at the end of the token counts throws, and with an unknown record behind them it reads that record.
   */
  lemma {:induction false} TruncatedRecordReadsOn()
    ensures Decode(AgentStateField, BASE_AGENT_STATE, [42, 1, 8]) == Err(PrematureEof)
    ensures !AgentStateKnown(Number(10, 0)) && [42, 1, 8] + Concat([Number(10, 0)]) == [42, 1, 8, 80, 0]
    ensures Decode(AgentStateField, BASE_AGENT_STATE, [42, 1, 8, 80, 0]) ==
            Ok(BASE_AGENT_STATE.(tokens := Some(TokenInfo(80, 0))))
  {
    TokensOnly([42, 1, 8]);
    TokensOnly([42, 1, 8, 80, 0]);
    hide *;
  }

  lemma {:induction false} TokensOnly(buf: seq<byte>)
    requires buf == [42, 1, 8] || buf == [42, 1, 8, 80, 0]
    ensures Decode(AgentStateField, BASE_AGENT_STATE, buf) ==
            if |buf| == 3 then Err(PrematureEof)
            else Ok(BASE_AGENT_STATE.(tokens := Some(TokenInfo(80, 0))))
  {
    TruncatedTokens(buf);
    ReadSmall(buf, 0);
    if |buf| == 5 {
      StopsAtZero(buf, 4, BASE_AGENT_STATE.(tokens := Some(TokenInfo(80, 0))));
    }
    hide AgentStateField, ReadUint32;
  }

  lemma {:induction false} StopsAtZero(buf: seq<byte>, pos: nat, m: AgentState)
    requires pos < |buf| && buf[pos] == 0
    ensures DecodeLoop(AgentStateField, buf, pos, |buf|, m) == Ok((m, pos + 1))
  {
    ReadSmall(buf, pos);
    hide ReadUint32;
  }

  /**
   The records of an encoded agent state may be permuted across fields and mixed with unknown ones, at
   the top and inside its nested messages.
   */
  lemma {:induction false} AgentStateIsOrderFree(m: AgentState, fs: seq<Field>, gs: seq<Field>)
    requires IsAgentState(m)
    requires Acceptable(AgentStateOk, fs)
    requires AllAlike(AgentStateNests, Strip(AgentStateKnown, StripAgentState, fs), gs)
    requires SameByNumber(gs, AgentStateFields(m))
    ensures Decode(AgentStateField, BASE_AGENT_STATE, Concat(fs)) == Ok(PlainAgentState(m))
  {
    AgentStateStrips();
    assert forall m, f :: AgentStateMeaning(m, StripAgentState(f)) == AgentStateMeaning(m, f);
    hide IsAgentState, AgentStateFields, Decode, Handles, Refuses, IgnoresUnknown, Commutes, Acceptable, ApplyAll;
    hide SameByNumber, AllAlike, Strip, Strips, MeansAlike, AgentStateMeaning, StripAgentState, PlainAgentState;
    AgentStateHandles();
    AgentStateApplied(m);
    AgentStateMeansAlike();
    ReorderedDecodesAlike(AgentStateField, AgentStateOk, AgentStateMeaning, AgentStateKnown, StripAgentState,
                          AgentStateNests, BASE_AGENT_STATE, fs, gs, AgentStateFields(m));
  }
}
