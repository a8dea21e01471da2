/**
 What decoding makes of arbitrary bytes: whenever it succeeds, the message holds integers that the
 encoder accepts, and encoding it again loses nothing but byte order marks.
 */
module WireDecoded {
  import opened Options
  import opened SafeIntegers
  import opened Wire
  import opened WireLoop
  import opened WireSimple
  import opened WireNested
  import opened WireAgentState
  import opened WireHealthCheck
  import opened WireErrorMessage
  import Utf8

  // ---------------------------------------------------------------------------------------------
  // Properties that decoding keeps
  // ---------------------------------------------------------------------------------------------

  /** Whatever record the handler takes, it leaves a message with the property. */
  ghost predicate Keeps<M(!new)>(h: Handler<M>, p: M -> bool) {
    forall tag: nat, buf: seq<byte>, pos: nat, m: M ::
      p(m) && h(tag, buf, pos, m).Ok? && h(tag, buf, pos, m).value.Some? ==> p(h(tag, buf, pos, m).value.value.0)
  }

  /** A property that every record keeps holds of whatever is decoded, from whatever bytes. */
  lemma {:induction false} DecodeLoopKeeps<M(!new)>(h: Handler<M>, p: M -> bool, buf: seq<byte>,
                                                    pos: nat, end: nat, m: M)
    requires Keeps(h, p) && p(m)
    ensures var r := DecodeLoop(h, buf, pos, end, m); r.Ok? ==> p(r.value.0)
    decreases |buf| - pos
  {
    hide ReadUint32, Skip;
    var read := ReadUint32(buf, pos);
    if pos < end && read.Ok? {
      var (tag, start) := read.value;
      var handled := h(tag, buf, start, m);
      if handled.Ok? && handled.value.Some? {
        var (m', next) := handled.value.value;
        assert p(m');
        if start <= next <= |buf| {
          DecodeLoopKeeps(h, p, buf, next, end, m');
        }
      } else if handled.Ok? && tag % 8 != 4 && tag != 0 {
        var skipped := Skip(buf, start, tag % 8);
        if skipped.Ok? {
          DecodeLoopKeeps(h, p, buf, skipped.value, end, m);
        }
      }
    }
  }

  lemma {:induction false} DecodeKeeps<M(!new)>(h: Handler<M>, p: M -> bool, base: M, buf: seq<byte>)
    requires Keeps(h, p) && p(base)
    ensures Decode(h, base, buf).Ok? ==> p(Decode(h, base, buf).value)
  {
    hide Keeps, DecodeLoop;
    DecodeLoopKeeps(h, p, buf, 0, |buf|, base);
  }

  lemma {:induction false} ReadMessageKeeps<M(!new)>(h: Handler<M>, p: M -> bool, base: M, buf: seq<byte>, pos: nat)
    requires Keeps(h, p) && p(base)
    ensures ReadMessage(h, base, buf, pos).Ok? ==> p(ReadMessage(h, base, buf, pos).value.0)
  {
    hide Keeps, DecodeLoop, ReadUint32;
    var length := ReadUint32(buf, pos);
    if length.Ok? {
      DecodeLoopKeeps(h, p, buf, length.value.1, length.value.1 + length.value.0, base);
    }
  }

  // ---------------------------------------------------------------------------------------------
  // Integers that fit
  // ---------------------------------------------------------------------------------------------

  lemma ReadInt32Fits(buf: seq<byte>, pos: nat)
    ensures ReadInt32(buf, pos).Ok? ==> IsInt32(ReadInt32(buf, pos).value.0)
  {
    hide ReadVarint, Signed32, IsInt32;
    var n := ReadVarint(buf, pos, 10);
    if n.Ok? {
      Signed32Fits(n.value.0);
    }
  }

  lemma Signed32Fits(u: nat)
    ensures IsInt32(Signed32(u))
  {
  }

  lemma ReadSafeInt64Fits(buf: seq<byte>, pos: nat)
    ensures ReadSafeInt64(buf, pos).Ok? ==> -9007199254740991 <= ReadSafeInt64(buf, pos).value.0 <= 9007199254740991
  {
    hide ReadVarint, Signed64;
  }

  predicate HasSafeTimestamp(m: Timestamp) {
    -9007199254740991 <= m.seconds <= 9007199254740991 && -0x8000_0000 <= m.nanos < 0x8000_0000
  }

  predicate HasInt32Counts(m: GitStatus) {
    IsInt32(m.ahead) && IsInt32(m.behind) && IsInt32(m.stagedCount) && IsInt32(m.unstagedCount)
    && IsInt32(m.untrackedCount)
  }

  /** Every integer of the state is one that its decoder can return. */
  predicate HasDecodedIntegers(m: AgentState) {
    && (m.gitStatus.Some? ==> HasInt32Counts(m.gitStatus.value))
    && (m.tokens.Some? ==> IsSafeTokenInfo(m.tokens.value))
    && (m.lastActivity.Some? ==> HasSafeTimestamp(m.lastActivity.value))
    && (m.createdAt.Some? ==> HasSafeTimestamp(m.createdAt.value))
  }

  predicate HasInt32Totals(m: HealthCheckResult) {
    IsInt32(m.checked) && IsInt32(m.healthy) && IsInt32(m.markedOffline) && IsInt32(m.markedIdle)
  }

  predicate HasNoProto(m: ErrorMessage) {
    "__proto__" !in m.details
  }

  lemma TimestampKeeps()
    ensures Keeps(TimestampField, HasSafeTimestamp)
  {
    hide ReadInt32, ReadSafeInt64;
    forall tag: nat, buf: seq<byte>, pos: nat, m: Timestamp | HasSafeTimestamp(m)
      ensures var r := TimestampField(tag, buf, pos, m); r.Ok? && r.value.Some? ==> HasSafeTimestamp(r.value.value.0)
    {
      ReadInt32Fits(buf, pos);
      ReadSafeInt64Fits(buf, pos);
    }
  }

  lemma TokenInfoKeeps()
    ensures Keeps(TokenInfoField, IsSafeTokenInfo)
  {
    hide ReadSafeInt64, IsSafe;
    forall tag: nat, buf: seq<byte>, pos: nat, m: TokenInfo | IsSafeTokenInfo(m)
      ensures var r := TokenInfoField(tag, buf, pos, m); r.Ok? && r.value.Some? ==> IsSafeTokenInfo(r.value.value.0)
    {
      ReadSafeInt64Fits(buf, pos);
    }
  }

  lemma GitStatusKeeps()
    ensures Keeps(GitStatusField, HasInt32Counts)
  {
    hide ReadInt32, ReadString, ReadBool, IsInt32;
    forall tag: nat, buf: seq<byte>, pos: nat, m: GitStatus | HasInt32Counts(m)
      ensures var r := GitStatusField(tag, buf, pos, m); r.Ok? && r.value.Some? ==> HasInt32Counts(r.value.value.0)
    {
      ReadInt32Fits(buf, pos);
    }
  }

  lemma AgentStateKeeps()
    ensures Keeps(AgentStateField, HasDecodedIntegers)
  {
    hide ReadMessage, ReadString, HasInt32Counts, IsSafeTokenInfo, HasSafeTimestamp;
    forall tag: nat, buf: seq<byte>, pos: nat, m: AgentState | HasDecodedIntegers(m)
      ensures var r := AgentStateField(tag, buf, pos, m);
              r.Ok? && r.value.Some? ==> HasDecodedIntegers(r.value.value.0)
    {
      NestedIntegers(buf, pos);
    }
  }

  /** The integers of the messages that an agent state nests. */
  lemma {:induction false} NestedIntegers(buf: seq<byte>, pos: nat)
    ensures var r := ReadMessage(GitStatusField, BASE_GIT_STATUS, buf, pos); r.Ok? ==> HasInt32Counts(r.value.0)
    ensures var r := ReadMessage(TokenInfoField, BASE_TOKEN_INFO, buf, pos); r.Ok? ==> IsSafeTokenInfo(r.value.0)
    ensures var r := ReadMessage(TimestampField, BASE_TIMESTAMP, buf, pos); r.Ok? ==> HasSafeTimestamp(r.value.0)
  {
    hide ReadMessage, Keeps;
    GitStatusKeeps();
    TokenInfoKeeps();
    TimestampKeeps();
    ReadMessageKeeps(GitStatusField, HasInt32Counts, BASE_GIT_STATUS, buf, pos);
    ReadMessageKeeps(TokenInfoField, IsSafeTokenInfo, BASE_TOKEN_INFO, buf, pos);
    ReadMessageKeeps(TimestampField, HasSafeTimestamp, BASE_TIMESTAMP, buf, pos);
  }

  lemma HealthCheckResultKeeps()
    ensures Keeps(HealthCheckResultField, HasInt32Totals)
  {
    hide ReadMessage, ReadInt32, IsInt32;
    forall tag: nat, buf: seq<byte>, pos: nat, m: HealthCheckResult | HasInt32Totals(m)
      ensures var r := HealthCheckResultField(tag, buf, pos, m);
              r.Ok? && r.value.Some? ==> HasInt32Totals(r.value.value.0)
    {
      ReadInt32Fits(buf, pos);
    }
  }

  lemma ErrorKeeps()
    ensures Keeps(ErrorField, HasNoProto)
  {
    hide ReadMessage, ReadString;
  }

  // ---------------------------------------------------------------------------------------------
  // Encoding what was decoded
  // ---------------------------------------------------------------------------------------------

  lemma {:induction false} VarintIsShort(n: nat, k: nat)
    requires k > 0 && n < Power128(k)
    ensures |Varint(n)| <= k
  {
    if n >= 128 {
      VarintIsShort(n / 128, k - 1);
    }
  }

  lemma {:induction false} IntFieldsAreShort(num: nat, v: int)
    requires IsInt64(v) && num < 8
    ensures |Concat(IntFields(num, v))| <= 20
  {
    if v != 0 {
      var f := Number(num, Unsigned64(v));
      SixtyFourBitsFit(Unsigned64(v));
      SixtyFourBitsFit(Tag(f));
      hide Power128, Varint;
      VarintIsShort(Unsigned64(v), 10);
      VarintIsShort(Tag(f), 10);
      ConcatHead([f]);
      assert [f][1..] == [];
    }
  }

  lemma {:induction false} TimestampFits(m: Timestamp)
    requires IsTimestamp(m)
    ensures FitsPrefix(TimestampFields(m))
  {
    hide IntFields, Concat;
    IntFieldsAreShort(1, m.seconds);
    IntFieldsAreShort(2, m.nanos);
    ConcatAppend(IntFields(1, m.seconds), IntFields(2, m.nanos));
  }

  lemma {:induction false} TokenInfoFits(m: TokenInfo)
    requires IsTokenInfo(m)
    ensures FitsPrefix(TokenInfoFields(m))
  {
    hide IntFields, Concat;
    IntFieldsAreShort(1, m.currentConversation);
    IntFieldsAreShort(2, m.cumulative);
    ConcatAppend(IntFields(1, m.currentConversation), IntFields(2, m.cumulative));
  }

  /** Safe integers are in the range of their wire types. */
  lemma SafeIsInRange(t: Timestamp, c: TokenInfo)
    ensures HasSafeTimestamp(t) ==> IsTimestamp(t)
    ensures IsSafeTokenInfo(c) ==> IsTokenInfo(c)
  {
  }

  /** A decoded timestamp can be encoded, and is decoded again as it is. */
  lemma {:induction false} DecodedTimestampSurvives(bytes: seq<byte>)
    requires Decode(TimestampField, BASE_TIMESTAMP, bytes).Ok?
    ensures var m := Decode(TimestampField, BASE_TIMESTAMP, bytes).value;
            && HasSafeTimestamp(m) && IsTimestamp(m)
            && Decode(TimestampField, BASE_TIMESTAMP, Concat(TimestampFields(m))) == Ok(m)
  {
    hide Decode, Keeps, TimestampFields, IsTimestamp;
    TimestampKeeps();
    DecodeKeeps(TimestampField, HasSafeTimestamp, BASE_TIMESTAMP, bytes);
    var m := Decode(TimestampField, BASE_TIMESTAMP, bytes).value;
    SafeIsInRange(m, BASE_TOKEN_INFO);
    TimestampFits(m);
    TimestampSurvivesIffSafe(m);
  }

  /** Decoded token counts can be encoded, and are decoded again as they are. */
  lemma {:induction false} DecodedTokenInfoSurvives(bytes: seq<byte>)
    requires Decode(TokenInfoField, BASE_TOKEN_INFO, bytes).Ok?
    ensures var m := Decode(TokenInfoField, BASE_TOKEN_INFO, bytes).value;
            && IsSafeTokenInfo(m) && IsTokenInfo(m)
            && Decode(TokenInfoField, BASE_TOKEN_INFO, Concat(TokenInfoFields(m))) == Ok(m)
  {
    hide Decode, Keeps, TokenInfoFields, IsTokenInfo;
    TokenInfoKeeps();
    DecodeKeeps(TokenInfoField, IsSafeTokenInfo, BASE_TOKEN_INFO, bytes);
    var m := Decode(TokenInfoField, BASE_TOKEN_INFO, bytes).value;
    SafeIsInRange(BASE_TIMESTAMP, m);
    TokenInfoFits(m);
    TokenInfoSurvivesIffSafe(m);
  }

  /** The texts fit their length prefixes, each alone and all of a git status together. */
  predicate GitStatusTextsFit(m: GitStatus) {
    && IsText(m.branch)
    && (forall i :: 0 <= i < |m.modifiedFiles| ==> IsText(m.modifiedFiles[i]))
    && (IsGitStatus(m) ==> FitsPrefix(GitStatusFields(m)))
  }

  predicate AgentStateTextsFit(m: AgentState) {
    && IsText(m.agentId) && IsText(m.status) && IsText(m.containerId)
    && (m.gitStatus.Some? ==> GitStatusTextsFit(m.gitStatus.value))
  }

  /**
   Whatever bytes an agent state is decoded from, its integers are safe and in the range of their wire
   types. The encoder accepts it exactly when its texts fit, and the copy is decoded again as the same
   state without the byte order marks that its texts may still start with.
   */
  lemma {:induction false} DecodedAgentStateSurvives(bytes: seq<byte>)
    requires Decode(AgentStateField, BASE_AGENT_STATE, bytes).Ok?
    ensures var m := Decode(AgentStateField, BASE_AGENT_STATE, bytes).value;
            && HasDecodedIntegers(m)
            && (IsAgentState(m) <==> AgentStateTextsFit(m))
            && (IsAgentState(m) ==>
                  Decode(AgentStateField, BASE_AGENT_STATE, Concat(AgentStateFields(m))) == Ok(PlainAgentState(m)))
  {
    hide Decode, Keeps, AgentStateFields, PlainAgentState, AgentStateTextsFit, IsAgentState;
    AgentStateKeeps();
    DecodeKeeps(AgentStateField, HasDecodedIntegers, BASE_AGENT_STATE, bytes);
    var m := Decode(AgentStateField, BASE_AGENT_STATE, bytes).value;
    DecodedIntegersFit(m);
    if IsAgentState(m) {
      AgentStateRoundTrip(m);
    }
  }

  lemma {:induction false} DecodedIntegersFit(m: AgentState)
    requires HasDecodedIntegers(m)
    ensures IsSafeAgentState(m)
    ensures IsAgentState(m) <==> AgentStateTextsFit(m)
  {
    hide IsText, FitsPrefix, TimestampFields, TokenInfoFields, GitStatusFields, IsTokenInfo, IsSafe, IsInt32;
    hide IsSafeTokenInfo, IsTimestamp;
    if m.tokens.Some? {
      SafeIsInRange(BASE_TIMESTAMP, m.tokens.value);
      TokenInfoFits(m.tokens.value);
    }
    if m.lastActivity.Some? {
      SafeIsInRange(m.lastActivity.value, BASE_TOKEN_INFO);
      TimestampFits(m.lastActivity.value);
    }
    if m.createdAt.Some? {
      SafeIsInRange(m.createdAt.value, BASE_TOKEN_INFO);
      TimestampFits(m.createdAt.value);
    }
  }

  /**
   Whatever bytes a health check result is decoded from, its totals are in the range of their wire type.
   The encoder accepts it exactly when its entries fit, and the copy is decoded again as the same result
   without the byte order marks that its texts may still start with.
   */
  lemma {:induction false} DecodedHealthCheckResultSurvives(bytes: seq<byte>)
    requires Decode(HealthCheckResultField, BASE_HEALTH_CHECK_RESULT, bytes).Ok?
    ensures var m := Decode(HealthCheckResultField, BASE_HEALTH_CHECK_RESULT, bytes).value;
            && HasInt32Totals(m)
            && (IsHealthCheckResult(m) <==> AreEntries(m.entries))
            && (IsHealthCheckResult(m) ==>
                  Decode(HealthCheckResultField, BASE_HEALTH_CHECK_RESULT, Concat(HealthCheckResultFields(m))) ==
                  Ok(PlainHealthCheckResult(m)))
  {
    hide Decode, Keeps, HealthCheckResultFields, PlainHealthCheckResult, AreEntries;
    HealthCheckResultKeeps();
    DecodeKeeps(HealthCheckResultField, HasInt32Totals, BASE_HEALTH_CHECK_RESULT, bytes);
    var m := Decode(HealthCheckResultField, BASE_HEALTH_CHECK_RESULT, bytes).value;
    if IsHealthCheckResult(m) {
      HealthCheckResultRoundTrip(m);
    }
  }

  /** No bytes decode to an error with a detail under the prototype key. */
  lemma {:induction false} DecodedErrorHasNoProto(bytes: seq<byte>)
    requires Decode(ErrorField, BASE_ERROR_MESSAGE, bytes).Ok?
    ensures "__proto__" !in Decode(ErrorField, BASE_ERROR_MESSAGE, bytes).value.details
  {
    hide Decode, Keeps;
    ErrorKeeps();
    DecodeKeeps(ErrorField, HasNoProto, BASE_ERROR_MESSAGE, bytes);
  }

  // ---------------------------------------------------------------------------------------------
  // What the encoders accept
  // ---------------------------------------------------------------------------------------------

  /** Five 32-bit counts, and texts of fewer than 2^32 bytes. */
  lemma GitStatusAccepted(m: GitStatus)
    ensures IsGitStatus(m) <==>
            && -0x8000_0000 <= m.ahead < 0x8000_0000 && -0x8000_0000 <= m.behind < 0x8000_0000
            && -0x8000_0000 <= m.stagedCount < 0x8000_0000 && -0x8000_0000 <= m.unstagedCount < 0x8000_0000
            && -0x8000_0000 <= m.untrackedCount < 0x8000_0000
            && |Utf8.Encode(m.branch)| < 0x1_0000_0000
            && forall i :: 0 <= i < |m.modifiedFiles| ==> |Utf8.Encode(m.modifiedFiles[i])| < 0x1_0000_0000
  {
    hide Utf8.Encode;
  }

  /**
   The encoder accepts every agent state whose integers fit their wire types and whose texts, and git
   status as a whole, take fewer than 2^32 bytes; token counts and timestamps always fit.
   */
  lemma {:induction false} AgentStateAccepted(m: AgentState)
    ensures IsAgentState(m) <==>
            && |Utf8.Encode(m.agentId)| < 0x1_0000_0000 && |Utf8.Encode(m.status)| < 0x1_0000_0000
            && |Utf8.Encode(m.containerId)| < 0x1_0000_0000
            && (m.gitStatus.Some? ==>
                  IsGitStatus(m.gitStatus.value) && |Concat(GitStatusFields(m.gitStatus.value))| < 0x1_0000_0000)
            && (m.tokens.Some? ==>
                  var t := m.tokens.value;
                  && -0x8000_0000_0000_0000 <= t.currentConversation < 0x8000_0000_0000_0000
                  && -0x8000_0000_0000_0000 <= t.cumulative < 0x8000_0000_0000_0000)
            && (m.lastActivity.Some? ==> FitsWire(m.lastActivity.value))
            && (m.createdAt.Some? ==> FitsWire(m.createdAt.value))
  {
    hide Utf8.Encode, Concat, TimestampFields, TokenInfoFields, GitStatusFields, IsGitStatus;
    if m.tokens.Some? && IsTokenInfo(m.tokens.value) {
      TokenInfoFits(m.tokens.value);
    }
    if m.lastActivity.Some? && IsTimestamp(m.lastActivity.value) {
      TimestampFits(m.lastActivity.value);
    }
    if m.createdAt.Some? && IsTimestamp(m.createdAt.value) {
      TimestampFits(m.createdAt.value);
    }
  }

  predicate FitsWire(t: Timestamp) {
    -0x8000_0000_0000_0000 <= t.seconds < 0x8000_0000_0000_0000 && -0x8000_0000 <= t.nanos < 0x8000_0000
  }

  /** The same for the health check result and its entries. */
  lemma HealthCheckResultAccepted(m: HealthCheckResult)
    ensures IsHealthCheckResult(m) <==>
            && -0x8000_0000 <= m.checked < 0x8000_0000 && -0x8000_0000 <= m.healthy < 0x8000_0000
            && -0x8000_0000 <= m.markedOffline < 0x8000_0000 && -0x8000_0000 <= m.markedIdle < 0x8000_0000
            && forall i :: 0 <= i < |m.entries| ==>
                 var e := m.entries[i];
                 && |Utf8.Encode(e.agentId)| < 0x1_0000_0000 && |Utf8.Encode(e.containerId)| < 0x1_0000_0000
                 && |Utf8.Encode(e.previousStatus)| < 0x1_0000_0000 && |Utf8.Encode(e.newStatus)| < 0x1_0000_0000
                 && |Concat(AgentHealthEntryFields(e))| < 0x1_0000_0000
  {
    hide Utf8.Encode, Concat, AgentHealthEntryFields;
  }

  /** The same for the error and its details. */
  lemma ErrorAccepted(m: ErrorMessage, keys: seq<string>)
    ensures IsErrorMessage(m, keys) <==>
            && |Utf8.Encode(m.code)| < 0x1_0000_0000 && |Utf8.Encode(m.message)| < 0x1_0000_0000
            && (forall key :: key in m.details <==> key in keys)
            && forall i :: 0 <= i < |keys| ==>
                 && keys[i] in m.details
                 && |Utf8.Encode(keys[i])| < 0x1_0000_0000 && |Utf8.Encode(m.details[keys[i]])| < 0x1_0000_0000
                 && |Concat(DetailsEntryFields(DetailsEntry(keys[i], m.details[keys[i]])))| < 0x1_0000_0000
  {
    hide Utf8.Encode, Concat, DetailsEntryFields;
    if IsErrorMessage(m, keys) {
      KeysAreThere(m, keys);
    }
  }
}
