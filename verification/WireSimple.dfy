/**
 The messages without nested messages: their decoders' switches, and the records that their encoders
 write with default values left out.
 */
module WireSimple {
  import opened Options
  import opened SafeIntegers
  import opened Wire
  import opened WireLoop
  import Utf8

  // ---------------------------------------------------------------------------------------------
  // Encoded fields
  // ---------------------------------------------------------------------------------------------

  function IntFields(num: nat, v: int): seq<Field>
    requires IsInt64(v)
  {
    if v != 0 then [Number(num, Unsigned64(v))] else []
  }

  function BoolFields(num: nat, b: bool): seq<Field> {
    if b then [Number(num, 1)] else []
  }

  function TextField(num: nat, s: string): Field {
    Bytes(num, Utf8.Encode(s))
  }

  function TextFields(num: nat, s: string): seq<Field> {
    if s != "" then [TextField(num, s)] else []
  }

  function RepeatedTextFields(num: nat, ss: seq<string>): seq<Field> {
    if ss == [] then [] else [TextField(num, ss[0])] + RepeatedTextFields(num, ss[1..])
  }

  /** A text whose UTF-8 length fits its length prefix. */
  predicate IsText(s: string) {
    |Utf8.Encode(s)| < TWO_32
  }

  /** A text is read back without the byte order mark that it may start with. */
  lemma {:induction false} TextRoundTrip(s: string)
    ensures Text(Utf8.Encode(s)) == Plain(s)
  {
    Utf8.DecodeEncoded(s);
  }

  function Plain(s: string): (r: string)
    ensures s == "" ==> r == ""
  {
    Utf8.WithoutMark(s)
  }

  lemma PlainIsSame(s: string)
    ensures Plain(s) == s <==> !Utf8.IsMarked(s)
  {
  }

  function PlainTexts(ss: seq<string>): seq<string> {
    seq(|ss|, i requires 0 <= i < |ss| => Plain(ss[i]))
  }

  lemma PlainTextsAreSame(ss: seq<string>)
    ensures PlainTexts(ss) == ss <==> forall i :: 0 <= i < |ss| ==> !Utf8.IsMarked(ss[i])
  {
    hide Plain;
    forall i | 0 <= i < |ss|
      ensures PlainTexts(ss)[i] == ss[i] <==> !Utf8.IsMarked(ss[i])
    {
      PlainIsSame(ss[i]);
    }
  }

  lemma ApplyNone<M>(apply: Meaning<M>, m: M)
    ensures ApplyAll(apply, m, []) == m
  {
  }

  lemma ApplySingle<M>(apply: Meaning<M>, m: M, f: Field)
    ensures ApplyAll(apply, m, [f]) == ApplyOne(apply, m, f)
  {
    assert [f][1..] == [];
  }

  lemma AcceptableSplits(ok: Field -> bool, fs: seq<Field>, gs: seq<Field>)
    ensures Acceptable(ok, fs + gs) <==> Acceptable(ok, fs) && Acceptable(ok, gs)
  {
    hide OnWire;
    if Acceptable(ok, fs + gs) {
      assert forall i :: 0 <= i < |fs| ==> fs[i] == (fs + gs)[i];
      assert forall i :: 0 <= i < |gs| ==> gs[i] == (fs + gs)[|fs| + i];
    }
  }

  predicate AnyRecord(f: Field) {
    true
  }

  // ---------------------------------------------------------------------------------------------
  // Timestamp
  // ---------------------------------------------------------------------------------------------

  datatype Timestamp = Timestamp(seconds: int, nanos: int)

  const BASE_TIMESTAMP := Timestamp(0, 0)

  function TimestampField(tag: nat, buf: seq<byte>, pos: nat, m: Timestamp)
    : Result<Option<(Timestamp, nat)>, WireError>
  {
    if tag == 8 then
      var (v, next) :- ReadSafeInt64(buf, pos);
      Ok(Some((m.(seconds := v), next)))
    else if tag == 16 then
      var (v, next) :- ReadInt32(buf, pos);
      Ok(Some((m.(nanos := v), next)))
    else Ok(None)
  }

  predicate TimestampKnown(f: Field) {
    f.Number? && (f.num == 1 || f.num == 2)
  }

  function TimestampMeaning(m: Timestamp, f: Field): Option<Timestamp> {
    if !TimestampKnown(f) then None
    else if f.num == 1 then Some(m.(seconds := Signed64(f.value)))
    else Some(m.(nanos := Signed32(f.value)))
  }

  /** A seconds record holds an integer that a double can hold. */
  predicate TimestampOk(f: Field) {
    f.Number? && f.num == 1 ==> IsSafe(Signed64(f.value))
  }

  lemma {:induction false} TimestampReads(f: Field, buf: seq<byte>, pos: nat, m: Timestamp)
    requires OnWire(f) && At(buf, pos, Payload(f))
    ensures TimestampField(Tag(f), buf, pos, m) ==
            if TimestampOk(f) then Reads(TimestampMeaning(m, f), pos + |Payload(f)|) else Err(UnsafeInteger)
  {
    if f.Number? {
      ReadNumber(f, buf, pos);
    }
    hide ReadVarint, Payload, Signed64, Signed32, IsSafe, At;
  }

  lemma TimestampHandles()
    ensures Handles(TimestampField, TimestampOk, TimestampMeaning)
    ensures Refuses(TimestampField, AnyRecord, TimestampOk)
    ensures IgnoresUnknown(TimestampMeaning, TimestampKnown)
    ensures Commutes(TimestampMeaning)
  {
    hide OnWire, At, Payload, Tag, TimestampField, TimestampOk;
    forall f: Field, buf: seq<byte>, pos: nat, m: Timestamp | OnWire(f) && At(buf, pos, Payload(f))
      ensures TimestampField(Tag(f), buf, pos, m) ==
              if TimestampOk(f) then Reads(TimestampMeaning(m, f), pos + |Payload(f)|) else Err(UnsafeInteger)
    {
      TimestampReads(f, buf, pos, m);
    }
  }

  /** What the encoder accepts: integers of their wire type's width. */
  predicate IsTimestamp(m: Timestamp) {
    IsInt64(m.seconds) && IsInt32(m.nanos)
  }

  /** The records of `Timestamp.encode`. */
  function TimestampFields(m: Timestamp): seq<Field>
    requires IsTimestamp(m)
  {
    IntFields(1, m.seconds) + IntFields(2, m.nanos)
  }

  lemma TimestampRoundTrip(m: Timestamp)
    requires IsTimestamp(m)
    ensures Acceptable(AnyRecord, TimestampFields(m))
    ensures Acceptable(TimestampOk, TimestampFields(m)) <==> -9007199254740991 <= m.seconds <= 9007199254740991
    ensures ApplyAll(TimestampMeaning, BASE_TIMESTAMP, TimestampFields(m)) == m
  {
    Int64RoundTrip(m.seconds);
    Int32RoundTrip(m.nanos);
    hide Signed32, Signed64, Unsigned64;
    ApplyAppend(TimestampMeaning, BASE_TIMESTAMP, IntFields(1, m.seconds), IntFields(2, m.nanos));
  }

  // ---------------------------------------------------------------------------------------------
  // TokenInfo
  // ---------------------------------------------------------------------------------------------

  datatype TokenInfo = TokenInfo(currentConversation: int, cumulative: int)

  const BASE_TOKEN_INFO := TokenInfo(0, 0)

  function TokenInfoField(tag: nat, buf: seq<byte>, pos: nat, m: TokenInfo)
    : Result<Option<(TokenInfo, nat)>, WireError>
  {
    if tag == 8 then
      var (v, next) :- ReadSafeInt64(buf, pos);
      Ok(Some((m.(currentConversation := v), next)))
    else if tag == 16 then
      var (v, next) :- ReadSafeInt64(buf, pos);
      Ok(Some((m.(cumulative := v), next)))
    else Ok(None)
  }

  predicate TokenInfoKnown(f: Field) {
    f.Number? && (f.num == 1 || f.num == 2)
  }

  function TokenInfoMeaning(m: TokenInfo, f: Field): Option<TokenInfo> {
    if !TokenInfoKnown(f) then None
    else if f.num == 1 then Some(m.(currentConversation := Signed64(f.value)))
    else Some(m.(cumulative := Signed64(f.value)))
  }

  predicate TokenInfoOk(f: Field) {
    TokenInfoKnown(f) ==> IsSafe(Signed64(f.value))
  }

  lemma {:induction false} TokenInfoReads(f: Field, buf: seq<byte>, pos: nat, m: TokenInfo)
    requires OnWire(f) && At(buf, pos, Payload(f))
    ensures TokenInfoField(Tag(f), buf, pos, m) ==
            if TokenInfoOk(f) then Reads(TokenInfoMeaning(m, f), pos + |Payload(f)|) else Err(UnsafeInteger)
  {
    if f.Number? {
      ReadNumber(f, buf, pos);
    }
    hide ReadVarint, Payload, Signed64, IsSafe, At;
  }

  lemma TokenInfoHandles()
    ensures Handles(TokenInfoField, TokenInfoOk, TokenInfoMeaning)
    ensures Refuses(TokenInfoField, AnyRecord, TokenInfoOk)
    ensures IgnoresUnknown(TokenInfoMeaning, TokenInfoKnown)
    ensures Commutes(TokenInfoMeaning)
  {
    hide OnWire, At, Payload, Tag, TokenInfoField, TokenInfoOk;
    forall f: Field, buf: seq<byte>, pos: nat, m: TokenInfo | OnWire(f) && At(buf, pos, Payload(f))
      ensures TokenInfoField(Tag(f), buf, pos, m) ==
              if TokenInfoOk(f) then Reads(TokenInfoMeaning(m, f), pos + |Payload(f)|) else Err(UnsafeInteger)
    {
      TokenInfoReads(f, buf, pos, m);
    }
  }

  /** What the encoder accepts: 64-bit integers. */
  predicate IsTokenInfo(m: TokenInfo) {
    IsInt64(m.currentConversation) && IsInt64(m.cumulative)
  }

  function TokenInfoFields(m: TokenInfo): seq<Field>
    requires IsTokenInfo(m)
  {
    IntFields(1, m.currentConversation) + IntFields(2, m.cumulative)
  }

  /** Both counts are integers that a double can hold. */
  predicate IsSafeTokenInfo(m: TokenInfo) {
    && -9007199254740991 <= m.currentConversation <= 9007199254740991
    && -9007199254740991 <= m.cumulative <= 9007199254740991
  }

  lemma TokenInfoRoundTrip(m: TokenInfo)
    requires IsTokenInfo(m)
    ensures Acceptable(AnyRecord, TokenInfoFields(m))
    ensures Acceptable(TokenInfoOk, TokenInfoFields(m)) <==> IsSafeTokenInfo(m)
    ensures ApplyAll(TokenInfoMeaning, BASE_TOKEN_INFO, TokenInfoFields(m)) == m
  {
    Int64RoundTrip(m.currentConversation);
    Int64RoundTrip(m.cumulative);
    hide Signed64, Unsigned64;
    ApplyAppend(TokenInfoMeaning, BASE_TOKEN_INFO, IntFields(1, m.currentConversation), IntFields(2, m.cumulative));
  }

  /** The decoder refuses a record with an integer that a double cannot hold. */
  lemma {:induction false} UnsafeRecordFails(f: Field, buf: seq<byte>, pos: nat, end: nat, m: TokenInfo)
    requires OnWire(f) && !TokenInfoOk(f) && pos < end
    requires At(buf, pos, Concat([f]))
    ensures DecodeLoop(TokenInfoField, buf, pos, end, m) == Err(UnsafeInteger)
  {
    hide TokenInfoField, ReadUint32, Varint, Payload, At, TokenInfoOk;
    ConcatHead([f]);
    assert [f][1..] == [] && Concat([]) == [];
    assert Varint(Tag(f)) + Payload(f) + [] == Varint(Tag(f)) + Payload(f);
    AtConcat(buf, pos, Varint(Tag(f)), Payload(f));
    ReadTag(f, buf, pos);
    TokenInfoReads(f, buf, pos + |Varint(Tag(f))|, m);
  }

  /** Token counts survive a round trip exactly when both are safe integers; otherwise decoding throws. */
  lemma TokenInfoSurvivesIffSafe(m: TokenInfo)
    requires -0x8000_0000_0000_0000 <= m.currentConversation < 0x8000_0000_0000_0000
    requires -0x8000_0000_0000_0000 <= m.cumulative < 0x8000_0000_0000_0000
    ensures IsTokenInfo(m)
    ensures Decode(TokenInfoField, TokenInfo(0, 0), Concat(TokenInfoFields(m))) ==
            if -9007199254740991 <= m.currentConversation <= 9007199254740991 &&
               -9007199254740991 <= m.cumulative <= 9007199254740991
            then Ok(m) else Err(UnsafeInteger)
  {
    hide Decode, Handles, Refuses, IgnoresUnknown, Commutes, Acceptable, ApplyAll, TokenInfoFields;
    TokenInfoHandles();
    TokenInfoRoundTrip(m);
    DecodeOrRefuse(TokenInfoField, AnyRecord, TokenInfoOk, TokenInfoMeaning, BASE_TOKEN_INFO, TokenInfoFields(m));
  }

  /** Timestamps survive a round trip exactly when their seconds are a safe integer. */
  lemma TimestampSurvivesIffSafe(m: Timestamp)
    requires -0x8000_0000_0000_0000 <= m.seconds < 0x8000_0000_0000_0000
    requires -0x8000_0000 <= m.nanos < 0x8000_0000
    ensures IsTimestamp(m)
    ensures Decode(TimestampField, Timestamp(0, 0), Concat(TimestampFields(m))) ==
            if -9007199254740991 <= m.seconds <= 9007199254740991 then Ok(m) else Err(UnsafeInteger)
  {
    hide Decode, Handles, Refuses, IgnoresUnknown, Commutes, Acceptable, ApplyAll, TimestampFields;
    TimestampHandles();
    TimestampRoundTrip(m);
    DecodeOrRefuse(TimestampField, AnyRecord, TimestampOk, TimestampMeaning, BASE_TIMESTAMP, TimestampFields(m));
  }

  // ---------------------------------------------------------------------------------------------
  // GitStatus
  // ---------------------------------------------------------------------------------------------

  datatype GitStatus = GitStatus(
    branch: string, hasChanges: bool, ahead: int, behind: int, modifiedFiles: seq<string>,
    stagedCount: int, unstagedCount: int, untrackedCount: int)

  const BASE_GIT_STATUS := GitStatus("", false, 0, 0, [], 0, 0, 0)

  function GitStatusField(tag: nat, buf: seq<byte>, pos: nat, m: GitStatus)
    : Result<Option<(GitStatus, nat)>, WireError>
  {
    if tag == 10 then
      var (s, next) :- ReadString(buf, pos);
      Ok(Some((m.(branch := s), next)))
    else if tag == 16 then
      var (b, next) :- ReadBool(buf, pos);
      Ok(Some((m.(hasChanges := b), next)))
    else if tag == 24 then
      var (v, next) :- ReadInt32(buf, pos);
      Ok(Some((m.(ahead := v), next)))
    else if tag == 32 then
      var (v, next) :- ReadInt32(buf, pos);
      Ok(Some((m.(behind := v), next)))
    else if tag == 42 then
      var (s, next) :- ReadString(buf, pos);
      Ok(Some((m.(modifiedFiles := m.modifiedFiles + [s]), next)))
    else if tag == 48 then
      var (v, next) :- ReadInt32(buf, pos);
      Ok(Some((m.(stagedCount := v), next)))
    else if tag == 56 then
      var (v, next) :- ReadInt32(buf, pos);
      Ok(Some((m.(unstagedCount := v), next)))
    else if tag == 64 then
      var (v, next) :- ReadInt32(buf, pos);
      Ok(Some((m.(untrackedCount := v), next)))
    else Ok(None)
  }

  predicate IsBytes(f: Field) {
    f.Bytes? || f.Sub?
  }

  predicate GitStatusKnown(f: Field) {
    || (IsBytes(f) && (f.num == 1 || f.num == 5))
    || (f.Number? && (2 <= f.num <= 4 || 6 <= f.num <= 8))
  }

  function GitStatusMeaning(m: GitStatus, f: Field): Option<GitStatus> {
    if !GitStatusKnown(f) then None
    else if f.num == 1 then Some(m.(branch := Text(Content(f))))
    else if f.num == 2 then Some(m.(hasChanges := f.value % TWO_64 != 0))
    else if f.num == 3 then Some(m.(ahead := Signed32(f.value)))
    else if f.num == 4 then Some(m.(behind := Signed32(f.value)))
    else if f.num == 5 then Some(m.(modifiedFiles := m.modifiedFiles + [Text(Content(f))]))
    else if f.num == 6 then Some(m.(stagedCount := Signed32(f.value)))
    else if f.num == 7 then Some(m.(unstagedCount := Signed32(f.value)))
    else Some(m.(untrackedCount := Signed32(f.value)))
  }

  lemma {:induction false} GitStatusReadsNumber(f: Field, buf: seq<byte>, pos: nat, m: GitStatus)
    requires OnWire(f) && f.Number? && At(buf, pos, Payload(f))
    ensures GitStatusField(Tag(f), buf, pos, m) == Reads(GitStatusMeaning(m, f), pos + |Payload(f)|)
  {
    ReadNumber(f, buf, pos);
    hide ReadVarint, ReadString, Payload, Signed32, At, Content, Text, OnWire;
  }

  lemma {:induction false} GitStatusReadsText(f: Field, buf: seq<byte>, pos: nat, m: GitStatus)
    requires OnWire(f) && IsBytes(f) && At(buf, pos, Payload(f))
    ensures GitStatusField(Tag(f), buf, pos, m) == Reads(GitStatusMeaning(m, f), pos + |Payload(f)|)
  {
    hide ReadInt32, ReadBool, ReadString, Payload, At, Content, Text, OnWire, Concat;
    ReadText(f, buf, pos);
  }

  lemma {:induction false} GitStatusReads(f: Field, buf: seq<byte>, pos: nat, m: GitStatus)
    requires OnWire(f) && At(buf, pos, Payload(f))
    ensures GitStatusField(Tag(f), buf, pos, m) == Reads(GitStatusMeaning(m, f), pos + |Payload(f)|)
  {
    if f.Number? {
      GitStatusReadsNumber(f, buf, pos, m);
    } else if IsBytes(f) {
      GitStatusReadsText(f, buf, pos, m);
    } else {
      hide ReadInt32, ReadBool, ReadString, Payload, At, Content, Text, OnWire;
    }
  }

  lemma GitStatusHandles()
    ensures Handles(GitStatusField, AnyRecord, GitStatusMeaning)
    ensures IgnoresUnknown(GitStatusMeaning, GitStatusKnown)
    ensures Commutes(GitStatusMeaning)
  {
    hide OnWire, At, Payload, Tag, GitStatusField, Content, Text, Signed32;
    forall f: Field, buf: seq<byte>, pos: nat, m: GitStatus |
      OnWire(f) && AnyRecord(f) && At(buf, pos, Payload(f))
      ensures GitStatusField(Tag(f), buf, pos, m) == Reads(GitStatusMeaning(m, f), pos + |Payload(f)|)
    {
      GitStatusReads(f, buf, pos, m);
    }
  }

  predicate IsGitStatus(m: GitStatus) {
    && IsText(m.branch)
    && IsInt32(m.ahead) && IsInt32(m.behind)
    && (forall i :: 0 <= i < |m.modifiedFiles| ==> IsText(m.modifiedFiles[i]))
    && IsInt32(m.stagedCount) && IsInt32(m.unstagedCount) && IsInt32(m.untrackedCount)
  }

  function GitStatusFields(m: GitStatus): seq<Field>
    requires IsGitStatus(m)
  {
    TextFields(1, m.branch) + (BoolFields(2, m.hasChanges) + (IntFields(3, m.ahead) + (IntFields(4, m.behind)
    + (RepeatedTextFields(5, m.modifiedFiles) + (IntFields(6, m.stagedCount)
    + (IntFields(7, m.unstagedCount) + IntFields(8, m.untrackedCount)))))))
  }

  lemma FileApplied(m: GitStatus, file: string)
    requires IsText(file)
    ensures Acceptable(AnyRecord, [TextField(5, file)])
    ensures ApplyOne(GitStatusMeaning, m, TextField(5, file)) ==
            m.(modifiedFiles := m.modifiedFiles + [Plain(file)])
  {
    TextRoundTrip(file);
    hide Text, Plain;
  }

  lemma {:induction false} GitStatusFiles(m: GitStatus, files: seq<string>)
    requires forall i :: 0 <= i < |files| ==> IsText(files[i])
    ensures Acceptable(AnyRecord, RepeatedTextFields(5, files))
    ensures ApplyAll(GitStatusMeaning, m, RepeatedTextFields(5, files)) ==
            m.(modifiedFiles := m.modifiedFiles + PlainTexts(files))
    decreases |files|
  {
    if files == [] {
      assert m.modifiedFiles + PlainTexts(files) == m.modifiedFiles;
    } else {
      hide Plain, PlainTexts, IsText, ApplyAll, Acceptable, GitStatusMeaning, OnWire, TextField;
      var file, more := TextField(5, files[0]), RepeatedTextFields(5, files[1..]);
      var m' := m.(modifiedFiles := m.modifiedFiles + [Plain(files[0])]);
      FileApplied(m, files[0]);
      GitStatusFiles(m', files[1..]);
      ApplyHead(GitStatusMeaning, m, file, more);
      AcceptableSplits(AnyRecord, [file], more);
      assert m.modifiedFiles + PlainTexts(files) == m.modifiedFiles + [Plain(files[0])] + PlainTexts(files[1..]);
    }
  }

  lemma {:induction false} GitStatusInt(m: GitStatus, num: nat, v: int)
    requires IsInt32(v) && (num == 3 || num == 4 || 6 <= num <= 8)
    ensures Acceptable(AnyRecord, IntFields(num, v))
    ensures ApplyAll(GitStatusMeaning, m, IntFields(num, v)) ==
            if v == 0 then m
            else if num == 3 then m.(ahead := v)
            else if num == 4 then m.(behind := v)
            else if num == 6 then m.(stagedCount := v)
            else if num == 7 then m.(unstagedCount := v)
            else m.(untrackedCount := v)
  {
    Int32RoundTrip(v);
    hide Signed32, Unsigned64;
  }

  /** The git status as it is read back. */
  function PlainGitStatus(m: GitStatus): GitStatus {
    m.(branch := Plain(m.branch), modifiedFiles := PlainTexts(m.modifiedFiles))
  }

  lemma GitStatusRoundTrip(m: GitStatus)
    requires IsGitStatus(m)
    ensures Acceptable(AnyRecord, GitStatusFields(m))
    ensures ApplyAll(GitStatusMeaning, BASE_GIT_STATUS, GitStatusFields(m)) == PlainGitStatus(m)
  {
    var f8 := IntFields(8, m.untrackedCount);
    var f7 := IntFields(7, m.unstagedCount) + f8;
    var f6 := IntFields(6, m.stagedCount) + f7;
    var f5 := RepeatedTextFields(5, m.modifiedFiles) + f6;
    var f4 := IntFields(4, m.behind) + f5;
    var f3 := IntFields(3, m.ahead) + f4;
    var f2 := BoolFields(2, m.hasChanges) + f3;
    var m1 := BASE_GIT_STATUS.(branch := Plain(m.branch));
    var m2 := m1.(hasChanges := m.hasChanges);
    var m3 := m2.(ahead := m.ahead);
    var m4 := m3.(behind := m.behind);
    var m5 := m4.(modifiedFiles := PlainTexts(m.modifiedFiles));
    var m6 := m5.(stagedCount := m.stagedCount);
    var m7 := m6.(unstagedCount := m.unstagedCount);
    GitStatusStart(m);
    hide ApplyAll, IntFields, TextFields, BoolFields, RepeatedTextFields, Acceptable, Plain, PlainTexts;
    ApplyAppend(GitStatusMeaning, BASE_GIT_STATUS, TextFields(1, m.branch), f2);
    ApplyAppend(GitStatusMeaning, m1, BoolFields(2, m.hasChanges), f3);
    ApplyAppend(GitStatusMeaning, m2, IntFields(3, m.ahead), f4);
    GitStatusInt(m2, 3, m.ahead);
    ApplyAppend(GitStatusMeaning, m3, IntFields(4, m.behind), f5);
    GitStatusInt(m3, 4, m.behind);
    ApplyAppend(GitStatusMeaning, m4, RepeatedTextFields(5, m.modifiedFiles), f6);
    GitStatusFiles(m4, m.modifiedFiles);
    assert [] + PlainTexts(m.modifiedFiles) == PlainTexts(m.modifiedFiles);
    ApplyAppend(GitStatusMeaning, m5, IntFields(6, m.stagedCount), f7);
    GitStatusInt(m5, 6, m.stagedCount);
    ApplyAppend(GitStatusMeaning, m6, IntFields(7, m.unstagedCount), f8);
    GitStatusInt(m6, 7, m.unstagedCount);
    GitStatusInt(m7, 8, m.untrackedCount);
    AcceptableSplits(AnyRecord, IntFields(7, m.unstagedCount), f8);
    AcceptableSplits(AnyRecord, IntFields(6, m.stagedCount), f7);
    AcceptableSplits(AnyRecord, RepeatedTextFields(5, m.modifiedFiles), f6);
    AcceptableSplits(AnyRecord, IntFields(4, m.behind), f5);
    AcceptableSplits(AnyRecord, IntFields(3, m.ahead), f4);
    AcceptableSplits(AnyRecord, BoolFields(2, m.hasChanges), f3);
    AcceptableSplits(AnyRecord, TextFields(1, m.branch), f2);
  }

  lemma GitStatusStart(m: GitStatus)
    requires IsText(m.branch)
    ensures var m1 := BASE_GIT_STATUS.(branch := Plain(m.branch));
            && Acceptable(AnyRecord, TextFields(1, m.branch))
            && Acceptable(AnyRecord, BoolFields(2, m.hasChanges))
            && ApplyAll(GitStatusMeaning, BASE_GIT_STATUS, TextFields(1, m.branch)) == m1
            && ApplyAll(GitStatusMeaning, m1, BoolFields(2, m.hasChanges)) == m1.(hasChanges := m.hasChanges)
  {
    TextRoundTrip(m.branch);
    hide Text;
  }

  // ---------------------------------------------------------------------------------------------
  // AgentHealthEntry
  // ---------------------------------------------------------------------------------------------

  datatype AgentHealthEntry = AgentHealthEntry(
    agentId: string, containerId: string, containerAlive: bool, previousStatus: string, newStatus: string)

  const BASE_AGENT_HEALTH_ENTRY := AgentHealthEntry("", "", false, "", "")

  function AgentHealthEntryField(tag: nat, buf: seq<byte>, pos: nat, m: AgentHealthEntry)
    : Result<Option<(AgentHealthEntry, nat)>, WireError>
  {
    if tag == 10 then
      var (s, next) :- ReadString(buf, pos);
      Ok(Some((m.(agentId := s), next)))
    else if tag == 18 then
      var (s, next) :- ReadString(buf, pos);
      Ok(Some((m.(containerId := s), next)))
    else if tag == 24 then
      var (b, next) :- ReadBool(buf, pos);
      Ok(Some((m.(containerAlive := b), next)))
    else if tag == 34 then
      var (s, next) :- ReadString(buf, pos);
      Ok(Some((m.(previousStatus := s), next)))
    else if tag == 42 then
      var (s, next) :- ReadString(buf, pos);
      Ok(Some((m.(newStatus := s), next)))
    else Ok(None)
  }

  predicate AgentHealthEntryKnown(f: Field) {
    (IsBytes(f) && (f.num == 1 || f.num == 2 || f.num == 4 || f.num == 5)) || (f.Number? && f.num == 3)
  }

  function AgentHealthEntryMeaning(m: AgentHealthEntry, f: Field): Option<AgentHealthEntry> {
    if !AgentHealthEntryKnown(f) then None
    else if f.num == 1 then Some(m.(agentId := Text(Content(f))))
    else if f.num == 2 then Some(m.(containerId := Text(Content(f))))
    else if f.num == 3 then Some(m.(containerAlive := f.value % TWO_64 != 0))
    else if f.num == 4 then Some(m.(previousStatus := Text(Content(f))))
    else Some(m.(newStatus := Text(Content(f))))
  }

  lemma {:induction false} AgentHealthEntryReadsText(f: Field, buf: seq<byte>, pos: nat, m: AgentHealthEntry)
    requires OnWire(f) && IsBytes(f) && At(buf, pos, Payload(f))
    ensures AgentHealthEntryField(Tag(f), buf, pos, m) ==
            Reads(AgentHealthEntryMeaning(m, f), pos + |Payload(f)|)
  {
    ReadText(f, buf, pos);
    hide ReadBool, ReadString, Payload, At, Content, Text, OnWire;
  }

  lemma {:induction false} AgentHealthEntryReads(f: Field, buf: seq<byte>, pos: nat, m: AgentHealthEntry)
    requires OnWire(f) && At(buf, pos, Payload(f))
    ensures AgentHealthEntryField(Tag(f), buf, pos, m) ==
            Reads(AgentHealthEntryMeaning(m, f), pos + |Payload(f)|)
  {
    if IsBytes(f) {
      AgentHealthEntryReadsText(f, buf, pos, m);
    } else {
      AgentHealthEntryReadsOther(f, buf, pos, m);
    }
    hide *;
  }

  lemma {:induction false} AgentHealthEntryReadsOther(f: Field, buf: seq<byte>, pos: nat, m: AgentHealthEntry)
    requires OnWire(f) && !IsBytes(f) && At(buf, pos, Payload(f))
    ensures AgentHealthEntryField(Tag(f), buf, pos, m) ==
            Reads(AgentHealthEntryMeaning(m, f), pos + |Payload(f)|)
  {
    hide ReadBool, ReadString, Payload, Content, Text;
    if f.Number? {
      ReadBoolean(f, buf, pos);
    }
    hide At, OnWire;
  }

  lemma {:induction false} ReadBoolean(f: Field, buf: seq<byte>, pos: nat)
    requires OnWire(f) && f.Number? && At(buf, pos, Payload(f))
    ensures ReadBool(buf, pos) == Ok((f.value % TWO_64 != 0, pos + |Payload(f)|))
  {
    ReadNumber(f, buf, pos);
    hide ReadVarint;
  }

  lemma AgentHealthEntryHandles()
    ensures Handles(AgentHealthEntryField, AnyRecord, AgentHealthEntryMeaning)
    ensures IgnoresUnknown(AgentHealthEntryMeaning, AgentHealthEntryKnown)
    ensures Commutes(AgentHealthEntryMeaning)
  {
    hide OnWire, At, Payload, Tag, AgentHealthEntryField, Content, Text;
    forall f: Field, buf: seq<byte>, pos: nat, m: AgentHealthEntry |
      OnWire(f) && AnyRecord(f) && At(buf, pos, Payload(f))
      ensures AgentHealthEntryField(Tag(f), buf, pos, m) ==
              Reads(AgentHealthEntryMeaning(m, f), pos + |Payload(f)|)
    {
      AgentHealthEntryReads(f, buf, pos, m);
    }
  }

  predicate IsAgentHealthEntry(m: AgentHealthEntry) {
    IsText(m.agentId) && IsText(m.containerId) && IsText(m.previousStatus) && IsText(m.newStatus)
  }

  function AgentHealthEntryFields(m: AgentHealthEntry): seq<Field>
    requires IsAgentHealthEntry(m)
  {
    TextFields(1, m.agentId) + (TextFields(2, m.containerId) + (BoolFields(3, m.containerAlive)
    + (TextFields(4, m.previousStatus) + TextFields(5, m.newStatus))))
  }

  lemma {:induction false} AgentHealthEntryText(m: AgentHealthEntry, num: nat, s: string)
    requires IsText(s) && (num == 1 || num == 2 || num == 4 || num == 5)
    ensures Acceptable(AnyRecord, TextFields(num, s))
    ensures ApplyAll(AgentHealthEntryMeaning, m, TextFields(num, s)) ==
            if s == "" then m
            else if num == 1 then m.(agentId := Plain(s))
            else if num == 2 then m.(containerId := Plain(s))
            else if num == 4 then m.(previousStatus := Plain(s))
            else m.(newStatus := Plain(s))
  {
    TextRoundTrip(s);
    hide Text;
  }

  /** The health entry as it is read back. */
  function PlainEntry(m: AgentHealthEntry): AgentHealthEntry {
    m.(agentId := Plain(m.agentId), containerId := Plain(m.containerId),
       previousStatus := Plain(m.previousStatus), newStatus := Plain(m.newStatus))
  }

  lemma AgentHealthEntryRoundTrip(m: AgentHealthEntry)
    requires IsAgentHealthEntry(m)
    ensures Acceptable(AnyRecord, AgentHealthEntryFields(m))
    ensures ApplyAll(AgentHealthEntryMeaning, BASE_AGENT_HEALTH_ENTRY, AgentHealthEntryFields(m)) == PlainEntry(m)
  {
    var f5 := TextFields(5, m.newStatus);
    var f4 := TextFields(4, m.previousStatus) + f5;
    var b3 := BoolFields(3, m.containerAlive);
    var f3 := b3 + f4;
    var f2 := TextFields(2, m.containerId) + f3;
    var m1 := BASE_AGENT_HEALTH_ENTRY.(agentId := Plain(m.agentId));
    var m2 := m1.(containerId := Plain(m.containerId));
    var m3 := m2.(containerAlive := m.containerAlive);
    var m4 := m3.(previousStatus := Plain(m.previousStatus));
    assert ApplyAll(AgentHealthEntryMeaning, m2, b3) == m3 && Acceptable(AnyRecord, b3);
    hide ApplyAll, TextFields, BoolFields, Acceptable;
    ApplyAppend(AgentHealthEntryMeaning, BASE_AGENT_HEALTH_ENTRY, TextFields(1, m.agentId), f2);
    AgentHealthEntryText(BASE_AGENT_HEALTH_ENTRY, 1, m.agentId);
    ApplyAppend(AgentHealthEntryMeaning, m1, TextFields(2, m.containerId), f3);
    AgentHealthEntryText(m1, 2, m.containerId);
    ApplyAppend(AgentHealthEntryMeaning, m2, b3, f4);
    ApplyAppend(AgentHealthEntryMeaning, m3, TextFields(4, m.previousStatus), f5);
    AgentHealthEntryText(m3, 4, m.previousStatus);
    AgentHealthEntryText(m4, 5, m.newStatus);
    AcceptableSplits(AnyRecord, TextFields(4, m.previousStatus), f5);
    AcceptableSplits(AnyRecord, b3, f4);
    AcceptableSplits(AnyRecord, TextFields(2, m.containerId), f3);
    AcceptableSplits(AnyRecord, TextFields(1, m.agentId), f2);
  }

  // ---------------------------------------------------------------------------------------------
  // Error.DetailsEntry
  // ---------------------------------------------------------------------------------------------

  datatype DetailsEntry = DetailsEntry(key: string, value: string)

  const BASE_DETAILS_ENTRY := DetailsEntry("", "")

  function DetailsEntryField(tag: nat, buf: seq<byte>, pos: nat, m: DetailsEntry)
    : Result<Option<(DetailsEntry, nat)>, WireError>
  {
    if tag == 10 then
      var (s, next) :- ReadString(buf, pos);
      Ok(Some((m.(key := s), next)))
    else if tag == 18 then
      var (s, next) :- ReadString(buf, pos);
      Ok(Some((m.(value := s), next)))
    else Ok(None)
  }

  predicate DetailsEntryKnown(f: Field) {
    IsBytes(f) && (f.num == 1 || f.num == 2)
  }

  function DetailsEntryMeaning(m: DetailsEntry, f: Field): Option<DetailsEntry> {
    if !DetailsEntryKnown(f) then None
    else if f.num == 1 then Some(m.(key := Text(Content(f))))
    else Some(m.(value := Text(Content(f))))
  }

  lemma {:induction false} DetailsEntryReads(f: Field, buf: seq<byte>, pos: nat, m: DetailsEntry)
    requires OnWire(f) && At(buf, pos, Payload(f))
    ensures DetailsEntryField(Tag(f), buf, pos, m) == Reads(DetailsEntryMeaning(m, f), pos + |Payload(f)|)
  {
    if IsBytes(f) {
      ReadText(f, buf, pos);
    }
    hide ReadString, Payload, At, Content, Text;
  }

  lemma DetailsEntryHandles()
    ensures Handles(DetailsEntryField, AnyRecord, DetailsEntryMeaning)
    ensures IgnoresUnknown(DetailsEntryMeaning, DetailsEntryKnown)
    ensures Commutes(DetailsEntryMeaning)
  {
    hide OnWire, At, Payload, Tag, DetailsEntryField, Content, Text;
    forall f: Field, buf: seq<byte>, pos: nat, m: DetailsEntry |
      OnWire(f) && AnyRecord(f) && At(buf, pos, Payload(f))
      ensures DetailsEntryField(Tag(f), buf, pos, m) == Reads(DetailsEntryMeaning(m, f), pos + |Payload(f)|)
    {
      DetailsEntryReads(f, buf, pos, m);
    }
  }

  predicate IsDetailsEntry(m: DetailsEntry) {
    IsText(m.key) && IsText(m.value)
  }

  function DetailsEntryFields(m: DetailsEntry): seq<Field>
    requires IsDetailsEntry(m)
  {
    TextFields(1, m.key) + TextFields(2, m.value)
  }

  /** The map entry as it is read back. */
  function PlainDetail(m: DetailsEntry): DetailsEntry {
    DetailsEntry(Plain(m.key), Plain(m.value))
  }

  lemma DetailsEntryRoundTrip(m: DetailsEntry)
    requires IsDetailsEntry(m)
    ensures Acceptable(AnyRecord, DetailsEntryFields(m))
    ensures ApplyAll(DetailsEntryMeaning, BASE_DETAILS_ENTRY, DetailsEntryFields(m)) == PlainDetail(m)
  {
    TextRoundTrip(m.key);
    TextRoundTrip(m.value);
    hide Text;
    ApplyAppend(DetailsEntryMeaning, BASE_DETAILS_ENTRY, TextFields(1, m.key), TextFields(2, m.value));
  }
}
