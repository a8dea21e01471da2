/**
 Bytes that end too early: a message cut inside a record is refused, at both levels of nesting, and one
 cut between two records is the message of the records before the cut.
 */
module WireTruncated {
  import opened Options
  import opened Wire
  import opened WireLoop
  import opened WireSimple
  import opened WireNested
  import opened WireAgentState
  import opened WireHealthCheck
  import opened WireErrorMessage

  // ---------------------------------------------------------------------------------------------
  // Cut bytes
  // ---------------------------------------------------------------------------------------------

  /** The buffer ends within the bytes `bs` that should stand at `pos`. */
  predicate IsCut(buf: seq<byte>, pos: nat, bs: seq<byte>) {
    pos <= |buf| && buf[pos..] < bs
  }

  lemma CutConcat(buf: seq<byte>, pos: nat, a: seq<byte>, b: seq<byte>)
    requires IsCut(buf, pos, a + b)
    ensures IsCut(buf, pos, a) || (At(buf, pos, a) && IsCut(buf, pos + |a|, b))
  {
    var rest := buf[pos..];
    assert rest == (a + b)[..|rest|];
    if |rest| < |a| {
      assert rest == a[..|rest|];
    } else {
      assert a == rest[..|a|] && buf[pos + |a|..] == rest[|a|..];
      assert rest[|a|..] == b[..|rest| - |a|];
    }
  }

  lemma {:induction false} CutVarint(buf: seq<byte>, pos: nat, n: nat, left: nat)
    requires left > 0 && n < Power128(left) && IsCut(buf, pos, Varint(n))
    ensures ReadVarint(buf, pos, left) == Err(PrematureEof)
    ensures SkipVarint(buf, pos) == Err(PrematureEof)
    decreases left
  {
    if pos < |buf| {
      assert buf[pos] == buf[pos..][0] == Varint(n)[0];
      assert n >= 128;
      CutConcat(buf, pos, [128 + n % 128], Varint(n / 128));
      CutVarint(buf, pos + 1, n / 128, left - 1);
    }
  }

  lemma {:induction false} CutLength(f: Field, buf: seq<byte>, pos: nat)
    requires OnWire(f) && IsBytes(f) && IsCut(buf, pos, Payload(f))
    ensures var start, n := pos + |Varint(|Content(f)|)|, |Content(f)|;
            || ReadUint32(buf, pos) == Err(PrematureEof)
            || (ReadUint32(buf, pos) == Ok((n, start)) && start + n > |buf| && IsCut(buf, start, Content(f)))
  {
    hide Varint, ReadVarint, Power128, Concat, At, IsCut;
    var bytes := Content(f);
    SixtyFourBitsFit(|bytes|);
    CutConcat(buf, pos, Varint(|bytes|), bytes);
    if IsCut(buf, pos, Varint(|bytes|)) {
      CutVarint(buf, pos, |bytes|, 10);
    } else {
      ReadWrittenVarint(buf, pos, |bytes|, 10);
      CutIsShort(buf, pos + |Varint(|bytes|)|, bytes);
    }
  }

  lemma CutIsShort(buf: seq<byte>, pos: nat, bs: seq<byte>)
    requires IsCut(buf, pos, bs)
    ensures pos <= |buf| < pos + |bs|
  {
  }

  lemma {:induction false} CutNumber(f: Field, buf: seq<byte>, pos: nat)
    requires OnWire(f) && f.Number? && IsCut(buf, pos, Payload(f))
    ensures ReadVarint(buf, pos, 10) == Err(PrematureEof)
  {
    SixtyFourBitsFit(f.value);
    CutVarint(buf, pos, f.value, 10);
  }

  lemma {:induction false} CutText(f: Field, buf: seq<byte>, pos: nat)
    requires OnWire(f) && IsBytes(f) && IsCut(buf, pos, Payload(f))
    ensures ReadString(buf, pos) == Err(PrematureEof)
  {
    CutLength(f, buf, pos);
  }

  /** Skipping a record that is cut fails, whatever the record holds. */
  lemma {:induction false} CutSkip(f: Field, buf: seq<byte>, pos: nat)
    requires OnWire(f) && IsCut(buf, pos, Payload(f))
    ensures Skip(buf, pos, WireType(f)) == Err(PrematureEof)
  {
    match f
    case Number(_, value) =>
      SixtyFourBitsFit(value);
      CutVarint(buf, pos, value, 10);
    case Bytes(_, _) => CutLength(f, buf, pos);
    case Sub(_, _) => CutLength(f, buf, pos);
    case Fixed64(_, _) =>
    case Fixed32(_, _) =>
  }

  lemma {:induction false} CutTag(f: Field, buf: seq<byte>, pos: nat)
    requires OnWire(f) && IsCut(buf, pos, Varint(Tag(f)))
    ensures ReadUint32(buf, pos) == Err(PrematureEof)
  {
    hide Varint, ReadVarint, Power128, IsCut;
    SixtyFourBitsFit(Tag(f));
    CutVarint(buf, pos, Tag(f), 10);
  }

  // ---------------------------------------------------------------------------------------------
  // The decode loop on cut bytes
  // ---------------------------------------------------------------------------------------------

  /** The handler refuses every record that it knows and that is cut in its payload. */
  ghost predicate RefusesCut<M(!new)>(h: Handler<M>, ok: Field -> bool, apply: Meaning<M>) {
    forall f: Field, buf: seq<byte>, pos: nat, m: M ::
      OnWire(f) && ok(f) && IsCut(buf, pos, Payload(f)) ==>
        h(Tag(f), buf, pos, m) == if apply(m, f).Some? then Err(PrematureEof) else Ok(None)
  }

  lemma {:induction false} RefusesOne<M(!new)>(h: Handler<M>, ok: Field -> bool, apply: Meaning<M>, f: Field,
                                               buf: seq<byte>, pos: nat, m: M)
    requires RefusesCut(h, ok, apply) && OnWire(f) && ok(f) && IsCut(buf, pos, Payload(f))
    ensures h(Tag(f), buf, pos, m) == if apply(m, f).Some? then Err(PrematureEof) else Ok(None)
  {
  }

  /** The loop fails at a record that is cut in its tag or its payload. */
  lemma {:induction false} CutRecord<M(!new)>(h: Handler<M>, ok: Field -> bool, apply: Meaning<M>, f: Field,
                                              buf: seq<byte>, pos: nat, end: nat, m: M)
    requires RefusesCut(h, ok, apply) && OnWire(f) && ok(f)
    requires IsCut(buf, pos, Varint(Tag(f)) + Payload(f)) && pos < end
    ensures DecodeLoop(h, buf, pos, end, m) == Err(PrematureEof)
  {
    hide RefusesCut, ReadUint32, Varint, Payload, Skip, IsCut, At, OnWire, Tag, WireType;
    CutConcat(buf, pos, Varint(Tag(f)), Payload(f));
    if IsCut(buf, pos, Varint(Tag(f))) {
      CutTag(f, buf, pos);
    } else {
      var p := pos + |Varint(Tag(f))|;
      ReadTag(f, buf, pos);
      RefusesOne(h, ok, apply, f, buf, p, m);
      CutSkip(f, buf, p);
    }
  }

  /** The loop fails when the buffer ends before the records do that its length announces. */
  lemma {:induction false} CutFields<M(!new)>(h: Handler<M>, ok: Field -> bool, apply: Meaning<M>, fs: seq<Field>,
                                              buf: seq<byte>, pos: nat, end: nat, m: M)
    requires Handles(h, ok, apply) && RefusesCut(h, ok, apply) && Acceptable(ok, fs)
    requires IsCut(buf, pos, Concat(fs)) && pos + |Concat(fs)| <= end
    ensures DecodeLoop(h, buf, pos, end, m) == Err(PrematureEof)
    decreases |fs|
  {
    hide Handles, RefusesCut, DecodeLoop, Payload, Varint, At, OnWire, Concat, IsCut;
    CutIsShort(buf, pos, Concat(fs));
    NoBytes();
    assert fs != [];
    var f, rest := fs[0], fs[1..];
    var record := Varint(Tag(f)) + Payload(f);
    ConcatHead(fs);
    CutConcat(buf, pos, record, Concat(rest));
    assert forall i :: 0 <= i < |rest| ==> rest[i] == fs[i + 1];
    if IsCut(buf, pos, record) {
      CutRecord(h, ok, apply, f, buf, pos, end, m);
    } else {
      DecodeOne(h, ok, apply, f, buf, pos, end, m);
      CutFields(h, ok, apply, rest, buf, pos + |record|, end, ApplyOne(apply, m, f));
    }
  }

  lemma NoBytes()
    ensures Concat([]) == []
  {
  }

  /** A nested message that is cut is refused by its own decoder or by the missing rest of its length. */
  lemma {:induction false} CutMessage<M(!new)>(h: Handler<M>, ok: Field -> bool, apply: Meaning<M>, base: M,
                                               f: Field, buf: seq<byte>, pos: nat)
    requires Handles(h, ok, apply) && RefusesCut(h, ok, apply)
    requires OnWire(f) && f.Sub? && Acceptable(ok, f.fields) && IsCut(buf, pos, Payload(f))
    ensures ReadMessage(h, base, buf, pos) == Err(PrematureEof)
  {
    hide Handles, RefusesCut, DecodeLoop, Acceptable, OnWire, IsCut, Varint, Concat, ReadUint32, Payload;
    CutLength(f, buf, pos);
    var start, n := pos + |Varint(|Content(f)|)|, |Content(f)|;
    if ReadUint32(buf, pos).Ok? {
      CutFields(h, ok, apply, f.fields, buf, start, start + n, base);
    }
  }

  // ---------------------------------------------------------------------------------------------
  // Whole messages
  // ---------------------------------------------------------------------------------------------

  /** The bytes are those of the first records, up to some number of them. */
  predicate EndsBetween(fs: seq<Field>, bytes: seq<byte>) {
    exists n :: 0 <= n <= |fs| && bytes == Concat(fs[..n])
  }

  lemma {:induction false} EndsBetweenRest(fs: seq<Field>, bytes: seq<byte>)
    requires fs != [] && EndsBetween(fs[1..], bytes)
    ensures EndsBetween(fs, Varint(Tag(fs[0])) + Payload(fs[0]) + bytes)
  {
    hide Payload, Varint, Concat;
    var n :| 0 <= n <= |fs[1..]| && bytes == Concat(fs[1..][..n]);
    var first := fs[..n + 1];
    assert first[1..] == fs[1..][..n] && first[0] == fs[0];
    ConcatHead(first);
  }

  lemma NothingEndsBetween(fs: seq<Field>)
    ensures EndsBetween(fs, [])
  {
    assert fs[..0] == [];
    NoBytes();
  }

  /** The bytes at `pos` start like the records and end within one of them. */
  lemma {:induction false} CutWithin<M(!new)>(h: Handler<M>, ok: Field -> bool, apply: Meaning<M>, fs: seq<Field>,
                                              buf: seq<byte>, pos: nat, m: M)
    requires Handles(h, ok, apply) && RefusesCut(h, ok, apply) && Acceptable(ok, fs)
    requires IsCut(buf, pos, Concat(fs)) && !EndsBetween(fs, buf[pos..])
    ensures DecodeLoop(h, buf, pos, |buf|, m) == Err(PrematureEof)
    decreases |fs|
  {
    hide Handles, RefusesCut, DecodeLoop, Payload, Varint, At, OnWire, Concat, IsCut, EndsBetween;
    NoBytes();
    CutIsShort(buf, pos, Concat(fs));
    assert pos == |buf| ==> buf[pos..] == [];
    NothingEndsBetween(fs);
    var f, rest := fs[0], fs[1..];
    var record := Varint(Tag(f)) + Payload(f);
    ConcatHead(fs);
    CutConcat(buf, pos, record, Concat(rest));
    assert forall i :: 0 <= i < |rest| ==> rest[i] == fs[i + 1];
    if IsCut(buf, pos, record) {
      CutRecord(h, ok, apply, f, buf, pos, |buf|, m);
    } else {
      AtIsSlice(buf, pos, record);
      assert buf[pos..] == record + buf[pos + |record|..];
      if EndsBetween(rest, buf[pos + |record|..]) {
        EndsBetweenRest(fs, buf[pos + |record|..]);
      }
      DecodeOne(h, ok, apply, f, buf, pos, |buf|, m);
      CutWithin(h, ok, apply, rest, buf, pos + |record|, ApplyOne(apply, m, f));
    }
  }

  lemma FirstAreAcceptable(ok: Field -> bool, fs: seq<Field>, n: nat)
    requires Acceptable(ok, fs) && n <= |fs|
    ensures Acceptable(ok, fs[..n])
  {
    hide OnWire;
  }

  /**
   Decoding any proper beginning of a message: it succeeds exactly when the bytes end between two
   records, and then gives the message of the records before the cut.
   */
  lemma {:induction false} DecodeBeginning<M(!new)>(h: Handler<M>, ok: Field -> bool, apply: Meaning<M>, base: M,
                                                    fs: seq<Field>, bytes: seq<byte>)
    requires Handles(h, ok, apply) && RefusesCut(h, ok, apply) && Acceptable(ok, fs)
    requires bytes < Concat(fs)
    ensures !EndsBetween(fs, bytes) ==> Decode(h, base, bytes) == Err(PrematureEof)
    ensures forall n :: 0 <= n <= |fs| && bytes == Concat(fs[..n]) ==>
              Decode(h, base, bytes) == Ok(ApplyAll(apply, base, fs[..n]))
  {
    hide Handles, RefusesCut, Acceptable, Concat, ApplyAll, EndsBetween, DecodeLoop;
    assert bytes[0..] == bytes;
    if !EndsBetween(fs, bytes) {
      CutWithin(h, ok, apply, fs, bytes, 0, base);
    }
    forall n | 0 <= n <= |fs| && bytes == Concat(fs[..n])
      ensures Decode(h, base, bytes) == Ok(ApplyAll(apply, base, fs[..n]))
    {
      FirstAreAcceptable(ok, fs, n);
      DecodeRecords(h, ok, apply, base, fs[..n]);
    }
  }

  // ---------------------------------------------------------------------------------------------
  // The messages
  // ---------------------------------------------------------------------------------------------

  lemma TimestampRefusesCut()
    ensures RefusesCut(TimestampField, TimestampOk, TimestampMeaning)
  {
    hide OnWire, Payload, IsCut, ReadVarint, TimestampOk;
    forall f: Field, buf: seq<byte>, pos: nat, m: Timestamp | OnWire(f) && IsCut(buf, pos, Payload(f))
      ensures TimestampField(Tag(f), buf, pos, m) ==
              if TimestampMeaning(m, f).Some? then Err(PrematureEof) else Ok(None)
    {
      if f.Number? {
        CutNumber(f, buf, pos);
      }
    }
  }

  lemma TokenInfoRefusesCut()
    ensures RefusesCut(TokenInfoField, TokenInfoOk, TokenInfoMeaning)
  {
    hide OnWire, Payload, IsCut, ReadVarint, TokenInfoOk;
    forall f: Field, buf: seq<byte>, pos: nat, m: TokenInfo | OnWire(f) && IsCut(buf, pos, Payload(f))
      ensures TokenInfoField(Tag(f), buf, pos, m) ==
              if TokenInfoMeaning(m, f).Some? then Err(PrematureEof) else Ok(None)
    {
      if f.Number? {
        CutNumber(f, buf, pos);
      }
    }
  }

  lemma GitStatusRefusesCut()
    ensures RefusesCut(GitStatusField, AnyRecord, GitStatusMeaning)
  {
    hide OnWire, Payload, IsCut, ReadVarint, ReadString, Content, Text;
    forall f: Field, buf: seq<byte>, pos: nat, m: GitStatus | OnWire(f) && IsCut(buf, pos, Payload(f))
      ensures GitStatusField(Tag(f), buf, pos, m) ==
              if GitStatusMeaning(m, f).Some? then Err(PrematureEof) else Ok(None)
    {
      if f.Number? {
        CutNumber(f, buf, pos);
      } else if IsBytes(f) {
        CutText(f, buf, pos);
      }
    }
  }

  lemma AgentHealthEntryRefusesCut()
    ensures RefusesCut(AgentHealthEntryField, AnyRecord, AgentHealthEntryMeaning)
  {
    hide OnWire, Payload, IsCut, ReadVarint, ReadString, Content, Text;
    forall f: Field, buf: seq<byte>, pos: nat, m: AgentHealthEntry | OnWire(f) && IsCut(buf, pos, Payload(f))
      ensures AgentHealthEntryField(Tag(f), buf, pos, m) ==
              if AgentHealthEntryMeaning(m, f).Some? then Err(PrematureEof) else Ok(None)
    {
      if f.Number? {
        CutNumber(f, buf, pos);
      } else if IsBytes(f) {
        CutText(f, buf, pos);
      }
    }
  }

  lemma DetailsEntryRefusesCut()
    ensures RefusesCut(DetailsEntryField, AnyRecord, DetailsEntryMeaning)
  {
    hide OnWire, Payload, IsCut, ReadString, Content, Text;
    forall f: Field, buf: seq<byte>, pos: nat, m: DetailsEntry | OnWire(f) && IsCut(buf, pos, Payload(f))
      ensures DetailsEntryField(Tag(f), buf, pos, m) ==
              if DetailsEntryMeaning(m, f).Some? then Err(PrematureEof) else Ok(None)
    {
      if IsBytes(f) {
        CutText(f, buf, pos);
      }
    }
  }

  /** The nested messages of an agent state, when they are cut. */
  lemma {:induction false} CutNested(f: Field, buf: seq<byte>, pos: nat)
    requires OnWire(f) && f.Sub? && IsCut(buf, pos, Payload(f))
    ensures Acceptable(AnyRecord, f.fields) ==>
              ReadMessage(GitStatusField, BASE_GIT_STATUS, buf, pos) == Err(PrematureEof)
    ensures Acceptable(TokenInfoOk, f.fields) ==>
              ReadMessage(TokenInfoField, BASE_TOKEN_INFO, buf, pos) == Err(PrematureEof)
    ensures Acceptable(TimestampOk, f.fields) ==>
              ReadMessage(TimestampField, BASE_TIMESTAMP, buf, pos) == Err(PrematureEof)
  {
    hide Handles, Refuses, IgnoresUnknown, Commutes, RefusesCut, OnWire, Payload, IsCut, Acceptable, ReadMessage;
    GitStatusHandles();
    TokenInfoHandles();
    TimestampHandles();
    GitStatusRefusesCut();
    TokenInfoRefusesCut();
    TimestampRefusesCut();
    if Acceptable(AnyRecord, f.fields) {
      CutMessage(GitStatusField, AnyRecord, GitStatusMeaning, BASE_GIT_STATUS, f, buf, pos);
    }
    if Acceptable(TokenInfoOk, f.fields) {
      CutMessage(TokenInfoField, TokenInfoOk, TokenInfoMeaning, BASE_TOKEN_INFO, f, buf, pos);
    }
    if Acceptable(TimestampOk, f.fields) {
      CutMessage(TimestampField, TimestampOk, TimestampMeaning, BASE_TIMESTAMP, f, buf, pos);
    }
  }

  lemma {:induction false} AgentStateCut(f: Field, buf: seq<byte>, pos: nat, m: AgentState)
    requires OnWire(f) && AgentStateOk(f) && IsCut(buf, pos, Payload(f))
    ensures AgentStateField(Tag(f), buf, pos, m) ==
            if AgentStateMeaning(m, f).Some? then Err(PrematureEof) else Ok(None)
  {
    hide OnWire, Payload, IsCut, ReadString, ReadMessage, Content, Text, ApplyAll, Acceptable;
    if IsBytes(f) {
      BytesOnWire(f);
      CutText(f, buf, pos);
      if f.Sub? {
        CutNested(f, buf, pos);
      }
    }
  }

  lemma AgentStateRefusesCut()
    ensures RefusesCut(AgentStateField, AgentStateOk, AgentStateMeaning)
  {
    hide OnWire, Payload, IsCut, Tag, AgentStateField, AgentStateOk, AgentStateMeaning;
    forall f: Field, buf: seq<byte>, pos: nat, m: AgentState |
      OnWire(f) && AgentStateOk(f) && IsCut(buf, pos, Payload(f))
      ensures AgentStateField(Tag(f), buf, pos, m) ==
              if AgentStateMeaning(m, f).Some? then Err(PrematureEof) else Ok(None)
    {
      AgentStateCut(f, buf, pos, m);
    }
  }

  /**
   Every proper beginning of an encoded agent state is refused, except one that ends between two of its
   own records; a cut inside a nested message never goes unnoticed.
   */
  lemma AgentStateIsNotCut(m: AgentState, bytes: seq<byte>)
    requires IsAgentState(m) && IsSafeAgentState(m) && bytes < Concat(AgentStateFields(m))
    ensures Decode(AgentStateField, BASE_AGENT_STATE, bytes) == Err(PrematureEof) <==>
            !EndsBetween(AgentStateFields(m), bytes)
  {
    hide IsAgentState, AgentStateFields, Decode, Handles, Refuses, IgnoresUnknown, Commutes, Acceptable, ApplyAll;
    hide IsSafeAgentState, RefusesCut, Concat;
    AgentStateHandles();
    AgentStateRefusesCut();
    AgentStateApplied(m);
    DecodeBeginning(AgentStateField, AgentStateOk, AgentStateMeaning, BASE_AGENT_STATE, AgentStateFields(m), bytes);
  }

  lemma {:induction false} HealthCheckResultCut(f: Field, buf: seq<byte>, pos: nat, m: HealthCheckResult)
    requires OnWire(f) && HealthCheckResultOk(f) && IsCut(buf, pos, Payload(f))
    ensures HealthCheckResultField(Tag(f), buf, pos, m) ==
            if HealthCheckResultMeaning(m, f).Some? then Err(PrematureEof) else Ok(None)
  {
    hide OnWire, Payload, IsCut, ReadVarint, ReadMessage, ApplyAll, Acceptable, Handles, RefusesCut;
    hide IgnoresUnknown, Commutes;
    if f.Number? {
      CutNumber(f, buf, pos);
    } else if HealthCheckResultNests(f) {
      AgentHealthEntryHandles();
      AgentHealthEntryRefusesCut();
      CutMessage(AgentHealthEntryField, AnyRecord, AgentHealthEntryMeaning, BASE_AGENT_HEALTH_ENTRY, f, buf, pos);
    }
  }

  lemma HealthCheckResultRefusesCut()
    ensures RefusesCut(HealthCheckResultField, HealthCheckResultOk, HealthCheckResultMeaning)
  {
    hide OnWire, Payload, IsCut, Tag, HealthCheckResultField, HealthCheckResultOk, HealthCheckResultMeaning;
    forall f: Field, buf: seq<byte>, pos: nat, m: HealthCheckResult |
      OnWire(f) && HealthCheckResultOk(f) && IsCut(buf, pos, Payload(f))
      ensures HealthCheckResultField(Tag(f), buf, pos, m) ==
              if HealthCheckResultMeaning(m, f).Some? then Err(PrematureEof) else Ok(None)
    {
      HealthCheckResultCut(f, buf, pos, m);
    }
  }

  /** The same for the health check result and its entries. */
  lemma HealthCheckResultIsNotCut(m: HealthCheckResult, bytes: seq<byte>)
    requires IsHealthCheckResult(m) && bytes < Concat(HealthCheckResultFields(m))
    ensures Decode(HealthCheckResultField, BASE_HEALTH_CHECK_RESULT, bytes) == Err(PrematureEof) <==>
            !EndsBetween(HealthCheckResultFields(m), bytes)
  {
    hide IsHealthCheckResult, HealthCheckResultFields, Decode, Handles, IgnoresUnknown, Commutes, Acceptable;
    hide ApplyAll, RefusesCut, Concat;
    HealthCheckResultHandles();
    HealthCheckResultRefusesCut();
    HealthCheckResultApplied(m);
    DecodeBeginning(HealthCheckResultField, HealthCheckResultOk, HealthCheckResultMeaning,
                    BASE_HEALTH_CHECK_RESULT, HealthCheckResultFields(m), bytes);
  }

  lemma {:induction false} ErrorCut(f: Field, buf: seq<byte>, pos: nat, m: ErrorMessage)
    requires OnWire(f) && ErrorOk(f) && IsCut(buf, pos, Payload(f))
    ensures ErrorField(Tag(f), buf, pos, m) == if ErrorMeaning(m, f).Some? then Err(PrematureEof) else Ok(None)
  {
    hide OnWire, Payload, IsCut, ReadString, ReadMessage, Content, Text, ApplyAll, Acceptable, Handles, RefusesCut;
    hide IgnoresUnknown, Commutes, SetDetail;
    if IsBytes(f) {
      CutText(f, buf, pos);
      if f.num == 3 {
        DetailsEntryHandles();
        DetailsEntryRefusesCut();
        CutMessage(DetailsEntryField, AnyRecord, DetailsEntryMeaning, BASE_DETAILS_ENTRY, f, buf, pos);
      }
    }
  }

  lemma ErrorRefusesCut()
    ensures RefusesCut(ErrorField, ErrorOk, ErrorMeaning)
  {
    hide OnWire, Payload, IsCut, Tag, ErrorField, ErrorOk, ErrorMeaning;
    forall f: Field, buf: seq<byte>, pos: nat, m: ErrorMessage |
      OnWire(f) && ErrorOk(f) && IsCut(buf, pos, Payload(f))
      ensures ErrorField(Tag(f), buf, pos, m) == if ErrorMeaning(m, f).Some? then Err(PrematureEof) else Ok(None)
    {
      ErrorCut(f, buf, pos, m);
    }
  }

  /** The same for the error and its details. */
  lemma ErrorIsNotCut(m: ErrorMessage, keys: seq<string>, bytes: seq<byte>)
    requires IsErrorMessage(m, keys) && bytes < Concat(ErrorFields(m, keys))
    ensures Decode(ErrorField, BASE_ERROR_MESSAGE, bytes) == Err(PrematureEof) <==>
            !EndsBetween(ErrorFields(m, keys), bytes)
  {
    hide IsErrorMessage, ErrorFields, Decode, Handles, IgnoresUnknown, Commutes, Acceptable, ApplyAll;
    hide RefusesCut, Concat, PlainError;
    assert forall i :: 0 <= i < |keys| ==> keys[i] in m.details by { KeysAreThere(m, keys); }
    ErrorHandles();
    ErrorRefusesCut();
    ErrorApplied(m, keys);
    DecodeBeginning(ErrorField, ErrorOk, ErrorMeaning, BASE_ERROR_MESSAGE, ErrorFields(m, keys), bytes);
  }
}
