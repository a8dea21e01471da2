/**
 The generated codecs as they run: a reader whose position every read advances, a writer with a stack
 of open length-delimited records, and one loop or one sequence of writes per message.
 */
module WireObjects {
  import opened Options
  import opened SafeIntegers
  import opened Wire
  import opened WireLoop
  import opened WireSimple
  import opened WireNested
  import opened WireAgentState
  import opened WireHealthCheck
  import opened WireErrorMessage
  import Utf8

  // ---------------------------------------------------------------------------------------------
  // Reader
  // ---------------------------------------------------------------------------------------------

  /** A read returned what `spec` says and left the reader at the position behind it. */
  predicate Matches<T(==)>(spec: Result<(T, nat), WireError>, r: Result<T, WireError>, pos: nat) {
    match spec
    case Ok((v, next)) => r == Ok(v) && pos == next
    case Err(e) => r == Err(e)
  }

  /** The same for reads that return nothing. */
  predicate Skips(spec: Result<nat, WireError>, r: Result<(), WireError>, pos: nat) {
    match spec
    case Ok(next) => r == Ok(()) && pos == next
    case Err(e) => r == Err(e)
  }

  /** A varint whose first digits make up `value` and whose other digits, from `scale` on, are read as `rest`. */
  function Scaled(value: nat, scale: nat, rest: Result<(nat, nat), WireError>): Result<(nat, nat), WireError> {
    if rest.Ok? then Ok((value + scale * rest.value.0, rest.value.1)) else rest
  }

  /** What the next byte of a varint adds, when more bytes may follow. */
  lemma {:induction false} NextDigit(value: nat, scale: nat, buf: seq<byte>, pos: nat, left: nat)
    ensures left == 0 ==> ReadVarint(buf, pos, left) == Err(InvalidVarint)
    ensures left > 0 && pos >= |buf| ==> ReadVarint(buf, pos, left) == Err(PrematureEof)
    ensures left > 0 && pos < |buf| && buf[pos] < 128 ==> ReadVarint(buf, pos, left) == Ok((buf[pos], pos + 1))
    ensures left > 0 && pos < |buf| && buf[pos] >= 128 ==>
              Scaled(value, scale, ReadVarint(buf, pos, left)) ==
              Scaled(value + scale * (buf[pos] - 128), 128 * scale, ReadVarint(buf, pos + 1, left - 1))
  {
    if left > 0 && pos < |buf| && buf[pos] >= 128 {
      var digit, rest := buf[pos] - 128, ReadVarint(buf, pos + 1, left - 1);
      hide ReadVarint;
      if rest.Ok? {
        assert scale * (digit + 128 * rest.value.0) == scale * digit + 128 * scale * rest.value.0;
      }
    }
  }

  /** `length === undefined ? reader.len : reader.pos + length` */
  function EndOf(buf: seq<byte>, pos: nat, length: Option<nat>): nat {
    if length.None? then |buf| else pos + length.value
  }

  class Reader {
    const buf: seq<byte>
    var pos: nat

    constructor (buf: seq<byte>)
      ensures this.buf == buf && pos == 0
    {
      this.buf, pos := buf, 0;
    }

    /** Reads the digits of a varint, at most ten of them, least significant first. */
    method Varint() returns (r: Result<nat, WireError>)
      modifies this
      ensures Matches(ReadVarint(buf, old(pos), 10), r, pos)
    {
      hide ReadVarint;
      var value: nat, scale: nat, left: nat := 0, 1, 10;
      while left > 0
        invariant left <= 10
        invariant ReadVarint(buf, old(pos), 10) == Scaled(value, scale, ReadVarint(buf, pos, left))
      {
        NextDigit(value, scale, buf, pos, left);
        if pos >= |buf| {
          return Err(PrematureEof);
        }
        var digit: nat := buf[pos];
        pos, left := pos + 1, left - 1;
        if digit < 128 {
          return Ok(value + scale * digit);
        }
        value, scale := value + scale * (digit - 128), 128 * scale;
      }
      NextDigit(value, scale, buf, pos, left);
      return Err(InvalidVarint);
    }

    method Uint32() returns (r: Result<nat, WireError>)
      modifies this
      ensures Matches(ReadUint32(buf, old(pos)), r, pos)
    {
      hide ReadVarint;
      var n :- Varint();
      return Ok(n % TWO_32);
    }

    method Int32() returns (r: Result<int, WireError>)
      modifies this
      ensures Matches(ReadInt32(buf, old(pos)), r, pos)
    {
      hide ReadVarint, Signed32;
      var n :- Varint();
      return Ok(Signed32(n));
    }

    /** `longToNumber(reader.int64())` */
    method SafeInt64() returns (r: Result<int, WireError>)
      modifies this
      ensures Matches(ReadSafeInt64(buf, old(pos)), r, pos)
    {
      hide ReadVarint, Signed64, IsSafe;
      var n :- Varint();
      if !IsSafe(Signed64(n)) {
        return Err(UnsafeInteger);
      }
      return Ok(Signed64(n));
    }

    method Bool() returns (r: Result<bool, WireError>)
      modifies this
      ensures Matches(ReadBool(buf, old(pos)), r, pos)
    {
      hide ReadVarint;
      var n :- Varint();
      return Ok(n % TWO_64 != 0);
    }

    method Text() returns (r: Result<string, WireError>)
      modifies this
      ensures Matches(ReadString(buf, old(pos)), r, pos)
    {
      hide ReadUint32, Wire.Text;
      var n :- Uint32();
      if pos + n > |buf| {
        return Err(PrematureEof);
      }
      pos := pos + n;
      return Ok(Wire.Text(buf[pos - n..pos]));
    }

    /** Passes over a varint, however long it is. */
    method SkipVarint() returns (r: Result<(), WireError>)
      modifies this
      ensures Skips(Wire.SkipVarint(buf, old(pos)), r, pos)
    {
      while pos < |buf| && buf[pos] >= 128
        invariant Wire.SkipVarint(buf, pos) == Wire.SkipVarint(buf, old(pos))
        decreases |buf| - pos
      {
        pos := pos + 1;
      }
      if pos >= |buf| {
        return Err(PrematureEof);
      }
      pos := pos + 1;
      return Ok(());
    }

    method SkipBytes(n: nat) returns (r: Result<(), WireError>)
      modifies this
      ensures Skips(Wire.SkipBytes(buf, old(pos), n), r, pos)
    {
      if pos + n > |buf| {
        return Err(PrematureEof);
      }
      pos := pos + n;
      return Ok(());
    }

    method Skip(wireType: nat) returns (r: Result<(), WireError>)
      modifies this
      ensures Skips(Wire.Skip(buf, old(pos), wireType), r, pos)
    {
      hide Wire.SkipVarint, ReadUint32;
      if wireType == 0 {
        r := SkipVarint();
      } else if wireType == 1 {
        r := SkipBytes(8);
      } else if wireType == 2 {
        var n :- Uint32();
        r := SkipBytes(n);
      } else if wireType == 5 {
        r := SkipBytes(4);
      } else {
        r := Err(InvalidWireType);
      }
    }
  }

  // ---------------------------------------------------------------------------------------------
  // Decoders
  // ---------------------------------------------------------------------------------------------

  /** `Timestamp.decode` */
  method DecodeTimestamp(reader: Reader, length: Option<nat>) returns (r: Result<Timestamp, WireError>)
    modifies reader
    ensures var end := EndOf(reader.buf, old(reader.pos), length);
            Matches(DecodeLoop(TimestampField, reader.buf, old(reader.pos), end, BASE_TIMESTAMP), r, reader.pos)
  {
    hide ReadUint32, ReadInt32, ReadSafeInt64, ReadBool, ReadString, Skip;
    var end := EndOf(reader.buf, reader.pos, length);
    var message := BASE_TIMESTAMP;
    while reader.pos < end
      invariant DecodeLoop(TimestampField, reader.buf, reader.pos, end, message) ==
                DecodeLoop(TimestampField, reader.buf, old(reader.pos), end, BASE_TIMESTAMP)
      decreases |reader.buf| - reader.pos
    {
      var tag :- reader.Uint32();
      if tag == 8 {
        var v :- reader.SafeInt64();
        message := message.(seconds := v);
      } else if tag == 16 {
        var v :- reader.Int32();
        message := message.(nanos := v);
      } else {
        if tag % 8 == 4 || tag == 0 {
          return Ok(message);
        }
        var _ :- reader.Skip(tag % 8);
      }
    }
    return Ok(message);
  }

  /** `TokenInfo.decode` */
  method DecodeTokenInfo(reader: Reader, length: Option<nat>) returns (r: Result<TokenInfo, WireError>)
    modifies reader
    ensures var end := EndOf(reader.buf, old(reader.pos), length);
            Matches(DecodeLoop(TokenInfoField, reader.buf, old(reader.pos), end, BASE_TOKEN_INFO), r, reader.pos)
  {
    hide ReadUint32, ReadInt32, ReadSafeInt64, ReadBool, ReadString, Skip;
    var end := EndOf(reader.buf, reader.pos, length);
    var message := BASE_TOKEN_INFO;
    while reader.pos < end
      invariant DecodeLoop(TokenInfoField, reader.buf, reader.pos, end, message) ==
                DecodeLoop(TokenInfoField, reader.buf, old(reader.pos), end, BASE_TOKEN_INFO)
      decreases |reader.buf| - reader.pos
    {
      var tag :- reader.Uint32();
      if tag == 8 {
        var v :- reader.SafeInt64();
        message := message.(currentConversation := v);
      } else if tag == 16 {
        var v :- reader.SafeInt64();
        message := message.(cumulative := v);
      } else {
        if tag % 8 == 4 || tag == 0 {
          return Ok(message);
        }
        var _ :- reader.Skip(tag % 8);
      }
    }
    return Ok(message);
  }

  /** `GitStatus.decode` */
  method DecodeGitStatus(reader: Reader, length: Option<nat>) returns (r: Result<GitStatus, WireError>)
    modifies reader
    ensures var end := EndOf(reader.buf, old(reader.pos), length);
            Matches(DecodeLoop(GitStatusField, reader.buf, old(reader.pos), end, BASE_GIT_STATUS), r, reader.pos)
  {
    hide ReadUint32, ReadInt32, ReadSafeInt64, ReadBool, ReadString, Skip;
    var end := EndOf(reader.buf, reader.pos, length);
    var message := BASE_GIT_STATUS;
    while reader.pos < end
      invariant DecodeLoop(GitStatusField, reader.buf, reader.pos, end, message) ==
                DecodeLoop(GitStatusField, reader.buf, old(reader.pos), end, BASE_GIT_STATUS)
      decreases |reader.buf| - reader.pos
    {
      var tag :- reader.Uint32();
      if tag == 10 {
        var v :- reader.Text();
        message := message.(branch := v);
      } else if tag == 16 {
        var v :- reader.Bool();
        message := message.(hasChanges := v);
      } else if tag == 24 {
        var v :- reader.Int32();
        message := message.(ahead := v);
      } else if tag == 32 {
        var v :- reader.Int32();
        message := message.(behind := v);
      } else if tag == 42 {
        var v :- reader.Text();
        message := message.(modifiedFiles := message.modifiedFiles + [v]);
      } else if tag == 48 {
        var v :- reader.Int32();
        message := message.(stagedCount := v);
      } else if tag == 56 {
        var v :- reader.Int32();
        message := message.(unstagedCount := v);
      } else if tag == 64 {
        var v :- reader.Int32();
        message := message.(untrackedCount := v);
      } else {
        if tag % 8 == 4 || tag == 0 {
          return Ok(message);
        }
        var _ :- reader.Skip(tag % 8);
      }
    }
    return Ok(message);
  }

  /** `AgentHealthEntry.decode` */
  method DecodeAgentHealthEntry(reader: Reader, length: Option<nat>) returns (r: Result<AgentHealthEntry, WireError>)
    modifies reader
    ensures var end := EndOf(reader.buf, old(reader.pos), length);
            Matches(DecodeLoop(AgentHealthEntryField, reader.buf, old(reader.pos), end, BASE_AGENT_HEALTH_ENTRY),
                    r, reader.pos)
  {
    hide ReadUint32, ReadInt32, ReadSafeInt64, ReadBool, ReadString, Skip;
    var end := EndOf(reader.buf, reader.pos, length);
    var message := BASE_AGENT_HEALTH_ENTRY;
    while reader.pos < end
      invariant DecodeLoop(AgentHealthEntryField, reader.buf, reader.pos, end, message) ==
                DecodeLoop(AgentHealthEntryField, reader.buf, old(reader.pos), end, BASE_AGENT_HEALTH_ENTRY)
      decreases |reader.buf| - reader.pos
    {
      var tag :- reader.Uint32();
      if tag == 10 {
        var v :- reader.Text();
        message := message.(agentId := v);
      } else if tag == 18 {
        var v :- reader.Text();
        message := message.(containerId := v);
      } else if tag == 24 {
        var v :- reader.Bool();
        message := message.(containerAlive := v);
      } else if tag == 34 {
        var v :- reader.Text();
        message := message.(previousStatus := v);
      } else if tag == 42 {
        var v :- reader.Text();
        message := message.(newStatus := v);
      } else {
        if tag % 8 == 4 || tag == 0 {
          return Ok(message);
        }
        var _ :- reader.Skip(tag % 8);
      }
    }
    return Ok(message);
  }

  /** `DetailsEntry.decode` */
  method DecodeDetailsEntry(reader: Reader, length: Option<nat>) returns (r: Result<DetailsEntry, WireError>)
    modifies reader
    ensures var end := EndOf(reader.buf, old(reader.pos), length);
            Matches(DecodeLoop(DetailsEntryField, reader.buf, old(reader.pos), end, BASE_DETAILS_ENTRY), r, reader.pos)
  {
    hide ReadUint32, ReadInt32, ReadSafeInt64, ReadBool, ReadString, Skip;
    var end := EndOf(reader.buf, reader.pos, length);
    var message := BASE_DETAILS_ENTRY;
    while reader.pos < end
      invariant DecodeLoop(DetailsEntryField, reader.buf, reader.pos, end, message) ==
                DecodeLoop(DetailsEntryField, reader.buf, old(reader.pos), end, BASE_DETAILS_ENTRY)
      decreases |reader.buf| - reader.pos
    {
      var tag :- reader.Uint32();
      if tag == 10 {
        var v :- reader.Text();
        message := message.(key := v);
      } else if tag == 18 {
        var v :- reader.Text();
        message := message.(value := v);
      } else {
        if tag % 8 == 4 || tag == 0 {
          return Ok(message);
        }
        var _ :- reader.Skip(tag % 8);
      }
    }
    return Ok(message);
  }

  /** `GitStatus.decode(reader, reader.uint32())` */
  method DecodeNestedGitStatus(reader: Reader) returns (r: Result<GitStatus, WireError>)
    modifies reader
    ensures Matches(ReadMessage(GitStatusField, BASE_GIT_STATUS, reader.buf, old(reader.pos)), r, reader.pos)
  {
    hide ReadUint32, DecodeLoop;
    var n :- reader.Uint32();
    r := DecodeGitStatus(reader, Some(n));
  }

  /** `TokenInfo.decode(reader, reader.uint32())` */
  method DecodeNestedTokenInfo(reader: Reader) returns (r: Result<TokenInfo, WireError>)
    modifies reader
    ensures Matches(ReadMessage(TokenInfoField, BASE_TOKEN_INFO, reader.buf, old(reader.pos)), r, reader.pos)
  {
    hide ReadUint32, DecodeLoop;
    var n :- reader.Uint32();
    r := DecodeTokenInfo(reader, Some(n));
  }

  /** `Timestamp.decode(reader, reader.uint32())` */
  method DecodeNestedTimestamp(reader: Reader) returns (r: Result<Timestamp, WireError>)
    modifies reader
    ensures Matches(ReadMessage(TimestampField, BASE_TIMESTAMP, reader.buf, old(reader.pos)), r, reader.pos)
  {
    hide ReadUint32, DecodeLoop;
    var n :- reader.Uint32();
    r := DecodeTimestamp(reader, Some(n));
  }

  /** `AgentHealthEntry.decode(reader, reader.uint32())` */
  method DecodeNestedEntry(reader: Reader) returns (r: Result<AgentHealthEntry, WireError>)
    modifies reader
    ensures Matches(ReadMessage(AgentHealthEntryField, BASE_AGENT_HEALTH_ENTRY, reader.buf, old(reader.pos)),
                    r, reader.pos)
  {
    hide ReadUint32, DecodeLoop;
    var n :- reader.Uint32();
    r := DecodeAgentHealthEntry(reader, Some(n));
  }

  /** `Error_DetailsEntry.decode(reader, reader.uint32())` */
  method DecodeNestedDetail(reader: Reader) returns (r: Result<DetailsEntry, WireError>)
    modifies reader
    ensures Matches(ReadMessage(DetailsEntryField, BASE_DETAILS_ENTRY, reader.buf, old(reader.pos)), r, reader.pos)
  {
    hide ReadUint32, DecodeLoop;
    var n :- reader.Uint32();
    r := DecodeDetailsEntry(reader, Some(n));
  }

  /** `AgentState.decode` */
  method DecodeAgentState(reader: Reader, length: Option<nat>) returns (r: Result<AgentState, WireError>)
    modifies reader
    ensures var end := EndOf(reader.buf, old(reader.pos), length);
            Matches(DecodeLoop(AgentStateField, reader.buf, old(reader.pos), end, BASE_AGENT_STATE), r, reader.pos)
  {
    hide ReadMessage;
    hide ReadUint32, ReadInt32, ReadSafeInt64, ReadBool, ReadString, Skip;
    var end := EndOf(reader.buf, reader.pos, length);
    var message := BASE_AGENT_STATE;
    while reader.pos < end
      invariant DecodeLoop(AgentStateField, reader.buf, reader.pos, end, message) ==
                DecodeLoop(AgentStateField, reader.buf, old(reader.pos), end, BASE_AGENT_STATE)
      decreases |reader.buf| - reader.pos
    {
      var tag :- reader.Uint32();
      if tag == 10 {
        var v :- reader.Text();
        message := message.(agentId := v);
      } else if tag == 18 {
        var v :- reader.Text();
        message := message.(status := v);
      } else if tag == 26 {
        var v :- reader.Text();
        message := message.(containerId := v);
      } else if tag == 34 {
        var v :- DecodeNestedGitStatus(reader);
        message := message.(gitStatus := Some(v));
      } else if tag == 42 {
        var v :- DecodeNestedTokenInfo(reader);
        message := message.(tokens := Some(v));
      } else if tag == 50 {
        var v :- DecodeNestedTimestamp(reader);
        message := message.(lastActivity := Some(v));
      } else if tag == 58 {
        var v :- DecodeNestedTimestamp(reader);
        message := message.(createdAt := Some(v));
      } else {
        if tag % 8 == 4 || tag == 0 {
          return Ok(message);
        }
        var _ :- reader.Skip(tag % 8);
      }
    }
    return Ok(message);
  }

  /** `HealthCheckResult.decode` */
  method DecodeHealthCheckResult(reader: Reader, length: Option<nat>) returns (r: Result<HealthCheckResult, WireError>)
    modifies reader
    ensures var end := EndOf(reader.buf, old(reader.pos), length);
            Matches(DecodeLoop(HealthCheckResultField, reader.buf, old(reader.pos), end, BASE_HEALTH_CHECK_RESULT),
                    r, reader.pos)
  {
    hide ReadUint32, ReadInt32, ReadSafeInt64, ReadBool, ReadString, ReadMessage, Skip;
    var end := EndOf(reader.buf, reader.pos, length);
    var message := BASE_HEALTH_CHECK_RESULT;
    while reader.pos < end
      invariant DecodeLoop(HealthCheckResultField, reader.buf, reader.pos, end, message) ==
                DecodeLoop(HealthCheckResultField, reader.buf, old(reader.pos), end, BASE_HEALTH_CHECK_RESULT)
      decreases |reader.buf| - reader.pos
    {
      var tag :- reader.Uint32();
      if tag == 8 {
        var v :- reader.Int32();
        message := message.(checked := v);
      } else if tag == 16 {
        var v :- reader.Int32();
        message := message.(healthy := v);
      } else if tag == 24 {
        var v :- reader.Int32();
        message := message.(markedOffline := v);
      } else if tag == 32 {
        var v :- reader.Int32();
        message := message.(markedIdle := v);
      } else if tag == 42 {
        var v :- DecodeNestedEntry(reader);
        message := message.(entries := message.entries + [v]);
      } else {
        if tag % 8 == 4 || tag == 0 {
          return Ok(message);
        }
        var _ :- reader.Skip(tag % 8);
      }
    }
    return Ok(message);
  }

  /** `Error.decode` */
  method DecodeError(reader: Reader, length: Option<nat>) returns (r: Result<ErrorMessage, WireError>)
    modifies reader
    ensures var end := EndOf(reader.buf, old(reader.pos), length);
            Matches(DecodeLoop(ErrorField, reader.buf, old(reader.pos), end, BASE_ERROR_MESSAGE), r, reader.pos)
  {
    hide ReadUint32, ReadInt32, ReadSafeInt64, ReadBool, ReadString, ReadMessage, Skip;
    var end := EndOf(reader.buf, reader.pos, length);
    var message := BASE_ERROR_MESSAGE;
    while reader.pos < end
      invariant DecodeLoop(ErrorField, reader.buf, reader.pos, end, message) ==
                DecodeLoop(ErrorField, reader.buf, old(reader.pos), end, BASE_ERROR_MESSAGE)
      decreases |reader.buf| - reader.pos
    {
      var tag :- reader.Uint32();
      if tag == 10 {
        var v :- reader.Text();
        message := message.(code := v);
      } else if tag == 18 {
        var v :- reader.Text();
        message := message.(message := v);
      } else if tag == 26 {
        var entry :- DecodeNestedDetail(reader);
        message := SetDetail(message, entry);
      } else {
        if tag % 8 == 4 || tag == 0 {
          return Ok(message);
        }
        var _ :- reader.Skip(tag % 8);
      }
    }
    return Ok(message);
  }

  // ---------------------------------------------------------------------------------------------
  // Writer
  // ---------------------------------------------------------------------------------------------

  class Writer {
    var stack: seq<seq<byte>>  // the enclosing records, outermost first
    var chunk: seq<byte>       // the innermost open record

    constructor ()
      ensures stack == [] && chunk == []
    {
      stack, chunk := [], [];
    }

    /** Writes the digits of a varint, least significant first. */
    method Digits(v: nat)
      modifies this`chunk
      ensures chunk == old(chunk) + Varint(v)
    {
      var n := v;
      while n >= 128
        invariant chunk + Varint(n) == old(chunk) + Varint(v)
      {
        assert chunk + Varint(n) == chunk + [128 + n % 128] + Varint(n / 128);
        chunk, n := chunk + [128 + n % 128], n / 128;
      }
      chunk := chunk + [n];
    }

    method Uint32(v: nat)
      requires v < TWO_32
      modifies this`chunk
      ensures chunk == old(chunk) + Varint(v)
    {
      Digits(v);
    }

    /** `int32` and `int64`: negative numbers are sign-extended to 64 bits. */
    method Int(v: int)
      requires IsInt64(v)
      modifies this`chunk
      ensures chunk == old(chunk) + Varint(Unsigned64(v))
    {
      Digits(Unsigned64(v));
    }

    method Bool(b: bool)
      modifies this`chunk
      ensures chunk == old(chunk) + [if b then 1 else 0]
    {
      chunk := chunk + [if b then 1 else 0];
    }

    method Text(s: string)
      requires IsText(s)
      modifies this`chunk
      ensures chunk == old(chunk) + (Varint(|Utf8.Encode(s)|) + Utf8.Encode(s))
    {
      var bytes := Utf8.Encode(s);
      Uint32(|bytes|);
      chunk := chunk + bytes;
    }

    /** Starts a record whose length is not known yet. */
    method Fork()
      modifies this
      ensures stack == old(stack) + [old(chunk)] && chunk == []
    {
      stack, chunk := stack + [chunk], [];
    }

    /** Closes the innermost record: its length, then its bytes, behind what came before. */
    method Join()
      requires stack != [] && |chunk| < TWO_32
      modifies this
      ensures stack == old(stack)[..|old(stack)| - 1]
      ensures chunk == old(stack)[|old(stack)| - 1] + (Varint(|old(chunk)|) + old(chunk))
    {
      var bytes := chunk;
      chunk := stack[|stack| - 1];
      stack := stack[..|stack| - 1];
      Uint32(|bytes|);
      chunk := chunk + bytes;
    }
  }

  // ---------------------------------------------------------------------------------------------
  // Encoders
  // ---------------------------------------------------------------------------------------------

  /** The bytes of one record. */
  lemma {:induction false} ConcatOne(f: Field)
    ensures Concat([f]) == Varint(Tag(f)) + Payload(f)
  {
    assert [f][1..] == [] && Concat([]) == [];
  }

  /** Writes the records of an integer field, which are none when it is 0. */
  method WriteInt(w: Writer, num: nat, v: int)
    requires 1 <= num <= 15 && IsInt64(v)
    modifies w`chunk
    ensures w.chunk == old(w.chunk) + Concat(IntFields(num, v))
  {
    if v != 0 {
      ConcatOne(Number(num, Unsigned64(v)));
      w.Uint32(num * 8);
      w.Int(v);
    }
  }

  method WriteBool(w: Writer, num: nat, b: bool)
    requires 1 <= num <= 15
    modifies w`chunk
    ensures w.chunk == old(w.chunk) + Concat(BoolFields(num, b))
  {
    if b {
      ConcatOne(Number(num, 1));
      w.Uint32(num * 8);
      w.Bool(b);
    }
  }

  method WriteText(w: Writer, num: nat, s: string)
    requires 1 <= num <= 15 && IsText(s)
    modifies w`chunk
    ensures w.chunk == old(w.chunk) + Concat([TextField(num, s)])
  {
    ConcatOne(TextField(num, s));
    w.Uint32(num * 8 + 2);
    w.Text(s);
  }

  method WriteOptionalText(w: Writer, num: nat, s: string)
    requires 1 <= num <= 15 && IsText(s)
    modifies w`chunk
    ensures w.chunk == old(w.chunk) + Concat(TextFields(num, s))
  {
    if s != "" {
      WriteText(w, num, s);
    }
  }

  /** Appending more records appends their bytes. */
  lemma {:induction false} Appends(start: seq<byte>, fs: seq<Field>, gs: seq<Field>)
    ensures start + Concat(fs) + Concat(gs) == start + Concat(fs + gs)
  {
    ConcatAppend(fs, gs);
  }

  /** `Timestamp.encode` */
  method EncodeTimestamp(m: Timestamp, w: Writer)
    requires IsTimestamp(m)
    modifies w
    ensures w.stack == old(w.stack) && w.chunk == old(w.chunk) + Concat(TimestampFields(m))
  {
    hide Concat;
    WriteInt(w, 1, m.seconds);
    WriteInt(w, 2, m.nanos);
    Appends(old(w.chunk), IntFields(1, m.seconds), IntFields(2, m.nanos));
  }

  /** `TokenInfo.encode` */
  method EncodeTokenInfo(m: TokenInfo, w: Writer)
    requires IsTokenInfo(m)
    modifies w
    ensures w.stack == old(w.stack) && w.chunk == old(w.chunk) + Concat(TokenInfoFields(m))
  {
    hide Concat;
    WriteInt(w, 1, m.currentConversation);
    WriteInt(w, 2, m.cumulative);
    Appends(old(w.chunk), IntFields(1, m.currentConversation), IntFields(2, m.cumulative));
  }

  lemma {:induction false} RepeatedTextAppend(num: nat, ss: seq<string>, s: string)
    ensures RepeatedTextFields(num, ss + [s]) == RepeatedTextFields(num, ss) + [TextField(num, s)]
  {
    if ss == [] {
      assert ss + [s] == [s];
      assert [s][1..] == [];
    } else {
      assert (ss + [s])[1..] == ss[1..] + [s];
      RepeatedTextAppend(num, ss[1..], s);
    }
  }

  /** `for (const v of message.modifiedFiles)` */
  method WriteFiles(w: Writer, files: seq<string>)
    requires forall i :: 0 <= i < |files| ==> IsText(files[i])
    modifies w`chunk
    ensures w.chunk == old(w.chunk) + Concat(RepeatedTextFields(5, files))
  {
    for k := 0 to |files|
      invariant w.chunk == old(w.chunk) + Concat(RepeatedTextFields(5, files[..k]))
    {
      hide IsText;
      assert files[..k + 1] == files[..k] + [files[k]];
      RepeatedTextAppend(5, files[..k], files[k]);
      Appends(old(w.chunk), RepeatedTextFields(5, files[..k]), [TextField(5, files[k])]);
      WriteText(w, 5, files[k]);
    }
    assert files[..|files|] == files;
  }

  /** The last three fields of `GitStatus.encode`. */
  method WriteCounts(m: GitStatus, w: Writer)
    requires IsInt32(m.stagedCount) && IsInt32(m.unstagedCount) && IsInt32(m.untrackedCount)
    modifies w`chunk
    ensures w.chunk == old(w.chunk) + Concat(IntFields(6, m.stagedCount) +
              (IntFields(7, m.unstagedCount) + IntFields(8, m.untrackedCount)))
  {
    hide Concat, IntFields;
    WriteInt(w, 6, m.stagedCount);
    ghost var c6 := w.chunk;
    WriteInt(w, 7, m.unstagedCount);
    WriteInt(w, 8, m.untrackedCount);
    Appends(c6, IntFields(7, m.unstagedCount), IntFields(8, m.untrackedCount));
    Appends(old(w.chunk), IntFields(6, m.stagedCount), IntFields(7, m.unstagedCount) + IntFields(8, m.untrackedCount));
  }

  /** `GitStatus.encode` */
  method EncodeGitStatus(m: GitStatus, w: Writer)
    requires IsGitStatus(m)
    modifies w
    ensures w.stack == old(w.stack) && w.chunk == old(w.chunk) + Concat(GitStatusFields(m))
  {
    hide Concat, IntFields, TextFields, BoolFields, RepeatedTextFields;
    WriteOptionalText(w, 1, m.branch);
    ghost var c1 := w.chunk;
    WriteBool(w, 2, m.hasChanges);
    ghost var c2 := w.chunk;
    WriteInt(w, 3, m.ahead);
    ghost var c3 := w.chunk;
    WriteInt(w, 4, m.behind);
    ghost var c4 := w.chunk;
    WriteFiles(w, m.modifiedFiles);
    WriteCounts(m, w);
    ghost var f6 := IntFields(6, m.stagedCount) + (IntFields(7, m.unstagedCount) + IntFields(8, m.untrackedCount));
    ghost var f5 := RepeatedTextFields(5, m.modifiedFiles) + f6;
    ghost var f4 := IntFields(4, m.behind) + f5;
    ghost var f3 := IntFields(3, m.ahead) + f4;
    ghost var f2 := BoolFields(2, m.hasChanges) + f3;
    Appends(c4, RepeatedTextFields(5, m.modifiedFiles), f6);
    Appends(c3, IntFields(4, m.behind), f5);
    Appends(c2, IntFields(3, m.ahead), f4);
    Appends(c1, BoolFields(2, m.hasChanges), f3);
    Appends(old(w.chunk), TextFields(1, m.branch), f2);
  }

  /** `AgentHealthEntry.encode` */
  method EncodeAgentHealthEntry(m: AgentHealthEntry, w: Writer)
    requires IsAgentHealthEntry(m)
    modifies w
    ensures w.stack == old(w.stack) && w.chunk == old(w.chunk) + Concat(AgentHealthEntryFields(m))
  {
    hide Concat, TextFields, BoolFields;
    WriteOptionalText(w, 1, m.agentId);
    ghost var c1 := w.chunk;
    WriteOptionalText(w, 2, m.containerId);
    ghost var c2 := w.chunk;
    WriteBool(w, 3, m.containerAlive);
    ghost var c3 := w.chunk;
    WriteOptionalText(w, 4, m.previousStatus);
    WriteOptionalText(w, 5, m.newStatus);
    ghost var f5 := TextFields(5, m.newStatus);
    ghost var f4 := TextFields(4, m.previousStatus) + f5;
    ghost var f3 := BoolFields(3, m.containerAlive) + f4;
    ghost var f2 := TextFields(2, m.containerId) + f3;
    Appends(c3, TextFields(4, m.previousStatus), f5);
    Appends(c2, BoolFields(3, m.containerAlive), f4);
    Appends(c1, TextFields(2, m.containerId), f3);
    Appends(old(w.chunk), TextFields(1, m.agentId), f2);
  }

  /** `Error_DetailsEntry.encode` */
  method EncodeDetailsEntry(m: DetailsEntry, w: Writer)
    requires IsDetailsEntry(m)
    modifies w
    ensures w.stack == old(w.stack) && w.chunk == old(w.chunk) + Concat(DetailsEntryFields(m))
  {
    hide Concat;
    WriteOptionalText(w, 1, m.key);
    WriteOptionalText(w, 2, m.value);
    Appends(old(w.chunk), TextFields(1, m.key), TextFields(2, m.value));
  }

  /** The bytes of a nested record, between `fork` and `join`. */
  lemma {:induction false} JoinedRecord(start: seq<byte>, num: nat, fields: seq<Field>)
    ensures start + Varint(num * 8 + 2) + (Varint(|Concat(fields)|) + Concat(fields)) ==
            start + Concat([Sub(num, fields)])
  {
    ConcatOne(Sub(num, fields));
  }

  method WriteNestedGitStatus(o: Option<GitStatus>, w: Writer)
    requires o.Some? ==> IsGitStatus(o.value) && FitsPrefix(GitStatusFields(o.value))
    modifies w
    ensures w.stack == old(w.stack) && w.chunk == old(w.chunk) + Concat(GitStatusSub(o))
  {
    hide GitStatusFields;
    if o.Some? {
      JoinedRecord(w.chunk, 4, GitStatusFields(o.value));
      w.Uint32(4 * 8 + 2);
      w.Fork();
      EncodeGitStatus(o.value, w);
      w.Join();
    }
  }

  method WriteNestedTokenInfo(o: Option<TokenInfo>, w: Writer)
    requires o.Some? ==> IsTokenInfo(o.value) && FitsPrefix(TokenInfoFields(o.value))
    modifies w
    ensures w.stack == old(w.stack) && w.chunk == old(w.chunk) + Concat(TokenInfoSub(o))
  {
    hide TokenInfoFields;
    if o.Some? {
      JoinedRecord(w.chunk, 5, TokenInfoFields(o.value));
      w.Uint32(5 * 8 + 2);
      w.Fork();
      EncodeTokenInfo(o.value, w);
      w.Join();
    }
  }

  method WriteNestedTimestamp(num: nat, o: Option<Timestamp>, w: Writer)
    requires num == 6 || num == 7
    requires o.Some? ==> IsTimestamp(o.value) && FitsPrefix(TimestampFields(o.value))
    modifies w
    ensures w.stack == old(w.stack) && w.chunk == old(w.chunk) + Concat(TimestampSub(num, o))
  {
    hide TimestampFields;
    if o.Some? {
      JoinedRecord(w.chunk, num, TimestampFields(o.value));
      w.Uint32(num * 8 + 2);
      w.Fork();
      EncodeTimestamp(o.value, w);
      w.Join();
    }
  }

  /** `AgentState.encode` */
  method EncodeAgentState(m: AgentState, w: Writer)
    requires IsAgentState(m)
    modifies w
    ensures w.stack == old(w.stack) && w.chunk == old(w.chunk) + Concat(AgentStateFields(m))
  {
    hide Concat, TextFields, GitStatusSub, TokenInfoSub, TimestampSub, FitsPrefix;
    WriteOptionalText(w, 1, m.agentId);
    ghost var c1 := w.chunk;
    WriteOptionalText(w, 2, m.status);
    ghost var c2 := w.chunk;
    WriteOptionalText(w, 3, m.containerId);
    ghost var c3 := w.chunk;
    WriteNestedGitStatus(m.gitStatus, w);
    ghost var c4 := w.chunk;
    WriteNestedTokenInfo(m.tokens, w);
    ghost var c5 := w.chunk;
    WriteNestedTimestamp(6, m.lastActivity, w);
    WriteNestedTimestamp(7, m.createdAt, w);
    ghost var f7 := TimestampSub(7, m.createdAt);
    ghost var f6 := TimestampSub(6, m.lastActivity) + f7;
    ghost var f5 := TokenInfoSub(m.tokens) + f6;
    ghost var f4 := GitStatusSub(m.gitStatus) + f5;
    ghost var f3 := TextFields(3, m.containerId) + f4;
    ghost var f2 := TextFields(2, m.status) + f3;
    Appends(c5, TimestampSub(6, m.lastActivity), f7);
    Appends(c4, TokenInfoSub(m.tokens), f6);
    Appends(c3, GitStatusSub(m.gitStatus), f5);
    Appends(c2, TextFields(3, m.containerId), f4);
    Appends(c1, TextFields(2, m.status), f3);
    Appends(old(w.chunk), TextFields(1, m.agentId), f2);
  }

  lemma {:induction false} EntriesAppend(entries: seq<AgentHealthEntry>, entry: AgentHealthEntry)
    requires AreEntries(entries + [entry])
    ensures AreEntries(entries) && IsAgentHealthEntry(entry) && FitsPrefix(AgentHealthEntryFields(entry))
    ensures EntryFields(entries + [entry]) == EntryFields(entries) + [Sub(5, AgentHealthEntryFields(entry))]
  {
    hide IsAgentHealthEntry, FitsPrefix, AgentHealthEntryFields;
    var all := entries + [entry];
    assert forall i :: 0 <= i < |entries| ==> all[i] == entries[i];
    assert all[|entries|] == entry;
    if entries == [] {
      assert all == [entry] && all[1..] == [];
    } else {
      assert all[1..] == entries[1..] + [entry];
      EntriesAppend(entries[1..], entry);
    }
  }

  /** One more entry: what the loop below has written, and what it writes next. */
  lemma NextEntry(entries: seq<AgentHealthEntry>, k: nat)
    requires AreEntries(entries) && k < |entries|
    ensures AreEntries(entries[..k]) && AreEntries(entries[..k + 1])
    ensures IsAgentHealthEntry(entries[k]) && FitsPrefix(AgentHealthEntryFields(entries[k]))
    ensures EntryFields(entries[..k + 1]) ==
            EntryFields(entries[..k]) + [Sub(5, AgentHealthEntryFields(entries[k]))]
  {
    hide IsAgentHealthEntry, FitsPrefix, AgentHealthEntryFields, EntryFields;
    assert entries[..k + 1] == entries[..k] + [entries[k]];
    EntriesAppend(entries[..k], entries[k]);
  }

  /** `AgentHealthEntry.encode(v, writer.uint32(42).fork()).join()` */
  method WriteEntry(entry: AgentHealthEntry, w: Writer)
    requires IsAgentHealthEntry(entry) && FitsPrefix(AgentHealthEntryFields(entry))
    modifies w
    ensures w.stack == old(w.stack)
    ensures w.chunk == old(w.chunk) + Concat([Sub(5, AgentHealthEntryFields(entry))])
  {
    hide AgentHealthEntryFields, IsAgentHealthEntry, Concat, Varint;
    JoinedRecord(w.chunk, 5, AgentHealthEntryFields(entry));
    w.Uint32(42);
    w.Fork();
    EncodeAgentHealthEntry(entry, w);
    w.Join();
  }

  /** `for (const v of message.entries)` */
  method WriteEntries(entries: seq<AgentHealthEntry>, w: Writer)
    requires AreEntries(entries)
    modifies w
    ensures w.stack == old(w.stack) && w.chunk == old(w.chunk) + Concat(EntryFields(entries))
  {
    for k := 0 to |entries|
      invariant AreEntries(entries[..k])
      invariant w.stack == old(w.stack)
      invariant w.chunk == old(w.chunk) + Concat(EntryFields(entries[..k]))
    {
      hide *;
      NextEntry(entries, k);
      Appends(old(w.chunk), EntryFields(entries[..k]), [Sub(5, AgentHealthEntryFields(entries[k]))]);
      WriteEntry(entries[k], w);
    }
    assert entries[..|entries|] == entries;
  }

  /** `HealthCheckResult.encode` */
  method EncodeHealthCheckResult(m: HealthCheckResult, w: Writer)
    requires IsHealthCheckResult(m)
    modifies w
    ensures w.stack == old(w.stack) && w.chunk == old(w.chunk) + Concat(HealthCheckResultFields(m))
  {
    hide Concat, IntFields, EntryFields, AreEntries;
    WriteInt(w, 1, m.checked);
    ghost var c1 := w.chunk;
    WriteInt(w, 2, m.healthy);
    ghost var c2 := w.chunk;
    WriteInt(w, 3, m.markedOffline);
    ghost var c3 := w.chunk;
    WriteInt(w, 4, m.markedIdle);
    WriteEntries(m.entries, w);
    ghost var f5 := EntryFields(m.entries);
    ghost var f4 := IntFields(4, m.markedIdle) + f5;
    ghost var f3 := IntFields(3, m.markedOffline) + f4;
    ghost var f2 := IntFields(2, m.healthy) + f3;
    Appends(c3, IntFields(4, m.markedIdle), f5);
    Appends(c2, IntFields(3, m.markedOffline), f4);
    Appends(c1, IntFields(2, m.healthy), f3);
    Appends(old(w.chunk), IntFields(1, m.checked), f2);
  }

  lemma {:induction false} DetailsAppend(keys: seq<string>, key: string, details: map<string, string>)
    requires AreDetails(keys + [key], details)
    ensures AreDetails(keys, details) && key in details
    ensures var entry := DetailsEntry(key, details[key]);
            && IsDetailsEntry(entry) && FitsPrefix(DetailsEntryFields(entry))
            && DetailFields(keys + [key], details) == DetailFields(keys, details) + [Sub(3, DetailsEntryFields(entry))]
  {
    hide IsDetailsEntry, FitsPrefix, DetailsEntryFields;
    var all := keys + [key];
    assert forall i :: 0 <= i < |keys| ==> all[i] == keys[i];
    assert all[|keys|] == key;
    if keys == [] {
      assert all == [key] && all[1..] == [];
    } else {
      assert all[1..] == keys[1..] + [key];
      DetailsAppend(keys[1..], key, details);
    }
  }

  /** One more detail: what the loop below has written, and what it writes next. */
  lemma {:induction false} NextDetail(keys: seq<string>, k: nat, details: map<string, string>)
    requires AreDetails(keys, details) && k < |keys|
    ensures AreDetails(keys[..k], details) && AreDetails(keys[..k + 1], details) && keys[k] in details
    ensures var entry := DetailsEntry(keys[k], details[keys[k]]);
            && IsDetailsEntry(entry) && FitsPrefix(DetailsEntryFields(entry))
            && DetailFields(keys[..k + 1], details) ==
               DetailFields(keys[..k], details) + [Sub(3, DetailsEntryFields(entry))]
  {
    hide IsDetailsEntry, FitsPrefix, DetailsEntryFields, DetailFields;
    assert keys[..k + 1] == keys[..k] + [keys[k]];
    DetailsAppend(keys[..k], keys[k], details);
  }

  /** `Error_DetailsEntry.encode(..., writer.uint32(26).fork()).join()` */
  method WriteDetail(entry: DetailsEntry, w: Writer)
    requires IsDetailsEntry(entry) && FitsPrefix(DetailsEntryFields(entry))
    modifies w
    ensures w.stack == old(w.stack)
    ensures w.chunk == old(w.chunk) + Concat([Sub(3, DetailsEntryFields(entry))])
  {
    hide DetailsEntryFields;
    JoinedRecord(w.chunk, 3, DetailsEntryFields(entry));
    w.Uint32(26);
    w.Fork();
    EncodeDetailsEntry(entry, w);
    w.Join();
  }

  /** `Object.entries(message.details).forEach(...)`, over the entries of the keys in their order. */
  method WriteDetails(keys: seq<string>, details: map<string, string>, w: Writer)
    requires AreDetails(keys, details)
    modifies w
    ensures w.stack == old(w.stack) && w.chunk == old(w.chunk) + Concat(DetailFields(keys, details))
  {
    for k := 0 to |keys|
      invariant AreDetails(keys[..k], details)
      invariant w.stack == old(w.stack)
      invariant w.chunk == old(w.chunk) + Concat(DetailFields(keys[..k], details))
    {
      hide *;
      NextDetail(keys, k, details);
      var entry := DetailsEntry(keys[k], details[keys[k]]);
      Appends(old(w.chunk), DetailFields(keys[..k], details), [Sub(3, DetailsEntryFields(entry))]);
      WriteDetail(entry, w);
    }
    assert keys[..|keys|] == keys;
  }

  /** `Error.encode` */
  method EncodeError(m: ErrorMessage, keys: seq<string>, w: Writer)
    requires IsErrorMessage(m, keys)
    modifies w
    ensures w.stack == old(w.stack) && w.chunk == old(w.chunk) + Concat(ErrorFields(m, keys))
  {
    hide Concat, TextFields, DetailFields, AreDetails;
    WriteOptionalText(w, 1, m.code);
    ghost var c1 := w.chunk;
    WriteOptionalText(w, 2, m.message);
    WriteDetails(keys, m.details, w);
    Appends(c1, TextFields(2, m.message), DetailFields(keys, m.details));
    Appends(old(w.chunk), TextFields(1, m.code), TextFields(2, m.message) + DetailFields(keys, m.details));
  }

  // ---------------------------------------------------------------------------------------------
  // Round trips on the objects
  // ---------------------------------------------------------------------------------------------

  /**
   Encoding with a new writer and decoding with a new reader returns the agent state without the byte
   order marks of its texts, or throws when one of its integers is not safe.
   */
  method TransferAgentState(m: AgentState) returns (r: Result<AgentState, WireError>)
    requires IsAgentState(m)
    ensures r == if IsSafeAgentState(m) then Ok(PlainAgentState(m)) else Err(UnsafeInteger)
    ensures r == Ok(m) <==> IsSafeAgentState(m) && IsUnmarkedAgentState(m)
  {
    hide IsAgentState, AgentStateFields, DecodeLoop, Concat, IsSafeAgentState, IsUnmarkedAgentState, PlainAgentState;
    var writer := new Writer();
    EncodeAgentState(m, writer);
    AgentStateRoundTrip(m);
    assert [] + Concat(AgentStateFields(m)) == Concat(AgentStateFields(m));
    var reader := new Reader(writer.chunk);
    r := DecodeAgentState(reader, None);
  }

  /**
   Encoding with a new writer and decoding with a new reader returns the health check result without the
   byte order marks of its texts.
   */
  method TransferHealthCheckResult(m: HealthCheckResult) returns (r: Result<HealthCheckResult, WireError>)
    requires IsHealthCheckResult(m)
    ensures r == Ok(PlainHealthCheckResult(m))
    ensures r == Ok(m) <==> IsUnmarkedHealthCheckResult(m)
  {
    hide IsHealthCheckResult, HealthCheckResultFields, DecodeLoop, Concat;
    hide PlainHealthCheckResult, IsUnmarkedHealthCheckResult;
    var writer := new Writer();
    EncodeHealthCheckResult(m, writer);
    HealthCheckResultRoundTrip(m);
    assert [] + Concat(HealthCheckResultFields(m)) == Concat(HealthCheckResultFields(m));
    var reader := new Reader(writer.chunk);
    r := DecodeHealthCheckResult(reader, None);
  }

  /** The same for an error, with its details written in the order of `keys`. */
  method TransferError(m: ErrorMessage, keys: seq<string>) returns (r: Result<ErrorMessage, WireError>)
    requires IsErrorMessage(m, keys)
    ensures r == Ok(PlainError(m, keys))
    ensures r == Ok(m) <==> IsUnmarkedError(m) && "__proto__" !in m.details
  {
    hide IsErrorMessage, ErrorFields, DecodeLoop, Concat, IsUnmarkedError, PlainError;
    var writer := new Writer();
    EncodeError(m, keys, writer);
    ErrorSurvivesIffPlain(m, keys);
    assert [] + Concat(ErrorFields(m, keys)) == Concat(ErrorFields(m, keys));
    var reader := new Reader(writer.chunk);
    r := DecodeError(reader, None);
  }
}
