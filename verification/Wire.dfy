/**
 The protobuf wire format: varints, records and the reader's primitives, as the Protocol Buffers
 Encoding specification describes them (sections "Base 128 Varints", "Message Structure" and
 "Length-Delimited Records").
 */
module Wire {
  import opened Options
  import opened SafeIntegers
  import Utf8

  type byte = Utf8.byte

  datatype WireError = PrematureEof | InvalidVarint | InvalidWireType | UnsafeInteger

  const TWO_32: nat := 0x1_0000_0000
  const TWO_64: nat := 0x1_0000_0000_0000_0000

  // ---------------------------------------------------------------------------------------------
  // Integers on the wire
  // ---------------------------------------------------------------------------------------------

  function Unsigned64(v: int): nat
    requires -(TWO_64 / 2) <= v < TWO_64 / 2
  {
    if v < 0 then v + TWO_64 else v
  }

  function Signed64(u: nat): int {
    var w := u % TWO_64;
    if w < TWO_64 / 2 then w else w - TWO_64
  }

  function Signed32(u: nat): int {
    var w := u % TWO_32;
    if w < TWO_32 / 2 then w else w - TWO_32
  }

  predicate IsInt32(v: int) {
    -(TWO_32 / 2) <= v < TWO_32 / 2
  }

  predicate IsInt64(v: int) {
    -(TWO_64 / 2) <= v < TWO_64 / 2
  }

  lemma Int32RoundTrip(v: int)
    requires IsInt32(v)
    ensures Signed32(Unsigned64(v)) == v
  {
    assert v < 0 ==> (v + TWO_64) % TWO_32 == v + TWO_32 by {
      assert v + TWO_64 == (v + TWO_32) + (TWO_32 - 1) * TWO_32;
    }
  }

  lemma Int64RoundTrip(v: int)
    requires IsInt64(v)
    ensures Signed64(Unsigned64(v)) == v
  {
  }

  /** A number on the wire is read as the signed integer of its width that it is congruent to. */
  lemma SignedIsCongruent(u: nat) returns (i: int, j: int)
    ensures -0x8000_0000 <= Signed32(u) < 0x8000_0000 && u == Signed32(u) + i * 0x1_0000_0000
    ensures -0x8000_0000_0000_0000 <= Signed64(u) < 0x8000_0000_0000_0000
    ensures u == Signed64(u) + j * 0x1_0000_0000_0000_0000
  {
    i := u / 0x1_0000_0000 + if Signed32(u) < 0 then 1 else 0;
    j := u / 0x1_0000_0000_0000_0000 + if Signed64(u) < 0 then 1 else 0;
  }

  // ---------------------------------------------------------------------------------------------
  // Bytes at a position
  // ---------------------------------------------------------------------------------------------

  /** The bytes `bs` stand in `buf` at `pos`. */
  predicate At(buf: seq<byte>, pos: nat, bs: seq<byte>) {
    pos <= |buf| && bs <= buf[pos..]
  }

  lemma AtIsSlice(buf: seq<byte>, pos: nat, bs: seq<byte>)
    requires At(buf, pos, bs)
    ensures pos + |bs| <= |buf| && buf[pos..pos + |bs|] == bs
  {
    assert buf[pos..][..|bs|] == bs;
  }

  lemma AtConcat(buf: seq<byte>, pos: nat, a: seq<byte>, b: seq<byte>)
    ensures At(buf, pos, a + b) <==> At(buf, pos, a) && At(buf, pos + |a|, b)
  {
    if At(buf, pos, a) && pos + |a| <= |buf| {
      assert buf[pos..] == a + buf[pos + |a|..];
    }
    if At(buf, pos, a + b) {
      assert buf[pos..][..|a + b|] == a + b;
      assert buf[pos..][..|a|] == a;
      assert buf[pos + |a|..][..|b|] == b;
    }
  }

  // ---------------------------------------------------------------------------------------------
  // Varints
  // ---------------------------------------------------------------------------------------------

  function Varint(n: nat): (r: seq<byte>)
    ensures |r| >= 1
  {
    if n < 128 then [n] else [128 + n % 128] + Varint(n / 128)
  }

  /** Reads a varint of at most `left` bytes; returns its value and the position behind it. */
  function ReadVarint(buf: seq<byte>, pos: nat, left: nat): (r: Result<(nat, nat), WireError>)
    ensures r.Ok? ==> pos < r.value.1 <= |buf|
    decreases left
  {
    if left == 0 then Err(InvalidVarint)
    else if pos >= |buf| then Err(PrematureEof)
    else if buf[pos] < 128 then Ok((buf[pos], pos + 1))
    else
      var (n, next) :- ReadVarint(buf, pos + 1, left - 1);
      Ok((buf[pos] - 128 + 128 * n, next))
  }

  function Power128(k: nat): nat {
    if k == 0 then 1 else 128 * Power128(k - 1)
  }

  lemma {:induction false} ReadWrittenVarint(buf: seq<byte>, pos: nat, n: nat, left: nat)
    requires left > 0 && n < Power128(left) && At(buf, pos, Varint(n))
    ensures ReadVarint(buf, pos, left) == Ok((n, pos + |Varint(n)|))
    decreases left
  {
    assert buf[pos] == Varint(n)[0];
    if n >= 128 {
      AtConcat(buf, pos, [128 + n % 128], Varint(n / 128));
      ReadWrittenVarint(buf, pos + 1, n / 128, left - 1);
    }
  }

  /** A varint that does not end within its bytes is refused. */
  lemma {:induction false} LongVarintIsRefused(buf: seq<byte>, pos: nat, left: nat)
    requires pos + left <= |buf| && forall i :: pos <= i < pos + left ==> buf[i] >= 128
    ensures ReadVarint(buf, pos, left) == Err(InvalidVarint)
    decreases left
  {
    if left > 0 {
      LongVarintIsRefused(buf, pos + 1, left - 1);
    }
  }

  lemma SixtyFourBitsFit(n: nat)
    requires n < TWO_64
    ensures n < Power128(10)
  {
    assert Power128(5) == 0x8_0000_0000;
    assert Power128(10) == 0x8_0000_0000 * 0x8_0000_0000;
  }

  function ReadUint32(buf: seq<byte>, pos: nat): (r: Result<(nat, nat), WireError>)
    ensures r.Ok? ==> pos < r.value.1 <= |buf| && r.value.0 < TWO_32
  {
    var (n, next) :- ReadVarint(buf, pos, 10);
    Ok((n % TWO_32, next))
  }

  function ReadInt32(buf: seq<byte>, pos: nat): (r: Result<(int, nat), WireError>)
    ensures r.Ok? ==> pos < r.value.1 <= |buf|
  {
    var (n, next) :- ReadVarint(buf, pos, 10);
    Ok((Signed32(n), next))
  }

  /** `longToNumber(reader.int64())`, which refuses integers that a double cannot hold exactly. */
  function ReadSafeInt64(buf: seq<byte>, pos: nat): (r: Result<(int, nat), WireError>)
    ensures r.Ok? ==> pos < r.value.1 <= |buf|
  {
    var (n, next) :- ReadVarint(buf, pos, 10);
    if IsSafe(Signed64(n)) then Ok((Signed64(n), next)) else Err(UnsafeInteger)
  }

  function ReadBool(buf: seq<byte>, pos: nat): (r: Result<(bool, nat), WireError>)
    ensures r.Ok? ==> pos < r.value.1 <= |buf|
  {
    var (n, next) :- ReadVarint(buf, pos, 10);
    Ok((n % TWO_64 != 0, next))
  }

  /** The text of a string field, as a `TextDecoder` reads it: a leading byte order mark is dropped. */
  function Text(bytes: seq<byte>): string {
    Utf8.Decode(bytes)
  }

  function ReadString(buf: seq<byte>, pos: nat): (r: Result<(string, nat), WireError>)
    ensures r.Ok? ==> pos < r.value.1 <= |buf|
  {
    var (n, start) :- ReadUint32(buf, pos);
    if start + n > |buf| then Err(PrematureEof) else Ok((Text(buf[start..start + n]), start + n))
  }

  // ---------------------------------------------------------------------------------------------
  // Skipping
  // ---------------------------------------------------------------------------------------------

  /** Skipping a varint looks at the continuation bits only, however many there are. */
  function SkipVarint(buf: seq<byte>, pos: nat): (r: Result<nat, WireError>)
    ensures r.Ok? ==> pos < r.value <= |buf|
    decreases |buf| - pos
  {
    if pos >= |buf| then Err(PrematureEof)
    else if buf[pos] < 128 then Ok(pos + 1)
    else SkipVarint(buf, pos + 1)
  }

  function SkipBytes(buf: seq<byte>, pos: nat, n: nat): (r: Result<nat, WireError>)
    ensures r.Ok? ==> r.value == pos + n <= |buf|
  {
    if pos + n > |buf| then Err(PrematureEof) else Ok(pos + n)
  }

  /** `reader.skip(wireType)`; groups are not modelled. */
  function Skip(buf: seq<byte>, pos: nat, wireType: nat): (r: Result<nat, WireError>)
    ensures r.Ok? ==> pos < r.value <= |buf|
  {
    if wireType == 0 then SkipVarint(buf, pos)
    else if wireType == 1 then SkipBytes(buf, pos, 8)
    else if wireType == 2 then
      var (n, start) :- ReadUint32(buf, pos);
      SkipBytes(buf, start, n)
    else if wireType == 5 then SkipBytes(buf, pos, 4)
    else Err(InvalidWireType)
  }

  /** Ten bytes are the most that a tag, a length or an integer may take. */
  lemma {:induction false} TenBytesAreTheMost(buf: seq<byte>, pos: nat)
    requires pos + 10 <= |buf| && forall i :: pos <= i < pos + 10 ==> buf[i] >= 128
    ensures ReadUint32(buf, pos) == Err(InvalidVarint) && ReadString(buf, pos) == Err(InvalidVarint)
    ensures ReadInt32(buf, pos) == Err(InvalidVarint) && ReadSafeInt64(buf, pos) == Err(InvalidVarint)
    ensures ReadBool(buf, pos) == Err(InvalidVarint) && Skip(buf, pos, 2) == Err(InvalidVarint)
  {
    LongVarintIsRefused(buf, pos, 10);
    hide ReadVarint;
  }

  /** No record has one of the other wire types. */
  lemma OtherTypesAreRefused(buf: seq<byte>, pos: nat, wireType: nat)
    requires wireType == 3 || wireType == 4 || wireType > 5
    ensures Skip(buf, pos, wireType) == Err(InvalidWireType)
  {
  }

  // ---------------------------------------------------------------------------------------------
  // Records
  // ---------------------------------------------------------------------------------------------

  /** One key-value record; `Sub` is a length-delimited record that holds records. */
  datatype Field =
    | Number(num: nat, value: nat)
    | Fixed64(num: nat, bytes: seq<byte>)
    | Bytes(num: nat, bytes: seq<byte>)
    | Sub(num: nat, fields: seq<Field>)
    | Fixed32(num: nat, bytes: seq<byte>)

  function WireType(f: Field): nat {
    match f
    case Number(_, _) => 0
    case Fixed64(_, _) => 1
    case Bytes(_, _) => 2
    case Sub(_, _) => 2
    case Fixed32(_, _) => 5
  }

  function Tag(f: Field): nat {
    f.num * 8 + WireType(f)
  }

  function Payload(f: Field): seq<byte> {
    match f
    case Number(_, value) => Varint(value)
    case Fixed64(_, bytes) => bytes
    case Bytes(_, bytes) => Varint(|bytes|) + bytes
    case Sub(_, fields) => Varint(|Concat(fields)|) + Concat(fields)
    case Fixed32(_, bytes) => bytes
  }

  /** The bytes of a record sequence. */
  function Concat(fs: seq<Field>): seq<byte> {
    if fs == [] then [] else Varint(Tag(fs[0])) + Payload(fs[0]) + Concat(fs[1..])
  }

  /** The content of a length-delimited record. */
  function Content(f: Field): seq<byte>
    requires f.Bytes? || f.Sub?
  {
    if f.Bytes? then f.bytes else Concat(f.fields)
  }

  /** The record fits the wire format. */
  predicate OnWire(f: Field) {
    && 1 <= f.num < 0x2000_0000
    && match f
       case Number(_, value) => value < TWO_64
       case Fixed64(_, bytes) => |bytes| == 8
       case Bytes(_, bytes) => |bytes| < TWO_32
       case Sub(_, fields) => |Concat(fields)| < TWO_32
       case Fixed32(_, bytes) => |bytes| == 4
  }

  lemma ReadTag(f: Field, buf: seq<byte>, pos: nat)
    requires OnWire(f) && At(buf, pos, Varint(Tag(f)))
    ensures ReadUint32(buf, pos) == Ok((Tag(f), pos + |Varint(Tag(f))|))
    ensures Tag(f) != 0 && Tag(f) % 8 == WireType(f) && Tag(f) % 8 != 4
  {
    hide Varint, ReadVarint, Power128;
    SixtyFourBitsFit(Tag(f));
    ReadWrittenVarint(buf, pos, Tag(f), 10);
  }

  lemma {:induction false} ReadNumber(f: Field, buf: seq<byte>, pos: nat)
    requires OnWire(f) && f.Number? && At(buf, pos, Payload(f))
    ensures ReadVarint(buf, pos, 10) == Ok((f.value, pos + |Payload(f)|))
  {
    SixtyFourBitsFit(f.value);
    ReadWrittenVarint(buf, pos, f.value, 10);
  }

  lemma {:induction false} ReadLength(f: Field, buf: seq<byte>, pos: nat)
    requires OnWire(f) && (f.Bytes? || f.Sub?) && At(buf, pos, Payload(f))
    ensures var start, bytes := pos + |Varint(|Content(f)|)|, Content(f);
            && ReadUint32(buf, pos) == Ok((|bytes|, start))
            && start + |bytes| == pos + |Payload(f)| <= |buf|
            && At(buf, start, bytes)
            && buf[start..start + |bytes|] == bytes
  {
    hide Varint, ReadVarint, Power128, Concat, At;
    var bytes := Content(f);
    AtConcat(buf, pos, Varint(|bytes|), bytes);
    SixtyFourBitsFit(|bytes|);
    ReadWrittenVarint(buf, pos, |bytes|, 10);
    AtIsSlice(buf, pos + |Varint(|bytes|)|, bytes);
  }

  lemma {:induction false} ReadText(f: Field, buf: seq<byte>, pos: nat)
    requires OnWire(f) && (f.Bytes? || f.Sub?) && At(buf, pos, Payload(f))
    ensures ReadString(buf, pos) == Ok((Text(Content(f)), pos + |Payload(f)|))
  {
    ReadLength(f, buf, pos);
  }

  lemma {:induction false} SkipWrittenVarint(buf: seq<byte>, pos: nat, n: nat)
    requires At(buf, pos, Varint(n))
    ensures SkipVarint(buf, pos) == Ok(pos + |Varint(n)|)
    decreases n
  {
    assert buf[pos] == Varint(n)[0];
    if n >= 128 {
      AtConcat(buf, pos, [128 + n % 128], Varint(n / 128));
      SkipWrittenVarint(buf, pos + 1, n / 128);
    }
  }

  /** Skipping by wire type lands behind the record, whatever it holds. */
  lemma {:induction false} SkipsRecord(f: Field, buf: seq<byte>, pos: nat)
    requires OnWire(f) && At(buf, pos, Payload(f))
    ensures Skip(buf, pos, WireType(f)) == Ok(pos + |Payload(f)|)
  {
    match f
    case Number(_, value) => SkipWrittenVarint(buf, pos, value);
    case Bytes(_, _) => ReadLength(f, buf, pos);
    case Sub(_, _) => ReadLength(f, buf, pos);
    case Fixed64(_, _) =>
    case Fixed32(_, _) =>
  }
}
