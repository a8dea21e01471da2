/**
 The loop that every generated `decode` runs, and what it makes of a sequence of records.
 */
module WireLoop {
  import opened Options
  import opened Wire

  /**
   A message's switch on the tag: the updated message and the position behind the payload, or `None`
   when no case takes the tag.
   */
  type Handler<!M> = (nat, seq<byte>, nat, M) -> Result<Option<(M, nat)>, WireError>

  /** `while (reader.pos < end)`, from any position and with any message built so far. */
  function DecodeLoop<M>(h: Handler<M>, buf: seq<byte>, pos: nat, end: nat, m: M)
    : (r: Result<(M, nat), WireError>)
    ensures r.Ok? && pos <= |buf| ==> pos <= r.value.1 <= |buf|
    decreases |buf| - pos
  {
    if pos >= end then Ok((m, pos))
    else
      var (tag, p) :- ReadUint32(buf, pos);
      var handled :- h(tag, buf, p, m);
      if handled.Some? then
        var (m', next) := handled.value;
        if p <= next <= |buf| then DecodeLoop(h, buf, next, end, m') else Err(PrematureEof)
      else if tag % 8 == 4 || tag == 0 then Ok((m, p))
      else
        var next :- Skip(buf, p, tag % 8);
        DecodeLoop(h, buf, next, end, m)
  }

  /** What a record does to a message; `None` when the message has no such field. */
  type Meaning<!M> = (M, Field) -> Option<M>

  function ApplyOne<M>(apply: Meaning<M>, m: M, f: Field): M {
    var r := apply(m, f);
    if r.Some? then r.value else m
  }

  function ApplyAll<M>(apply: Meaning<M>, m: M, fs: seq<Field>): M
    decreases |fs|
  {
    if fs == [] then m else ApplyAll(apply, ApplyOne(apply, m, fs[0]), fs[1..])
  }

  lemma {:induction false} ApplyHead<M>(apply: Meaning<M>, m: M, f: Field, rest: seq<Field>)
    ensures ApplyAll(apply, m, [f] + rest) == ApplyAll(apply, ApplyOne(apply, m, f), rest)
  {
    assert ([f] + rest)[1..] == rest;
  }

  /** Records that fit the wire and that the message can take. */
  predicate Acceptable(ok: Field -> bool, fs: seq<Field>) {
    forall i :: 0 <= i < |fs| ==> OnWire(fs[i]) && ok(fs[i])
  }

  /** The handler reads every acceptable record as `apply` says, wherever it stands. */
  ghost predicate Handles<M(!new)>(h: Handler<M>, ok: Field -> bool, apply: Meaning<M>) {
    forall f: Field, buf: seq<byte>, pos: nat, m: M ::
      OnWire(f) && ok(f) && At(buf, pos, Payload(f)) ==>
        h(Tag(f), buf, pos, m) == Reads(apply(m, f), pos + |Payload(f)|)
  }

  /** The handler refuses every record of the right shape that is not acceptable. */
  ghost predicate Refuses<M(!new)>(h: Handler<M>, shape: Field -> bool, ok: Field -> bool) {
    forall f: Field, buf: seq<byte>, pos: nat, m: M ::
      OnWire(f) && shape(f) && !ok(f) && At(buf, pos, Payload(f)) ==> h(Tag(f), buf, pos, m) == Err(UnsafeInteger)
  }

  function Reads<M>(r: Option<M>, next: nat): Result<Option<(M, nat)>, WireError> {
    if r.Some? then Ok(Some((r.value, next))) else Ok(None)
  }

  lemma {:induction false} DecodeOne<M(!new)>(h: Handler<M>, ok: Field -> bool, apply: Meaning<M>, f: Field,
                           buf: seq<byte>, pos: nat, end: nat, m: M)
    requires Handles(h, ok, apply) && OnWire(f) && ok(f)
    requires At(buf, pos, Varint(Tag(f)) + Payload(f)) && pos < end
    ensures DecodeLoop(h, buf, pos, end, m) ==
            DecodeLoop(h, buf, pos + |Varint(Tag(f)) + Payload(f)|, end, ApplyOne(apply, m, f))
  {
    hide Handles, DecodeLoop, ReadUint32, Varint, Skip, Payload, At, OnWire, Tag, WireType;
    var p, next := pos + |Varint(Tag(f))|, pos + |Varint(Tag(f)) + Payload(f)|;
    AtConcat(buf, pos, Varint(Tag(f)), Payload(f));
    AtIsSlice(buf, p, Payload(f));
    ReadTag(f, buf, pos);
    HandlesOne(h, ok, apply, f, buf, p, m);
    if apply(m, f).Some? {
      DecodeHandled(h, buf, pos, end, m, Tag(f), p, apply(m, f).value, next);
    } else {
      SkipsRecord(f, buf, p);
      DecodeSkipped(h, buf, pos, end, m, Tag(f), p, next);
    }
  }

  lemma {:induction false} HandlesOne<M(!new)>(h: Handler<M>, ok: Field -> bool, apply: Meaning<M>, f: Field,
                                               buf: seq<byte>, pos: nat, m: M)
    requires Handles(h, ok, apply) && OnWire(f) && ok(f) && At(buf, pos, Payload(f))
    ensures h(Tag(f), buf, pos, m) == Reads(apply(m, f), pos + |Payload(f)|)
  {
  }

  /** One pass of the loop through a case of the switch. */
  lemma {:induction false} DecodeHandled<M>(h: Handler<M>, buf: seq<byte>, pos: nat, end: nat, m: M,
                                            tag: nat, p: nat, m': M, next: nat)
    requires pos < end && ReadUint32(buf, pos) == Ok((tag, p))
    requires h(tag, buf, p, m) == Ok(Some((m', next))) && p <= next <= |buf|
    ensures DecodeLoop(h, buf, pos, end, m) == DecodeLoop(h, buf, next, end, m')
  {
    hide ReadUint32, Skip;
  }

  /** One pass of the loop that skips a record. */
  lemma {:induction false} DecodeSkipped<M>(h: Handler<M>, buf: seq<byte>, pos: nat, end: nat, m: M,
                                            tag: nat, p: nat, next: nat)
    requires pos < end && ReadUint32(buf, pos) == Ok((tag, p)) && tag % 8 != 4 && tag != 0
    requires h(tag, buf, p, m) == Ok(None) && Skip(buf, p, tag % 8) == Ok(next)
    ensures DecodeLoop(h, buf, pos, end, m) == DecodeLoop(h, buf, next, end, m)
  {
    hide ReadUint32, Skip;
  }

  lemma {:induction false} ConcatHead(fs: seq<Field>)
    requires fs != []
    ensures Concat(fs) == Varint(Tag(fs[0])) + Payload(fs[0]) + Concat(fs[1..])
    ensures |Varint(Tag(fs[0])) + Payload(fs[0])| > 0
  {
  }

  /** Decoding a run of records applies them in order and goes on behind them. */
  lemma {:induction false} DecodeFields<M(!new)>(h: Handler<M>, ok: Field -> bool, apply: Meaning<M>,
                                                 fs: seq<Field>, buf: seq<byte>, pos: nat, end: nat, m: M)
    requires Handles(h, ok, apply) && Acceptable(ok, fs)
    requires At(buf, pos, Concat(fs)) && pos + |Concat(fs)| <= end
    ensures DecodeLoop(h, buf, pos, end, m) ==
            DecodeLoop(h, buf, pos + |Concat(fs)|, end, ApplyAll(apply, m, fs))
    decreases |fs|
  {
    hide Handles, DecodeLoop, Payload, Varint, At, OnWire;
    if fs != [] {
      hide Concat;
      var f := fs[0];
      var record := Varint(Tag(f)) + Payload(f);
      ConcatHead(fs);
      AtConcat(buf, pos, record, Concat(fs[1..]));
      DecodeOne(h, ok, apply, f, buf, pos, end, m);
      DecodeFields(h, ok, apply, fs[1..], buf, pos + |record|, end, ApplyOne(apply, m, f));
    }
  }

  /** Decoding a message that is exactly the given records. */
  lemma {:induction false} DecodeExactly<M(!new)>(h: Handler<M>, ok: Field -> bool, apply: Meaning<M>,
                               fs: seq<Field>, buf: seq<byte>, pos: nat, m: M)
    requires Handles(h, ok, apply) && Acceptable(ok, fs)
    requires At(buf, pos, Concat(fs))
    ensures DecodeLoop(h, buf, pos, pos + |Concat(fs)|, m) ==
            Ok((ApplyAll(apply, m, fs), pos + |Concat(fs)|))
  {
    hide Handles, Acceptable, Concat, At, ApplyAll, ReadUint32, Skip;
    DecodeFields(h, ok, apply, fs, buf, pos, pos + |Concat(fs)|, m);
  }

  /** Decoding meets a record that the handler refuses. */
  lemma {:induction false} RefuseOne<M(!new)>(h: Handler<M>, shape: Field -> bool, ok: Field -> bool, f: Field,
                           buf: seq<byte>, pos: nat, end: nat, m: M)
    requires Refuses(h, shape, ok) && OnWire(f) && shape(f) && !ok(f)
    requires At(buf, pos, Varint(Tag(f)) + Payload(f)) && pos < end
    ensures DecodeLoop(h, buf, pos, end, m) == Err(UnsafeInteger)
  {
    hide ReadUint32, Varint, Skip, Payload;
    AtConcat(buf, pos, Varint(Tag(f)), Payload(f));
    ReadTag(f, buf, pos);
    assert h(Tag(f), buf, pos + |Varint(Tag(f))|, m) == Err(UnsafeInteger);
  }

  /** Decoding fails at the first record that is not acceptable, whatever comes before and behind it. */
  lemma {:induction false} RefuseFields<M(!new)>(h: Handler<M>, shape: Field -> bool, ok: Field -> bool,
                                                 apply: Meaning<M>, fs: seq<Field>,
                                                 buf: seq<byte>, pos: nat, end: nat, m: M)
    requires Handles(h, ok, apply) && Refuses(h, shape, ok)
    requires Acceptable(shape, fs) && !Acceptable(ok, fs)
    requires At(buf, pos, Concat(fs)) && pos + |Concat(fs)| <= end
    ensures DecodeLoop(h, buf, pos, end, m) == Err(UnsafeInteger)
    decreases |fs|
  {
    hide Handles, Refuses, DecodeLoop, Payload, Varint, At, OnWire, Concat;
    var f, rest := fs[0], fs[1..];
    var record := Varint(Tag(f)) + Payload(f);
    ConcatHead(fs);
    AtConcat(buf, pos, record, Concat(rest));
    assert forall i :: 0 <= i < |rest| ==> rest[i] == fs[i + 1];
    if ok(f) {
      DecodeOne(h, ok, apply, f, buf, pos, end, m);
      RefuseFields(h, shape, ok, apply, rest, buf, pos + |record|, end, ApplyOne(apply, m, f));
    } else {
      RefuseOne(h, shape, ok, f, buf, pos, end, m);
    }
  }

  // ---------------------------------------------------------------------------------------------
  // Sequences of records
  // ---------------------------------------------------------------------------------------------

  lemma {:induction false} ApplyAppend<M>(apply: Meaning<M>, m: M, fs: seq<Field>, gs: seq<Field>)
    ensures ApplyAll(apply, m, fs + gs) == ApplyAll(apply, ApplyAll(apply, m, fs), gs)
    decreases |fs|
  {
    if fs == [] {
      assert fs + gs == gs;
    } else {
      assert (fs + gs)[1..] == fs[1..] + gs;
      ApplyAppend(apply, ApplyOne(apply, m, fs[0]), fs[1..], gs);
    }
  }

  lemma {:induction false} ConcatAppend(fs: seq<Field>, gs: seq<Field>)
    ensures Concat(fs + gs) == Concat(fs) + Concat(gs)
  {
    if fs == [] {
      assert fs + gs == gs;
    } else {
      hide Payload;
      assert (fs + gs)[1..] == fs[1..] + gs;
      ConcatAppend(fs[1..], gs);
      var record := Varint(Tag(fs[0])) + Payload(fs[0]);
      assert record + (Concat(fs[1..]) + Concat(gs)) == record + Concat(fs[1..]) + Concat(gs);
    }
  }

  // ---------------------------------------------------------------------------------------------
  // Unknown records
  // ---------------------------------------------------------------------------------------------

  function Filter(p: Field -> bool, fs: seq<Field>): seq<Field> {
    if fs == [] then [] else (if p(fs[0]) then [fs[0]] else []) + Filter(p, fs[1..])
  }

  /** No message changes when it meets a record outside `known`. */
  ghost predicate IgnoresUnknown<M(!new)>(apply: Meaning<M>, known: Field -> bool) {
    forall m, f :: !known(f) ==> apply(m, f) == None
  }

  /** Records that a message does not know can be inserted or left out anywhere. */
  lemma {:induction false} UnknownRecordsDoNotMatter<M(!new)>(apply: Meaning<M>, known: Field -> bool,
                                                              m: M, fs: seq<Field>)
    requires IgnoresUnknown(apply, known)
    ensures ApplyAll(apply, m, fs) == ApplyAll(apply, m, Filter(known, fs))
    decreases |fs|
  {
    if fs != [] {
      UnknownRecordsDoNotMatter(apply, known, ApplyOne(apply, m, fs[0]), fs[1..]);
      if known(fs[0]) {
        assert ([fs[0]] + Filter(known, fs[1..]))[1..] == Filter(known, fs[1..]);
      } else {
        assert ApplyOne(apply, m, fs[0]) == m;
        assert [] + Filter(known, fs[1..]) == Filter(known, fs[1..]);
      }
    }
  }

  // ---------------------------------------------------------------------------------------------
  // Order of records
  // ---------------------------------------------------------------------------------------------

  function WithNum(fs: seq<Field>, num: nat): seq<Field> {
    if fs == [] then [] else (if fs[0].num == num then [fs[0]] else []) + WithNum(fs[1..], num)
  }

  /** The same records under every field number, in the same order there. */
  ghost predicate SameByNumber(fs: seq<Field>, gs: seq<Field>) {
    forall num: nat :: WithNum(fs, num) == WithNum(gs, num)
  }

  /** Records of different fields commute. */
  ghost predicate Commutes<M(!new)>(apply: Meaning<M>) {
    forall m, f: Field, g: Field :: f.num != g.num ==>
      ApplyOne(apply, ApplyOne(apply, m, f), g) == ApplyOne(apply, ApplyOne(apply, m, g), f)
  }

  lemma {:induction false} WithNumAppend(fs: seq<Field>, gs: seq<Field>, num: nat)
    ensures WithNum(fs + gs, num) == WithNum(fs, num) + WithNum(gs, num)
  {
    if fs == [] {
      assert fs + gs == gs && WithNum([], num) + WithNum(gs, num) == WithNum(gs, num);
    } else {
      hide WithNum;
      var first, rest := if fs[0].num == num then [fs[0]] else [], fs[1..];
      assert (fs + gs)[1..] == rest + gs && (fs + gs)[0] == fs[0];
      WithNumAppend(rest, gs, num);
      WithNumFirst(fs + gs, num);
      WithNumFirst(fs, num);
      assert first + (WithNum(rest, num) + WithNum(gs, num)) == first + WithNum(rest, num) + WithNum(gs, num);
    }
  }

  lemma {:induction false} WithNumFirst(fs: seq<Field>, num: nat)
    requires fs != []
    ensures WithNum(fs, num) == (if fs[0].num == num then [fs[0]] else []) + WithNum(fs[1..], num)
  {
  }

  /** The position of the first record with this number. */
  function FirstWith(fs: seq<Field>, num: nat): (k: nat)
    requires WithNum(fs, num) != []
    ensures k < |fs| && fs[k].num == num && fs[k] == WithNum(fs, num)[0]
    ensures WithNum(fs[..k], num) == []
  {
    if fs[0].num == num then 0
    else
      var k := FirstWith(fs[1..], num);
      assert WithNum(fs, num)[0] == fs[k + 1] && WithNum(fs[..k + 1], num) == [] by {
        WithNumFirst(fs, num);
        assert fs[..k + 1][1..] == fs[1..][..k];
        WithNumFirst(fs[..k + 1], num);
      }
      k + 1
  }

  lemma {:induction false} MoveToFront<M(!new)>(apply: Meaning<M>, m: M, fs: seq<Field>, f: Field)
    requires Commutes(apply) && WithNum(fs, f.num) == []
    ensures ApplyOne(apply, ApplyAll(apply, m, fs), f) == ApplyAll(apply, ApplyOne(apply, m, f), fs)
    decreases |fs|
  {
    if fs != [] {
      MoveToFront(apply, ApplyOne(apply, m, fs[0]), fs[1..], f);
      assert ApplyOne(apply, ApplyOne(apply, m, f), fs[0]) == ApplyOne(apply, ApplyOne(apply, m, fs[0]), f);
    }
  }

  /** Reordering records of different fields does not change the decoded message. */
  lemma {:induction false} OrderAcrossFieldsDoesNotMatter<M(!new)>(apply: Meaning<M>, m: M,
                                                                   fs: seq<Field>, gs: seq<Field>)
    requires Commutes(apply) && SameByNumber(fs, gs)
    ensures ApplyAll(apply, m, fs) == ApplyAll(apply, m, gs)
    decreases |fs|
  {
    if fs == [] {
      assert gs != [] ==> WithNum(fs, gs[0].num) == WithNum(gs, gs[0].num);
    } else {
      var f := fs[0];
      assert WithNum(fs, f.num) == WithNum(gs, f.num);
      var k := FirstWith(gs, f.num);
      var before, after := gs[..k], gs[k + 1..];
      assert gs == before + ([f] + after);
      RemoveFirst(fs, before, after);
      ApplyAppend(apply, m, before, [f] + after);
      assert ([f] + after)[1..] == after;
      MoveToFront(apply, m, before, f);
      ApplyAppend(apply, ApplyOne(apply, m, f), before, after);
      OrderAcrossFieldsDoesNotMatter(apply, ApplyOne(apply, m, f), fs[1..], before + after);
    }
  }

  lemma {:induction false} RemoveFirst(fs: seq<Field>, before: seq<Field>, after: seq<Field>)
    requires fs != [] && WithNum(before, fs[0].num) == []
    requires SameByNumber(fs, before + ([fs[0]] + after))
    ensures SameByNumber(fs[1..], before + after)
  {
    var f := fs[0];
    forall num: nat
      ensures WithNum(fs[1..], num) == WithNum(before + after, num)
    {
      assert WithNum(fs, num) == WithNum(before + ([f] + after), num);
      WithNumAppend(before, [f] + after, num);
      WithNumAppend(before, after, num);
      assert ([f] + after)[1..] == after;
      var x, y := WithNum(fs[1..], num), WithNum(after, num);
      if num == f.num {
        assert WithNum(fs, num) == [f] + x && WithNum([f] + after, num) == [f] + y;
        assert WithNum(before, num) == [];
        assert ([f] + x)[1..] == x && ([] + ([f] + y))[1..] == y;
        assert [] + y == y;
      } else {
        assert WithNum(fs, num) == [] + x == x;
        assert WithNum([f] + after, num) == [] + y == y;
      }
    }
  }

  // ---------------------------------------------------------------------------------------------
  // Whole messages
  // ---------------------------------------------------------------------------------------------

  /** `decode(bytes)` without a length. */
  function Decode<M>(h: Handler<M>, base: M, buf: seq<byte>): Result<M, WireError> {
    var (m, _) :- DecodeLoop(h, buf, 0, |buf|, base);
    Ok(m)
  }

  /** Decoding a sequence of records gives the base message with the records applied in order. */
  lemma {:induction false} DecodeRecords<M(!new)>(h: Handler<M>, ok: Field -> bool, apply: Meaning<M>,
                                                  base: M, fs: seq<Field>)
    requires Handles(h, ok, apply) && Acceptable(ok, fs)
    ensures Decode(h, base, Concat(fs)) == Ok(ApplyAll(apply, base, fs))
  {
    hide Handles, DecodeLoop, ApplyAll;
    var buf := Concat(fs);
    assert buf[0..] == buf;
    DecodeExactly(h, ok, apply, fs, buf, 0, base);
  }

  lemma {:induction false} StopsAtTag<M>(h: Handler<M>, buf: seq<byte>, pos: nat, end: nat, m: M)
    requires pos < |buf| && pos < end && buf[pos] < 128 && (buf[pos] == 0 || buf[pos] % 8 == 4)
    requires h(buf[pos], buf, pos + 1, m) == Ok(None)
    ensures DecodeLoop(h, buf, pos, end, m) == Ok((m, pos + 1))
  {
  }

  /** A zero byte or the end tag of a group ends a message, whatever stands behind it. */
  lemma {:induction false} EndTagStops<M(!new)>(h: Handler<M>, ok: Field -> bool, apply: Meaning<M>, base: M,
                                                fs: seq<Field>, tag: byte, rest: seq<byte>)
    requires Handles(h, ok, apply) && Acceptable(ok, fs)
    requires tag < 128 && (tag == 0 || tag % 8 == 4)
    requires forall buf, pos, m :: h(tag, buf, pos, m) == Ok(None)
    ensures Decode(h, base, Concat(fs) + ([tag] + rest)) == Ok(ApplyAll(apply, base, fs))
  {
    hide Handles, DecodeLoop, ApplyAll, Acceptable, Concat;
    var buf := Concat(fs) + ([tag] + rest);
    assert buf[0..] == buf && At(buf, 0, Concat(fs));
    DecodeFields(h, ok, apply, fs, buf, 0, |buf|, base);
    StopsAtTag(h, buf, |Concat(fs)|, |buf|, ApplyAll(apply, base, fs));
  }

  /** Decoding a sequence of records of the right shape: it succeeds exactly when all are acceptable. */
  lemma {:induction false} DecodeOrRefuse<M(!new)>(h: Handler<M>, shape: Field -> bool, ok: Field -> bool,
                                                   apply: Meaning<M>, base: M, fs: seq<Field>)
    requires Handles(h, ok, apply) && Refuses(h, shape, ok) && Acceptable(shape, fs)
    ensures Decode(h, base, Concat(fs)) ==
            if Acceptable(ok, fs) then Ok(ApplyAll(apply, base, fs)) else Err(UnsafeInteger)
  {
    hide Handles, Refuses, DecodeLoop, ApplyAll, Acceptable, Concat;
    if Acceptable(ok, fs) {
      DecodeRecords(h, ok, apply, base, fs);
    } else {
      var buf := Concat(fs);
      assert buf[0..] == buf;
      RefuseFields(h, shape, ok, apply, fs, buf, 0, |buf|, base);
    }
  }

  lemma {:induction false} FilterIsAcceptable(ok: Field -> bool, known: Field -> bool, fs: seq<Field>)
    requires Acceptable(ok, fs)
    ensures Acceptable(ok, Filter(known, fs))
  {
    if fs != [] {
      hide OnWire;
      assert forall i :: 0 <= i < |fs[1..]| ==> fs[1..][i] == fs[i + 1];
      FilterIsAcceptable(ok, known, fs[1..]);
    }
  }

  /** Forward compatibility: unknown records, anywhere between the others, decode to nothing. */
  lemma {:induction false} ForwardCompatible<M(!new)>(h: Handler<M>, ok: Field -> bool, apply: Meaning<M>,
                                                      known: Field -> bool, base: M, fs: seq<Field>)
    requires Handles(h, ok, apply) && IgnoresUnknown(apply, known) && Acceptable(ok, fs)
    ensures Decode(h, base, Concat(fs)) == Decode(h, base, Concat(Filter(known, fs)))
  {
    hide Decode, Handles, Acceptable, IgnoresUnknown;
    FilterIsAcceptable(ok, known, fs);
    DecodeRecords(h, ok, apply, base, fs);
    DecodeRecords(h, ok, apply, base, Filter(known, fs));
    UnknownRecordsDoNotMatter(apply, known, base, fs);
  }

  /** Records may arrive in any order that keeps the order within each field number. */
  lemma {:induction false} OrderFree<M(!new)>(h: Handler<M>, ok: Field -> bool, apply: Meaning<M>, base: M,
                           fs: seq<Field>, gs: seq<Field>)
    requires Handles(h, ok, apply) && Commutes(apply)
    requires Acceptable(ok, fs) && Acceptable(ok, gs) && SameByNumber(fs, gs)
    ensures Decode(h, base, Concat(fs)) == Decode(h, base, Concat(gs))
  {
    hide Decode, Handles, Acceptable, Commutes;
    DecodeRecords(h, ok, apply, base, fs);
    DecodeRecords(h, ok, apply, base, gs);
    OrderAcrossFieldsDoesNotMatter(apply, base, fs, gs);
  }
}
