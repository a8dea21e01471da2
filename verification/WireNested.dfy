/**
 Messages that hold other messages: how a nested message is read, what may be left out of it, and in
 which orders its records may come.
 */
module WireNested {
  import opened Options
  import opened Wire
  import opened WireLoop
  import opened WireSimple

  /** The nested message behind a length prefix, and the position at which its decoder stopped. */
  function ReadMessage<M>(h: Handler<M>, base: M, buf: seq<byte>, pos: nat): (r: Result<(M, nat), WireError>)
    ensures r.Ok? ==> pos < r.value.1 <= |buf|
  {
    var (n, start) :- ReadUint32(buf, pos);
    DecodeLoop(h, buf, start, start + n, base)
  }

  lemma {:induction false} ReadSub<M(!new)>(h: Handler<M>, ok: Field -> bool, apply: Meaning<M>, base: M,
                         f: Field, buf: seq<byte>, pos: nat)
    requires Handles(h, ok, apply)
    requires OnWire(f) && f.Sub? && Acceptable(ok, f.fields) && At(buf, pos, Payload(f))
    ensures ReadMessage(h, base, buf, pos) == Ok((ApplyAll(apply, base, f.fields), pos + |Payload(f)|))
  {
    hide Handles, DecodeLoop, ApplyAll, Acceptable, OnWire, At, Varint, Concat, ReadUint32, Payload;
    ReadLength(f, buf, pos);
    DecodeExactly(h, ok, apply, f.fields, buf, pos + |Varint(|Concat(f.fields)|)|, base);
  }

  /** A nested message with a record that its decoder refuses is refused. */
  lemma {:induction false} RefuseSub<M(!new)>(h: Handler<M>, shape: Field -> bool, ok: Field -> bool,
                                              apply: Meaning<M>, base: M, f: Field, buf: seq<byte>, pos: nat)
    requires Handles(h, ok, apply) && Refuses(h, shape, ok)
    requires OnWire(f) && f.Sub? && Acceptable(shape, f.fields) && !Acceptable(ok, f.fields)
    requires At(buf, pos, Payload(f))
    ensures ReadMessage(h, base, buf, pos) == Err(UnsafeInteger)
  {
    hide Handles, Refuses, DecodeLoop, Acceptable, OnWire, At, Varint, Concat, ReadUint32, Payload;
    ReadLength(f, buf, pos);
    var start := pos + |Varint(|Concat(f.fields)|)|;
    RefuseFields(h, shape, ok, apply, f.fields, buf, start, start + |Concat(f.fields)|, base);
  }

  /** A nested message is present as soon as its record is, even without content. */
  function SubFields(num: nat, fields: Option<seq<Field>>): seq<Field> {
    if fields.Some? then [Sub(num, fields.value)] else []
  }

  /** The records of a nested message fit their length prefix. */
  predicate FitsPrefix(fields: seq<Field>) {
    |Concat(fields)| < TWO_32
  }

  // ---------------------------------------------------------------------------------------------
  // Unknown records at both levels
  // ---------------------------------------------------------------------------------------------

  /** Filtering shortens the bytes. */
  lemma {:induction false} FilterShortens(known: Field -> bool, fs: seq<Field>)
    ensures |Concat(Filter(known, fs))| <= |Concat(fs)|
  {
    if fs != [] {
      hide Payload, Varint;
      var rest := Filter(known, fs[1..]);
      FilterShortens(known, fs[1..]);
      if known(fs[0]) {
        assert ([fs[0]] + rest)[1..] == rest;
        ConcatHead([fs[0]] + rest);
      } else {
        assert [] + rest == rest;
      }
    }
  }

  lemma {:induction false} FilterKeepsRefusal(ok: Field -> bool, known: Field -> bool, fs: seq<Field>)
    requires forall f :: !known(f) ==> ok(f)
    requires Acceptable(AnyRecord, fs)
    ensures Acceptable(ok, Filter(known, fs)) <==> Acceptable(ok, fs)
  {
    if fs != [] {
      hide OnWire;
      var first, rest := if known(fs[0]) then [fs[0]] else [], Filter(known, fs[1..]);
      assert forall i :: 0 <= i < |fs[1..]| ==> fs[1..][i] == fs[i + 1];
      FilterKeepsRefusal(ok, known, fs[1..]);
      AcceptableSplits(ok, first, rest);
      AcceptableSplits(ok, [fs[0]], fs[1..]);
      assert [fs[0]] + fs[1..] == fs;
    }
  }

  /** The records that a message knows, each without what its own decoder does not know. */
  function Strip(known: Field -> bool, nested: Field -> Field, fs: seq<Field>): seq<Field> {
    if fs == [] then [] else (if known(fs[0]) then [nested(fs[0])] else []) + Strip(known, nested, fs[1..])
  }

  /** Stripping a record changes neither its meaning nor whether it is accepted. */
  ghost predicate Strips<M(!new)>(shape: Field -> bool, ok: Field -> bool, apply: Meaning<M>,
                                  known: Field -> bool, nested: Field -> Field) {
    && (forall m, f :: apply(m, nested(f)) == apply(m, f))
    && (forall f :: OnWire(f) && shape(f) ==>
          OnWire(nested(f)) && shape(nested(f)) && (ok(nested(f)) <==> ok(f)))
    && (forall f :: !known(f) ==> ok(f))
  }

  lemma {:induction false} StripKeepsMeaning<M(!new)>(apply: Meaning<M>, known: Field -> bool,
                                                      nested: Field -> Field, m: M, fs: seq<Field>)
    requires IgnoresUnknown(apply, known)
    requires forall m, f :: apply(m, nested(f)) == apply(m, f)
    ensures ApplyAll(apply, m, fs) == ApplyAll(apply, m, Strip(known, nested, fs))
    decreases |fs|
  {
    if fs != [] {
      var rest := Strip(known, nested, fs[1..]);
      StripKeepsMeaning(apply, known, nested, ApplyOne(apply, m, fs[0]), fs[1..]);
      assert ApplyOne(apply, m, nested(fs[0])) == ApplyOne(apply, m, fs[0]);
      if known(fs[0]) {
        ApplyHead(apply, m, nested(fs[0]), rest);
      } else {
        assert [] + rest == rest;
      }
    }
  }

  lemma {:induction false} StripKeepsRefusal<M(!new)>(shape: Field -> bool, ok: Field -> bool, apply: Meaning<M>,
                                                      known: Field -> bool, nested: Field -> Field, fs: seq<Field>)
    requires Strips(shape, ok, apply, known, nested) && Acceptable(shape, fs)
    ensures Acceptable(shape, Strip(known, nested, fs))
    ensures Acceptable(ok, Strip(known, nested, fs)) <==> Acceptable(ok, fs)
  {
    hide Strips, Acceptable;
    if fs == [] {
      NothingIsAcceptable(shape);
      NothingIsAcceptable(ok);
    } else {
      var first, rest := if known(fs[0]) then [nested(fs[0])] else [], Strip(known, nested, fs[1..]);
      assert [fs[0]] + fs[1..] == fs;
      AcceptableSplits(shape, [fs[0]], fs[1..]);
      AcceptableSplits(ok, [fs[0]], fs[1..]);
      StripOne(shape, ok, apply, known, nested, fs[0]);
      StripKeepsRefusal(shape, ok, apply, known, nested, fs[1..]);
      AcceptableSplits(shape, first, rest);
      AcceptableSplits(ok, first, rest);
    }
  }

  lemma NothingIsAcceptable(ok: Field -> bool)
    ensures Acceptable(ok, [])
  {
  }

  lemma StripOne<M(!new)>(shape: Field -> bool, ok: Field -> bool, apply: Meaning<M>,
                          known: Field -> bool, nested: Field -> Field, f: Field)
    requires Strips(shape, ok, apply, known, nested) && Acceptable(shape, [f])
    ensures var first := if known(f) then [nested(f)] else [];
            Acceptable(shape, first) && (Acceptable(ok, first) <==> Acceptable(ok, [f]))
  {
    hide OnWire;
    assert [f][0] == f;
  }

  /** Unknown records at both levels may be left out, whether decoding succeeds or throws. */
  lemma {:induction false} StripDecodesAlike<M(!new)>(h: Handler<M>, shape: Field -> bool, ok: Field -> bool,
                                                      apply: Meaning<M>, known: Field -> bool,
                                                      nested: Field -> Field, base: M, fs: seq<Field>)
    requires Handles(h, ok, apply) && Refuses(h, shape, ok) && IgnoresUnknown(apply, known)
    requires Strips(shape, ok, apply, known, nested) && Acceptable(shape, fs)
    ensures Decode(h, base, Concat(fs)) == Decode(h, base, Concat(Strip(known, nested, fs)))
  {
    StripKeepsRefusal(shape, ok, apply, known, nested, fs);
    StripKeepsMeaning(apply, known, nested, base, fs);
    hide Handles, Refuses, IgnoresUnknown, Strips, Acceptable, Decode, ApplyAll, Strip, Concat;
    DecodeOrRefuse(h, shape, ok, apply, base, fs);
    DecodeOrRefuse(h, shape, ok, apply, base, Strip(known, nested, fs));
  }

  // ---------------------------------------------------------------------------------------------
  // Order at both levels
  // ---------------------------------------------------------------------------------------------

  /** The same record, or the same nested message with its records in another order across fields. */
  ghost predicate Alike(isNested: Field -> bool, f: Field, g: Field) {
    f == g || (isNested(f) && f.Sub? && g.Sub? && f.num == g.num && SameByNumber(f.fields, g.fields))
  }

  ghost predicate AllAlike(isNested: Field -> bool, fs: seq<Field>, gs: seq<Field>) {
    |fs| == |gs| && forall i :: 0 <= i < |fs| ==> Alike(isNested, fs[i], gs[i])
  }

  /** Records that are alike mean the same. */
  ghost predicate MeansAlike<M(!new)>(apply: Meaning<M>, isNested: Field -> bool) {
    forall m, f, g :: Alike(isNested, f, g) ==> apply(m, f) == apply(m, g)
  }

  lemma {:induction false} AlikeMeansSame<M(!new)>(apply: Meaning<M>, isNested: Field -> bool, m: M,
                                                   fs: seq<Field>, gs: seq<Field>)
    requires MeansAlike(apply, isNested) && AllAlike(isNested, fs, gs)
    ensures ApplyAll(apply, m, fs) == ApplyAll(apply, m, gs)
    decreases |fs|
  {
    if fs != [] {
      hide Alike;
      assert Alike(isNested, fs[0], gs[0]);
      assert ApplyOne(apply, m, fs[0]) == ApplyOne(apply, m, gs[0]);
      assert forall i :: 0 <= i < |fs[1..]| ==> fs[1..][i] == fs[i + 1] && gs[1..][i] == gs[i + 1];
      AlikeMeansSame(apply, isNested, ApplyOne(apply, m, fs[0]), fs[1..], gs[1..]);
    }
  }

  /**
   Records in any order across fields, at both levels, and mixed with unknown ones at both levels, mean
   what the given records mean.
   */
  lemma {:induction false} ReorderedDecodesAlike<M(!new)>(h: Handler<M>, ok: Field -> bool, apply: Meaning<M>,
                                                          known: Field -> bool, nested: Field -> Field,
                                                          isNested: Field -> bool, base: M,
                                                          fs: seq<Field>, gs: seq<Field>, records: seq<Field>)
    requires Handles(h, ok, apply) && IgnoresUnknown(apply, known) && Commutes(apply)
    requires (forall m, f :: apply(m, nested(f)) == apply(m, f)) && MeansAlike(apply, isNested)
    requires Acceptable(ok, fs)
    requires AllAlike(isNested, Strip(known, nested, fs), gs) && SameByNumber(gs, records)
    ensures Decode(h, base, Concat(fs)) == Ok(ApplyAll(apply, base, records))
  {
    StripKeepsMeaning(apply, known, nested, base, fs);
    hide Handles, IgnoresUnknown, Commutes, MeansAlike, Acceptable, Decode, ApplyAll, Strip, AllAlike, SameByNumber;
    DecodeRecords(h, ok, apply, base, fs);
    AlikeMeansSame(apply, isNested, base, Strip(known, nested, fs), gs);
    OrderAcrossFieldsDoesNotMatter(apply, base, gs, records);
  }
}
