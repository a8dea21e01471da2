/**
 `Error`, with its map of details.
 */
module WireErrorMessage {
  import opened Options
  import opened Wire
  import opened WireLoop
  import opened WireSimple
  import opened WireNested
  import Utf8

  datatype ErrorMessage = ErrorMessage(code: string, message: string, details: map<string, string>)

  const BASE_ERROR_MESSAGE := ErrorMessage("", "", map[])

  const PROTO_KEY := "__proto__"

  /** `message.details[key] = value` on a plain object, whose prototype setter ignores strings. */
  function SetDetail(m: ErrorMessage, entry: DetailsEntry): ErrorMessage {
    if entry.key == PROTO_KEY then m else m.(details := m.details[entry.key := entry.value])
  }

  function ErrorField(tag: nat, buf: seq<byte>, pos: nat, m: ErrorMessage)
    : Result<Option<(ErrorMessage, nat)>, WireError>
  {
    if tag == 10 then
      var (s, next) :- ReadString(buf, pos);
      Ok(Some((m.(code := s), next)))
    else if tag == 18 then
      var (s, next) :- ReadString(buf, pos);
      Ok(Some((m.(message := s), next)))
    else if tag == 26 then
      var (entry, next) :- ReadMessage(DetailsEntryField, BASE_DETAILS_ENTRY, buf, pos);
      Ok(Some((SetDetail(m, entry), next)))
    else Ok(None)
  }

  predicate ErrorKnown(f: Field) {
    IsBytes(f) && 1 <= f.num <= 3
  }

  function ErrorMeaning(m: ErrorMessage, f: Field): Option<ErrorMessage> {
    if !ErrorKnown(f) then None
    else if f.num == 1 then Some(m.(code := Text(Content(f))))
    else if f.num == 2 then Some(m.(message := Text(Content(f))))
    else if f.Bytes? then None
    else Some(SetDetail(m, ApplyAll(DetailsEntryMeaning, BASE_DETAILS_ENTRY, f.fields)))
  }

  predicate ErrorNests(f: Field) {
    IsBytes(f) && f.num == 3
  }

  /** Details are sequences of records that fit the wire. */
  predicate ErrorOk(f: Field) {
    ErrorNests(f) ==> f.Sub? && Acceptable(AnyRecord, f.fields)
  }

  lemma {:induction false} ErrorReads(f: Field, buf: seq<byte>, pos: nat, m: ErrorMessage)
    requires OnWire(f) && ErrorOk(f) && At(buf, pos, Payload(f))
    ensures ErrorField(Tag(f), buf, pos, m) == Reads(ErrorMeaning(m, f), pos + |Payload(f)|)
  {
    hide Handles, ReadMessage, ReadString, Payload, At, Content, Text, ApplyAll, Acceptable, SetDetail;
    if IsBytes(f) && f.num == 3 {
      DetailsEntryHandles();
      ReadSub(DetailsEntryField, AnyRecord, DetailsEntryMeaning, BASE_DETAILS_ENTRY, f, buf, pos);
    } else if IsBytes(f) {
      ReadText(f, buf, pos);
    }
    hide OnWire;
  }

  lemma ErrorHandles()
    ensures Handles(ErrorField, ErrorOk, ErrorMeaning)
    ensures IgnoresUnknown(ErrorMeaning, ErrorKnown)
    ensures Commutes(ErrorMeaning)
  {
    hide OnWire, At, Payload, Tag, ErrorField, ErrorOk, Content, Text, ApplyAll;
    forall f: Field, buf: seq<byte>, pos: nat, m: ErrorMessage |
      OnWire(f) && ErrorOk(f) && At(buf, pos, Payload(f))
      ensures ErrorField(Tag(f), buf, pos, m) == Reads(ErrorMeaning(m, f), pos + |Payload(f)|)
    {
      ErrorReads(f, buf, pos, m);
    }
  }

  predicate AreDetails(keys: seq<string>, details: map<string, string>) {
    forall i :: 0 <= i < |keys| ==>
      && keys[i] in details
      && IsDetailsEntry(DetailsEntry(keys[i], details[keys[i]]))
      && FitsPrefix(DetailsEntryFields(DetailsEntry(keys[i], details[keys[i]])))
  }

  function DetailFields(keys: seq<string>, details: map<string, string>): seq<Field>
    requires AreDetails(keys, details)
  {
    if keys == [] then []
    else [Sub(3, DetailsEntryFields(DetailsEntry(keys[0], details[keys[0]])))] + DetailFields(keys[1..], details)
  }

  /** `keys` are the keys of the details, in the order in which `Object.entries` lists them. */
  predicate IsErrorMessage(m: ErrorMessage, keys: seq<string>) {
    && IsText(m.code) && IsText(m.message)
    && AreDetails(keys, m.details)
    && (forall key :: key in m.details ==> key in keys)
  }

  /** The records of `Error.encode`. */
  function ErrorFields(m: ErrorMessage, keys: seq<string>): seq<Field>
    requires IsErrorMessage(m, keys)
  {
    TextFields(1, m.code) + (TextFields(2, m.message) + DetailFields(keys, m.details))
  }

  lemma {:induction false} ErrorText(m: ErrorMessage, num: nat, s: string)
    requires IsText(s) && 1 <= num <= 2
    ensures Acceptable(ErrorOk, TextFields(num, s))
    ensures ApplyAll(ErrorMeaning, m, TextFields(num, s)) ==
            if s == "" then m else if num == 1 then m.(code := Plain(s)) else m.(message := Plain(s))
  {
    TextRoundTrip(s);
    hide Text;
  }

  lemma DetailApplied(m: ErrorMessage, entry: DetailsEntry)
    requires IsDetailsEntry(entry) && FitsPrefix(DetailsEntryFields(entry))
    ensures var f := Sub(3, DetailsEntryFields(entry));
            && OnWire(f) && ErrorOk(f)
            && ApplyOne(ErrorMeaning, m, f) == SetDetail(m, PlainDetail(entry))
  {
    DetailsEntryRoundTrip(entry);
    hide DetailsEntryFields, DetailsEntryMeaning, Concat;
  }

  lemma {:induction false} NoDetails(details: map<string, string>)
    ensures DetailFields([], details) == [] && Acceptable(ErrorOk, [])
  {
  }

  lemma {:induction false} FirstDetail(keys: seq<string>, details: map<string, string>)
    requires AreDetails(keys, details) && keys != []
    ensures AreDetails(keys[1..], details)
    ensures var f := Sub(3, DetailsEntryFields(DetailsEntry(keys[0], details[keys[0]])));
            && DetailFields(keys, details) == [f] + DetailFields(keys[1..], details)
            && (OnWire(f) && ErrorOk(f) && Acceptable(ErrorOk, DetailFields(keys[1..], details)) ==>
                  Acceptable(ErrorOk, DetailFields(keys, details)))
  {
    hide OnWire, ErrorOk, IsDetailsEntry, FitsPrefix, DetailsEntryFields;
  }

  /** The details as they are read back, one after the other. */
  function StoreAll(m: ErrorMessage, keys: seq<string>, details: map<string, string>): ErrorMessage
    requires forall i :: 0 <= i < |keys| ==> keys[i] in details
    decreases |keys|
  {
    if keys == [] then m
    else StoreAll(SetDetail(m, PlainDetail(DetailsEntry(keys[0], details[keys[0]]))), keys[1..], details)
  }

  /** Decoding the detail records stores the details in their order. */
  lemma {:induction false} DetailsApplied(m: ErrorMessage, keys: seq<string>, details: map<string, string>)
    requires AreDetails(keys, details)
    ensures Acceptable(ErrorOk, DetailFields(keys, details))
    ensures ApplyAll(ErrorMeaning, m, DetailFields(keys, details)) == StoreAll(m, keys, details)
    decreases |keys|
  {
    hide DetailsEntryFields, ErrorMeaning, OnWire, ErrorOk, ApplyOne, ApplyAll, FitsPrefix, IsDetailsEntry;
    hide DetailFields, Acceptable, SetDetail, PlainDetail;
    if keys == [] {
      NoDetails(details);
      ApplyNone(ErrorMeaning, m);
    } else {
      var entry := DetailsEntry(keys[0], details[keys[0]]);
      DetailApplied(m, entry);
      FirstDetail(keys, details);
      DetailsApplied(SetDetail(m, PlainDetail(entry)), keys[1..], details);
      ApplyHead(ErrorMeaning, m, Sub(3, DetailsEntryFields(entry)), DetailFields(keys[1..], details));
    }
  }

  /** The position of the last key that is read back as `key`. */
  function LastOf(keys: seq<string>, key: string): (r: Option<nat>)
    ensures r.Some? ==> r.value < |keys| && Plain(keys[r.value]) == key
    ensures r.None? ==> forall i :: 0 <= i < |keys| ==> Plain(keys[i]) != key
  {
    if keys == [] then None
    else
      var r := LastOf(keys[1..], key);
      assert forall i :: 0 < i < |keys| ==> keys[i] == keys[1..][i - 1];
      if r.Some? then Some(r.value + 1) else if Plain(keys[0]) == key then Some(0) else None
  }

  /**
   The details that are read back: every key without its byte order mark, except the prototype's, with the
   value of the last detail that is read back under it.
   */
  lemma {:induction false} StoredDetails(m: ErrorMessage, keys: seq<string>, details: map<string, string>, key: string)
    requires forall i :: 0 <= i < |keys| ==> keys[i] in details
    ensures var r, last := StoreAll(m, keys, details), LastOf(keys, key);
            && r.code == m.code && r.message == m.message
            && (key in r.details <==> key in m.details || (last.Some? && key != "__proto__"))
            && (key in r.details ==>
                  r.details[key] == if last.Some? && key != "__proto__" then Plain(details[keys[last.value]])
                                    else m.details[key])
    decreases |keys|
  {
    hide Plain;
    if keys != [] {
      StoredDetails(SetDetail(m, PlainDetail(DetailsEntry(keys[0], details[keys[0]]))), keys[1..], details, key);
    }
  }

  /** The error as it is read back. */
  function PlainError(m: ErrorMessage, keys: seq<string>): ErrorMessage
    requires forall i :: 0 <= i < |keys| ==> keys[i] in m.details
  {
    StoreAll(ErrorMessage(Plain(m.code), Plain(m.message), map[]), keys, m.details)
  }

  lemma ErrorApplied(m: ErrorMessage, keys: seq<string>)
    requires IsErrorMessage(m, keys)
    ensures Acceptable(ErrorOk, ErrorFields(m, keys))
    ensures ApplyAll(ErrorMeaning, BASE_ERROR_MESSAGE, ErrorFields(m, keys)) == PlainError(m, keys)
  {
    hide ApplyAll, TextFields, DetailFields, Acceptable, IsText, IsDetailsEntry, FitsPrefix, Plain;
    var f3 := DetailFields(keys, m.details);
    var f2 := TextFields(2, m.message) + f3;
    var m1 := BASE_ERROR_MESSAGE.(code := Plain(m.code));
    var m2 := m1.(message := Plain(m.message));
    ApplyAppend(ErrorMeaning, BASE_ERROR_MESSAGE, TextFields(1, m.code), f2);
    ErrorText(BASE_ERROR_MESSAGE, 1, m.code);
    ApplyAppend(ErrorMeaning, m1, TextFields(2, m.message), f3);
    ErrorText(m1, 2, m.message);
    DetailsApplied(m2, keys, m.details);
    AcceptableSplits(ErrorOk, TextFields(2, m.message), f3);
    AcceptableSplits(ErrorOk, TextFields(1, m.code), f2);
  }

  /** No text of the error starts with a byte order mark. */
  predicate IsUnmarkedError(m: ErrorMessage) {
    && !Utf8.IsMarked(m.code) && !Utf8.IsMarked(m.message)
    && forall key :: key in m.details ==> !Utf8.IsMarked(key) && !Utf8.IsMarked(m.details[key])
  }

  /** An unmarked error is read back without the prototype's detail. */
  lemma UnmarkedErrorLosesProto(m: ErrorMessage, keys: seq<string>)
    requires IsErrorMessage(m, keys) && IsUnmarkedError(m)
    ensures PlainError(m, keys) == m.(details := m.details - {"__proto__"})
  {
    hide StoreAll, IsDetailsEntry, FitsPrefix, DetailsEntryFields;
    var base, r := ErrorMessage(Plain(m.code), Plain(m.message), map[]), PlainError(m, keys);
    StoredDetails(base, keys, m.details, "");
    forall key
      ensures key in r.details <==> key in m.details && key != "__proto__"
      ensures key in r.details ==> r.details[key] == m.details[key]
    {
      StoredDetails(base, keys, m.details, key);
      if key in m.details {
        assert key in keys;
      }
    }
    assert r.details == m.details - {"__proto__"};
  }

  function MaxLength(keys: seq<string>): (n: nat)
    ensures forall i :: 0 <= i < |keys| ==> |keys[i]| <= n
  {
    if keys == [] then 0
    else
      var n := MaxLength(keys[1..]);
      assert forall i :: 0 < i < |keys| ==> keys[i] == keys[1..][i - 1];
      if |keys[0]| > n then |keys[0]| else n
  }

  /** Keys that are all read back from keys are not marked: each mark would need a longer key. */
  lemma {:induction false} NoMarkedKey(keys: seq<string>, details: map<string, string>, key: string)
    requires forall i :: 0 <= i < |keys| ==> keys[i] in details
    requires forall k :: k in details ==> LastOf(keys, k).Some?
    requires key in details
    ensures !Utf8.IsMarked(key)
    decreases MaxLength(keys) - |key|
  {
    var source := keys[LastOf(keys, key).value];
    assert Plain(source) == key;
    if source != key {
      assert Utf8.IsMarked(source) && |source| == |key| + 1;
      NoMarkedKey(keys, details, source);
    }
  }

  lemma SurvivingErrorIsUnmarked(m: ErrorMessage, keys: seq<string>)
    requires IsErrorMessage(m, keys) && PlainError(m, keys) == m
    ensures IsUnmarkedError(m) && "__proto__" !in m.details
  {
    hide StoreAll, IsDetailsEntry, FitsPrefix, DetailsEntryFields, Plain, LastOf;
    var base := ErrorMessage(Plain(m.code), Plain(m.message), map[]);
    forall key
      ensures key in m.details ==> LastOf(keys, key).Some? && key != "__proto__"
      ensures key in m.details ==> m.details[key] == Plain(m.details[keys[LastOf(keys, key).value]])
    {
      StoredDetails(base, keys, m.details, key);
    }
    StoredDetails(base, keys, m.details, "");
    PlainIsSame(m.code);
    PlainIsSame(m.message);
    forall key | key in m.details
      ensures !Utf8.IsMarked(key) && !Utf8.IsMarked(m.details[key])
    {
      UnmarkedDetail(m.details, keys, key);
    }
  }

  lemma {:induction false} UnmarkedDetail(details: map<string, string>, keys: seq<string>, key: string)
    requires forall i :: 0 <= i < |keys| ==> keys[i] in details
    requires forall k :: k in details ==> LastOf(keys, k).Some?
    requires forall k :: k in details ==> details[k] == Plain(details[keys[LastOf(keys, k).value]])
    requires key in details
    ensures !Utf8.IsMarked(key) && !Utf8.IsMarked(details[key])
  {
    var k := keys[LastOf(keys, key).value];
    NoMarkedKey(keys, details, key);
    NoMarkedKey(keys, details, k);
    assert k == key;
    PlainIsSame(details[key]);
  }

  /**
   An error survives encoding and decoding, whatever order its details are written in, exactly when no
   text in it starts with a byte order mark and none of its details is named "__proto__". Without marks
   just that detail is lost.
   */
  lemma ErrorSurvivesIffPlain(m: ErrorMessage, keys: seq<string>)
    requires IsErrorMessage(m, keys)
    ensures Decode(ErrorField, BASE_ERROR_MESSAGE, Concat(ErrorFields(m, keys))) == Ok(PlainError(m, keys))
    ensures IsUnmarkedError(m) ==>
              Decode(ErrorField, BASE_ERROR_MESSAGE, Concat(ErrorFields(m, keys))) ==
              Ok(m.(details := m.details - {"__proto__"}))
    ensures Decode(ErrorField, BASE_ERROR_MESSAGE, Concat(ErrorFields(m, keys))) == Ok(m) <==>
            IsUnmarkedError(m) && "__proto__" !in m.details
  {
    hide IsErrorMessage, ErrorFields, Decode, Handles, IgnoresUnknown, Commutes, Acceptable, ApplyAll;
    hide IsUnmarkedError, StoreAll;
    assert forall i :: 0 <= i < |keys| ==> keys[i] in m.details by { KeysAreThere(m, keys); }
    ErrorHandles();
    ErrorApplied(m, keys);
    DecodeRecords(ErrorField, ErrorOk, ErrorMeaning, BASE_ERROR_MESSAGE, ErrorFields(m, keys));
    if IsUnmarkedError(m) {
      UnmarkedErrorLosesProto(m, keys);
      if "__proto__" !in m.details {
        assert m.details - {"__proto__"} == m.details;
      }
    }
    if PlainError(m, keys) == m {
      SurvivingErrorIsUnmarked(m, keys);
    }
  }

  lemma KeysAreThere(m: ErrorMessage, keys: seq<string>)
    requires IsErrorMessage(m, keys)
    ensures forall i :: 0 <= i < |keys| ==> keys[i] in m.details
  {
  }

  // ---------------------------------------------------------------------------------------------
  // Unknown records and order at both levels
  // ---------------------------------------------------------------------------------------------

  /** The record without the records that its detail does not know. */
  function StripError(f: Field): Field {
    if f.Sub? && f.num == 3 then Sub(3, Filter(DetailsEntryKnown, f.fields)) else f
  }

  lemma StrippedMeansSame(m: ErrorMessage, f: Field)
    ensures ErrorMeaning(m, f) == ErrorMeaning(m, StripError(f))
  {
    hide ApplyAll, Handles, Commutes, DetailsEntryKnown, IgnoresUnknown, DetailsEntryMeaning, Filter, SetDetail, Text;
    if f.Sub? {
      DetailsEntryHandles();
      UnknownRecordsDoNotMatter(DetailsEntryMeaning, DetailsEntryKnown, BASE_DETAILS_ENTRY, f.fields);
    }
  }

  lemma {:induction false} StrippedIsAccepted(f: Field)
    requires OnWire(f) && ErrorOk(f)
    ensures OnWire(StripError(f)) && ErrorOk(StripError(f))
  {
    if f.Sub? && f.num == 3 {
      FilterShortens(DetailsEntryKnown, f.fields);
      hide Concat, Acceptable;
      FilterIsAcceptable(AnyRecord, DetailsEntryKnown, f.fields);
    }
  }

  lemma ErrorStrips()
    ensures Strips(ErrorOk, ErrorOk, ErrorMeaning, ErrorKnown, StripError)
  {
    forall f: Field | !ErrorKnown(f)
      ensures ErrorOk(f)
    {
    }
    hide ErrorOk, ErrorMeaning, ErrorKnown, StripError, OnWire;
    forall m, f: Field
      ensures ErrorMeaning(m, StripError(f)) == ErrorMeaning(m, f)
    {
      StrippedMeansSame(m, f);
    }
    forall f: Field | OnWire(f) && ErrorOk(f)
      ensures OnWire(StripError(f)) && ErrorOk(StripError(f))
    {
      StrippedIsAccepted(f);
    }
  }

  lemma {:induction false} ErrorMeansAlike()
    ensures MeansAlike(ErrorMeaning, ErrorNests)
  {
    hide Handles, IgnoresUnknown, Commutes, SameByNumber, ApplyAll, DetailsEntryMeaning, SetDetail, Text;
    DetailsEntryHandles();
    forall m, f, g | Alike(ErrorNests, f, g)
      ensures ErrorMeaning(m, f) == ErrorMeaning(m, g)
    {
      if f != g {
        OrderAcrossFieldsDoesNotMatter(DetailsEntryMeaning, BASE_DETAILS_ENTRY, f.fields, g.fields);
      }
    }
  }

  /** Unknown records may stand between the records of an error and inside its details. */
  lemma {:induction false} ErrorForwardCompatible(fs: seq<Field>)
    requires Acceptable(ErrorOk, fs)
    ensures Decode(ErrorField, BASE_ERROR_MESSAGE, Concat(fs)) ==
            Decode(ErrorField, BASE_ERROR_MESSAGE, Concat(Strip(ErrorKnown, StripError, fs)))
  {
    assert Refuses(ErrorField, ErrorOk, ErrorOk);
    hide Decode, Handles, Refuses, IgnoresUnknown, Commutes, Acceptable, ApplyAll, Strip, Strips;
    ErrorHandles();
    ErrorStrips();
    StripDecodesAlike(ErrorField, ErrorOk, ErrorOk, ErrorMeaning, ErrorKnown, StripError, BASE_ERROR_MESSAGE, fs);
  }

  /**
   The records of an encoded error may be permuted across fields and mixed with unknown ones, at the top
   and inside its details; the details keep their order.
   */
  lemma {:induction false} ErrorIsOrderFree(m: ErrorMessage, keys: seq<string>, fs: seq<Field>, gs: seq<Field>)
    requires IsErrorMessage(m, keys)
    requires Acceptable(ErrorOk, fs)
    requires AllAlike(ErrorNests, Strip(ErrorKnown, StripError, fs), gs)
    requires SameByNumber(gs, ErrorFields(m, keys))
    ensures Decode(ErrorField, BASE_ERROR_MESSAGE, Concat(fs)) == Ok(PlainError(m, keys))
  {
    ErrorStrips();
    assert forall m, f :: ErrorMeaning(m, StripError(f)) == ErrorMeaning(m, f);
    assert forall i :: 0 <= i < |keys| ==> keys[i] in m.details by { KeysAreThere(m, keys); }
    hide IsErrorMessage, ErrorFields, Decode, Handles, IgnoresUnknown, Commutes, Acceptable, ApplyAll;
    hide SameByNumber, AllAlike, Strip, Strips, MeansAlike, ErrorMeaning, StripError, PlainError;
    ErrorHandles();
    ErrorApplied(m, keys);
    ErrorMeansAlike();
    ReorderedDecodesAlike(ErrorField, ErrorOk, ErrorMeaning, ErrorKnown, StripError, ErrorNests,
                          BASE_ERROR_MESSAGE, fs, gs, ErrorFields(m, keys));
  }
}
