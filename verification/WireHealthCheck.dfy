/**
 `HealthCheckResult`, with any number of entries.
 */
module WireHealthCheck {
  import opened Options
  import opened Wire
  import opened WireLoop
  import opened WireSimple
  import opened WireNested
  import Utf8

  datatype HealthCheckResult = HealthCheckResult(
    checked: int, healthy: int, markedOffline: int, markedIdle: int, entries: seq<AgentHealthEntry>)

  const BASE_HEALTH_CHECK_RESULT := HealthCheckResult(0, 0, 0, 0, [])

  function HealthCheckResultField(tag: nat, buf: seq<byte>, pos: nat, m: HealthCheckResult)
    : Result<Option<(HealthCheckResult, nat)>, WireError>
  {
    if tag == 8 then
      var (v, next) :- ReadInt32(buf, pos);
      Ok(Some((m.(checked := v), next)))
    else if tag == 16 then
      var (v, next) :- ReadInt32(buf, pos);
      Ok(Some((m.(healthy := v), next)))
    else if tag == 24 then
      var (v, next) :- ReadInt32(buf, pos);
      Ok(Some((m.(markedOffline := v), next)))
    else if tag == 32 then
      var (v, next) :- ReadInt32(buf, pos);
      Ok(Some((m.(markedIdle := v), next)))
    else if tag == 42 then
      var (e, next) :- ReadMessage(AgentHealthEntryField, BASE_AGENT_HEALTH_ENTRY, buf, pos);
      Ok(Some((m.(entries := m.entries + [e]), next)))
    else Ok(None)
  }

  predicate HealthCheckResultKnown(f: Field) {
    (f.Number? && 1 <= f.num <= 4) || (IsBytes(f) && f.num == 5)
  }

  function HealthCheckResultMeaning(m: HealthCheckResult, f: Field): Option<HealthCheckResult> {
    if !HealthCheckResultKnown(f) then None
    else if f.num == 1 then Some(m.(checked := Signed32(f.value)))
    else if f.num == 2 then Some(m.(healthy := Signed32(f.value)))
    else if f.num == 3 then Some(m.(markedOffline := Signed32(f.value)))
    else if f.num == 4 then Some(m.(markedIdle := Signed32(f.value)))
    else if f.Bytes? then None
    else Some(m.(entries := m.entries + [ApplyAll(AgentHealthEntryMeaning, BASE_AGENT_HEALTH_ENTRY, f.fields)]))
  }

  predicate HealthCheckResultNests(f: Field) {
    IsBytes(f) && f.num == 5
  }

  /** Entries are sequences of records that fit the wire. */
  predicate HealthCheckResultOk(f: Field) {
    HealthCheckResultNests(f) ==> f.Sub? && Acceptable(AnyRecord, f.fields)
  }

  lemma {:induction false} HealthCheckResultReads(f: Field, buf: seq<byte>, pos: nat, m: HealthCheckResult)
    requires OnWire(f) && HealthCheckResultOk(f) && At(buf, pos, Payload(f))
    ensures HealthCheckResultField(Tag(f), buf, pos, m) ==
            Reads(HealthCheckResultMeaning(m, f), pos + |Payload(f)|)
  {
    hide Handles, ReadMessage, Payload, At, Content, Text, ApplyAll, Acceptable, Signed32;
    if f.Number? {
      ReadNumber(f, buf, pos);
      hide ReadVarint, OnWire;
    } else if IsBytes(f) && f.num == 5 {
      AgentHealthEntryHandles();
      ReadSub(AgentHealthEntryField, AnyRecord, AgentHealthEntryMeaning, BASE_AGENT_HEALTH_ENTRY, f, buf, pos);
      hide ReadInt32, OnWire;
    } else {
      hide ReadInt32, OnWire;
    }
  }

  lemma HealthCheckResultHandles()
    ensures Handles(HealthCheckResultField, HealthCheckResultOk, HealthCheckResultMeaning)
    ensures IgnoresUnknown(HealthCheckResultMeaning, HealthCheckResultKnown)
    ensures Commutes(HealthCheckResultMeaning)
  {
    hide OnWire, At, Payload, Tag, HealthCheckResultField, HealthCheckResultOk, Content, ApplyAll, Signed32;
    forall f: Field, buf: seq<byte>, pos: nat, m: HealthCheckResult |
      OnWire(f) && HealthCheckResultOk(f) && At(buf, pos, Payload(f))
      ensures HealthCheckResultField(Tag(f), buf, pos, m) ==
              Reads(HealthCheckResultMeaning(m, f), pos + |Payload(f)|)
    {
      HealthCheckResultReads(f, buf, pos, m);
    }
  }

  predicate AreEntries(entries: seq<AgentHealthEntry>) {
    forall i :: 0 <= i < |entries| ==>
      IsAgentHealthEntry(entries[i]) && FitsPrefix(AgentHealthEntryFields(entries[i]))
  }

  predicate IsHealthCheckResult(m: HealthCheckResult) {
    && IsInt32(m.checked) && IsInt32(m.healthy) && IsInt32(m.markedOffline) && IsInt32(m.markedIdle)
    && AreEntries(m.entries)
  }

  function EntryFields(entries: seq<AgentHealthEntry>): seq<Field>
    requires AreEntries(entries)
  {
    if entries == [] then []
    else [Sub(5, AgentHealthEntryFields(entries[0]))] + EntryFields(entries[1..])
  }

  /** The records of `HealthCheckResult.encode`. */
  function HealthCheckResultFields(m: HealthCheckResult): seq<Field>
    requires IsHealthCheckResult(m)
  {
    IntFields(1, m.checked) + (IntFields(2, m.healthy) + (IntFields(3, m.markedOffline)
    + (IntFields(4, m.markedIdle) + EntryFields(m.entries))))
  }

  lemma {:induction false} HealthCheckResultInt(m: HealthCheckResult, num: nat, v: int)
    requires IsInt32(v) && 1 <= num <= 4
    ensures Acceptable(HealthCheckResultOk, IntFields(num, v))
    ensures ApplyAll(HealthCheckResultMeaning, m, IntFields(num, v)) ==
            if v == 0 then m
            else if num == 1 then m.(checked := v)
            else if num == 2 then m.(healthy := v)
            else if num == 3 then m.(markedOffline := v)
            else m.(markedIdle := v)
  {
    Int32RoundTrip(v);
    hide Signed32, Unsigned64;
  }

  function PlainEntries(entries: seq<AgentHealthEntry>): seq<AgentHealthEntry> {
    seq(|entries|, i requires 0 <= i < |entries| => PlainEntry(entries[i]))
  }

  /** The health check result as it is read back. */
  function PlainHealthCheckResult(m: HealthCheckResult): HealthCheckResult {
    m.(entries := PlainEntries(m.entries))
  }

  /** No text starts with a byte order mark. */
  predicate IsUnmarkedHealthCheckResult(m: HealthCheckResult) {
    forall i :: 0 <= i < |m.entries| ==> IsUnmarkedEntry(m.entries[i])
  }

  predicate IsUnmarkedEntry(m: AgentHealthEntry) {
    && !Utf8.IsMarked(m.agentId) && !Utf8.IsMarked(m.containerId)
    && !Utf8.IsMarked(m.previousStatus) && !Utf8.IsMarked(m.newStatus)
  }

  lemma PlainEntryIsUnmarked(m: AgentHealthEntry)
    ensures PlainEntry(m) == m <==> IsUnmarkedEntry(m)
  {
    hide Plain, Utf8.IsMarked;
    PlainIsSame(m.agentId);
    PlainIsSame(m.containerId);
    PlainIsSame(m.previousStatus);
    PlainIsSame(m.newStatus);
  }

  lemma PlainIsUnmarked(m: HealthCheckResult)
    ensures PlainHealthCheckResult(m) == m <==> IsUnmarkedHealthCheckResult(m)
  {
    hide PlainEntry, IsUnmarkedEntry;
    forall i | 0 <= i < |m.entries|
      ensures PlainEntries(m.entries)[i] == m.entries[i] <==> IsUnmarkedEntry(m.entries[i])
    {
      PlainEntryIsUnmarked(m.entries[i]);
    }
  }

  lemma EntryApplied(m: HealthCheckResult, entry: AgentHealthEntry)
    requires IsAgentHealthEntry(entry) && FitsPrefix(AgentHealthEntryFields(entry))
    ensures var f := Sub(5, AgentHealthEntryFields(entry));
            && OnWire(f) && HealthCheckResultOk(f)
            && ApplyOne(HealthCheckResultMeaning, m, f) == m.(entries := m.entries + [PlainEntry(entry)])
  {
    AgentHealthEntryRoundTrip(entry);
    hide AgentHealthEntryFields, AgentHealthEntryMeaning, Concat;
  }

  lemma {:induction false} EntriesApplied(m: HealthCheckResult, entries: seq<AgentHealthEntry>)
    requires AreEntries(entries)
    ensures Acceptable(HealthCheckResultOk, EntryFields(entries))
    ensures ApplyAll(HealthCheckResultMeaning, m, EntryFields(entries)) ==
            m.(entries := m.entries + PlainEntries(entries))
    decreases |entries|
  {
    hide AgentHealthEntryFields, HealthCheckResultMeaning, OnWire, HealthCheckResultOk, ApplyOne, ApplyAll;
    hide FitsPrefix, IsAgentHealthEntry, PlainEntry;
    if entries == [] {
      ApplyNone(HealthCheckResultMeaning, m);
      assert m.entries + PlainEntries(entries) == m.entries;
    } else {
      EntryApplied(m, entries[0]);
      var m' := m.(entries := m.entries + [PlainEntry(entries[0])]);
      EntriesApplied(m', entries[1..]);
      ApplyHead(HealthCheckResultMeaning, m, Sub(5, AgentHealthEntryFields(entries[0])), EntryFields(entries[1..]));
      assert PlainEntries(entries) == [PlainEntry(entries[0])] + PlainEntries(entries[1..]);
      assert m.entries + PlainEntries(entries) ==
             m.entries + [PlainEntry(entries[0])] + PlainEntries(entries[1..]);
    }
  }

  lemma HealthCheckResultApplied(m: HealthCheckResult)
    requires IsHealthCheckResult(m)
    ensures Acceptable(HealthCheckResultOk, HealthCheckResultFields(m))
    ensures ApplyAll(HealthCheckResultMeaning, BASE_HEALTH_CHECK_RESULT, HealthCheckResultFields(m)) ==
            PlainHealthCheckResult(m)
  {
    hide PlainEntries;
    hide ApplyAll, IntFields, EntryFields, Acceptable, AreEntries;
    var f5 := EntryFields(m.entries);
    var f4 := IntFields(4, m.markedIdle) + f5;
    var f3 := IntFields(3, m.markedOffline) + f4;
    var f2 := IntFields(2, m.healthy) + f3;
    var m1 := BASE_HEALTH_CHECK_RESULT.(checked := m.checked);
    var m2 := m1.(healthy := m.healthy);
    var m3 := m2.(markedOffline := m.markedOffline);
    var m4 := m3.(markedIdle := m.markedIdle);
    ApplyAppend(HealthCheckResultMeaning, BASE_HEALTH_CHECK_RESULT, IntFields(1, m.checked), f2);
    HealthCheckResultInt(BASE_HEALTH_CHECK_RESULT, 1, m.checked);
    ApplyAppend(HealthCheckResultMeaning, m1, IntFields(2, m.healthy), f3);
    HealthCheckResultInt(m1, 2, m.healthy);
    ApplyAppend(HealthCheckResultMeaning, m2, IntFields(3, m.markedOffline), f4);
    HealthCheckResultInt(m2, 3, m.markedOffline);
    ApplyAppend(HealthCheckResultMeaning, m3, IntFields(4, m.markedIdle), f5);
    HealthCheckResultInt(m3, 4, m.markedIdle);
    EntriesApplied(m4, m.entries);
    assert [] + PlainEntries(m.entries) == PlainEntries(m.entries);
    AcceptableSplits(HealthCheckResultOk, IntFields(4, m.markedIdle), f5);
    AcceptableSplits(HealthCheckResultOk, IntFields(3, m.markedOffline), f4);
    AcceptableSplits(HealthCheckResultOk, IntFields(2, m.healthy), f3);
    AcceptableSplits(HealthCheckResultOk, IntFields(1, m.checked), f2);
  }

  /**
   Every health check result, with any number of entries, is read back without the byte order marks that
   its texts start with; so it survives exactly when there are none.
   */
  lemma HealthCheckResultRoundTrip(m: HealthCheckResult)
    requires IsHealthCheckResult(m)
    ensures Decode(HealthCheckResultField, BASE_HEALTH_CHECK_RESULT, Concat(HealthCheckResultFields(m))) ==
            Ok(PlainHealthCheckResult(m))
    ensures Decode(HealthCheckResultField, BASE_HEALTH_CHECK_RESULT, Concat(HealthCheckResultFields(m))) == Ok(m)
            <==> IsUnmarkedHealthCheckResult(m)
  {
    hide IsHealthCheckResult, HealthCheckResultFields, Decode, Handles, IgnoresUnknown, Commutes;
    hide Acceptable, ApplyAll, PlainHealthCheckResult, IsUnmarkedHealthCheckResult;
    HealthCheckResultHandles();
    HealthCheckResultApplied(m);
    PlainIsUnmarked(m);
    DecodeRecords(HealthCheckResultField, HealthCheckResultOk, HealthCheckResultMeaning,
                  BASE_HEALTH_CHECK_RESULT, HealthCheckResultFields(m));
  }

  // ---------------------------------------------------------------------------------------------
  // Unknown records and order at both levels
  // ---------------------------------------------------------------------------------------------

  /** The record without the records that its entry does not know. */
  function StripHealthCheckResult(f: Field): Field {
    if f.Sub? && f.num == 5 then Sub(5, Filter(AgentHealthEntryKnown, f.fields)) else f
  }

  lemma StrippedMeansSame(m: HealthCheckResult, f: Field)
    ensures HealthCheckResultMeaning(m, f) == HealthCheckResultMeaning(m, StripHealthCheckResult(f))
  {
    hide ApplyAll, Handles, Commutes, AgentHealthEntryKnown, IgnoresUnknown, AgentHealthEntryMeaning, Filter;
    if f.Sub? {
      AgentHealthEntryHandles();
      UnknownRecordsDoNotMatter(AgentHealthEntryMeaning, AgentHealthEntryKnown, BASE_AGENT_HEALTH_ENTRY, f.fields);
    }
  }

  lemma {:induction false} StrippedIsAccepted(f: Field)
    requires OnWire(f) && HealthCheckResultOk(f)
    ensures OnWire(StripHealthCheckResult(f)) && HealthCheckResultOk(StripHealthCheckResult(f))
  {
    if f.Sub? && f.num == 5 {
      FilterShortens(AgentHealthEntryKnown, f.fields);
      hide Concat, Acceptable;
      FilterIsAcceptable(AnyRecord, AgentHealthEntryKnown, f.fields);
    }
  }

  lemma HealthCheckResultStrips()
    ensures Strips(HealthCheckResultOk, HealthCheckResultOk, HealthCheckResultMeaning, HealthCheckResultKnown,
                   StripHealthCheckResult)
  {
    forall f: Field | !HealthCheckResultKnown(f)
      ensures HealthCheckResultOk(f)
    {
    }
    hide HealthCheckResultOk, HealthCheckResultMeaning, HealthCheckResultKnown, StripHealthCheckResult, OnWire;
    forall m, f: Field
      ensures HealthCheckResultMeaning(m, StripHealthCheckResult(f)) == HealthCheckResultMeaning(m, f)
    {
      StrippedMeansSame(m, f);
    }
    forall f: Field | OnWire(f) && HealthCheckResultOk(f)
      ensures OnWire(StripHealthCheckResult(f)) && HealthCheckResultOk(StripHealthCheckResult(f))
    {
      StrippedIsAccepted(f);
    }
  }

  lemma {:induction false} HealthCheckResultMeansAlike()
    ensures MeansAlike(HealthCheckResultMeaning, HealthCheckResultNests)
  {
    hide Handles, IgnoresUnknown, Commutes, SameByNumber, ApplyAll, AgentHealthEntryMeaning;
    AgentHealthEntryHandles();
    forall m, f, g | Alike(HealthCheckResultNests, f, g)
      ensures HealthCheckResultMeaning(m, f) == HealthCheckResultMeaning(m, g)
    {
      if f != g {
        OrderAcrossFieldsDoesNotMatter(AgentHealthEntryMeaning, BASE_AGENT_HEALTH_ENTRY, f.fields, g.fields);
      }
    }
  }

  /** Unknown records may stand between the records of a health check result and inside its entries. */
  lemma {:induction false} HealthCheckResultForwardCompatible(fs: seq<Field>)
    requires Acceptable(HealthCheckResultOk, fs)
    ensures Decode(HealthCheckResultField, BASE_HEALTH_CHECK_RESULT, Concat(fs)) ==
            Decode(HealthCheckResultField, BASE_HEALTH_CHECK_RESULT,
                   Concat(Strip(HealthCheckResultKnown, StripHealthCheckResult, fs)))
  {
    assert Refuses(HealthCheckResultField, HealthCheckResultOk, HealthCheckResultOk);
    hide Decode, Handles, Refuses, IgnoresUnknown, Commutes, Acceptable, ApplyAll, Strip, Strips;
    HealthCheckResultHandles();
    HealthCheckResultStrips();
    StripDecodesAlike(HealthCheckResultField, HealthCheckResultOk, HealthCheckResultOk, HealthCheckResultMeaning,
                      HealthCheckResultKnown, StripHealthCheckResult, BASE_HEALTH_CHECK_RESULT, fs);
  }

  /**
   The records of an encoded health check result may be permuted across fields and mixed with unknown
   ones, at the top and inside its entries; the entries keep their order.
   */
  lemma {:induction false} HealthCheckResultIsOrderFree(m: HealthCheckResult, fs: seq<Field>, gs: seq<Field>)
    requires IsHealthCheckResult(m)
    requires Acceptable(HealthCheckResultOk, fs)
    requires AllAlike(HealthCheckResultNests, Strip(HealthCheckResultKnown, StripHealthCheckResult, fs), gs)
    requires SameByNumber(gs, HealthCheckResultFields(m))
    ensures Decode(HealthCheckResultField, BASE_HEALTH_CHECK_RESULT, Concat(fs)) == Ok(PlainHealthCheckResult(m))
  {
    HealthCheckResultStrips();
    assert forall m, f :: HealthCheckResultMeaning(m, StripHealthCheckResult(f)) == HealthCheckResultMeaning(m, f);
    hide IsHealthCheckResult, HealthCheckResultFields, Decode, Handles, IgnoresUnknown, Commutes, Acceptable;
    hide ApplyAll, SameByNumber, AllAlike, Strip, Strips, MeansAlike, HealthCheckResultMeaning;
    hide StripHealthCheckResult, PlainHealthCheckResult;
    HealthCheckResultHandles();
    HealthCheckResultApplied(m);
    HealthCheckResultMeansAlike();
    ReorderedDecodesAlike(HealthCheckResultField, HealthCheckResultOk, HealthCheckResultMeaning,
                          HealthCheckResultKnown, StripHealthCheckResult, HealthCheckResultNests,
                          BASE_HEALTH_CHECK_RESULT, fs, gs, HealthCheckResultFields(m));
  }
}
