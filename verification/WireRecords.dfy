/**
 Which records the encoders write: in the order of their field numbers, one for every value that is not
 its field's default, and none for a default.
 */
module WireRecords {
  import opened Options
  import opened Wire
  import opened WireLoop
  import opened WireSimple
  import opened WireNested
  import opened WireAgentState
  import opened WireHealthCheck
  import opened WireErrorMessage
  import Utf8

  // ---------------------------------------------------------------------------------------------
  // Records of one value
  // ---------------------------------------------------------------------------------------------

  /** The record of an integer, negative ones in 64-bit two's complement. */
  function IntRecord(num: nat, v: int): seq<Field>
    requires -0x8000_0000_0000_0000 <= v
  {
    if v == 0 then [] else [Number(num, if v < 0 then v + 0x1_0000_0000_0000_0000 else v)]
  }

  function BoolRecord(num: nat, b: bool): seq<Field> {
    if b then [Number(num, 1)] else []
  }

  function TextRecord(num: nat, s: string): seq<Field> {
    if s == "" then [] else [Bytes(num, Utf8.Encode(s))]
  }

  /** Records in the order of their field numbers. */
  predicate Ascending(fs: seq<Field>) {
    forall i, j :: 0 <= i < j < |fs| ==> fs[i].num <= fs[j].num
  }

  /** The records are in order, numbered from `low` to `high`. */
  predicate Within(fs: seq<Field>, low: nat, high: nat) {
    Ascending(fs) && forall i :: 0 <= i < |fs| ==> low <= fs[i].num <= high
  }

  lemma {:induction false} AppendWithin(fs: seq<Field>, gs: seq<Field>, num: nat, high: nat)
    requires Within(fs, num, num) && Within(gs, num + 1, high) && num < high
    ensures Within(fs + gs, num, high)
    ensures forall n: nat :: WithNum(fs + gs, n) == if n == num then fs else WithNum(gs, n)
  {
    forall n: nat
      ensures WithNum(fs + gs, n) == if n == num then fs else WithNum(gs, n)
    {
      WithNumAppend(fs, gs, n);
      OnlyNum(fs, num, n);
      if n == num {
        NoneBelow(gs, num);
        assert fs + [] == fs;
      } else {
        assert [] + WithNum(gs, n) == WithNum(gs, n);
      }
    }
  }

  lemma {:induction false} OnlyNum(fs: seq<Field>, num: nat, n: nat)
    requires Within(fs, num, num)
    ensures WithNum(fs, n) == if n == num then fs else []
  {
    if fs != [] {
      assert forall i :: 0 <= i < |fs| - 1 ==> fs[1..][i] == fs[i + 1];
      OnlyNum(fs[1..], num, n);
      assert fs == [fs[0]] + fs[1..];
    }
  }

  lemma {:induction false} NoneBelow(fs: seq<Field>, num: nat)
    requires forall i :: 0 <= i < |fs| ==> fs[i].num > num
    ensures WithNum(fs, num) == []
  {
    if fs != [] {
      assert forall i :: 0 <= i < |fs| - 1 ==> fs[1..][i] == fs[i + 1];
      NoneBelow(fs[1..], num);
    }
  }

  lemma FourWithin(a: seq<Field>, b: seq<Field>, c: seq<Field>, d: seq<Field>)
    requires Within(a, 4, 4) && Within(b, 5, 5) && Within(c, 6, 6) && Within(d, 7, 7)
    ensures var fs := a + (b + (c + d));
            && Within(fs, 4, 7)
            && WithNum(fs, 4) == a && WithNum(fs, 5) == b && WithNum(fs, 6) == c && WithNum(fs, 7) == d
  {
    hide Within, WithNum;
    OnlyNum(d, 7, 7);
    AppendWithin(c, d, 6, 7);
    AppendWithin(b, c + d, 5, 7);
    AppendWithin(a, b + (c + d), 4, 7);
  }

  lemma {:induction false} ThreeWithin(a: seq<Field>, b: seq<Field>, c: seq<Field>, rest: seq<Field>)
    requires Within(a, 1, 1) && Within(b, 2, 2) && Within(c, 3, 3) && Within(rest, 4, 7)
    ensures var fs := a + (b + (c + rest));
            && Within(fs, 1, 7)
            && WithNum(fs, 1) == a && WithNum(fs, 2) == b && WithNum(fs, 3) == c
            && forall n: nat :: 4 <= n ==> WithNum(fs, n) == WithNum(rest, n)
  {
    hide Within, WithNum;
    AppendWithin(c, rest, 3, 7);
    AppendWithin(b, c + rest, 2, 7);
    AppendWithin(a, b + (c + rest), 1, 7);
  }

  lemma ValueRecords(num: nat, v: int, b: bool, s: string)
    requires IsInt64(v)
    ensures IntFields(num, v) == IntRecord(num, v) && Within(IntFields(num, v), num, num)
    ensures BoolFields(num, b) == BoolRecord(num, b) && Within(BoolFields(num, b), num, num)
    ensures TextFields(num, s) == TextRecord(num, s) && Within(TextFields(num, s), num, num)
  {
  }

  // ---------------------------------------------------------------------------------------------
  // Flat messages
  // ---------------------------------------------------------------------------------------------

  lemma TimestampRecords(m: Timestamp)
    requires IsTimestamp(m)
    ensures var fs := TimestampFields(m);
            && Within(fs, 1, 2)
            && WithNum(fs, 1) == IntRecord(1, m.seconds)
            && WithNum(fs, 2) == IntRecord(2, m.nanos)
  {
    hide IntFields, IntRecord, Within, WithNum;
    ValueRecords(1, m.seconds, false, "");
    ValueRecords(2, m.nanos, false, "");
    AppendWithin(IntFields(1, m.seconds), IntFields(2, m.nanos), 1, 2);
    OnlyNum(IntFields(2, m.nanos), 2, 2);
  }

  lemma TokenInfoRecords(m: TokenInfo)
    requires IsTokenInfo(m)
    ensures var fs := TokenInfoFields(m);
            && Within(fs, 1, 2)
            && WithNum(fs, 1) == IntRecord(1, m.currentConversation)
            && WithNum(fs, 2) == IntRecord(2, m.cumulative)
  {
    hide IntFields, IntRecord, Within, WithNum;
    ValueRecords(1, m.currentConversation, false, "");
    ValueRecords(2, m.cumulative, false, "");
    AppendWithin(IntFields(1, m.currentConversation), IntFields(2, m.cumulative), 1, 2);
    OnlyNum(IntFields(2, m.cumulative), 2, 2);
  }

  /** Repeated texts are all written, empty ones too. */
  lemma {:induction false} RepeatedRecords(num: nat, ss: seq<string>)
    ensures |RepeatedTextFields(num, ss)| == |ss|
    ensures forall i :: 0 <= i < |ss| ==> RepeatedTextFields(num, ss)[i] == Bytes(num, Utf8.Encode(ss[i]))
    ensures Within(RepeatedTextFields(num, ss), num, num)
  {
    if ss != [] {
      RepeatedRecords(num, ss[1..]);
    }
  }

  lemma GitStatusRecords(m: GitStatus)
    requires IsGitStatus(m)
    ensures var fs := GitStatusFields(m);
            && Within(fs, 1, 8)
            && WithNum(fs, 1) == TextRecord(1, m.branch)
            && WithNum(fs, 2) == BoolRecord(2, m.hasChanges)
            && WithNum(fs, 3) == IntRecord(3, m.ahead)
            && WithNum(fs, 4) == IntRecord(4, m.behind)
            && |WithNum(fs, 5)| == |m.modifiedFiles|
            && (forall i :: 0 <= i < |m.modifiedFiles| ==>
                  WithNum(fs, 5)[i] == Bytes(5, Utf8.Encode(m.modifiedFiles[i])))
            && WithNum(fs, 6) == IntRecord(6, m.stagedCount)
            && WithNum(fs, 7) == IntRecord(7, m.unstagedCount)
            && WithNum(fs, 8) == IntRecord(8, m.untrackedCount)
  {
    hide IntFields, IntRecord, BoolFields, BoolRecord, TextFields, TextRecord, RepeatedTextFields, Within, WithNum;
    ValueRecords(8, m.untrackedCount, false, "");
    ValueRecords(7, m.unstagedCount, false, "");
    ValueRecords(6, m.stagedCount, false, "");
    RepeatedRecords(5, m.modifiedFiles);
    ValueRecords(4, m.behind, false, "");
    ValueRecords(3, m.ahead, false, "");
    ValueRecords(2, 0, m.hasChanges, "");
    ValueRecords(1, 0, false, m.branch);
    var f8 := IntFields(8, m.untrackedCount);
    OnlyNum(f8, 8, 8);
    var f7 := IntFields(7, m.unstagedCount) + f8;
    AppendWithin(IntFields(7, m.unstagedCount), f8, 7, 8);
    var f6 := IntFields(6, m.stagedCount) + f7;
    AppendWithin(IntFields(6, m.stagedCount), f7, 6, 8);
    var f5 := RepeatedTextFields(5, m.modifiedFiles) + f6;
    AppendWithin(RepeatedTextFields(5, m.modifiedFiles), f6, 5, 8);
    var f4 := IntFields(4, m.behind) + f5;
    AppendWithin(IntFields(4, m.behind), f5, 4, 8);
    var f3 := IntFields(3, m.ahead) + f4;
    AppendWithin(IntFields(3, m.ahead), f4, 3, 8);
    var f2 := BoolFields(2, m.hasChanges) + f3;
    AppendWithin(BoolFields(2, m.hasChanges), f3, 2, 8);
    AppendWithin(TextFields(1, m.branch), f2, 1, 8);
  }

  lemma AgentHealthEntryRecords(m: AgentHealthEntry)
    requires IsAgentHealthEntry(m)
    ensures var fs := AgentHealthEntryFields(m);
            && Within(fs, 1, 5)
            && WithNum(fs, 1) == TextRecord(1, m.agentId)
            && WithNum(fs, 2) == TextRecord(2, m.containerId)
            && WithNum(fs, 3) == BoolRecord(3, m.containerAlive)
            && WithNum(fs, 4) == TextRecord(4, m.previousStatus)
            && WithNum(fs, 5) == TextRecord(5, m.newStatus)
  {
    hide BoolFields, BoolRecord, TextFields, TextRecord, Within, WithNum;
    ValueRecords(5, 0, false, m.newStatus);
    ValueRecords(4, 0, false, m.previousStatus);
    ValueRecords(3, 0, m.containerAlive, "");
    ValueRecords(2, 0, false, m.containerId);
    ValueRecords(1, 0, false, m.agentId);
    var f5 := TextFields(5, m.newStatus);
    OnlyNum(f5, 5, 5);
    var f4 := TextFields(4, m.previousStatus) + f5;
    AppendWithin(TextFields(4, m.previousStatus), f5, 4, 5);
    var f3 := BoolFields(3, m.containerAlive) + f4;
    AppendWithin(BoolFields(3, m.containerAlive), f4, 3, 5);
    var f2 := TextFields(2, m.containerId) + f3;
    AppendWithin(TextFields(2, m.containerId), f3, 2, 5);
    AppendWithin(TextFields(1, m.agentId), f2, 1, 5);
  }

  lemma DetailsEntryRecords(m: DetailsEntry)
    requires IsDetailsEntry(m)
    ensures var fs := DetailsEntryFields(m);
            && Within(fs, 1, 2)
            && WithNum(fs, 1) == TextRecord(1, m.key)
            && WithNum(fs, 2) == TextRecord(2, m.value)
  {
    hide TextFields, TextRecord, Within, WithNum;
    ValueRecords(1, 0, false, m.key);
    ValueRecords(2, 0, false, m.value);
    AppendWithin(TextFields(1, m.key), TextFields(2, m.value), 1, 2);
    OnlyNum(TextFields(2, m.value), 2, 2);
  }

  // ---------------------------------------------------------------------------------------------
  // Messages with nested ones
  // ---------------------------------------------------------------------------------------------

  /** A nested message has a record whenever it is present, even with default values only. */
  lemma NestedRecords(g: Option<GitStatus>, t: Option<TokenInfo>, num: nat, a: Option<Timestamp>)
    requires g.Some? ==> IsGitStatus(g.value)
    requires t.Some? ==> IsTokenInfo(t.value)
    requires a.Some? ==> IsTimestamp(a.value)
    ensures GitStatusSub(g) == (match g case None => [] case Some(v) => [Sub(4, GitStatusFields(v))])
    ensures TokenInfoSub(t) == (match t case None => [] case Some(v) => [Sub(5, TokenInfoFields(v))])
    ensures TimestampSub(num, a) == (match a case None => [] case Some(v) => [Sub(num, TimestampFields(v))])
    ensures Within(GitStatusSub(g), 4, 4) && Within(TokenInfoSub(t), 5, 5) && Within(TimestampSub(num, a), num, num)
  {
    hide GitStatusFields, TokenInfoFields, TimestampFields, IsGitStatus, IsTokenInfo, IsTimestamp;
  }

  lemma AgentStateRecords(m: AgentState)
    requires IsAgentState(m)
    ensures var fs := AgentStateFields(m);
            && Within(fs, 1, 7)
            && WithNum(fs, 1) == TextRecord(1, m.agentId)
            && WithNum(fs, 2) == TextRecord(2, m.status)
            && WithNum(fs, 3) == TextRecord(3, m.containerId)
            && WithNum(fs, 4) == (match m.gitStatus case None => [] case Some(g) => [Sub(4, GitStatusFields(g))])
            && WithNum(fs, 5) == (match m.tokens case None => [] case Some(t) => [Sub(5, TokenInfoFields(t))])
            && WithNum(fs, 6) == (match m.lastActivity case None => [] case Some(t) => [Sub(6, TimestampFields(t))])
            && WithNum(fs, 7) == (match m.createdAt case None => [] case Some(t) => [Sub(7, TimestampFields(t))])
  {
    hide TextFields, TextRecord, Within, WithNum, GitStatusFields, TokenInfoFields, TimestampFields;
    hide GitStatusSub, TokenInfoSub, TimestampSub, IsText, FitsPrefix, IsGitStatus, IsTokenInfo, IsTimestamp;
    ValueRecords(1, 0, false, m.agentId);
    ValueRecords(2, 0, false, m.status);
    ValueRecords(3, 0, false, m.containerId);
    NestedRecords(m.gitStatus, m.tokens, 6, m.lastActivity);
    NestedRecords(m.gitStatus, m.tokens, 7, m.createdAt);
    var f4 := GitStatusSub(m.gitStatus) + (TokenInfoSub(m.tokens)
              + (TimestampSub(6, m.lastActivity) + TimestampSub(7, m.createdAt)));
    FourWithin(GitStatusSub(m.gitStatus), TokenInfoSub(m.tokens), TimestampSub(6, m.lastActivity),
               TimestampSub(7, m.createdAt));
    ThreeWithin(TextFields(1, m.agentId), TextFields(2, m.status), TextFields(3, m.containerId), f4);
  }

  lemma {:induction false} EntryRecords(entries: seq<AgentHealthEntry>)
    requires AreEntries(entries)
    ensures |EntryFields(entries)| == |entries|
    ensures forall i :: 0 <= i < |entries| ==> EntryFields(entries)[i] == Sub(5, AgentHealthEntryFields(entries[i]))
    ensures Within(EntryFields(entries), 5, 5)
  {
    hide AgentHealthEntryFields, IsAgentHealthEntry, FitsPrefix;
    if entries != [] {
      EntryRecords(entries[1..]);
    }
  }

  lemma HealthCheckResultRecords(m: HealthCheckResult)
    requires IsHealthCheckResult(m)
    ensures var fs := HealthCheckResultFields(m);
            && Within(fs, 1, 5)
            && WithNum(fs, 1) == IntRecord(1, m.checked)
            && WithNum(fs, 2) == IntRecord(2, m.healthy)
            && WithNum(fs, 3) == IntRecord(3, m.markedOffline)
            && WithNum(fs, 4) == IntRecord(4, m.markedIdle)
            && |WithNum(fs, 5)| == |m.entries|
            && forall i :: 0 <= i < |m.entries| ==> WithNum(fs, 5)[i] == Sub(5, AgentHealthEntryFields(m.entries[i]))
  {
    hide IntFields, IntRecord, EntryFields, Within, WithNum, AgentHealthEntryFields, IsAgentHealthEntry, FitsPrefix;
    ValueRecords(1, m.checked, false, "");
    ValueRecords(2, m.healthy, false, "");
    ValueRecords(3, m.markedOffline, false, "");
    ValueRecords(4, m.markedIdle, false, "");
    EntryRecords(m.entries);
    var f5 := EntryFields(m.entries);
    OnlyNum(f5, 5, 5);
    var f4 := IntFields(4, m.markedIdle) + f5;
    AppendWithin(IntFields(4, m.markedIdle), f5, 4, 5);
    var f3 := IntFields(3, m.markedOffline) + f4;
    AppendWithin(IntFields(3, m.markedOffline), f4, 3, 5);
    var f2 := IntFields(2, m.healthy) + f3;
    AppendWithin(IntFields(2, m.healthy), f3, 2, 5);
    AppendWithin(IntFields(1, m.checked), f2, 1, 5);
  }

  lemma {:induction false} DetailRecords(keys: seq<string>, details: map<string, string>)
    requires AreDetails(keys, details)
    ensures |DetailFields(keys, details)| == |keys|
    ensures forall i :: 0 <= i < |keys| ==>
              DetailFields(keys, details)[i] == Sub(3, DetailsEntryFields(DetailsEntry(keys[i], details[keys[i]])))
    ensures Within(DetailFields(keys, details), 3, 3)
  {
    hide DetailsEntryFields, IsDetailsEntry, FitsPrefix;
    if keys != [] {
      DetailRecords(keys[1..], details);
    }
  }

  lemma ErrorRecords(m: ErrorMessage, keys: seq<string>)
    requires IsErrorMessage(m, keys)
    ensures var fs := ErrorFields(m, keys);
            && Within(fs, 1, 3)
            && WithNum(fs, 1) == TextRecord(1, m.code)
            && WithNum(fs, 2) == TextRecord(2, m.message)
            && |WithNum(fs, 3)| == |keys|
            && forall i :: 0 <= i < |keys| ==>
                 WithNum(fs, 3)[i] == Sub(3, DetailsEntryFields(DetailsEntry(keys[i], m.details[keys[i]])))
  {
    hide TextFields, TextRecord, DetailFields, Within, WithNum, DetailsEntryFields, IsDetailsEntry, FitsPrefix;
    ValueRecords(1, 0, false, m.code);
    ValueRecords(2, 0, false, m.message);
    DetailRecords(keys, m.details);
    var f3 := DetailFields(keys, m.details);
    OnlyNum(f3, 3, 3);
    var f2 := TextFields(2, m.message) + f3;
    AppendWithin(TextFields(2, m.message), f3, 2, 3);
    AppendWithin(TextFields(1, m.code), f2, 1, 3);
  }
}
