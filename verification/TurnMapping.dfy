/**
 `eventTurnMap` as a segmentation of the event list, and the event count of every turn.
 */
module TurnMapping {
  import opened Options
  import opened TurnModel
  import opened TurnShape
  import opened TurnStructure

  /** What removing duplicates leaves: no two events share an id. */
  predicate DistinctIds(es: seq<Event>) {
    forall i, j :: 0 <= i < j < |es| ==> es[i].id != es[j].id
  }

  // ---------------------------------------------------------------------------------------------
  // Which events are mapped, and where
  // ---------------------------------------------------------------------------------------------

  /** Event `k` gets a turn: it is known, not a session event, and a turn is open or opened for it. */
  predicate IsMapped(es: seq<Event>, k: nat)
    requires k < |es|
  {
    && !es[k].kind.PermissionRequest? && !es[k].kind.OtherType?
    && !es[k].kind.SessionStart? && !es[k].kind.SessionEnd?
    && (OpensTurn(es[k]) || OpenAfter(es[..k]))
  }

  /** The turn of event `k`: the latest turn, or the user turn of its own pair for a prompt. */
  function OwnerIndex(es: seq<Event>, k: nat): int
    requires k < |es|
  {
    TurnCount(es[..k + 1]) - (if es[k].kind.PromptSubmit? then 2 else 1)
  }

  lemma AdvanceMap(c: Context, e: Event)
    requires Inv(c)
    ensures var r := Advance(c, e);
            r.eventTurnMap ==
              if e.kind.PromptSubmit? then c.eventTurnMap[e.id := e.id]
              else if IsKnown(e) && r.current.Some? then c.eventTurnMap[e.id := r.turns[|r.turns| - 1].id]
              else c.eventTurnMap
  {
    hide ProcessEvent, Inv, TouchLast, NewTurns;
    MapKeepsTurns(ProcessEvent(c, e), e);
    ProcessShape(c, e);
    ProcessKeepsMap(c, e);
  }

  /** The entry that the last event adds, if any. */
  lemma {:induction false} RunMap(es: seq<Event>, e: Event)
    ensures var all := es + [e];
            var owner := OwnerIndex(all, |es|);
            && (IsMapped(all, |es|) ==> 0 <= owner < |Run(all).turns|)
            && Run(all).eventTurnMap ==
                 if IsMapped(all, |es|) then Run(es).eventTurnMap[e.id := Run(all).turns[owner].id]
                 else Run(es).eventTurnMap
  {
    hide Advance, OpenAfter, TurnCount;
    var all := es + [e];
    assert all[..|es|] == es && all[..|es| + 1] == all;
    RunAppend(es, e);
    RunKeepsInv(es);
    AdvanceMap(Run(es), e);
    AdvanceShape(Run(es), e);
    CurrentIffOpen(es);
    TurnsAreCounted(all);
  }

  /**
   The map, entry by entry: event `k` is mapped exactly when `IsMapped` says so, and then to the
   turn at `OwnerIndex`.
   */
  lemma {:induction false} MapNamesOwner(es: seq<Event>, k: nat)
    requires DistinctIds(es) && k < |es|
    ensures es[k].id in Run(es).eventTurnMap <==> IsMapped(es, k)
    ensures IsMapped(es, k) ==>
              && 0 <= OwnerIndex(es, k) < |Run(es).turns|
              && Run(es).eventTurnMap[es[k].id] == Run(es).turns[OwnerIndex(es, k)].id
  {
    hide Advance, Run, OpenAfter, TurnCount;
    var n := |es| - 1;
    var init, e := es[..n], es[n];
    assert es == init + [e];
    RunMap(init, e);
    RunExtends(init, e);
    if k < n {
      assert es[..k] == init[..k] && es[..k + 1] == init[..k + 1];
      MapNamesOwner(init, k);
      assert IsMapped(init, k) == IsMapped(es, k);
    } else {
      MapHasOnlyEventIds(init);
      assert es[..k] == init;
    }
  }

  lemma {:induction false} MapHasOnlyEventIds(es: seq<Event>)
    ensures forall id :: id in Run(es).eventTurnMap ==> exists k :: 0 <= k < |es| && es[k].id == id
  {
    if es != [] {
      hide Advance, Run, OpenAfter, TurnCount;
      var init, e := es[..|es| - 1], es[|es| - 1];
      assert es == init + [e];
      RunMap(init, e);
      MapHasOnlyEventIds(init);
      forall id | id in Run(es).eventTurnMap
        ensures exists k :: 0 <= k < |es| && es[k].id == id
      {
        if id == e.id {
          assert es[|es| - 1].id == id;
        } else {
          var k :| 0 <= k < |init| && init[k].id == id;
          assert es[k].id == id;
        }
      }
    }
  }

  /** Later events never belong to earlier turns. */
  lemma OwnersAreMonotone(es: seq<Event>, k: nat, n: nat)
    requires k < n < |es|
    requires IsMapped(es, k) && IsMapped(es, n)
    ensures OwnerIndex(es, k) <= OwnerIndex(es, n)
  {
    hide Run, OpenAfter, TurnCount;
    TurnCountMonotone(es, k + 1, n);
    CreatedByMovesCount(es, n);
    if !es[n].kind.PromptSubmit? {
      TurnCountMonotone(es, n, n + 1);
    }
  }

  // ---------------------------------------------------------------------------------------------
  // Unique turn ids
  // ---------------------------------------------------------------------------------------------

  predicate UniqueTurnIds(turns: seq<TurnRecord>) {
    forall i, j :: 0 <= i < j < |turns| ==> turns[i].id != turns[j].id
  }

  /** Event `k` names a user or system turn with the id that event `n` gives its assistant turn. */
  predicate IdsClash(es: seq<Event>, k: nat, n: nat)
    requires k < |es| && n < |es|
  {
    && (es[k].kind.PromptSubmit? || IsSession(es[k]))
    && (es[n].kind.PromptSubmit? || (es[n].kind.PreToolUse? && !OpenAfter(es[..n])))
    && es[k].id == es[n].id + "-assistant"
  }

  /** The id and kind that turn `j` among those created by event `k` receives. */
  lemma CreatedIdentity(es: seq<Event>, k: nat, j: nat)
    requires k < |es| && j < |CreatedBy(es, k)|
    ensures var t := CreatedBy(es, k)[j];
            && t.startedAt == es[k].timestamp
            && (t.kind == Assistant <==> (j == 1 || es[k].kind.PreToolUse?))
            && t.id == (if t.kind == Assistant then AssistantId(es[k].id) else es[k].id)
            && (t.kind == Assistant ==>
                  es[k].kind.PromptSubmit? || (es[k].kind.PreToolUse? && !OpenAfter(es[..k])))
            && (t.kind != Assistant ==> j == 0 && (es[k].kind.PromptSubmit? || IsSession(es[k])))
            && j <= 1
            && (j == 1 <==> es[k].kind.PromptSubmit? && t.kind == Assistant)
  {
  }

  lemma AssistantIdIsInjective(a: string, b: string)
    requires AssistantId(a) == AssistantId(b)
    ensures a == b
  {
    assert AssistantId(a)[..|AssistantId(a)| - 10] == a;
    assert AssistantId(b)[..|AssistantId(b)| - 10] == b;
  }

  /** Turn ids are unique exactly when no event id clashes with an assistant turn's id. */
  lemma {:induction false} TurnIdsUniqueIffNoClash(es: seq<Event>)
    requires DistinctIds(es)
    ensures UniqueTurnIds(Run(es).turns) <==>
            forall k, n :: 0 <= k < |es| && 0 <= n < |es| ==> !IdsClash(es, k, n)
  {
    hide Run, OpenAfter, TurnCount, CreatedBy;
    forall k, n | 0 <= k < |es| && 0 <= n < |es| && IdsClash(es, k, n)
      ensures !UniqueTurnIds(Run(es).turns)
    {
      ClashRepeatsId(es, k, n);
    }
    if forall k, n :: 0 <= k < |es| && 0 <= n < |es| ==> !IdsClash(es, k, n) {
      forall a, b | 0 <= a < b < |Run(es).turns|
        ensures Run(es).turns[a].id != Run(es).turns[b].id
      {
        NoClashSeparates(es, a, b);
      }
    }
  }

  lemma {:induction false} ClashRepeatsId(es: seq<Event>, k: nat, n: nat)
    requires k < |es| && n < |es| && IdsClash(es, k, n)
    ensures !UniqueTurnIds(Run(es).turns)
  {
    hide Run, OpenAfter, TurnCount, CreatedBy, SameIdentity;
    var j := if es[n].kind.PromptSubmit? then 1 else 0;
    CreatedAtLeast(es, k);
    CreatedAtLeast(es, n);
    CreatedTurnPersists(es, k, 0);
    CreatedTurnPersists(es, n, j);
    CreatedIdentity(es, k, 0);
    CreatedIdentity(es, n, j);
    var a, b := TurnCount(es[..k]), TurnCount(es[..n]) + j;
    OriginIsUnique(es, a, k, 0, b, n, j);
    assert Run(es).turns[a].id == CreatedBy(es, k)[0].id by { OriginKeepsId(es, a, k, 0); }
    assert Run(es).turns[b].id == CreatedBy(es, n)[j].id by { OriginKeepsId(es, b, n, j); }
  }

  lemma {:induction false} OriginKeepsId(es: seq<Event>, i: nat, k: nat, j: nat)
    requires ComesFrom(es, i, k, j)
    ensures Run(es).turns[i].id == CreatedBy(es, k)[j].id
  {
    hide Run, CreatedBy;
  }

  /** A prompt creates two turns, a session event or an orphan tool call one. */
  lemma CreatedAtLeast(es: seq<Event>, k: nat)
    requires k < |es|
    ensures es[k].kind.PromptSubmit? ==> |CreatedBy(es, k)| == 2
    ensures IsSession(es[k]) || (es[k].kind.PreToolUse? && !OpenAfter(es[..k])) ==> |CreatedBy(es, k)| == 1
  {
    hide OpenAfter, TurnCount;
  }

  lemma {:induction false} NoClashSeparates(es: seq<Event>, a: nat, b: nat)
    requires DistinctIds(es)
    requires forall k, n :: 0 <= k < |es| && 0 <= n < |es| ==> !IdsClash(es, k, n)
    requires a < b < |Run(es).turns|
    ensures Run(es).turns[a].id != Run(es).turns[b].id
  {
    hide Run, OpenAfter, TurnCount, CreatedBy;
    var k, i := TurnHasOrigin(es, a);
    var n, j := TurnHasOrigin(es, b);
    OriginIsUnique(es, a, k, i, b, n, j);
    CreatedIdentity(es, k, i);
    CreatedIdentity(es, n, j);
    var s, t := Run(es).turns[a], Run(es).turns[b];
    assert !IdsClash(es, k, n) && !IdsClash(es, n, k);
    if s.id == t.id && s.kind == Assistant && t.kind == Assistant {
      AssistantIdIsInjective(es[k].id, es[n].id);
    }
  }

  /** Two prompts, the second called after the first one's assistant turn, give two turns one id. */
  lemma ClashingIdsExist()
    ensures var first := Event("a", 1, None, None, PromptSubmit("x"));
            var second := Event("a-assistant", 2, None, None, PromptSubmit("y"));
            DistinctIds([first, second]) && !UniqueTurnIds(Run([first, second]).turns)
  {
    var first := Event("a", 1, None, None, PromptSubmit("x"));
    var second := Event("a-assistant", 2, None, None, PromptSubmit("y"));
    var es := [first, second];
    assert "a" != "a-assistant" by { assert |"a"| == 1; }
    assert IdsClash(es, 1, 0);
    ClashRepeatsId(es, 1, 0);
  }

  // ---------------------------------------------------------------------------------------------
  // Event counts
  // ---------------------------------------------------------------------------------------------

  /** Non-stop events among the first `n` whose turn is turn `i`. */
  function OwnedEvents(es: seq<Event>, n: nat, i: int): nat
    requires n <= |es|
  {
    if n == 0 then 0
    else OwnedEvents(es, n - 1, i) +
         if IsMapped(es, n - 1) && OwnerIndex(es, n - 1) == i && !es[n - 1].kind.Stop? then 1 else 0
  }

  /** Non-stop events among the first `n` that the map `m` sends to turn id `tid`. */
  function MappedEvents(es: seq<Event>, n: nat, m: map<string, string>, tid: string): nat
    requires n <= |es|
  {
    if n == 0 then 0
    else MappedEvents(es, n - 1, m, tid) +
         if es[n - 1].id in m && m[es[n - 1].id] == tid && !es[n - 1].kind.Stop? then 1 else 0
  }

  lemma OwnerOfPrefix(es: seq<Event>, e: Event, k: nat)
    requires k < |es|
    ensures (es + [e])[k] == es[k] && OwnerIndex(es + [e], k) == OwnerIndex(es, k)
    ensures IsMapped(es + [e], k) == IsMapped(es, k)
  {
    hide OpenAfter, TurnCount;
    assert (es + [e])[..k + 1] == es[..k + 1] && (es + [e])[..k] == es[..k];
  }

  lemma {:induction false} OwnedEventsOfPrefix(es: seq<Event>, e: Event, n: nat, i: int)
    requires n <= |es|
    ensures OwnedEvents(es + [e], n, i) == OwnedEvents(es, n, i)
  {
    if n > 0 {
      hide OwnerIndex, IsMapped;
      OwnedEventsOfPrefix(es, e, n - 1, i);
      OwnerOfPrefix(es, e, n - 1);
    }
  }

  lemma {:induction false} NoEventsBeyondLastTurn(es: seq<Event>, n: nat, i: int)
    requires n <= |es| && i >= TurnCount(es[..n])
    ensures OwnedEvents(es, n, i) == 0
  {
    if n > 0 {
      hide OpenAfter, TurnCount;
      TurnCountMonotone(es, n - 1, n);
      NoEventsBeyondLastTurn(es, n - 1, i);
    }
  }

  /** How the last event changes the count of a turn that exists already. */
  lemma TouchCounts(c: Context, e: Event, i: nat)
    requires Inv(c) && i < |c.turns|
    ensures i < |Advance(c, e).turns|
    ensures Advance(c, e).turns[i].rawEventCount == c.turns[i].rawEventCount +
            if c.current == Some(i) && IsKnown(e) && !e.kind.PromptSubmit? && !IsSession(e) && !e.kind.Stop?
            then 1 else 0
  {
    hide Advance;
    AdvanceShape(c, e);
  }

  lemma {:induction false} RunCounts(es: seq<Event>, e: Event, i: nat)
    requires i < |Run(es).turns|
    ensures var all := es + [e];
            && i < |Run(all).turns|
            && Run(all).turns[i].rawEventCount == Run(es).turns[i].rawEventCount +
               if IsMapped(all, |es|) && OwnerIndex(all, |es|) == i && !e.kind.Stop? then 1 else 0
  {
    hide Advance, OpenAfter, TurnCount;
    var all := es + [e];
    assert all[..|es|] == es && all[..|es| + 1] == all;
    RunAppend(es, e);
    RunKeepsInv(es);
    AdvanceShape(Run(es), e);
    TouchCounts(Run(es), e, i);
    CurrentIffOpen(es);
    TurnsAreCounted(all);
  }

  /** An assistant turn counts itself and its events; a user or system turn counts itself. */
  lemma {:induction false} CountsAreConserved(es: seq<Event>, i: nat)
    requires i < |Run(es).turns|
    ensures var t := Run(es).turns[i];
            t.rawEventCount == 1 + if t.kind == Assistant then OwnedEvents(es, |es|, i) else 0
  {
    var n := |es| - 1;
    var init, e := es[..n], es[n];
    assert es == init + [e];
    OwnedEventsOfPrefix(init, e, n, i);
    RunExtends(init, e);
    if i < |Run(init).turns| {
      hide Advance, Run, OpenAfter, TurnCount, OwnerIndex, IsMapped;
      CountsAreConserved(init, i);
      RunCounts(init, e, i);
      OnlyAssistantsOwnLater(init, e, i);
    } else {
      FreshTurnCounts(init, e, i);
      assert es[..n] == init;
      NoEventsBeyondLastTurn(es, n, i);
    }
  }

  /** A later event that is owned by an existing turn is owned by an assistant turn. */
  lemma {:induction false} OnlyAssistantsOwnLater(es: seq<Event>, e: Event, i: nat)
    requires i < |Run(es).turns|
    ensures IsMapped(es + [e], |es|) && OwnerIndex(es + [e], |es|) == i ==> Run(es).turns[i].kind == Assistant
  {
    hide Advance, OpenAfter, TurnCount;
    var all := es + [e];
    assert all[..|es|] == es && all[..|es| + 1] == all;
    RunKeepsInv(es);
    CurrentIffOpen(es);
    CreatedByMovesCount(all, |es|);
    TurnsAreCounted(es);
  }

  lemma {:induction false} FreshTurnCounts(es: seq<Event>, e: Event, i: nat)
    ensures var all := es + [e];
            |Run(es).turns| <= i < |Run(all).turns| ==>
              var t := Run(all).turns[i];
              t.rawEventCount == 1 +
                if t.kind == Assistant && IsMapped(all, |es|) && OwnerIndex(all, |es|) == i && !e.kind.Stop?
                then 1 else 0
  {
    hide Advance, OpenAfter, TurnCount;
    var all := es + [e];
    assert all[..|es|] == es && all[..|es| + 1] == all;
    RunExtends(es, e);
    CreatedByMovesCount(all, |es|);
    var created := CreatedBy(all, |es|);
    if |Run(es).turns| <= i < |Run(all).turns| {
      assert Run(all).turns[i] == created[i - |Run(es).turns|];
    }
  }

  lemma UniqueIdsSeparate(turns: seq<TurnRecord>, a: nat, b: nat)
    requires UniqueTurnIds(turns) && a < |turns| && b < |turns|
    ensures turns[a].id == turns[b].id <==> a == b
  {
  }

  lemma {:induction false} MappedEventsAreOwned(es: seq<Event>, n: nat, i: nat)
    requires DistinctIds(es) && UniqueTurnIds(Run(es).turns)
    requires n <= |es| && i < |Run(es).turns|
    ensures MappedEvents(es, n, Run(es).eventTurnMap, Run(es).turns[i].id) == OwnedEvents(es, n, i)
  {
    hide Run, OwnerIndex, IsMapped;
    if n > 0 {
      MappedEventsAreOwned(es, n - 1, i);
      MapNamesOwner(es, n - 1);
      if IsMapped(es, n - 1) {
        UniqueIdsSeparate(Run(es).turns, OwnerIndex(es, n - 1), i);
      }
    }
  }

  /** Event counts, read off the map that the builder returns. */
  lemma {:induction false} RawEventCountsMatchMap(es: seq<Event>, i: nat)
    requires DistinctIds(es) && UniqueTurnIds(Run(es).turns)
    requires i < |Run(es).turns|
    ensures var t := Run(es).turns[i];
            t.rawEventCount == 1 +
              if t.kind == Assistant then MappedEvents(es, |es|, Run(es).eventTurnMap, t.id) else 0
  {
    hide Run, OpenAfter, TurnCount, OwnerIndex, IsMapped;
    CountsAreConserved(es, i);
    MappedEventsAreOwned(es, |es|, i);
  }
}
