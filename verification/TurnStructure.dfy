/**
 The shape of the turn list, told from the event list alone: when a turn is open, how many turns
 there are, which event each one comes from, and the grammar of their types.
 */
module TurnStructure {
  import opened Options
  import opened TurnModel
  import opened TurnShape

  // ---------------------------------------------------------------------------------------------
  // When a turn is open
  // ---------------------------------------------------------------------------------------------

  predicate OpensTurn(e: Event) {
    e.kind.PromptSubmit? || e.kind.PreToolUse?
  }

  /** A prompt or a tool call has arrived, and no session event since. */
  predicate OpenAfter(es: seq<Event>) {
    exists i :: 0 <= i < |es| && OpensTurn(es[i]) && forall j :: i < j < |es| ==> !IsSession(es[j])
  }

  lemma OpenAfterAppend(es: seq<Event>, e: Event)
    ensures OpenAfter(es + [e]) <==> StaysOpen(OpenAfter(es), e)
  {
    var es' := es + [e];
    if OpensTurn(e) {
      assert OpensTurn(es'[|es|]);
    } else if OpenAfter(es) && !IsSession(e) {
      var i :| 0 <= i < |es| && OpensTurn(es[i]) && forall j :: i < j < |es| ==> !IsSession(es[j]);
      assert OpensTurn(es'[i]);
    }
    if OpenAfter(es') {
      var i :| 0 <= i < |es'| && OpensTurn(es'[i]) && forall j :: i < j < |es'| ==> !IsSession(es'[j]);
      if i < |es| {
        assert OpensTurn(es[i]) && forall j :: i < j < |es| ==> es[j] == es'[j];
        assert es'[|es|] == e;
      }
    }
  }

  /** The builder has a current turn exactly when the events say that one is open. */
  lemma {:induction false} CurrentIffOpen(es: seq<Event>)
    ensures Run(es).current.Some? <==> OpenAfter(es)
  {
    if es != [] {
      var init, e := es[..|es| - 1], es[|es| - 1];
      assert es == init + [e];
      CurrentIffOpen(init);
      OpenAfterAppend(init, e);
      RunKeepsInv(init);
      AdvanceShape(Run(init), e);
    }
  }

  // ---------------------------------------------------------------------------------------------
  // How many turns there are
  // ---------------------------------------------------------------------------------------------

  function Count(es: seq<Event>, p: Event -> bool): nat {
    if es == [] then 0 else Count(es[..|es| - 1], p) + (if p(es[|es| - 1]) then 1 else 0)
  }

  /** Tool calls that arrive while no turn is open. */
  function Orphans(es: seq<Event>): nat {
    if es == [] then 0
    else
      var init, e := es[..|es| - 1], es[|es| - 1];
      Orphans(init) + (if e.kind.PreToolUse? && !OpenAfter(init) then 1 else 0)
  }

  function TurnCount(es: seq<Event>): nat {
    2 * Count(es, (e: Event) => e.kind.PromptSubmit?)
    + Count(es, (e: Event) => e.kind.SessionStart?)
    + Count(es, (e: Event) => e.kind.SessionEnd?)
    + Orphans(es)
  }

  lemma TurnCountAppend(es: seq<Event>, e: Event)
    ensures TurnCount(es + [e]) == TurnCount(es) + |NewTurns(OpenAfter(es), 0, e)|
  {
    assert (es + [e])[..|es + [e]| - 1] == es;
  }

  /** Two turns per prompt, one per session event, one per orphan tool call. */
  lemma {:induction false} TurnsAreCounted(es: seq<Event>)
    ensures |Run(es).turns| == TurnCount(es)
  {
    if es != [] {
      var init, e := es[..|es| - 1], es[|es| - 1];
      assert es == init + [e];
      TurnsAreCounted(init);
      TurnCountAppend(init, e);
      CurrentIffOpen(init);
      RunKeepsInv(init);
      AdvanceShape(Run(init), e);
    }
  }

  lemma {:induction false} TurnCountMonotone(es: seq<Event>, k: nat, n: nat)
    requires k <= n <= |es|
    ensures TurnCount(es[..k]) <= TurnCount(es[..n])
    decreases n - k
  {
    if k < n {
      assert es[..n] == es[..n - 1] + [es[n - 1]];
      TurnCountAppend(es[..n - 1], es[n - 1]);
      TurnCountMonotone(es, k, n - 1);
    }
  }

  // ---------------------------------------------------------------------------------------------
  // Where each turn comes from
  // ---------------------------------------------------------------------------------------------

  /** Turn `i` of the run over `es` is the turn with number `j` among those that `es[k]` creates. */
  predicate ComesFrom(es: seq<Event>, i: nat, k: nat, j: nat) {
    && k < |es|
    && j < |CreatedBy(es, k)|
    && i == TurnCount(es[..k]) + j
    && i < |Run(es).turns|
    && SameIdentity(CreatedBy(es, k)[j], Run(es).turns[i])
  }

  function CreatedBy(es: seq<Event>, k: nat): seq<TurnRecord>
    requires k < |es|
  {
    NewTurns(OpenAfter(es[..k]), TurnCount(es[..k]), es[k])
  }

  lemma CreatedByMovesCount(es: seq<Event>, k: nat)
    requires k < |es|
    ensures TurnCount(es[..k + 1]) == TurnCount(es[..k]) + |CreatedBy(es, k)|
  {
    assert es[..k + 1] == es[..k] + [es[k]];
    TurnCountAppend(es[..k], es[k]);
  }

  /** The last event keeps the identity of the turns that exist and appends those it creates. */
  lemma {:induction false} RunExtends(es: seq<Event>, e: Event)
    ensures var before, after := Run(es).turns, Run(es + [e]).turns;
            && |before| == TurnCount(es)
            && |after| == |before| + |CreatedBy(es + [e], |es|)|
            && (forall i :: 0 <= i < |before| ==> SameIdentity(before[i], after[i]))
            && after[|before|..] == CreatedBy(es + [e], |es|)
  {
    hide Advance, Run, OpenAfter, TurnCount, NewTurns, Touch;
    if Run(es).turns != [] {
      TouchKeepsIdentity(Run(es).turns[|Run(es).turns| - 1], e);
    }
    assert (es + [e])[..|es|] == es;
    RunAppend(es, e);
    RunKeepsInv(es);
    AdvanceShape(Run(es), e);
    CurrentIffOpen(es);
    TurnsAreCounted(es);
  }

  lemma {:induction false} TurnHasOrigin(es: seq<Event>, i: nat) returns (k: nat, j: nat)
    requires i < |Run(es).turns|
    ensures ComesFrom(es, i, k, j)
  {
    hide Advance, OpenAfter, TurnCount, NewTurns;
    var n := |es| - 1;
    var init, e := es[..n], es[n];
    assert es == init + [e];
    RunExtends(init, e);
    if i < |Run(init).turns| {
      k, j := TurnHasOrigin(init, i);
      assert es[..k] == init[..k];
    } else {
      k, j := n, i - |Run(init).turns|;
      assert Run(es).turns[i] == Run(es).turns[|Run(init).turns|..][j];
    }
  }

  lemma {:induction false} CreatedTurnPersists(es: seq<Event>, k: nat, j: nat)
    requires k < |es| && j < |CreatedBy(es, k)|
    ensures ComesFrom(es, TurnCount(es[..k]) + j, k, j)
  {
    hide Advance, OpenAfter, TurnCount, NewTurns;
    var n := |es| - 1;
    var init, e := es[..n], es[n];
    assert es == init + [e];
    RunExtends(init, e);
    if k < n {
      assert es[..k] == init[..k];
      CreatedTurnPersists(init, k, j);
    } else {
      var i := TurnCount(es[..k]) + j;
      assert Run(es).turns[i] == Run(es).turns[|Run(init).turns|..][j];
    }
  }

  lemma OriginIsUnique(es: seq<Event>, i1: nat, k1: nat, j1: nat, i2: nat, k2: nat, j2: nat)
    requires ComesFrom(es, i1, k1, j1) && ComesFrom(es, i2, k2, j2)
    ensures i1 == i2 <==> k1 == k2 && j1 == j2
  {
    hide Run, OpenAfter, TurnCount, NewTurns;
    if k1 < k2 {
      CreatedByMovesCount(es, k1);
      TurnCountMonotone(es, k1 + 1, k2);
    } else if k2 < k1 {
      CreatedByMovesCount(es, k2);
      TurnCountMonotone(es, k2 + 1, k1);
    }
  }

  // ---------------------------------------------------------------------------------------------
  // Turn grammar
  // ---------------------------------------------------------------------------------------------

  function Kinds(turns: seq<TurnRecord>): seq<TurnType> {
    seq(|turns|, i requires 0 <= i < |turns| => turns[i].kind)
  }

  /** The regular expression (U A | S A?)*. */
  predicate MatchesRounds(ks: seq<TurnType>) {
    || ks == []
    || (|ks| >= 2 && ks[0] == User && ks[1] == Assistant && MatchesRounds(ks[2..]))
    || (ks[0] == System && |ks| >= 2 && ks[1] == Assistant && MatchesRounds(ks[2..]))
    || (ks[0] == System && MatchesRounds(ks[1..]))
  }

  /** The regular expression A? (U A | S A?)*. */
  predicate MatchesGrammar(ks: seq<TurnType>) {
    MatchesRounds(ks) || (ks != [] && ks[0] == Assistant && MatchesRounds(ks[1..]))
  }

  /** A round in front of rounds. */
  lemma {:induction false} RoundThenRounds(ks: seq<TurnType>)
    requires |ks| >= 2 && (ks[0] == User || ks[0] == System) && ks[1] == Assistant && MatchesRounds(ks[2..])
    ensures MatchesRounds(ks)
  {
  }

  lemma {:induction false} SystemThenRounds(ks: seq<TurnType>)
    requires ks != [] && ks[0] == System && MatchesRounds(ks[1..])
    ensures MatchesRounds(ks)
  {
  }

  /** Rounds start with a whole round, or are empty. */
  lemma {:induction false} FirstRound(ks: seq<TurnType>)
    requires MatchesRounds(ks) && ks != []
    ensures (|ks| >= 2 && (ks[0] == User || ks[0] == System) && ks[1] == Assistant && MatchesRounds(ks[2..]))
         || (ks[0] == System && MatchesRounds(ks[1..]))
  {
  }

  lemma {:induction false} RoundsAppend(ks: seq<TurnType>, round: seq<TurnType>)
    requires MatchesRounds(ks) && MatchesRounds(round)
    ensures MatchesRounds(ks + round)
    decreases |ks|
  {
    hide MatchesRounds;
    if ks == [] {
      assert ks + round == round;
    } else {
      FirstRound(ks);
      if |ks| >= 2 && ks[1] == Assistant && MatchesRounds(ks[2..]) {
        RoundsAppend(ks[2..], round);
        assert (ks + round)[2..] == ks[2..] + round;
        RoundThenRounds(ks + round);
      } else {
        RoundsAppend(ks[1..], round);
        assert (ks + round)[1..] == ks[1..] + round;
        SystemThenRounds(ks + round);
      }
    }
  }

  /** A system turn may be followed by an assistant turn. */
  lemma {:induction false} RoundsAnswerSystem(ks: seq<TurnType>)
    requires MatchesRounds(ks) && ks != [] && ks[|ks| - 1] == System
    ensures MatchesRounds(ks + [Assistant])
    decreases |ks|
  {
    if |ks| == 1 {
      assert (ks + [Assistant])[2..] == [];
    } else if |ks| >= 2 && ks[1] == Assistant && MatchesRounds(ks[2..]) {
      RoundsAnswerSystem(ks[2..]);
      assert (ks + [Assistant])[2..] == ks[2..] + [Assistant];
    } else {
      RoundsAnswerSystem(ks[1..]);
      assert (ks + [Assistant])[1..] == ks[1..] + [Assistant];
    }
  }

  lemma {:induction false} GrammarAppend(ks: seq<TurnType>, round: seq<TurnType>)
    requires MatchesGrammar(ks) && MatchesRounds(round)
    ensures MatchesGrammar(ks + round)
  {
    hide MatchesRounds;
    if MatchesRounds(ks) {
      RoundsAppend(ks, round);
    } else {
      RoundsAppend(ks[1..], round);
      assert (ks + round)[1..] == ks[1..] + round;
    }
  }

  lemma GrammarAnswerSystem(ks: seq<TurnType>)
    requires MatchesGrammar(ks) && (ks == [] || ks[|ks| - 1] == System)
    ensures MatchesGrammar(ks + [Assistant])
  {
    if ks == [] {
      assert (ks + [Assistant])[1..] == [];
    } else if MatchesRounds(ks) {
      RoundsAnswerSystem(ks);
    } else {
      RoundsAnswerSystem(ks[1..]);
      assert (ks + [Assistant])[1..] == ks[1..] + [Assistant];
    }
  }

  lemma GrammarExtends(ks: seq<TurnType>, isOpen: bool, n: nat, e: Event)
    requires MatchesGrammar(ks)
    requires !isOpen && ks != [] ==> ks[|ks| - 1] == System
    ensures MatchesGrammar(ks + Kinds(NewTurns(isOpen, n, e)))
  {
    var added := Kinds(NewTurns(isOpen, n, e));
    if e.kind.PreToolUse? && !isOpen {
      assert added == [Assistant];
      GrammarAnswerSystem(ks);
    } else {
      assert added == [] || added == [User, Assistant] || added == [System];
      assert [User, Assistant][2..] == [] && [System][1..] == [];
      GrammarAppend(ks, added);
    }
  }

  lemma KindsAt(turns: seq<TurnRecord>)
    ensures |Kinds(turns)| == |turns| && forall i :: 0 <= i < |turns| ==> Kinds(turns)[i] == turns[i].kind
  {
  }

  lemma KindsExtend(before: seq<TurnRecord>, after: seq<TurnRecord>)
    requires |before| <= |after|
    requires forall i :: 0 <= i < |before| ==> SameIdentity(before[i], after[i])
    ensures Kinds(after) == Kinds(before) + Kinds(after[|before|..])
  {
  }

  predicate EndsClosed(es: seq<Event>) {
    !OpenAfter(es) && Run(es).turns != [] ==> Run(es).turns[|Run(es).turns| - 1].kind == System
  }

  lemma {:induction false} EventKeepsGrammar(es: seq<Event>, e: Event)
    requires MatchesGrammar(Kinds(Run(es).turns)) && EndsClosed(es)
    ensures MatchesGrammar(Kinds(Run(es + [e]).turns)) && EndsClosed(es + [e])
  {
    hide Run, OpenAfter, TurnCount, MatchesGrammar, Kinds;
    RunExtends(es, e);
    OpenAfterAppend(es, e);
    var before, after := Run(es).turns, Run(es + [e]).turns;
    assert (es + [e])[..|es|] == es;
    if before != [] {
      assert Kinds(before)[|before| - 1] == before[|before| - 1].kind by { KindsAt(before); }
    }
    assert |Kinds(before)| == |before| by { KindsAt(before); }
    KindsExtend(before, after);
    GrammarExtends(Kinds(before), OpenAfter(es), TurnCount(es), e);
    if after != [] && |after| > |before| {
      assert after[|after| - 1] == after[|before|..][|after| - |before| - 1];
    }
  }

  /** The turn types of every run match A? (U A | S A?)*; with no turn open, the last is a system turn. */
  lemma {:induction false} TurnsMatchGrammar(es: seq<Event>)
    ensures MatchesGrammar(Kinds(Run(es).turns))
    ensures !OpenAfter(es) && Run(es).turns != [] ==>
              Run(es).turns[|Run(es).turns| - 1].kind == System
  {
    hide OpenAfter, Advance;
    if es != [] {
      assert es == es[..|es| - 1] + [es[|es| - 1]];
      TurnsMatchGrammar(es[..|es| - 1]);
      EventKeepsGrammar(es[..|es| - 1], es[|es| - 1]);
    }
  }

  /** Every user turn is answered by the assistant turn of the same prompt. */
  lemma {:induction false} PromptTurnsComeInPairs(es: seq<Event>, i: nat)
    requires i < |Run(es).turns| && Run(es).turns[i].kind == User
    ensures i + 1 < |Run(es).turns|
    ensures var user, reply := Run(es).turns[i], Run(es).turns[i + 1];
            && reply.kind == Assistant
            && reply.id == user.id + "-assistant"
            && reply.startedAt == user.startedAt
            && reply.sessionId == user.sessionId
  {
    hide Advance;
    hide Run, OpenAfter, TurnCount;
    var k, j := TurnHasOrigin(es, i);
    CreatedTurnPersists(es, k, 1);
  }
}
