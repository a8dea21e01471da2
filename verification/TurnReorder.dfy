/**
 Reordered events: runs over the same events agree when every two events that change order commute.
 */
module TurnReorder {
  import opened TurnModel
  import opened TurnShape
  import opened TurnStructure
  import opened TurnMapping
  import opened TurnOrder
  import opened TurnTies

  /** `e` stands somewhere before `f`. */
  ghost predicate Before(es: seq<Event>, e: Event, f: Event) {
    exists i, j :: 0 <= i < j < |es| && es[i] == e && es[j] == f
  }

  /** `e` and `f` may change places whether or not a turn is open before them. */
  predicate AlwaysCommute(e: Event, f: Event) {
    Commute(true, e, f) && Commute(false, e, f)
  }

  /** Every two events that the lists put in different orders commute. */
  ghost predicate ReordersOnlyCommuting(a: seq<Event>, b: seq<Event>) {
    forall e, f :: Before(a, e, f) && Before(b, f, e) ==> AlwaysCommute(e, f)
  }

  /** The same for events of one instant only. */
  ghost predicate ReordersOnlyCommutingTies(a: seq<Event>, b: seq<Event>) {
    forall e: Event, f: Event :: e.timestamp == f.timestamp && Before(a, e, f) && Before(b, f, e) ==>
      AlwaysCommute(e, f)
  }

  // ---------------------------------------------------------------------------------------------
  // Runs
  // ---------------------------------------------------------------------------------------------

  /** An event may be moved behind all later events with which it commutes. */
  lemma {:induction false} MoveToEnd(es: seq<Event>, x: Event, rest: seq<Event>)
    requires forall y :: y in rest ==> y.id != x.id && AlwaysCommute(x, y)
    ensures Run(es + [x] + rest) == Run(es + rest + [x])
    decreases |rest|
  {
    hide Run, Commute, OpenAfter;
    if rest == [] {
      assert es + [x] + rest == es + rest + [x];
    } else {
      var y, more := rest[0], rest[1..];
      assert rest == [y] + more;
      assert AlwaysCommute(x, y);
      assert Commute(if OpenAfter(es) then true else false, x, y);
      TiesCommute(es, x, y, more);
      MoveToEnd(es + [y], x, more);
      assert es + [x] + rest == es + [x, y] + more;
      assert es + [y, x] + more == es + [y] + [x] + more;
      assert es + rest + [x] == es + [y] + more + [x];
    }
  }

  lemma BeforeWithout(p: seq<Event>, x: Event, s: seq<Event>, e: Event, f: Event)
    requires Before(p + s, e, f)
    ensures Before(p + [x] + s, e, f)
  {
    var i, j :| 0 <= i < j < |p + s| && (p + s)[i] == e && (p + s)[j] == f;
    var i', j' := if i < |p| then i else i + 1, if j < |p| then j else j + 1;
    assert (p + [x] + s)[i'] == e && (p + [x] + s)[j'] == f;
  }

  lemma BeforeLast(es: seq<Event>, e: Event, f: Event)
    requires e in es
    ensures Before(es + [f], e, f)
  {
    var i :| 0 <= i < |es| && es[i] == e;
    assert (es + [f])[i] == e && (es + [f])[|es|] == f;
  }

  lemma BeforeBehind(p: seq<Event>, x: Event, s: seq<Event>, y: Event)
    requires y in s
    ensures Before(p + [x] + s, x, y)
  {
    var j :| 0 <= j < |s| && s[j] == y;
    assert (p + [x] + s)[|p|] == x && (p + [x] + s)[|p| + 1 + j] == y;
  }

  /** Without its last event, a list keeps the reordering hypothesis. */
  lemma ReordersLess(a: seq<Event>, x: Event, p: seq<Event>, s: seq<Event>)
    requires ReordersOnlyCommuting(a + [x], p + [x] + s)
    ensures ReordersOnlyCommuting(a, p + s)
  {
    hide Before, AlwaysCommute;
    forall e, f | Before(a, e, f) && Before(p + s, f, e)
      ensures AlwaysCommute(e, f)
    {
      assert a + [] == a;
      BeforeWithout(a, x, [], e, f);
      assert a + [x] + [] == a + [x];
      BeforeWithout(p, x, s, f, e);
    }
  }

  lemma DistinctWithout(p: seq<Event>, x: Event, s: seq<Event>)
    requires DistinctIds(p + [x] + s)
    ensures DistinctIds(p + s)
    ensures forall y :: y in p + s ==> y.id != x.id
  {
    var all, few := p + [x] + s, p + s;
    assert all[|p|] == x;
    forall i | 0 <= i < |few|
      ensures few[i] == all[if i < |p| then i else i + 1]
    {
    }
  }

  lemma SameWithout(a: seq<Event>, x: Event, p: seq<Event>, s: seq<Event>)
    requires DistinctIds(a + [x]) && DistinctIds(p + [x] + s)
    requires SameEvents(a + [x], p + [x] + s)
    ensures SameEvents(a, p + s)
  {
    assert a + [] == a && a + [x] + [] == a + [x];
    DistinctWithout(a, x, []);
    DistinctWithout(p, x, s);
    hide DistinctIds;
    forall e
      ensures e in a <==> e in p + s
    {
      assert e in a + [x] <==> e in p + [x] + s;
    }
  }

  /** Runs over the same events agree when every two events that change order commute. */
  lemma {:induction false} ReorderedRunsAgree(a: seq<Event>, b: seq<Event>)
    requires DistinctIds(a) && DistinctIds(b) && SameEvents(a, b)
    requires ReordersOnlyCommuting(a, b)
    ensures Run(a) == Run(b) && |a| == |b|
    decreases |a|
  {
    hide Run, Advance, DistinctIds, SameEvents, ReordersOnlyCommuting, AlwaysCommute;
    if a == [] {
      NothingReordered(b);
    } else {
      var init, x := a[..|a| - 1], a[|a| - 1];
      assert a == init + [x];
      var p, s := Around(a, b, x);
      SameWithout(init, x, p, s);
      ReordersLess(init, x, p, s);
      assert init + [] == init && init + [x] + [] == init + [x];
      DistinctWithout(init, x, []);
      DistinctWithout(p, x, s);
      ReorderedRunsAgree(init, p + s);
      LaterCommute(init, x, p, s);
      MoveToEnd(p, x, s);
      RunAppend(init, x);
      RunAppend(p + s, x);
    }
  }

  lemma NothingReordered(b: seq<Event>)
    requires SameEvents([], b)
    ensures b == []
  {
    EmptyOrMember(b);
  }

  lemma Around(a: seq<Event>, b: seq<Event>, x: Event) returns (p: seq<Event>, s: seq<Event>)
    requires SameEvents(a, b) && x in a
    ensures b == p + [x] + s
  {
    assert x in b;
    var k :| 0 <= k < |b| && b[k] == x;
    p, s := b[..k], b[k + 1..];
  }

  /** The last event of one list commutes with all events that are behind it in the other. */
  lemma LaterCommute(a: seq<Event>, x: Event, p: seq<Event>, s: seq<Event>)
    requires SameEvents(a, p + s) && ReordersOnlyCommuting(a + [x], p + [x] + s)
    ensures forall y :: y in s ==> AlwaysCommute(x, y)
  {
    hide Before, Independent;
    forall y | y in s
      ensures AlwaysCommute(x, y)
    {
      assert y in p + s;
      BeforeLast(a, y, x);
      BeforeBehind(p, x, s, y);
      assert AlwaysCommute(y, x);
    }
  }

  // ---------------------------------------------------------------------------------------------
  // Events of one instant
  // ---------------------------------------------------------------------------------------------

  lemma BeforeAppend(es: seq<Event>, x: Event, e: Event, f: Event)
    ensures Before(es + [x], e, f) <==> Before(es, e, f) || (f == x && e in es)
  {
    var all := es + [x];
    assert forall i :: 0 <= i < |es| ==> all[i] == es[i];
    if Before(all, e, f) {
      var i, j :| 0 <= i < j < |all| && all[i] == e && all[j] == f;
      assert es[i] == e;
    }
    if f == x && e in es {
      BeforeLast(es, e, f);
    }
    if Before(es, e, f) {
      var i, j :| 0 <= i < j < |es| && es[i] == e && es[j] == f;
      assert all[i] == e && all[j] == f;
    }
  }

  /** The events of one instant stand in list order. */
  lemma {:induction false} BeforeAt(es: seq<Event>, t: int, e: Event, f: Event)
    requires e.timestamp == t && f.timestamp == t
    ensures Before(AtTime(es, t), e, f) <==> Before(es, e, f)
  {
    if es != [] {
      var init, x := es[..|es| - 1], es[|es| - 1];
      assert es == init + [x];
      BeforeAt(init, t, e, f);
      AtTimeAppend(init, x, t);
      AtTimeMembers(init, t);
      hide AtTime, Before;
      BeforeAppend(init, x, e, f);
      BeforeAppend(AtTime(init, t), x, e, f);
      assert AtTime(init, t) + [] == AtTime(init, t);
    }
  }

  lemma BeforeAreMembers(es: seq<Event>, e: Event, f: Event)
    requires Before(es, e, f)
    ensures e in es && f in es
    ensures SortedByTime(es) ==> e.timestamp <= f.timestamp
  {
  }

  /** At every instant the same events, and those that change order commute. */
  ghost predicate ReordersTies(a: seq<Event>, b: seq<Event>) {
    forall t :: SameEvents(AtTime(a, t), AtTime(b, t)) && ReordersOnlyCommuting(AtTime(a, t), AtTime(b, t))
  }

  /** Lists in time order only reorder events of one instant. */
  lemma SortedReorderTies(a: seq<Event>, b: seq<Event>)
    requires SortedByTime(a) && SortedByTime(b) && ReordersTies(a, b)
    ensures SameEvents(a, b) && ReordersOnlyCommuting(a, b)
  {
    hide AtTime, Before, AlwaysCommute, SortedByTime;
    forall e
      ensures e in a <==> e in b
    {
      AtTimeMembers(a, e.timestamp);
      AtTimeMembers(b, e.timestamp);
      assert e in AtTime(a, e.timestamp) <==> e in AtTime(b, e.timestamp);
    }
    forall e, f | Before(a, e, f) && Before(b, f, e)
      ensures AlwaysCommute(e, f)
    {
      BeforeAreMembers(a, e, f);
      BeforeAreMembers(b, f, e);
      BeforeAt(a, e.timestamp, e, f);
      BeforeAt(b, e.timestamp, f, e);
      assert ReordersOnlyCommuting(AtTime(a, e.timestamp), AtTime(b, e.timestamp));
    }
  }

  /** Two lists with the same events reorder only ties that commute, when their events of one instant do. */
  lemma ReordersTiesOf(a: seq<Event>, b: seq<Event>)
    requires SameEvents(a, b) && ReordersOnlyCommutingTies(a, b)
    ensures ReordersTies(a, b)
  {
    hide AtTime, Before, AlwaysCommute;
    forall t
      ensures SameEvents(AtTime(a, t), AtTime(b, t)) && ReordersOnlyCommuting(AtTime(a, t), AtTime(b, t))
    {
      AtTimeMembers(a, t);
      AtTimeMembers(b, t);
      forall e, f | Before(AtTime(a, t), e, f) && Before(AtTime(b, t), f, e)
        ensures AlwaysCommute(e, f)
      {
        BeforeAreMembers(AtTime(a, t), e, f);
        BeforeAt(a, t, e, f);
        BeforeAt(b, t, f, e);
      }
    }
  }
}
