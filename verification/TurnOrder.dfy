/**
 Sorting by time and removing duplicates: the order in which the builder processes events depends
 only on which events there are.
 */
module TurnOrder {
  import opened Options
  import opened TurnModel
  import opened TurnMapping

  // ---------------------------------------------------------------------------------------------
  // The stable sort
  // ---------------------------------------------------------------------------------------------

  predicate SortedByTime(es: seq<Event>) {
    forall i, j :: 0 <= i < j < |es| ==> es[i].timestamp <= es[j].timestamp
  }

  /** Puts `e` behind every event that is not later. */
  function Insert(es: seq<Event>, e: Event): (r: seq<Event>)
    ensures |r| == |es| + 1
    ensures multiset(r) == multiset(es) + multiset{e}
  {
    if es == [] || es[|es| - 1].timestamp <= e.timestamp then es + [e]
    else
      assert es == es[..|es| - 1] + [es[|es| - 1]];
      Insert(es[..|es| - 1], e) + [es[|es| - 1]]
  }

  /** `[...events].sort((a, b) => a.timestamp - b.timestamp)`, which ECMAScript requires to be stable. */
  function SortByTime(es: seq<Event>): (r: seq<Event>)
    ensures |r| == |es|
    ensures multiset(r) == multiset(es)
  {
    if es == [] then []
    else
      assert es == es[..|es| - 1] + [es[|es| - 1]];
      Insert(SortByTime(es[..|es| - 1]), es[|es| - 1])
  }

  /** The events of one instant, in list order. */
  function AtTime(es: seq<Event>, t: int): seq<Event> {
    if es == [] then []
    else AtTime(es[..|es| - 1], t) + if es[|es| - 1].timestamp == t then [es[|es| - 1]] else []
  }

  /** Sorted, with the events of every instant in their original order. */
  ghost predicate IsStableSort(sorted: seq<Event>, es: seq<Event>) {
    SortedByTime(sorted) && forall t :: AtTime(sorted, t) == AtTime(es, t)
  }

  lemma {:induction false} AtTimeOfLater(es: seq<Event>, t: int)
    requires forall i :: 0 <= i < |es| ==> es[i].timestamp != t
    ensures AtTime(es, t) == []
  {
    if es != [] {
      AtTimeOfLater(es[..|es| - 1], t);
    }
  }

  lemma {:induction false} InsertKeepsSorted(es: seq<Event>, e: Event)
    requires SortedByTime(es)
    ensures SortedByTime(Insert(es, e))
    ensures Insert(es, e)[|es|].timestamp ==
            if es != [] && es[|es| - 1].timestamp > e.timestamp then es[|es| - 1].timestamp else e.timestamp
  {
    if es != [] && es[|es| - 1].timestamp > e.timestamp {
      var init, last := es[..|es| - 1], es[|es| - 1];
      InsertKeepsSorted(init, e);
      var r := Insert(init, e);
      assert Insert(es, e) == r + [last];
      hide Insert;
      assert r[|init|].timestamp <= last.timestamp;
      SortedAppend(r, last);
    }
  }

  lemma SortedAppend(es: seq<Event>, e: Event)
    requires SortedByTime(es) && (es != [] ==> es[|es| - 1].timestamp <= e.timestamp)
    ensures SortedByTime(es + [e])
  {
    assert forall i :: 0 <= i < |es| ==> es[i].timestamp <= e.timestamp;
  }

  lemma {:induction false} InsertIsStable(es: seq<Event>, e: Event, t: int)
    ensures AtTime(Insert(es, e), t) == AtTime(es + [e], t)
  {
    if es != [] && es[|es| - 1].timestamp > e.timestamp {
      hide AtTime;
      var init, last := es[..|es| - 1], es[|es| - 1];
      assert es == init + [last] && Insert(es, e) == Insert(init, e) + [last];
      hide Insert;
      InsertIsStable(init, e, t);
      AtTimeAppend(Insert(init, e), last, t);
      AtTimeAppend(init + [e], last, t);
      AtTimeSwap(init, last, e, t);
    }
  }

  lemma {:induction false} AtTimeSwap(es: seq<Event>, e: Event, f: Event, t: int)
    requires e.timestamp != f.timestamp
    ensures AtTime(es + [e] + [f], t) == AtTime(es + [f] + [e], t)
  {
    hide AtTime;
    AtTimeAppend(es, e, t);
    AtTimeAppend(es + [e], f, t);
    AtTimeAppend(es, f, t);
    AtTimeAppend(es + [f], e, t);
    var at := AtTime(es, t);
    assert at + [] == at && at + [e] + [] == at + [e] && at + [f] + [] == at + [f];
  }

  lemma {:induction false} InsertKeepsStable(es: seq<Event>, sorted: seq<Event>, e: Event)
    requires IsStableSort(sorted, es)
    ensures IsStableSort(Insert(sorted, e), es + [e])
  {
    hide AtTime, Insert, SortedByTime;
    InsertKeepsSorted(sorted, e);
    forall t
      ensures AtTime(Insert(sorted, e), t) == AtTime(es + [e], t)
    {
      InsertIsStable(sorted, e, t);
      AtTimeAppend(sorted, e, t);
      AtTimeAppend(es, e, t);
      assert AtTime(sorted, t) == AtTime(es, t);
    }
  }

  lemma {:induction false} SortIsStable(es: seq<Event>)
    ensures IsStableSort(SortByTime(es), es)
  {
    if es == [] {
      assert SortByTime([]) == [];
    } else {
      hide IsStableSort, Insert, SortByTime;
      var init, e := es[..|es| - 1], es[|es| - 1];
      assert es == init + [e];
      SortIsStable(init);
      SortAppend(init, e);
      InsertKeepsStable(init, SortByTime(init), e);
    }
  }

  lemma {:induction false} AtTimeIsLast(es: seq<Event>, t: int)
    requires SortedByTime(es) && AtTime(es, t) != []
    ensures es != [] && es[|es| - 1].timestamp >= t
    ensures es[|es| - 1].timestamp == t ==> AtTime(es, t)[|AtTime(es, t)| - 1] == es[|es| - 1]
  {
    if es[|es| - 1].timestamp < t {
      AtTimeOfLater(es, t);
    }
  }

  lemma {:induction false} AtTimeAppend(es: seq<Event>, e: Event, t: int)
    ensures AtTime(es + [e], t) == AtTime(es, t) + if e.timestamp == t then [e] else []
  {
    assert (es + [e])[..|es|] == es;
  }

  lemma CancelSuffix(p: seq<Event>, q: seq<Event>, suffix: seq<Event>)
    requires p + suffix == q + suffix
    ensures p == q
  {
    assert |p + suffix| == |q + suffix|;
    assert (p + suffix)[..|p|] == p && (q + suffix)[..|q|] == q;
  }

  lemma {:induction false} SortedListsEndAlike(a: seq<Event>, b: seq<Event>)
    requires SortedByTime(a) && SortedByTime(b) && a != []
    requires forall t :: AtTime(a, t) == AtTime(b, t)
    ensures b != [] && a[|a| - 1] == b[|b| - 1]
  {
    var t := a[|a| - 1].timestamp;
    assert AtTime(a, t) == AtTime(b, t);
    AtTimeIsLast(b, t);
    AtTimeIsLast(a, t);
    var u := b[|b| - 1].timestamp;
    assert AtTime(a, u) == AtTime(b, u);
    AtTimeIsLast(a, u);
  }

  ghost predicate SameInstants(a: seq<Event>, b: seq<Event>) {
    forall t :: AtTime(a, t) == AtTime(b, t)
  }

  lemma InitsAgree(a: seq<Event>, b: seq<Event>, x: Event)
    requires SameInstants(a + [x], b + [x])
    ensures SameInstants(a, b)
  {
    hide AtTime;
    forall t
      ensures AtTime(a, t) == AtTime(b, t)
    {
      assert AtTime(a + [x], t) == AtTime(b + [x], t);
      AtTimeAppend(a, x, t);
      AtTimeAppend(b, x, t);
      CancelSuffix(AtTime(a, t), AtTime(b, t), if x.timestamp == t then [x] else []);
    }
  }

  lemma {:induction false} SortedListIsDetermined(a: seq<Event>, b: seq<Event>)
    requires SortedByTime(a) && SortedByTime(b) && SameInstants(a, b)
    ensures a == b
    decreases |a|
  {
    hide AtTime, SameInstants;
    if a == [] {
      if b != [] {
        SameInstantsEndAlike(b, a);
      }
    } else {
      SameInstantsEndAlike(a, b);
      var x, a', b' := a[|a| - 1], a[..|a| - 1], b[..|b| - 1];
      assert a == a' + [x] && b == b' + [x];
      InitsAgree(a', b', x);
      SortedListIsDetermined(a', b');
    }
  }

  lemma SameInstantsEndAlike(a: seq<Event>, b: seq<Event>)
    requires SortedByTime(a) && SortedByTime(b) && (a != [] || b != [])
    requires SameInstants(a, b) || SameInstants(b, a)
    ensures a != [] && b != [] && a[|a| - 1] == b[|b| - 1]
  {
    hide AtTime;
    if a != [] {
      SortedListsEndAlike(a, b);
    } else {
      SortedListsEndAlike(b, a);
    }
  }

  /** There is only one stable sort, so nothing here depends on how the engine sorts. */
  lemma StableSortIsUnique(a: seq<Event>, b: seq<Event>, es: seq<Event>)
    requires IsStableSort(a, es) && IsStableSort(b, es)
    ensures a == b
  {
    hide AtTime;
    forall t
      ensures AtTime(a, t) == AtTime(b, t)
    {
      assert AtTime(a, t) == AtTime(es, t);
    }
    SortedListIsDetermined(a, b);
  }

  // ---------------------------------------------------------------------------------------------
  // Duplicates
  // ---------------------------------------------------------------------------------------------

  function Ids(es: seq<Event>): set<string> {
    set e | e in es :: e.id
  }

  /** Keeps the first event of every id. */
  function Dedup(es: seq<Event>): (r: seq<Event>)
    ensures |r| <= |es|
    ensures forall e :: e in r ==> e in es
  {
    if es == [] then []
    else
      var init, e := es[..|es| - 1], es[|es| - 1];
      if e.id in Ids(init) then Dedup(init) else Dedup(init) + [e]
  }

  lemma NothingSeen()
    ensures Dedup([]) == [] && Ids([]) == {}
  {
  }

  lemma IdsAppend(es: seq<Event>, e: Event)
    ensures Ids(es + [e]) == Ids(es) + {e.id}
  {
    assert forall f :: f in es + [e] <==> f in es || f == e;
  }

  lemma {:induction false} DedupAppend(es: seq<Event>, e: Event)
    ensures Dedup(es + [e]) == Dedup(es) + if e.id in Ids(es) then [] else [e]
  {
    assert (es + [e])[..|es + [e]| - 1] == es;
    assert Dedup(es) + [] == Dedup(es);
  }

  lemma {:induction false} DedupKeepsIds(es: seq<Event>)
    ensures Ids(Dedup(es)) == Ids(es)
    ensures DistinctIds(Dedup(es))
  {
    if es == [] {
      NothingSeen();
    } else {
      hide Dedup, Ids, DistinctIds;
      var init, e := es[..|es| - 1], es[|es| - 1];
      assert es == init + [e];
      DedupKeepsIds(init);
      DedupAppend(init, e);
      IdsAppend(init, e);
      if e.id in Ids(init) {
        assert Dedup(init) + [] == Dedup(init);
        assert Ids(init) + {e.id} == Ids(init);
      } else {
        IdsAppend(Dedup(init), e);
      }
    }
  }

  lemma {:induction false} DedupKeepsOrder(es: seq<Event>)
    requires SortedByTime(es)
    ensures SortedByTime(Dedup(es))
    ensures Dedup(es) != [] ==> Dedup(es)[|Dedup(es)| - 1].timestamp <= es[|es| - 1].timestamp
  {
    if es == [] {
      NothingSeen();
    } else {
      hide Dedup, Ids, SortedByTime;
      var init, e := es[..|es| - 1], es[|es| - 1];
      assert es == init + [e];
      SortedInit(init, e);
      DedupKeepsOrder(init);
      DedupAppend(init, e);
      if e.id !in Ids(init) {
        SortedAppend(Dedup(init), e);
      }
    }
  }

  lemma SortedInit(es: seq<Event>, e: Event)
    requires SortedByTime(es + [e])
    ensures SortedByTime(es)
    ensures es != [] ==> es[|es| - 1].timestamp <= e.timestamp
  {
    assert (es + [e])[|es|] == e && forall i :: 0 <= i < |es| ==> (es + [e])[i] == es[i];
  }

  /** The order in which the builder processes a list of events. */
  function Canonical(es: seq<Event>): seq<Event> {
    Dedup(SortByTime(es))
  }

  lemma CanonicalIsOrdered(es: seq<Event>)
    ensures SortedByTime(Canonical(es)) && DistinctIds(Canonical(es))
    ensures Ids(Canonical(es)) == Ids(es)
    ensures forall e :: e in Canonical(es) ==> e in es
  {
    SortIsStable(es);
    DedupKeepsIds(SortByTime(es));
    DedupKeepsOrder(SortByTime(es));
    SortKeepsMembers(es);
  }

  lemma {:induction false} SortKeepsMembers(es: seq<Event>)
    ensures forall e :: e in SortByTime(es) <==> e in es
  {
    forall e
      ensures e in SortByTime(es) <==> e in es
    {
      assert e in multiset(SortByTime(es)) <==> e in multiset(es);
    }
  }

  // ---------------------------------------------------------------------------------------------
  // The processing order, instant by instant
  // ---------------------------------------------------------------------------------------------

  /** The ids that occur before instant `t`. */
  function IdsBefore(es: seq<Event>, t: int): set<string> {
    set e | e in es && e.timestamp < t :: e.id
  }

  function WithoutIds(es: seq<Event>, ids: set<string>): seq<Event> {
    if es == [] then []
    else WithoutIds(es[..|es| - 1], ids) + if es[|es| - 1].id in ids then [] else [es[|es| - 1]]
  }

  /** The first event of every id at instant `t`, in delivery order, unless the id occurs before. */
  function FirstsAt(es: seq<Event>, t: int): seq<Event> {
    WithoutIds(Dedup(AtTime(es, t)), IdsBefore(es, t))
  }

  lemma {:induction false} WithoutIdsAppend(es: seq<Event>, e: Event, ids: set<string>)
    ensures WithoutIds(es + [e], ids) == WithoutIds(es, ids) + if e.id in ids then [] else [e]
  {
    assert (es + [e])[..|es + [e]| - 1] == es;
  }

  lemma {:induction false} AtTimeMembers(es: seq<Event>, t: int)
    ensures forall e :: e in AtTime(es, t) <==> e in es && e.timestamp == t
  {
    if es != [] {
      AtTimeMembers(es[..|es| - 1], t);
      assert es == es[..|es| - 1] + [es[|es| - 1]];
    }
  }

  /** In a sorted list, a new last event finds its id at its own instant or before. */
  lemma {:induction false} IdsUpTo(es: seq<Event>, t: int)
    requires forall i :: 0 <= i < |es| ==> es[i].timestamp <= t
    ensures Ids(es) == IdsBefore(es, t) + Ids(AtTime(es, t))
  {
    AtTimeMembers(es, t);
    hide AtTime;
    forall id | id in Ids(es)
      ensures id in IdsBefore(es, t) + Ids(AtTime(es, t))
    {
      var e :| e in es && e.id == id;
      assert e.timestamp == t ==> e in AtTime(es, t);
    }
  }

  lemma {:induction false} DedupOfSortedAt(es: seq<Event>, t: int)
    requires SortedByTime(es)
    ensures AtTime(Dedup(es), t) == FirstsAt(es, t)
  {
    if es != [] {
      var init, e := es[..|es| - 1], es[|es| - 1];
      assert es == init + [e];
      DedupOfSortedAt(init, t);
      LastOfSortedAt(init, e, t);
    }
  }

  lemma {:induction false} LastOfSortedAt(es: seq<Event>, e: Event, t: int)
    requires SortedByTime(es + [e])
    requires AtTime(Dedup(es), t) == FirstsAt(es, t)
    ensures AtTime(Dedup(es + [e]), t) == FirstsAt(es + [e], t)
  {
    hide AtTime, Dedup, Ids, WithoutIds;
    var all := es + [e];
    assert all[|es|] == e;
    var kept, at := Dedup(es), AtTime(es, t);
    DedupAppend(es, e);
    AtTimeAppend(es, e, t);
    AtTimeAppend(kept, e, t);
    assert kept + [] == kept && at + [] == at && AtTime(kept, t) + [] == AtTime(kept, t);
    if e.timestamp == t {
      assert forall i :: 0 <= i < |es| ==> es[i].timestamp <= t by {
        assert forall i :: 0 <= i < |es| ==> all[i] == es[i];
      }
      IdsUpTo(es, t);
      DedupAppend(at, e);
      WithoutIdsAppend(Dedup(at), e, IdsBefore(es, t));
      assert IdsBefore(all, t) == IdsBefore(es, t);
      assert Dedup(at) + [] == Dedup(at) && FirstsAt(es, t) + [] == FirstsAt(es, t);
    } else if e.timestamp > t {
      assert IdsBefore(all, t) == IdsBefore(es, t);
    } else {
      assert forall i :: 0 <= i < |es| ==> all[i] == es[i];
      AtTimeOfLater(es, t);
      AtTimeOfLater(all, t);
      NothingAt(all, t);
      NothingAt(es, t);
    }
  }

  lemma {:induction false} NothingAt(es: seq<Event>, t: int)
    requires AtTime(es, t) == []
    ensures FirstsAt(es, t) == []
  {
  }

  /** What is processed at one instant, read off the delivered list. */
  lemma {:induction false} CanonicalAt(es: seq<Event>, t: int)
    ensures AtTime(Canonical(es), t) == FirstsAt(es, t)
  {
    hide AtTime, Dedup, WithoutIds;
    var sorted := SortByTime(es);
    SortIsStable(es);
    DedupOfSortedAt(sorted, t);
    SortKeepsMembers(es);
    assert IdsBefore(sorted, t) == IdsBefore(es, t);
    assert AtTime(sorted, t) == AtTime(es, t);
  }

  ghost predicate SameFirsts(xs: seq<Event>, ys: seq<Event>) {
    forall t :: FirstsAt(xs, t) == FirstsAt(ys, t)
  }

  /** Two deliveries are processed alike exactly when at every instant the same events come first. */
  lemma ProcessingOrder(xs: seq<Event>, ys: seq<Event>)
    ensures Canonical(xs) == Canonical(ys) <==> SameFirsts(xs, ys)
  {
    hide AtTime, Canonical, FirstsAt;
    forall t
      ensures AtTime(Canonical(xs), t) == FirstsAt(xs, t) && AtTime(Canonical(ys), t) == FirstsAt(ys, t)
    {
      CanonicalAt(xs, t);
      CanonicalAt(ys, t);
    }
    if SameFirsts(xs, ys) {
      CanonicalIsOrdered(xs);
      CanonicalIsOrdered(ys);
      assert SameInstants(Canonical(xs), Canonical(ys));
      SortedListIsDetermined(Canonical(xs), Canonical(ys));
    }
  }

  /** Repetitions of an id carry its timestamp. */
  predicate OneTimePerId(es: seq<Event>) {
    forall e, f :: e in es && f in es && e.id == f.id ==> e.timestamp == f.timestamp
  }

  lemma {:induction false} FirstOccurrencesAt(es: seq<Event>, t: int)
    requires OneTimePerId(es)
    ensures AtTime(Dedup(es), t) == Dedup(AtTime(es, t))
  {
    if es != [] {
      var init, e := es[..|es| - 1], es[|es| - 1];
      assert es == init + [e];
      assert forall f :: f in init ==> f in es;
      FirstOccurrencesAt(init, t);
      LastOccurrenceAt(init, e, t);
    }
  }

  lemma {:induction false} LastOccurrenceAt(es: seq<Event>, e: Event, t: int)
    requires OneTimePerId(es + [e])
    requires AtTime(Dedup(es), t) == Dedup(AtTime(es, t))
    ensures AtTime(Dedup(es + [e]), t) == Dedup(AtTime(es + [e], t))
  {
    hide AtTime, Dedup, Ids, OneTimePerId;
    var kept, at := Dedup(es), AtTime(es, t);
    DedupAppend(es, e);
    AtTimeAppend(es, e, t);
    AtTimeAppend(kept, e, t);
    DedupAppend(at, e);
    assert kept + [] == kept && at + [] == at && AtTime(kept, t) + [] == AtTime(kept, t);
    if e.timestamp == t {
      SameIdsAt(es, e, t);
    }
  }

  lemma {:induction false} SameIdsAt(es: seq<Event>, e: Event, t: int)
    requires OneTimePerId(es + [e]) && e.timestamp == t
    ensures e.id in Ids(es) <==> e.id in Ids(AtTime(es, t))
  {
    AtTimeMembers(es, t);
    if e.id in Ids(es) {
      var f :| f in es && f.id == e.id;
      assert f in es + [e] && e in es + [e];
      assert f in AtTime(es, t);
    }
  }

  lemma {:induction false} NothingLeftOut(es: seq<Event>, ids: set<string>)
    requires forall e :: e in es ==> e.id !in ids
    ensures WithoutIds(es, ids) == es
  {
    if es == [] {
      assert WithoutIds([], ids) == [];
    } else {
      hide WithoutIds;
      var init, e := es[..|es| - 1], es[|es| - 1];
      assert es == init + [e];
      assert e in es && forall f :: f in init ==> f in es;
      NothingLeftOut(init, ids);
      WithoutIdsAppend(init, e, ids);
    }
  }

  /** With one timestamp per id, the events processed at an instant are the first occurrences there. */
  lemma {:induction false} FirstsAreOccurrences(es: seq<Event>, t: int)
    requires OneTimePerId(es)
    ensures FirstsAt(es, t) == AtTime(Dedup(es), t)
  {
    FirstOccurrencesAt(es, t);
    AtTimeMembers(es, t);
    hide AtTime, Dedup;
    NothingLeftOut(Dedup(AtTime(es, t)), IdsBefore(es, t));
  }

  /**
   With one timestamp per id, two deliveries are processed alike exactly when at every instant their
   lists of first occurrences agree.
   */
  lemma {:induction false} ProcessingOrderByOccurrence(xs: seq<Event>, ys: seq<Event>)
    requires OneTimePerId(xs) && OneTimePerId(ys)
    ensures Canonical(xs) == Canonical(ys) <==> SameInstants(Dedup(xs), Dedup(ys))
  {
    hide AtTime, Canonical, FirstsAt, Dedup;
    ProcessingOrder(xs, ys);
    forall t
      ensures FirstsAt(xs, t) == AtTime(Dedup(xs), t) && FirstsAt(ys, t) == AtTime(Dedup(ys), t)
    {
      FirstsAreOccurrences(xs, t);
      FirstsAreOccurrences(ys, t);
    }
  }

  // ---------------------------------------------------------------------------------------------
  // Delivery order does not matter
  // ---------------------------------------------------------------------------------------------

  /** The same events, in any order and any number of times. */
  ghost predicate SameEvents(xs: seq<Event>, ys: seq<Event>) {
    forall e :: e in xs <==> e in ys
  }

  /** Distinct events have distinct ids and distinct timestamps. */
  predicate Distinguishable(es: seq<Event>) {
    forall e, f :: e in es && f in es && e != f ==> e.id != f.id && e.timestamp != f.timestamp
  }

  lemma {:induction false} DedupOfRepeated(es: seq<Event>, e: Event)
    requires es != [] && forall f :: f in es ==> f == e
    ensures Dedup(es) == [e]
  {
    hide Dedup, Ids;
    var init := es[..|es| - 1];
    assert es == init + [e] by { assert es[|es| - 1] in es; }
    DedupAppend(init, e);
    if init == [] {
      NothingSeen();
    } else {
      assert init[0] in init && forall f :: f in init ==> f in es;
      DedupOfRepeated(init, e);
      MemberId(init, e);
      assert [e] + [] == [e];
    }
  }

  lemma MemberId(es: seq<Event>, e: Event)
    requires e in es
    ensures e.id in Ids(es)
  {
  }

  lemma EmptyOrMember(es: seq<Event>)
    ensures es == [] || exists e :: e in es
  {
    if es != [] {
      assert es[0] in es;
    }
  }

  /** At most one event is processed at any instant, whatever the delivery. */
  lemma OneFirstAt(es: seq<Event>, t: int)
    requires Distinguishable(es)
    ensures forall e :: e in es && e.timestamp == t ==> FirstsAt(es, t) == [e]
    ensures (forall e :: e in es ==> e.timestamp != t) ==> FirstsAt(es, t) == []
  {
    AtTimeMembers(es, t);
    forall e | e in es && e.timestamp == t
      ensures FirstsAt(es, t) == [e]
    {
      hide AtTime, Dedup, WithoutIds;
      assert e in AtTime(es, t);
      DedupOfRepeated(AtTime(es, t), e);
      NothingLeftOut([e], IdsBefore(es, t));
    }
    if forall e :: e in es ==> e.timestamp != t {
      EmptyOrMember(AtTime(es, t));
    }
  }

  /** Delivery order and repetition do not change the processing order. */
  lemma CanonicalIgnoresDelivery(xs: seq<Event>, ys: seq<Event>)
    requires SameEvents(xs, ys)
    requires Distinguishable(xs)
    ensures Canonical(xs) == Canonical(ys)
  {
    hide Canonical, FirstsAt;
    forall t
      ensures FirstsAt(xs, t) == FirstsAt(ys, t)
    {
      OneFirstAt(xs, t);
      OneFirstAt(ys, t);
      if e :| e in xs && e.timestamp == t {
        assert e in ys;
      }
    }
    ProcessingOrder(xs, ys);
  }

  lemma {:induction false} SortOfSorted(es: seq<Event>)
    requires SortedByTime(es)
    ensures SortByTime(es) == es
  {
    if es == [] {
      assert SortByTime([]) == [];
    } else {
      hide Insert, SortByTime;
      var init, e := es[..|es| - 1], es[|es| - 1];
      assert es == init + [e];
      SortOfSorted(init);
      SortAppend(init, e);
      InsertLast(init, e);
    }
  }

  lemma {:induction false} InsertLast(es: seq<Event>, e: Event)
    requires SortedByTime(es + [e])
    ensures Insert(es, e) == es + [e]
  {
    assert (es + [e])[|es|] == e && forall i :: 0 <= i < |es| ==> (es + [e])[i] == es[i];
  }

  lemma {:induction false} DedupOfDistinct(es: seq<Event>)
    requires DistinctIds(es)
    ensures Dedup(es) == es
  {
    if es == [] {
      NothingSeen();
    } else {
      hide Dedup, Ids;
      var init, e := es[..|es| - 1], es[|es| - 1];
      assert es == init + [e];
      DedupOfDistinct(init);
      DedupAppend(init, e);
      NewId(init, e);
    }
  }

  lemma NewId(es: seq<Event>, e: Event)
    requires DistinctIds(es + [e])
    ensures e.id !in Ids(es)
  {
    assert (es + [e])[|es|] == e && forall i :: 0 <= i < |es| ==> (es + [e])[i] == es[i];
  }

  /** A list in time order without repetitions is processed as it is. */
  lemma CanonicalOfOrdered(es: seq<Event>)
    requires SortedByTime(es) && DistinctIds(es)
    ensures Canonical(es) == es
  {
    SortOfSorted(es);
    DedupOfDistinct(es);
  }

  // ---------------------------------------------------------------------------------------------
  // Later events are processed later
  // ---------------------------------------------------------------------------------------------

  predicate NotBefore(xs: seq<Event>, ys: seq<Event>) {
    forall x, y :: x in xs && y in ys ==> x.timestamp <= y.timestamp
  }

  lemma {:induction false} InsertLater(a: seq<Event>, b: seq<Event>, e: Event)
    requires forall i :: 0 <= i < |a| ==> a[i].timestamp <= e.timestamp
    ensures Insert(a + b, e) == a + Insert(b, e)
  {
    if b == [] {
      assert a + b == a;
      assert Insert(b, e) == [e];
    } else if b[|b| - 1].timestamp > e.timestamp {
      assert (a + b)[..|a + b| - 1] == a + b[..|b| - 1];
      InsertLater(a, b[..|b| - 1], e);
    } else {
      assert a + b + [e] == a + (b + [e]);
    }
  }

  lemma {:induction false} SortAppend(es: seq<Event>, e: Event)
    ensures SortByTime(es + [e]) == Insert(SortByTime(es), e)
  {
    assert (es + [e])[..|es + [e]| - 1] == es;
  }

  lemma {:induction false} SortedNotBefore(xs: seq<Event>, ys: seq<Event>, y: Event)
    requires NotBefore(xs, ys + [y])
    ensures NotBefore(xs, ys)
    ensures forall i :: 0 <= i < |SortByTime(xs)| ==> SortByTime(xs)[i].timestamp <= y.timestamp
  {
    hide SortByTime;
    assert y in ys + [y] && forall e :: e in ys ==> e in ys + [y];
    SortKeepsMembers(xs);
    assert forall i :: 0 <= i < |SortByTime(xs)| ==> SortByTime(xs)[i] in SortByTime(xs);
  }

  lemma {:induction false} SortLater(xs: seq<Event>, ys: seq<Event>)
    requires NotBefore(xs, ys)
    ensures SortByTime(xs + ys) == SortByTime(xs) + SortByTime(ys)
  {
    if ys == [] {
      assert xs + ys == xs;
      assert SortByTime(xs) + [] == SortByTime(xs);
    } else {
      var init, y := ys[..|ys| - 1], ys[|ys| - 1];
      assert ys == init + [y];
      SortedNotBefore(xs, init, y);
      SortLater(xs, init);
      SortOneLater(xs, init, y);
    }
  }

  lemma {:induction false} SortOneLater(xs: seq<Event>, ys: seq<Event>, y: Event)
    requires SortByTime(xs + ys) == SortByTime(xs) + SortByTime(ys)
    requires forall i :: 0 <= i < |SortByTime(xs)| ==> SortByTime(xs)[i].timestamp <= y.timestamp
    ensures SortByTime(xs + (ys + [y])) == SortByTime(xs) + SortByTime(ys + [y])
  {
    hide SortByTime, Insert;
    assert xs + (ys + [y]) == xs + ys + [y];
    SortAppend(xs + ys, y);
    SortAppend(ys, y);
    InsertLater(SortByTime(xs), SortByTime(ys), y);
  }

  lemma {:induction false} DedupLater(xs: seq<Event>, ys: seq<Event>)
    requires Ids(xs) !! Ids(ys)
    ensures Dedup(xs + ys) == Dedup(xs) + Dedup(ys)
  {
    if ys == [] {
      assert xs + ys == xs;
    } else {
      var init, y := ys[..|ys| - 1], ys[|ys| - 1];
      assert (xs + ys)[..|xs + ys| - 1] == xs + init;
      assert Ids(init) <= Ids(ys) && y.id in Ids(ys) by {
        assert ys == init + [y];
      }
      assert Ids(xs + init) == Ids(xs) + Ids(init);
      DedupLater(xs, init);
    }
  }

  /** Events with fresh ids that are not earlier than any other are processed after all others. */
  lemma CanonicalLater(xs: seq<Event>, ys: seq<Event>)
    requires NotBefore(xs, ys)
    requires Ids(xs) !! Ids(ys)
    ensures Canonical(xs + ys) == Canonical(xs) + Canonical(ys)
  {
    SortLater(xs, ys);
    SortKeepsMembers(xs);
    SortKeepsMembers(ys);
    assert Ids(SortByTime(xs)) == Ids(xs) && Ids(SortByTime(ys)) == Ids(ys);
    DedupLater(SortByTime(xs), SortByTime(ys));
  }
}
