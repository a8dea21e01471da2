/**
 What further events can do to a projection that has been built already.
 */
module TurnHistory {
  import opened Options
  import opened TurnModel
  import opened TurnShape
  import opened TurnStructure
  import opened TurnMapping
  import opened TurnSteps
  import opened TurnOrder

  /** A later state of the same turn: fixed fields kept, steps only appended and never un-resolved. */
  predicate TurnExtends(before: TurnRecord, after: TurnRecord) {
    SameIdentity(before, after) && StepsExtend(before.steps, after.steps)
  }

  /** A later state of the run: only the turn that was current may have changed. */
  predicate RunExtended(c: Context, d: Context) {
    && |c.turns| <= |d.turns|
    && (forall i :: 0 <= i < |c.turns| ==>
          if c.current == Some(i) then TurnExtends(c.turns[i], d.turns[i]) else d.turns[i] == c.turns[i])
    && (forall id :: id in c.eventTurnMap ==> id in d.eventTurnMap && d.eventTurnMap[id] == c.eventTurnMap[id])
  }

  lemma {:induction false} StepExtends(es: seq<Event>, e: Event)
    requires DistinctIds(es + [e])
    ensures RunExtended(Run(es), Run(es + [e]))
    ensures Run(es + [e]).current.Some? ==> Run(es + [e]).current.value >= |Run(es).turns| - 1
    ensures Run(es + [e]).current.Some? && Run(es + [e]).current.value < |Run(es).turns| ==>
              Run(es + [e]).current == Run(es).current
  {
    hide Advance, OpenAfter, TurnCount, Touch, OwnerIndex, IsMapped;
    RunAppend(es, e);
    RunKeepsInv(es);
    RunKeepsInv(es + [e]);
    AdvanceShape(Run(es), e);
    OpensNewTurn(Run(es).current.Some?, |Run(es).turns|, e);
    if Run(es).current.Some? {
      TouchExtendsSteps(Run(es).Turn(), e);
      TouchKeepsIdentity(Run(es).Turn(), e);
    }
    RunMap(es, e);
    MapHasOnlyEventIds(es);
    assert forall k :: 0 <= k < |es| ==> es[k].id == (es + [e])[k].id != e.id;
  }

  /** A turn that becomes current although none was is a new one. */
  lemma OpensNewTurn(isOpen: bool, n: nat, e: Event)
    ensures StaysOpen(isOpen, e) && !isOpen ==> |NewTurns(isOpen, n, e)| > 0
  {
  }

  lemma ExtensionComposes(c: Context, d: Context, f: Context)
    requires RunExtended(c, d) && RunExtended(d, f)
    requires Inv(c) && Inv(d)
    requires d.current.Some? && d.current.value < |c.turns| ==> d.current == c.current
    ensures RunExtended(c, f)
  {
  }

  lemma {:induction false} RunKeepsHistory(es: seq<Event>, more: seq<Event>)
    requires DistinctIds(es + more)
    ensures RunExtended(Run(es), Run(es + more))
    ensures Run(es + more).current.Some? && Run(es + more).current.value < |Run(es).turns| ==>
              Run(es + more).current == Run(es).current
  {
    if more == [] {
      assert es + more == es;
      NothingExtends(Run(es));
    } else {
      hide Run, RunExtended;
      var init, e := more[..|more| - 1], more[|more| - 1];
      assert es + more == (es + init) + [e];
      assert forall j :: 0 <= j < |es + init| ==> (es + init)[j] == (es + more)[j];
      RunKeepsHistory(es, init);
      StepExtends(es + init, e);
      RunKeepsInv(es);
      RunKeepsInv(es + init);
      RunGrows(Run(es), Run(es + init));
      ExtensionComposes(Run(es), Run(es + init), Run(es + more));
    }
  }

  lemma NothingExtends(c: Context)
    ensures RunExtended(c, c)
  {
  }

  lemma RunGrows(c: Context, d: Context)
    requires RunExtended(c, d)
    ensures |c.turns| <= |d.turns|
  {
  }
}
