/**
 Start times, completion times and durations of turns and steps.
 */
module TurnTime {
  import opened Options
  import opened TurnModel
  import opened TurnShape
  import opened TurnStructure
  import opened TurnSteps
  import opened TurnOrder
  import opened TurnFate

  /** The times of one turn are consistent. */
  predicate SoundTurn(t: TurnRecord) {
    && (t.completedAt.Some? ==> t.startedAt <= t.completedAt.value)
    && (t.durationMs.Some? ==> t.completedAt.Some? && t.durationMs.value == t.completedAt.value - t.startedAt)
    && (forall k :: 0 <= k < |t.steps| ==> t.startedAt <= t.steps[k].startedAt)
    && (IsClosed(t) ==> forall k :: 0 <= k < |t.steps| ==> t.steps[k].startedAt <= t.completedAt.value)
  }

  predicate StartsInOrder(turns: seq<TurnRecord>) {
    forall i, j :: 0 <= i < j < |turns| ==> turns[i].startedAt <= turns[j].startedAt
  }

  predicate SoundTimes(turns: seq<TurnRecord>) {
    StartsInOrder(turns) && forall i :: 0 <= i < |turns| ==> SoundTurn(turns[i])
  }

  predicate StepsInOrder(t: TurnRecord) {
    forall i, j :: 0 <= i < j < |t.steps| ==> t.steps[i].startedAt <= t.steps[j].startedAt
  }

  /** Nothing in the turn is later than `bound`, and its steps are in order. */
  predicate NotLater(t: TurnRecord, bound: int) {
    && t.startedAt <= bound
    && (t.completedAt.Some? ==> t.completedAt.value <= bound)
    && (forall k :: 0 <= k < |t.steps| ==> t.steps[k].startedAt <= bound)
    && StepsInOrder(t)
  }

  predicate TimeInv(turns: seq<TurnRecord>, bound: int) {
    SoundTimes(turns) && forall i :: 0 <= i < |turns| ==> NotLater(turns[i], bound)
  }

  lemma TouchKeepsTime(t: TurnRecord, e: Event)
    requires IsCurrent(t) && SoundTurn(t) && NotLater(t, e.timestamp)
    ensures SoundTurn(Touch(t, e)) && NotLater(Touch(t, e), e.timestamp)
    ensures Touch(t, e).startedAt == t.startedAt
  {
    hide Touch, IsClosed;
    TouchKeepsStepStarts(t, e);
    TouchTimes(t, e);
  }

  /** A touched turn keeps its times or is completed now, and it is completed now when it closes. */
  lemma TouchTimes(t: TurnRecord, e: Event)
    requires IsCurrent(t)
    ensures var r := Touch(t, e);
            && r.startedAt == t.startedAt
            && (|| (r.completedAt == t.completedAt && r.durationMs == t.durationMs)
                || (r.completedAt == Some(e.timestamp) && r.durationMs == Some(e.timestamp - t.startedAt)))
            && (IsClosed(r) ==>
                  || r.completedAt == Some(e.timestamp)
                  || (IsClosed(t) && r.completedAt == t.completedAt && |r.steps| == |t.steps|))
            && (IsClosed(t) ==> t.completedAt.Some?)
            && (IsClosed(r) ==> r.completedAt.Some?)
  {
  }

  lemma TouchKeepsStepStarts(t: TurnRecord, e: Event)
    ensures |t.steps| <= |Touch(t, e).steps| <= |t.steps| + 1
    ensures forall k :: 0 <= k < |t.steps| ==> Touch(t, e).steps[k].startedAt == t.steps[k].startedAt
    ensures |t.steps| < |Touch(t, e).steps| ==> Touch(t, e).steps[|t.steps|].startedAt == e.timestamp
    ensures |t.steps| < |Touch(t, e).steps| <==> e.kind.PreToolUse?
  {
  }

  lemma AdvanceKeepsTime(c: Context, e: Event, bound: int)
    requires Inv(c) && TimeInv(c.turns, bound) && bound <= e.timestamp
    ensures TimeInv(Advance(c, e).turns, e.timestamp)
  {
    hide Advance, Touch, NewTurns, SoundTurn, IsCurrent, IsClosed, Numbered;
    AdvanceShape(c, e);
    if c.current.Some? {
      TouchKeepsTime(c.turns[|c.turns| - 1], e);
    }
    NewTurnsAreSound(c.current.Some?, |c.turns|, e);
  }

  lemma NewTurnsAreSound(isOpen: bool, n: nat, e: Event)
    ensures var created := NewTurns(isOpen, n, e);
            forall i :: 0 <= i < |created| ==>
              && SoundTurn(created[i])
              && NotLater(created[i], e.timestamp)
              && created[i].startedAt == e.timestamp
  {
  }

  lemma {:induction false} RunKeepsTime(es: seq<Event>)
    requires SortedByTime(es) && es != []
    ensures TimeInv(Run(es).turns, es[|es| - 1].timestamp)
  {
    hide Advance;
    var init, e := es[..|es| - 1], es[|es| - 1];
    RunKeepsInv(init);
    if init == [] {
      AdvanceKeepsTime(Run(init), e, e.timestamp);
    } else {
      RunKeepsTime(init);
      AdvanceKeepsTime(Run(init), e, init[|init| - 1].timestamp);
    }
  }

  /** The stale pass acts on a tool call whose last result reports a negative duration. */
  predicate RewindsTime(es: seq<Event>, now: int) {
    exists k :: 0 <= k < |es| && Unfinished(es, k) && IsToolCall(es[k]) && ReportedDuration(es, k) < 0 &&
      now - Activity(es, k, now) > 120000
  }

  /**
   All times in the result are sound, including those of a turn interrupted by the stale pass,
   exactly when the stale pass does not act on a negative reported duration.
   */
  lemma {:induction false} TimesAreSound(es: seq<Event>, now: int)
    requires SortedByTime(es)
    ensures SoundTimes(CloseStale(Run(es), now).turns) <==> !RewindsTime(es, now)
  {
    hide Advance, Run, Activity, ReportedDuration, SoundTurn, NotLater;
    var c := Run(es);
    RunKeepsInv(es);
    if es != [] {
      RunKeepsTime(es);
    } else {
      assert c == EMPTY_CONTEXT by { EmptyRun(); }
    }
    StaleIffIdle(es, now);
    RewindsIffStepDoes(es, now);
    if c.HasAssistant() && IsStale(c.Turn(), now) {
      assert CloseStale(c, now).turns[c.current.value] ==
             FinalizeTurn(c.Turn().(status := Interrupted), LastActivityTime(c.Turn(), now));
      StaleTurnIsSound(c.Turn(), now, es[|es| - 1].timestamp);
    }
  }

  predicate LastStepRewinds(t: TurnRecord) {
    |t.steps| > 0 && t.steps[|t.steps| - 1].durationMs.Some? && t.steps[|t.steps| - 1].durationMs.value < 0
  }

  /** The events tell whether the stale turn's last step has a negative duration. */
  lemma {:induction false} RewindsIffStepDoes(es: seq<Event>, now: int)
    ensures RewindsTime(es, now) <==> GoesStale(es, now) && Run(es).HasTurn() && LastStepRewinds(Run(es).Turn())
  {
    hide Run, Activity, LastOpening, ReportedDuration;
    if GoesStale(es, now) {
      var k :| 0 <= k < |es| && Unfinished(es, k) && now - Activity(es, k, now) > 120000;
      LastOpeningIsUnique(es, k);
      if IsToolCall(es[k]) {
        CalledRewinds(es, k);
      } else {
        PromptedTurn(es, k);
      }
      if RewindsTime(es, now) {
        var j :| 0 <= j < |es| && Unfinished(es, j) && IsToolCall(es[j]) && ReportedDuration(es, j) < 0;
        LastOpeningIsUnique(es, j);
      }
    }
  }

  lemma {:induction false} CalledRewinds(es: seq<Event>, k: nat)
    requires k < |es| && IsToolCall(es[k]) && LastOpening(es) == Some(k)
    ensures Run(es).HasTurn() && (LastStepRewinds(Run(es).Turn()) <==> ReportedDuration(es, k) < 0)
  {
    hide Run, LastOpening, LastResult, TruncateText, IsPlaced;
    CalledTurn(es, k);
    StepHasFate(es, k);
  }

  lemma StaleTurnIsSound(t: TurnRecord, now: int, bound: int)
    requires SoundTurn(t) && NotLater(t, bound)
    requires IsStale(t, now) && IsCurrent(t)
    ensures SoundTurn(FinalizeTurn(t.(status := Interrupted), LastActivityTime(t, now))) <==>
            !LastStepRewinds(t)
  {
    var r := FinalizeTurn(t.(status := Interrupted), LastActivityTime(t, now));
    assert IsClosed(r);
    assert forall k :: 0 <= k < |t.steps| ==> r.steps[k].startedAt == t.steps[k].startedAt;
    if |t.steps| > 0 {
      assert r.steps[|t.steps| - 1].startedAt == t.steps[|t.steps| - 1].startedAt;
    }
  }
}
