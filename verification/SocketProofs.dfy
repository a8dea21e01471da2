/**
 Safety of the reconnecting socket over whole runs.
 */
module SocketProofs {
  import opened Options
  import opened SocketModel

  // ---------------------------------------------------------------------------------------------
  // Exactly one way forward
  // ---------------------------------------------------------------------------------------------

  /**
   While not intentionally closed, either one socket is attached and no timer is pending, or no
   socket is attached and one timer is pending; after an intentional close there is neither.
   */
  ghost predicate OneWayForward(p: Provider) {
    if p.closedIntentionally then p.Attached() == {} && p.timers.Keys == {}
    else
      || (p.timers.Keys == {} && exists s :: p.Attached() == {s})
      || (p.Attached() == {} && exists t :: p.timers.Keys == {t})
  }

  /** The refs agree with the sockets and timers that exist. */
  ghost predicate Inv(p: Provider) {
    && p.Attached() == (if p.ws.Some? then {p.ws.value} else {})
    && p.timers.Keys == (if p.closedIntentionally || p.ws.Some? then {}
                         else if p.timerRef.Some? then {p.timerRef.value} else {})
    && (!p.closedIntentionally && p.ws.None? ==> p.timerRef.Some?)
    && (p.closedIntentionally ==> p.ws.None?)
    && (p.ws.Some? ==> p.ws.value < |p.sockets| && p.connectedToken == Some(p.sockets[p.ws.value].token))
    && (p.status == Disconnected <==> p.ws.None?)
    && (p.status == Connected ==> p.sockets[p.ws.value].phase != Opening)
  }

  lemma AttachedMeansReachable(p: Provider)
    ensures forall i :: 0 <= i < |p.sockets| ==>
              (i in p.Attached() <==> p.sockets[i].handled && p.sockets[i].phase != Closed)
  {
  }

  lemma TimersOfInv(p: Provider)
    requires Inv(p)
    ensures p.ws.Some? || p.closedIntentionally ==> p.timers == map[]
    ensures p.ws.None? && !p.closedIntentionally ==> p.timerRef.Some? && p.timers.Keys == {p.timerRef.value}
  {
  }

  /** Nothing is attached or pending: the state in which `connect` may be called. */
  predicate IsIdle(p: Provider) {
    p.Attached() == {} && p.timers == map[]
  }

  lemma ConnectFromIdle(p: Provider)
    requires IsIdle(p) && p.ws.None?
    ensures Inv(Connect(p)) && !Connect(p).closedIntentionally
  {
    var q := Connect(p);
    if IsToken(p.storage) {
      assert forall i :: 0 <= i < |p.sockets| ==> q.sockets[i] == p.sockets[i];
      assert forall i :: i in q.Attached() <==> i in p.Attached() || i == |p.sockets|;
    } else {
      assert q.timers.Keys == {p.nextTimer};
      assert q.Attached() == p.Attached();
    }
  }

  lemma TeardownIsIdle(p: Provider)
    requires Inv(p)
    ensures IsIdle(Teardown(p)) && Teardown(p).ws.None?
  {
    TeardownDetaches(p);
  }

  lemma TeardownDetaches(p: Provider)
    requires p.ws.Some? ==> p.ws.value < |p.sockets|
    ensures Teardown(p).Attached() == p.Attached() - (if p.ws.Some? then {p.ws.value} else {})
  {
    var q := Teardown(p);
    assert forall i :: 0 <= i < |p.sockets| && Some(i) != p.ws ==> q.sockets[i] == p.sockets[i];
  }

  /** Changing the phase of one socket, without closing it, keeps the attached sockets. */
  lemma PhaseKeepsAttached(p: Provider, s: nat, phase: Phase)
    requires s < |p.sockets| && p.sockets[s].phase != Closed
    ensures var q := WithPhase(p, s, phase);
            q.Attached() == if phase == Closed then p.Attached() - {s} else p.Attached()
  {
    var q := WithPhase(p, s, phase);
    assert forall i :: 0 <= i < |p.sockets| && i != s ==> q.sockets[i] == p.sockets[i];
    assert forall i :: i in q.Attached() <==> i in p.Attached() && (phase == Closed ==> i != s);
  }

  lemma CloseKeepsInv(p: Provider, s: nat)
    requires Inv(p) && Enabled(p, SocketClosed(s))
    ensures Inv(Next(p, SocketClosed(s)))
  {
    var q := WithPhase(p, s, Closed);
    PhaseKeepsAttached(p, s, Closed);
    if q.sockets[s].handled {
      assert s in p.Attached();
      var r := OnClose(q);
      assert r.Attached() == q.Attached();
    }
  }

  lemma TokenKeepsInv(p: Provider, token: Option<string>)
    requires Inv(p)
    ensures Inv(OnAccessTokenChange(p, token))
  {
    if token.None? {
      var q := p.(closedIntentionally := true, connectedToken := None);
      TeardownLogsOut(p);
    } else if token != p.connectedToken {
      var q := p.(backoff := p.interval);
      assert q.Attached() == p.Attached();
      TeardownIsIdle(q);
      ConnectFromIdle(Teardown(q));
    }
  }

  lemma TeardownLogsOut(p: Provider)
    requires Inv(p)
    ensures var q := OnAccessTokenChange(p, None);
            Inv(q) && q.closedIntentionally && q.sockets == Teardown(p).sockets
  {
    TeardownIsIdle(p);
    var q := OnAccessTokenChange(p, None);
    assert q.Attached() == Teardown(p).Attached();
  }

  lemma StepKeepsInv(p: Provider, e: Event)
    requires Inv(p) && !e.Unmounted?
    ensures Inv(Step(p, e))
  {
    if Enabled(p, e) {
      match e
      case TimerFired(t) =>
        var q := p.(timers := p.timers - {t});
        assert q.Attached() == p.Attached();
        ConnectFromIdle(q);
      case SocketOpened(s) =>
        PhaseKeepsAttached(p, s, Open);
        assert Next(p, e).Attached() == WithPhase(p, s, Open).Attached();
        assert p.sockets[s].handled ==> s in p.Attached();
      case SocketErrored(s) => PhaseKeepsAttached(p, s, Closing);
      case SocketClosed(s) => CloseKeepsInv(p, s);
      case TokenNotified(token) => TokenKeepsInv(p, token);
      case SocketMessage(_) => assert Next(p, e).Attached() == p.Attached();
      case StorageWritten(_) => assert Next(p, e).Attached() == p.Attached();
      case Unmounted =>
    }
  }

  predicate WithinMount(events: seq<Event>) {
    forall i :: 0 <= i < |events| ==> !events[i].Unmounted?
  }

  /** From the first `connect` on, every run within one mount has exactly one way forward. */
  lemma {:induction false} RunsHaveOneWayForward(storage: Option<string>, interval: int, events: seq<Event>)
    requires WithinMount(events)
    ensures Inv(After(Mounted(storage, interval), events))
    ensures OneWayForward(After(Mounted(storage, interval), events))
  {
    if events == [] {
      ConnectFromIdle(Provider(true, Connecting, None, None, interval, interval, false, None, storage,
                               [], map[], 0, 0));
    } else {
      RunsHaveOneWayForward(storage, interval, events[..|events| - 1]);
      StepKeepsInv(After(Mounted(storage, interval), events[..|events| - 1]), events[|events| - 1]);
    }
  }

  /** Unmounting leaves no timer pending and stops all further events. */
  lemma UnmountStops(p: Provider, e: Event)
    requires Inv(p) && p.mounted
    ensures var q := Step(p, Unmounted);
            q.timers == map[] && q.closedIntentionally && Step(q, e) == q
            && forall i :: i in q.Attached() ==> q.sockets[i].phase == Closing
  {
    var q := Step(p, Unmounted);
    forall i | i in q.Attached()
      ensures q.sockets[i].phase == Closing
    {
      assert i in p.Attached();
    }
  }

  // ---------------------------------------------------------------------------------------------
  // Only null notifications close intentionally
  // ---------------------------------------------------------------------------------------------

  /** The provider is closed intentionally exactly while the latest token-driven change is a logout. */
  predicate LoggedOut(events: seq<Event>) {
    exists i :: 0 <= i < |events| && events[i] == TokenNotified(None) &&
      forall j :: i < j < |events| ==> !(events[j].TokenNotified? && events[j].token.Some?)
  }

  lemma LoggedOutAppend(events: seq<Event>, e: Event)
    ensures LoggedOut(events + [e]) <==>
            e == TokenNotified(None) || (LoggedOut(events) && !(e.TokenNotified? && e.token.Some?))
  {
    var all := events + [e];
    if e == TokenNotified(None) {
      assert all[|events|] == TokenNotified(None);
    }
    if LoggedOut(events) && !(e.TokenNotified? && e.token.Some?) {
      var i :| 0 <= i < |events| && events[i] == TokenNotified(None) &&
        forall j :: i < j < |events| ==> !(events[j].TokenNotified? && events[j].token.Some?);
      assert all[i] == TokenNotified(None);
    }
    if LoggedOut(all) {
      var i :| 0 <= i < |all| && all[i] == TokenNotified(None) &&
        forall j :: i < j < |all| ==> !(all[j].TokenNotified? && all[j].token.Some?);
      if i < |events| {
        assert events[i] == TokenNotified(None);
        assert forall j :: i < j < |events| ==> events[j] == all[j];
        assert all[|events|] == e;
      }
    }
  }

  /**
   After a null notification, and until the next token, the provider is closed intentionally: no
   socket is attached and no timer is pending.
   */
  lemma {:induction false} ClosedIffLoggedOut(storage: Option<string>, interval: int, events: seq<Event>)
    requires WithinMount(events)
    ensures After(Mounted(storage, interval), events).mounted
    ensures After(Mounted(storage, interval), events).closedIntentionally <==> LoggedOut(events)
    ensures LoggedOut(events) ==> After(Mounted(storage, interval), events).connectedToken == None
  {
    if events != [] {
      hide Step, LoggedOut;
      var init, e := events[..|events| - 1], events[|events| - 1];
      assert events == init + [e];
      ClosedIffLoggedOut(storage, interval, init);
      LoggedOutAppend(init, e);
      RunsHaveOneWayForward(storage, interval, init);
      StepClosesOnNull(After(Mounted(storage, interval), init), e);
    }
  }

  lemma StepClosesOnNull(p: Provider, e: Event)
    requires Inv(p) && p.mounted && !e.Unmounted?
    requires p.closedIntentionally ==> p.connectedToken == None
    ensures Step(p, e).mounted
    ensures Step(p, e).closedIntentionally <==>
            e == TokenNotified(None) || (p.closedIntentionally && !(e.TokenNotified? && e.token.Some?))
    ensures Step(p, e).closedIntentionally ==> Step(p, e).connectedToken == None
  {
    hide Inv, Connect, Teardown, ScheduleReconnect;
    TimersOfInv(p);
    match e
    case TimerFired(t) => ConnectOpens(p.(timers := p.timers - {t}));
    case TokenNotified(token) =>
      TeardownKeepsIntent(p.(closedIntentionally := true, connectedToken := None));
      TeardownKeepsIntent(p.(backoff := p.interval));
      ConnectOpens(Teardown(p.(backoff := p.interval)));
    case SocketClosed(s) =>
      if Enabled(p, e) {
        ScheduleKeepsIntent(WithPhase(p, s, Closed).(status := Disconnected, ws := None));
      }
    case _ =>
  }

  lemma ScheduleKeepsIntent(p: Provider)
    ensures ScheduleReconnect(p).mounted == p.mounted
    ensures ScheduleReconnect(p).closedIntentionally == p.closedIntentionally
    ensures ScheduleReconnect(p).connectedToken == p.connectedToken
  {
  }

  lemma TeardownKeepsIntent(p: Provider)
    ensures Teardown(p).mounted == p.mounted
    ensures Teardown(p).closedIntentionally == p.closedIntentionally
    ensures Teardown(p).connectedToken == p.connectedToken
  {
    hide CloseSocket;
  }

  lemma ConnectOpens(p: Provider)
    ensures Connect(p).mounted == p.mounted && !Connect(p).closedIntentionally
  {
    hide ScheduleReconnect;
    ScheduleKeepsIntent(p.(closedIntentionally := false, status := Disconnected));
  }

  /** While logged out no event but a token notification opens a socket or reaches a handler. */
  lemma {:induction false} LoggedOutIsSilent(storage: Option<string>, interval: int, events: seq<Event>, e: Event)
    requires WithinMount(events) && LoggedOut(events)
    requires !(e.TokenNotified? && e.token.Some?)
    ensures var p := After(Mounted(storage, interval), events);
            && |Step(p, e).sockets| == |p.sockets|
            && Step(p, e).messages == p.messages
  {
    var p := After(Mounted(storage, interval), events);
    RunsHaveOneWayForward(storage, interval, events);
    ClosedIffLoggedOut(storage, interval, events);
    AttachedMeansReachable(p);
  }

  // ---------------------------------------------------------------------------------------------
  // Token freshness
  // ---------------------------------------------------------------------------------------------

  /** Every attached socket carries the token. */
  predicate AllCarry(p: Provider, token: string) {
    forall i :: i in p.Attached() ==> p.sockets[i].token == token
  }

  /**
   After a token notification every attached socket carries that token exactly when it was connected
   with it already, or the token was stored before the notification, or none is stored.
   */
  lemma NotifiedTokenIsUsed(p: Provider, token: string)
    requires Inv(p) && p.mounted
    ensures AllCarry(Step(p, TokenNotified(Some(token))), token) <==>
            (p.connectedToken == Some(token) || p.storage == Some(token) || !IsToken(p.storage))
  {
    var q := Step(p, TokenNotified(Some(token)));
    StepKeepsInv(p, TokenNotified(Some(token)));
    if p.connectedToken != Some(token) {
      var t := Teardown(p.(backoff := p.interval));
      if IsToken(p.storage) {
        assert q.ws == Some(|t.sockets|) && |t.sockets| in q.Attached();
        assert q.sockets[|t.sockets|].token == p.storage.value;
      }
    }
  }

  /** The stored token is `token`, or none is stored, and every attached socket carries `token`. */
  predicate IsFresh(p: Provider, token: string) {
    AllCarry(p, token) && (IsToken(p.storage) ==> p.storage == Some(token))
  }

  lemma StepStaysFresh(p: Provider, e: Event, token: string)
    requires Inv(p) && IsFresh(p, token)
    requires !e.StorageWritten? && !e.TokenNotified? && !e.Unmounted?
    ensures IsFresh(Step(p, e), token)
  {
    var q := Step(p, e);
    StepKeepsInv(p, e);
    forall i | i in q.Attached()
      ensures q.sockets[i].token == token
    {
      AttachedMeansReachable(p);
      assert i < |p.sockets| ==> q.sockets[i].token == p.sockets[i].token;
    }
  }

  /**
   A notified token that was stored first is carried by every attached socket, after the
   notification and until the stored token changes, however often the socket reconnects.
   */
  lemma {:induction false} TokenStaysFresh(p: Provider, token: string, later: seq<Event>)
    requires Inv(p) && p.mounted && p.storage == Some(token)
    requires forall i :: 0 <= i < |later| ==>
               !later[i].StorageWritten? && !later[i].TokenNotified? && !later[i].Unmounted?
    ensures Inv(After(Step(p, TokenNotified(Some(token))), later))
    ensures IsFresh(After(Step(p, TokenNotified(Some(token))), later), token)
  {
    if later == [] {
      StepKeepsInv(p, TokenNotified(Some(token)));
      NotifiedTokenIsUsed(p, token);
    } else {
      TokenStaysFresh(p, token, later[..|later| - 1]);
      var q := After(Step(p, TokenNotified(Some(token))), later[..|later| - 1]);
      StepKeepsInv(q, later[|later| - 1]);
      StepStaysFresh(q, later[|later| - 1], token);
    }
  }

  // ---------------------------------------------------------------------------------------------
  // Token freshness over whole runs
  // ---------------------------------------------------------------------------------------------

  predicate Notifies(e: Event) {
    e.TokenNotified? && e.token.Some?
  }

  /** The event notifies the token, or stores it. */
  predicate Brings(e: Event, token: string) {
    e == TokenNotified(Some(token)) || e == StorageWritten(Some(token))
  }

  /** The token is the last one notified or was stored since; before any notification, it was stored at all. */
  predicate Recent(storage: Option<string>, events: seq<Event>, token: string) {
    || (exists i :: 0 <= i < |events| && Brings(events[i], token) &&
          forall j :: i < j < |events| ==> !Notifies(events[j]))
    || (storage == Some(token) && forall j :: 0 <= j < |events| ==> !Notifies(events[j]))
  }

  lemma RecentAppend(storage: Option<string>, events: seq<Event>, e: Event, token: string)
    requires Brings(e, token) || (Recent(storage, events, token) && !Notifies(e))
    ensures Recent(storage, events + [e], token)
  {
    var all := events + [e];
    if Brings(e, token) {
      assert Brings(all[|events|], token);
    } else if storage != Some(token) || exists j :: 0 <= j < |events| && Notifies(events[j]) {
      var i :| 0 <= i < |events| && Brings(events[i], token) && forall j :: i < j < |events| ==> !Notifies(events[j]);
      assert Brings(all[i], token);
    }
  }

  /** The stored token after a run. */
  function Stored(storage: Option<string>, events: seq<Event>): Option<string> {
    if events == [] then storage
    else if events[|events| - 1].StorageWritten? then events[|events| - 1].stored
    else Stored(storage, events[..|events| - 1])
  }

  /** Every token is stored before it is notified. */
  predicate StoredFirst(storage: Option<string>, events: seq<Event>) {
    forall i :: 0 <= i < |events| && Notifies(events[i]) ==> Stored(storage, events[..i]) == events[i].token
  }

  /** An attached socket was attached before, and carries the notified token if there is one, or it is new. */
  lemma StepTokens(p: Provider, e: Event)
    requires Inv(p) && p.mounted && !e.Unmounted?
    ensures var q := Step(p, e);
            && q.storage == (if e.StorageWritten? then e.stored else p.storage)
            && forall i :: i in q.Attached() ==>
                 || (i in p.Attached() && q.sockets[i].token == p.sockets[i].token
                     && (Notifies(e) ==> Some(p.sockets[i].token) == e.token))
                 || (IsToken(p.storage) && q.sockets[i].token == p.storage.value)
  {
    if e.TokenNotified? {
      TokenTokens(p, e.token);
      hide *;
    } else {
      hide Teardown, OnAccessTokenChange, CloseSocket, Inv;
      AttachedMeansReachable(p);
    }
  }

  lemma CarriesConnectedToken(p: Provider)
    requires Inv(p)
    ensures forall i :: i in p.Attached() ==> Some(p.sockets[i].token) == p.connectedToken
  {
  }

  lemma TokenTokens(p: Provider, token: Option<string>)
    requires Inv(p)
    ensures var q := OnAccessTokenChange(p, token);
            && q.storage == p.storage
            && forall i :: i in q.Attached() ==>
                 || (i in p.Attached() && q.sockets[i].token == p.sockets[i].token
                     && (token.Some? ==> Some(p.sockets[i].token) == token))
                 || (IsToken(p.storage) && q.sockets[i].token == p.storage.value)
  {
    if token.None? {
      TeardownLogsOut(p);
    } else if token != p.connectedToken {
      RebuildIsNew(p);
    } else {
      CarriesConnectedToken(p);
    }
  }

  /** After a rebuild only the socket of the stored token is attached. */
  lemma RebuildIsNew(p: Provider)
    requires Inv(p)
    ensures var q := Connect(Teardown(p.(backoff := p.interval)));
            forall i :: i in q.Attached() ==> IsToken(p.storage) && q.sockets[i].token == p.storage.value
  {
    var t := Teardown(p.(backoff := p.interval));
    assert p.(backoff := p.interval).Attached() == p.Attached();
    TeardownIsIdle(p.(backoff := p.interval));
    ConnectFromIdle(t);
  }

  lemma {:induction false} StoredFirstBefore(storage: Option<string>, events: seq<Event>, e: Event)
    requires StoredFirst(storage, events + [e])
    ensures StoredFirst(storage, events)
    ensures Notifies(e) ==> Stored(storage, events) == e.token
  {
    hide Stored;
    var all := events + [e];
    assert all[..|events|] == events;
    assert forall i :: 0 <= i < |events| ==> all[i] == events[i] && all[..i] == events[..i];
  }

  /** The storage and every attached socket hold tokens that are recent. */
  predicate HoldsRecent(storage: Option<string>, events: seq<Event>, p: Provider) {
    && p.storage == Stored(storage, events)
    && (p.storage.Some? ==> Recent(storage, events, p.storage.value))
    && forall i :: i in p.Attached() ==> Recent(storage, events, p.sockets[i].token)
  }

  lemma MountHoldsRecent(storage: Option<string>, interval: int)
    ensures HoldsRecent(storage, [], Mounted(storage, interval))
  {
  }

  lemma StepHoldsRecent(storage: Option<string>, events: seq<Event>, e: Event, p: Provider)
    requires Inv(p) && p.mounted && !e.Unmounted?
    requires HoldsRecent(storage, events, p) && (Notifies(e) ==> p.storage == e.token)
    ensures HoldsRecent(storage, events + [e], Step(p, e))
  {
    hide Step, Inv, Recent, Stored;
    var q := Step(p, e);
    StepTokens(p, e);
    StoredAppend(storage, events, e);
    if q.storage.Some? {
      RecentAppend(storage, events, e, q.storage.value);
    }
    forall i | i in q.Attached()
      ensures Recent(storage, events + [e], q.sockets[i].token)
    {
      RecentAppend(storage, events, e, q.sockets[i].token);
    }
  }

  lemma {:induction false} StoredAppend(storage: Option<string>, events: seq<Event>, e: Event)
    ensures Stored(storage, events + [e]) == if e.StorageWritten? then e.stored else Stored(storage, events)
  {
    assert (events + [e])[..|events|] == events;
  }

  /**
   If every token is stored before it is notified, every attached socket carries the token that was
   last notified or one stored since, in every run within a mount.
   */
  lemma {:induction false} TokensStayRecent(storage: Option<string>, interval: int, events: seq<Event>)
    requires WithinMount(events) && StoredFirst(storage, events)
    ensures var p := After(Mounted(storage, interval), events);
            && p.storage == Stored(storage, events)
            && (p.storage.Some? ==> Recent(storage, events, p.storage.value))
            && forall i :: i in p.Attached() ==> Recent(storage, events, p.sockets[i].token)
  {
    RunHoldsRecent(storage, interval, events);
    hide After, Mounted, Stored, Recent;
  }

  lemma {:induction false} RunHoldsRecent(storage: Option<string>, interval: int, events: seq<Event>)
    requires WithinMount(events) && StoredFirst(storage, events)
    ensures HoldsRecent(storage, events, After(Mounted(storage, interval), events))
  {
    if events == [] {
      MountHoldsRecent(storage, interval);
    } else {
      hide Step, Mounted, LoggedOut, Inv, OneWayForward, StoredFirst;
      var init, e := events[..|events| - 1], events[|events| - 1];
      assert events == init + [e];
      StoredFirstBefore(storage, init, e);
      RunHoldsRecent(storage, interval, init);
      RunsHaveOneWayForward(storage, interval, init);
      ClosedIffLoggedOut(storage, interval, init);
      StepHoldsRecent(storage, init, e, After(Mounted(storage, interval), init));
    }
  }

  /** Without that order it fails: a token that is notified while another one is stored is not used. */
  lemma UnstoredTokenIsNotUsed(interval: int)
    ensures var p := After(Mounted(Some("b"), interval), [TokenNotified(Some("a"))]);
            p.ws.Some? && p.ws.value in p.Attached() && p.sockets[p.ws.value].token == "b"
    ensures !Recent(Some("b"), [TokenNotified(Some("a"))], "b")
  {
    var m := Mounted(Some("b"), interval);
    var events := [TokenNotified(Some("a"))];
    assert events[..0] == [];
    RunsHaveOneWayForward(Some("b"), interval, []);
    var p := After(m, events);
    assert p == Step(m, TokenNotified(Some("a")));
    assert "a" != "b" && m.connectedToken == Some("b");
    var t := Teardown(m.(backoff := m.interval));
    assert p.ws == Some(|t.sockets|) && |t.sockets| in p.Attached();
    assert p.sockets[|t.sockets|].token == "b";
    assert Notifies(events[0]) && !Brings(events[0], "b");
  }

  // ---------------------------------------------------------------------------------------------
  // Backoff
  // ---------------------------------------------------------------------------------------------

  /** interval * 2^k */
  function Doubled(interval: int, k: nat): int {
    if k == 0 then interval else 2 * Doubled(interval, k - 1)
  }

  /** A connection attempt fails: there is no token to connect with, or the attached socket closes. */
  predicate Fails(p: Provider, e: Event) {
    && Enabled(p, e)
    && match e
       case TimerFired(_) => !IsToken(p.storage)
       case SocketClosed(s) => p.sockets[s].handled && !p.closedIntentionally
       case TokenNotified(token) => token.Some? && token != p.connectedToken && !IsToken(p.storage)
       case _ => false
  }

  /** The socket opens, or a new token rebuilds it. */
  predicate Resets(p: Provider, e: Event) {
    && Enabled(p, e)
    && match e
       case SocketOpened(s) => p.sockets[s].handled
       case TokenNotified(token) => token.Some? && token != p.connectedToken
       case _ => false
  }

  /** Consecutive failed attempts since the mount, the last open or the last rebuild. */
  function Failures(storage: Option<string>, interval: int, events: seq<Event>): nat {
    if events == [] then (if IsToken(storage) then 0 else 1)
    else
      var p, e := After(Mounted(storage, interval), events[..|events| - 1]), events[|events| - 1];
      (if Resets(p, e) then 0 else Failures(storage, interval, events[..|events| - 1]))
      + (if Fails(p, e) then 1 else 0)
  }

  /** The delay after `k` failed attempts: the interval itself, and from then on doubled up to the cap. */
  function Delay(interval: int, k: nat): int {
    if k == 0 then interval else if Doubled(interval, k) <= 30000 then Doubled(interval, k) else 30000
  }

  lemma DelayDoubles(interval: int, k: nat)
    requires interval >= 0
    ensures Delay(interval, 0) == interval
    ensures Delay(interval, k + 1) == if Delay(interval, k) * 2 <= 30000 then Delay(interval, k) * 2 else 30000
  {
  }

  lemma StepBacksOff(p: Provider, e: Event, k: nat)
    requires Inv(p) && p.interval >= 0 && !e.Unmounted?
    requires p.backoff == Delay(p.interval, k)
    ensures var q, base := Step(p, e), if Resets(p, e) then 0 else k;
            && q.interval == p.interval
            && q.backoff == Delay(p.interval, base + if Fails(p, e) then 1 else 0)
            && (Fails(p, e) ==> q.timers == map[p.nextTimer := Delay(p.interval, base)])
            && (!Fails(p, e) ==> q.timers == map[] || (q.timers == p.timers && !Resets(p, e)))
  {
    hide Delay, Connect, OnClose, Teardown, Inv;
    if !Enabled(p, e) {
      TimersOfInv(p);
    } else {
      match e
      case TimerFired(t) => TimerBacksOff(p, t, k);
      case SocketClosed(s) => CloseBacksOff(p, s, k);
      case TokenNotified(token) => TokenBacksOff(p, token, k);
      case SocketOpened(s) => OpenBacksOff(p, s, k);
      case SocketMessage(_) =>
      case SocketErrored(_) =>
      case StorageWritten(_) =>
    }
  }

  /** Without a token, a timer with the current backoff is started and the backoff doubled. */
  lemma ConnectBacksOff(p: Provider, k: nat)
    requires p.timers == map[] && p.interval >= 0 && p.backoff == Delay(p.interval, k)
    ensures var q, fails := Connect(p), !IsToken(p.storage);
            && q.interval == p.interval
            && q.backoff == Delay(p.interval, k + if fails then 1 else 0)
            && q.timers == if fails then map[p.nextTimer := Delay(p.interval, k)] else map[]
  {
    hide Delay;
    DelayDoubles(p.interval, k);
  }

  lemma TimerBacksOff(p: Provider, t: nat, k: nat)
    requires Inv(p) && p.mounted && t in p.timers && p.interval >= 0 && p.backoff == Delay(p.interval, k)
    ensures var q, fails := Step(p, TimerFired(t)), !IsToken(p.storage);
            && q.interval == p.interval
            && q.backoff == Delay(p.interval, k + if fails then 1 else 0)
            && q.timers == if fails then map[p.nextTimer := Delay(p.interval, k)] else map[]
  {
    hide Delay, Connect, Inv;
    TimersOfInv(p);
    var idle := p.(timers := p.timers - {t});
    assert idle.timers.Keys == {};
    ConnectBacksOff(idle, k);
  }

  lemma TeardownKeepsBackoff(p: Provider)
    requires Inv(p)
    ensures var q := Teardown(p);
            && q.timers == map[]
            && q.interval == p.interval && q.backoff == p.backoff
            && q.nextTimer == p.nextTimer && q.storage == p.storage
  {
    hide Inv, CloseSocket;
    TimersOfInv(p);
    assert Teardown(p).timers.Keys == {};
  }

  lemma TokenBacksOff(p: Provider, token: Option<string>, k: nat)
    requires Inv(p) && p.mounted && p.interval >= 0 && p.backoff == Delay(p.interval, k)
    ensures var q, rebuilds := Step(p, TokenNotified(token)), token.Some? && token != p.connectedToken;
            var fails := rebuilds && !IsToken(p.storage);
            && q.interval == p.interval
            && q.backoff == Delay(p.interval, (if rebuilds then 0 else k) + if fails then 1 else 0)
            && (fails ==> q.timers == map[p.nextTimer := Delay(p.interval, 0)])
            && (!fails ==> q.timers == map[] || (q.timers == p.timers && !rebuilds))
  {
    hide Delay, Connect, Inv, Teardown;
    if token.None? {
      TeardownOnLogout(p);
    } else if token != p.connectedToken {
      var reset := p.(backoff := p.interval);
      assert Inv(reset) by { ResetKeepsInv(p); }
      TeardownKeepsBackoff(reset);
      DelayDoubles(p.interval, 0);
      ConnectBacksOff(Teardown(reset), 0);
    }
  }

  lemma ResetKeepsInv(p: Provider)
    requires Inv(p)
    ensures Inv(p.(backoff := p.interval))
  {
    assert p.(backoff := p.interval).Attached() == p.Attached();
  }

  lemma TeardownOnLogout(p: Provider)
    requires Inv(p)
    ensures var q := Teardown(p.(closedIntentionally := true, connectedToken := None));
            q.timers == map[] && q.interval == p.interval && q.backoff == p.backoff
  {
    hide Inv, CloseSocket;
    TimersOfInv(p);
    assert Teardown(p.(closedIntentionally := true, connectedToken := None)).timers.Keys == {};
  }

  lemma OpenBacksOff(p: Provider, s: nat, k: nat)
    requires Inv(p) && Enabled(p, SocketOpened(s)) && p.backoff == Delay(p.interval, k) && p.interval >= 0
    ensures var q, opens := Step(p, SocketOpened(s)), p.sockets[s].handled;
            && q.interval == p.interval && q.backoff == Delay(p.interval, if opens then 0 else k)
            && (q.timers == map[] || (q.timers == p.timers && !opens))
  {
    hide Delay;
    DelayDoubles(p.interval, 0);
    AttachedMeansReachable(p);
    if p.sockets[s].handled {
      assert s in p.Attached();
      assert p.timers.Keys == {};
    }
  }

  lemma CloseBacksOff(p: Provider, s: nat, k: nat)
    requires Inv(p) && Enabled(p, SocketClosed(s)) && p.interval >= 0 && p.backoff == Delay(p.interval, k)
    ensures var q, fails := Step(p, SocketClosed(s)), p.sockets[s].handled && !p.closedIntentionally;
            && q.interval == p.interval
            && q.backoff == Delay(p.interval, k + if fails then 1 else 0)
            && q.timers == if fails then map[p.nextTimer := Delay(p.interval, k)] else p.timers
  {
    hide Delay;
    DelayDoubles(p.interval, k);
    AttachedMeansReachable(p);
    if p.sockets[s].handled && !p.closedIntentionally {
      assert s in p.Attached();
      hide Inv;
      TimersOfInv(p);
      var q := WithPhase(p, s, Closed);
      assert ClearTimer(q).timers.Keys == {};
    }
  }

  /**
   The backoff law: the k-th consecutive failed attempt is retried after `Delay(interval, k)`, by the
   only pending timer.
   */
  lemma {:induction false} RetriesBackOff(storage: Option<string>, interval: int, events: seq<Event>)
    requires WithinMount(events) && interval >= 0
    ensures var p := After(Mounted(storage, interval), events);
            && p.interval == interval
            && p.backoff == Delay(interval, Failures(storage, interval, events))
            && (forall t :: t in p.timers ==>
                  var k := Failures(storage, interval, events) - 1;
                  k >= 0 && p.timers[t] == Delay(interval, k))
  {
    hide Step, Fails, Resets, Delay, Inv, Mounted, OneWayForward;
    if events == [] {
      MountBacksOff(storage, interval);
    } else {
      var init, e := events[..|events| - 1], events[|events| - 1];
      var p := After(Mounted(storage, interval), init);
      RetriesBackOff(storage, interval, init);
      RunsHaveOneWayForward(storage, interval, init);
      StepBacksOff(p, e, Failures(storage, interval, init));
    }
  }

  lemma MountBacksOff(storage: Option<string>, interval: int)
    requires interval >= 0
    ensures var p, k := Mounted(storage, interval), if IsToken(storage) then 0 else 1;
            && p.interval == interval
            && p.backoff == Delay(interval, k)
            && p.timers == if k == 0 then map[] else map[0 := Delay(interval, 0)]
  {
    DelayDoubles(interval, 0);
  }

  /** The delay is min(interval * 2^k, 30000) for every k exactly when the interval is at most 30000. */
  lemma DelayIsCapped(interval: int)
    ensures (forall k: nat :: Delay(interval, k) <= 30000 && Delay(interval, k) <= Doubled(interval, k) &&
                              (Delay(interval, k) == 30000 || Delay(interval, k) == Doubled(interval, k))) <==>
            interval <= 30000
  {
    assert Delay(interval, 0) == interval == Doubled(interval, 0);
  }
}
