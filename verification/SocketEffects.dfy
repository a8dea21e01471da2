/**
 What every event does to a provider in a reachable state, field by field, and what that means for the
 messages that are delivered and the status that is shown.
 */
module SocketEffects {
  import opened Options
  import opened SocketModel
  import opened SocketProofs

  // ---------------------------------------------------------------------------------------------
  // One event
  // ---------------------------------------------------------------------------------------------

  /** The sockets when the current one, if any, has been closed by the provider. */
  function SocketsClosing(p: Provider, handled: bool): seq<Socket>
    requires p.ws.Some? ==> p.ws.value < |p.sockets|
  {
    if p.ws.None? then p.sockets
    else p.sockets[p.ws.value := Socket(p.sockets[p.ws.value].token, handled, Closing)]
  }

  /** `connect` with nothing attached or pending: a socket for a stored token, or else one timer. */
  predicate Connects(p: Provider, q: Provider) {
    if p.storage.Some? && p.storage.value != "" then
      q == p.(closedIntentionally := false,
              sockets := p.sockets + [Socket(p.storage.value, true, Opening)],
              ws := Some(|p.sockets|),
              connectedToken := p.storage,
              status := Connecting)
    else
      q == p.(closedIntentionally := false,
              status := Disconnected,
              timers := map[p.nextTimer := p.backoff],
              timerRef := Some(p.nextTimer),
              nextTimer := p.nextTimer + 1,
              backoff := if p.backoff * 2 <= 30000 then p.backoff * 2 else 30000)
  }

  lemma ConnectConnects(p: Provider)
    requires p.timers == map[]
    ensures Connects(p, Connect(p))
  {
  }

  /** The pending timer connects. */
  lemma TimerEffect(p: Provider, t: nat)
    requires Inv(p) && p.mounted && t in p.timers
    ensures p.timers.Keys == {t} && Connects(p.(timers := map[]), Step(p, TimerFired(t)))
  {
    TimersOfInv(p);
    hide Inv, Connects;
    assert p.timers - {t} == map[];
    ConnectConnects(p.(timers := map[]));
  }

  lemma AttachedIsCurrent(p: Provider, s: nat)
    requires Inv(p) && s < |p.sockets| && p.sockets[s].handled && p.sockets[s].phase != Closed
    ensures p.ws == Some(s) && p.timers == map[] && !p.closedIntentionally
  {
    AttachedMeansReachable(p);
    TimersOfInv(p);
    assert s in p.Attached();
  }

  /** A socket that opens is connected and resets the backoff, if it is still attached. */
  lemma OpenEffect(p: Provider, s: nat)
    requires Inv(p) && p.mounted && s < |p.sockets| && p.sockets[s].phase == Opening
    ensures var after := p.(sockets := p.sockets[s := Socket(p.sockets[s].token, p.sockets[s].handled, Open)]);
            Step(p, SocketOpened(s)) ==
            if p.sockets[s].handled then after.(status := Connected, backoff := p.interval) else after
  {
  }

  /** A message is passed on exactly when its socket is open and attached. */
  lemma MessageEffect(p: Provider, s: nat)
    requires p.mounted
    ensures Step(p, SocketMessage(s)) ==
            if s < |p.sockets| && p.sockets[s].handled && p.sockets[s].phase == Open
            then p.(messages := p.messages + 1) else p
  {
  }

  /** An error closes an attached socket, and the provider waits for it to be closed. */
  lemma ErrorEffect(p: Provider, s: nat)
    requires p.mounted && s < |p.sockets| && p.sockets[s].phase != Closed
    ensures Step(p, SocketErrored(s)) ==
            if p.sockets[s].handled then p.(sockets := p.sockets[s := Socket(p.sockets[s].token, true, Closing)])
            else p
  {
  }

  /** An attached socket that is closed leaves one timer with the current backoff, which is doubled. */
  lemma CloseEffect(p: Provider, s: nat)
    requires Inv(p) && p.mounted && s < |p.sockets| && p.sockets[s].phase != Closed
    ensures var closed := p.(sockets := p.sockets[s := Socket(p.sockets[s].token, p.sockets[s].handled, Closed)]);
            Step(p, SocketClosed(s)) ==
            if !p.sockets[s].handled then closed
            else closed.(status := Disconnected,
                         ws := None,
                         timers := map[p.nextTimer := p.backoff],
                         timerRef := Some(p.nextTimer),
                         nextTimer := p.nextTimer + 1,
                         backoff := if p.backoff * 2 <= 30000 then p.backoff * 2 else 30000)
  {
    if p.sockets[s].handled {
      AttachedIsCurrent(p, s);
      hide Inv;
      assert p.timerRef.Some? ==> p.timers - {p.timerRef.value} == map[];
    }
  }

  /** Once the provider means to stay closed, a socket that is closed starts no timer, whatever else holds. */
  lemma IntendedCloseEffect(p: Provider, s: nat)
    requires p.mounted && p.closedIntentionally && s < |p.sockets| && p.sockets[s].phase != Closed
    ensures Step(p, SocketClosed(s)).timers == p.timers && Step(p, SocketClosed(s)).backoff == p.backoff
    ensures p.sockets[s].handled ==> Step(p, SocketClosed(s)).status == Disconnected
  {
  }

  /** A logout detaches and closes the socket, and leaves no timer. */
  lemma LogoutEffect(p: Provider)
    requires Inv(p) && p.mounted
    ensures Step(p, TokenNotified(None)) ==
            p.(closedIntentionally := true, connectedToken := None, status := Disconnected, ws := None,
               timerRef := None, timers := map[], sockets := SocketsClosing(p, false))
  {
    CurrentIsNotClosed(p);
    TeardownOnLogout(p);
    hide Inv;
  }

  lemma CurrentIsNotClosed(p: Provider)
    requires Inv(p)
    ensures p.ws.Some? ==> p.ws.value < |p.sockets| && p.sockets[p.ws.value].phase != Closed
    ensures p.ws.Some? ==> p.sockets[p.ws.value].handled
  {
    if p.ws.Some? {
      assert p.ws.value in p.Attached();
    }
  }

  /** Another token closes the socket, resets the backoff and connects; the connected one changes nothing. */
  lemma LoginEffect(p: Provider, token: string)
    requires Inv(p) && p.mounted
    ensures var q := Step(p, TokenNotified(Some(token)));
            if p.connectedToken == Some(token) then q == p
            else Connects(p.(sockets := SocketsClosing(p, false), ws := None, timerRef := None, timers := map[],
                             backoff := p.interval), q)
  {
    if p.connectedToken != Some(token) {
      var reset := p.(backoff := p.interval);
      CurrentIsNotClosed(p);
      ResetKeepsInv(p);
      TeardownKeepsBackoff(reset);
      hide Inv, Connects, Connect;
      ConnectConnects(Teardown(reset));
    }
  }

  /** Unmounting clears the timer and closes the socket, which stays attached. */
  lemma UnmountEffect(p: Provider)
    requires Inv(p) && p.mounted
    ensures Step(p, Unmounted) ==
            p.(mounted := false, closedIntentionally := true, timers := map[], sockets := SocketsClosing(p, true))
  {
    CurrentIsNotClosed(p);
    TimersOfInv(p);
    hide Inv;
    assert ClearTimer(p).timers.Keys == {};
  }

  /** Storage writes change what is stored, and nothing else happens to a provider. */
  lemma OtherEffect(p: Provider, e: Event)
    requires !p.mounted || match e
             case TimerFired(t) => t !in p.timers
             case SocketOpened(s) => s >= |p.sockets| || p.sockets[s].phase != Opening
             case SocketMessage(s) => s >= |p.sockets| || p.sockets[s].phase != Open
             case SocketErrored(s) => s >= |p.sockets| || p.sockets[s].phase == Closed
             case SocketClosed(s) => s >= |p.sockets| || p.sockets[s].phase == Closed
             case StorageWritten(_) => true
             case _ => false
    ensures Step(p, e) == if p.mounted && e.StorageWritten? then p.(storage := e.stored) else p
  {
  }

  /** The refs as they are initialised. */
  function Unconnected(storage: Option<string>, interval: int): Provider {
    Provider(true, Connecting, None, None, interval, interval, false, None, storage, [], map[], 0, 0)
  }

  /** The mount connects once. */
  lemma MountEffect(storage: Option<string>, interval: int)
    ensures Connects(Unconnected(storage, interval), Mounted(storage, interval))
  {
  }

  // ---------------------------------------------------------------------------------------------
  // Messages
  // ---------------------------------------------------------------------------------------------

  /** Event `n` is a message of the attached socket, which is open. */
  predicate Delivers(storage: Option<string>, interval: int, events: seq<Event>, n: nat)
    requires n < |events|
  {
    var p := After(Mounted(storage, interval), events[..n]);
    && events[n].SocketMessage?
    && p.ws == Some(events[n].socket)
    && events[n].socket < |p.sockets|
    && p.sockets[events[n].socket].phase == Open
  }

  /** The deliveries among the first `n` events. */
  function Deliveries(storage: Option<string>, interval: int, events: seq<Event>, n: nat): nat
    requires n <= |events|
  {
    if n == 0 then 0
    else Deliveries(storage, interval, events, n - 1) + if Delivers(storage, interval, events, n - 1) then 1 else 0
  }

  lemma StepMessages(p: Provider, e: Event)
    requires Inv(p) && p.mounted && !e.Unmounted?
    ensures Step(p, e).messages == p.messages +
            if e.SocketMessage? && p.ws == Some(e.socket) && e.socket < |p.sockets| && p.sockets[e.socket].phase == Open
            then 1 else 0
  {
    hide Teardown, Connect, ScheduleReconnect;
    if e.SocketMessage? {
      MessageEffect(p, e.socket);
      CurrentIsNotClosed(p);
      if e.socket < |p.sockets| && p.sockets[e.socket].handled && p.sockets[e.socket].phase == Open {
        AttachedIsCurrent(p, e.socket);
      }
    } else {
      OthersKeepMessages(p, e);
    }
  }

  lemma HelpersKeepMessages(p: Provider)
    ensures ScheduleReconnect(p).messages == p.messages
    ensures Teardown(p).messages == p.messages
  {
    hide CloseSocket;
  }

  lemma ConnectKeepsMessages(p: Provider)
    ensures Connect(p).messages == p.messages
  {
    hide ScheduleReconnect;
    HelpersKeepMessages(p.(closedIntentionally := false, status := Disconnected));
  }

  lemma OthersKeepMessages(p: Provider, e: Event)
    requires !e.SocketMessage?
    ensures Step(p, e).messages == p.messages
  {
    hide CloseSocket, ScheduleReconnect, Teardown, Connect;
    match e
    case TimerFired(t) => ConnectKeepsMessages(p.(timers := p.timers - {t}));
    case TokenNotified(token) =>
      HelpersKeepMessages(p.(closedIntentionally := true, connectedToken := None));
      HelpersKeepMessages(p.(backoff := p.interval));
      ConnectKeepsMessages(Teardown(p.(backoff := p.interval)));
    case SocketClosed(s) =>
      if Enabled(p, e) {
        HelpersKeepMessages(WithPhase(p, s, Closed).(status := Disconnected, ws := None));
      }
    case _ =>
  }

  /** In every run, the messages passed on are exactly those that reached an open attached socket. */
  lemma {:induction false} MessagesAreDelivered(storage: Option<string>, interval: int, events: seq<Event>, n: nat)
    requires WithinMount(events) && n <= |events|
    ensures After(Mounted(storage, interval), events[..n]).messages == Deliveries(storage, interval, events, n)
    decreases n
  {
    hide Step, Mounted, Inv, OneWayForward, LoggedOut;
    if n == 0 {
      MountKeepsMessages(storage, interval);
    } else {
      var init := events[..n - 1];
      assert events[..n][..n - 1] == init;
      MessagesAreDelivered(storage, interval, events, n - 1);
      RunsHaveOneWayForward(storage, interval, init);
      ClosedIffLoggedOut(storage, interval, init);
      StepMessages(After(Mounted(storage, interval), init), events[n - 1]);
    }
  }

  lemma MountKeepsMessages(storage: Option<string>, interval: int)
    ensures Mounted(storage, interval).messages == 0
  {
  }

  // ---------------------------------------------------------------------------------------------
  // Status
  // ---------------------------------------------------------------------------------------------

  /** The status tells the phase of the attached socket; one that is closing keeps the last status. */
  predicate ShowsPhase(p: Provider) {
    if p.ws.None? then p.status == Disconnected
    else
      && p.ws.value < |p.sockets|
      && p.status != Disconnected
      && (p.sockets[p.ws.value].phase == Opening ==> p.status == Connecting)
      && (p.sockets[p.ws.value].phase == Open ==> p.status == Connected)
  }

  lemma ConnectShowsPhase(p: Provider, q: Provider)
    requires Connects(p, q) && p.ws.None?
    ensures ShowsPhase(q)
  {
  }

  lemma StepShowsPhase(p: Provider, e: Event)
    requires Inv(p) && p.mounted && !e.Unmounted? && ShowsPhase(p)
    ensures ShowsPhase(Step(p, e))
  {
    hide Step, Connects, Inv;
    match e
    case TimerFired(t) =>
      if t in p.timers {
        assert p.ws.None? by { TimersOfInv(p); }
        TimerEffect(p, t);
        ConnectShowsPhase(p.(timers := map[]), Step(p, e));
      } else {
        OtherEffect(p, e);
      }
    case SocketOpened(s) => OpenShowsPhase(p, s);
    case SocketMessage(s) => MessageEffect(p, s);
    case SocketErrored(s) =>
      if s < |p.sockets| && p.sockets[s].phase != Closed {
        ErrorEffect(p, s);
      } else {
        OtherEffect(p, e);
      }
    case SocketClosed(s) => CloseShowsPhase(p, s);
    case StorageWritten(_) => OtherEffect(p, e);
    case TokenNotified(token) =>
      if token.None? {
        LogoutEffect(p);
      } else {
        LoginEffect(p, token.value);
        if token != p.connectedToken {
          ConnectShowsPhase(p.(sockets := SocketsClosing(p, false), ws := None, timerRef := None, timers := map[],
                               backoff := p.interval), Step(p, e));
        }
      }
  }

  lemma OpenShowsPhase(p: Provider, s: nat)
    requires Inv(p) && p.mounted && ShowsPhase(p)
    ensures ShowsPhase(Step(p, SocketOpened(s)))
  {
    hide Step, Inv;
    if s < |p.sockets| && p.sockets[s].phase == Opening {
      OpenEffect(p, s);
      CurrentIsNotClosed(p);
      if p.sockets[s].handled {
        AttachedIsCurrent(p, s);
      }
    } else {
      OtherEffect(p, SocketOpened(s));
    }
  }

  lemma CloseShowsPhase(p: Provider, s: nat)
    requires Inv(p) && p.mounted && ShowsPhase(p)
    ensures ShowsPhase(Step(p, SocketClosed(s)))
  {
    hide Step, Inv;
    if s < |p.sockets| && p.sockets[s].phase != Closed {
      CloseEffect(p, s);
      CurrentIsNotClosed(p);
    } else {
      OtherEffect(p, SocketClosed(s));
    }
  }

  /**
   In every run the status is disconnected exactly when no socket is attached, connecting while the
   attached socket opens and connected while it is open.
   */
  lemma {:induction false} StatusShowsPhase(storage: Option<string>, interval: int, events: seq<Event>)
    requires WithinMount(events)
    ensures ShowsPhase(After(Mounted(storage, interval), events))
  {
    hide Step, Mounted, Inv, OneWayForward, LoggedOut, ShowsPhase, Connects;
    if events == [] {
      MountEffect(storage, interval);
      ConnectShowsPhase(Unconnected(storage, interval), Mounted(storage, interval));
    } else {
      var init, e := events[..|events| - 1], events[|events| - 1];
      StatusShowsPhase(storage, interval, init);
      RunsHaveOneWayForward(storage, interval, init);
      ClosedIffLoggedOut(storage, interval, init);
      StepShowsPhase(After(Mounted(storage, interval), init), e);
    }
  }
}
