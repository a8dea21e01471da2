/**
 The provider as it runs: refs overwritten by callbacks, and socket objects whose handlers it sets
 and removes. `Deliver` is proved to take exactly the steps of `SocketModel`.
 */
module SocketObjects {
  import opened Options
  import opened SocketModel

  class WebSocket {
    const token: string  // the `token` parameter of the socket's URL
    var handled: bool    // onopen, onmessage, onerror and onclose are set
    var phase: Phase

    constructor (token: string)
      ensures View() == Socket(token, true, Opening)
    {
      this.token, handled, phase := token, true, Opening;
    }

    function View(): Socket
      reads this
    {
      Socket(token, handled, phase)
    }

    method Close()
      modifies this
      ensures View() == CloseSocket(old(View()))
    {
      if phase != Closed {
        phase := Closing;
      }
    }
  }

  ghost function Views(sockets: seq<WebSocket>): (r: seq<Socket>)
    reads sockets
    ensures |r| == |sockets|
    ensures forall i :: 0 <= i < |sockets| ==> r[i] == sockets[i].View()
  {
    seq(|sockets|, i requires 0 <= i < |sockets| reads sockets => sockets[i].View())
  }

  class WebSocketProvider {
    // The component's state and refs.
    var mounted: bool
    var status: Status
    var wsRef: WebSocket?
    var reconnectTimerRef: Option<nat>
    var backoffRef: int
    var reconnectIntervalRef: int
    var closedIntentionallyRef: bool
    var connectedTokenRef: Option<string>
    // The browser: storage, sockets, timers and the subscribed handlers.
    var storage: Option<string>
    var sockets: seq<WebSocket>
    var timers: map<nat, int>
    var nextTimer: nat
    var messages: nat
    ghost var ws: Option<nat>  // the position of wsRef in sockets

    ghost predicate Valid()
      reads this
    {
      && (forall i, j :: 0 <= i < j < |sockets| ==> sockets[i] != sockets[j])
      && (wsRef == null <==> ws.None?)
      && (ws.Some? ==> ws.value < |sockets| && sockets[ws.value] == wsRef)
    }

    ghost function Abs(): Provider
      reads this, sockets
    {
      Provider(mounted, status, ws, reconnectTimerRef, backoffRef, reconnectIntervalRef,
               closedIntentionallyRef, connectedTokenRef, storage, Views(sockets), timers, nextTimer, messages)
    }

    /** The first render and the mount effect. */
    constructor (storage: Option<string>, interval: int)
      ensures Valid() && fresh(sockets)
      ensures Abs() == Mounted(storage, interval)
    {
      mounted, status, wsRef, reconnectTimerRef := true, Connecting, null, None;
      backoffRef, reconnectIntervalRef := interval, interval;
      closedIntentionallyRef, connectedTokenRef := false, None;
      this.storage, sockets, timers, nextTimer, messages, ws := storage, [], map[], 0, 0, None;
      new;
      Connect();
      assert sockets == sockets[0..];
    }

    method ClearTimeout()
      requires Valid()
      modifies this
      ensures Valid() && sockets == old(sockets) && wsRef == old(wsRef)
      ensures Abs() == ClearTimer(old(Abs()))
    {
      if reconnectTimerRef.Some? {
        timers := timers - {reconnectTimerRef.value};
      }
    }

    method Schedule()
      requires Valid()
      modifies this
      ensures Valid() && sockets == old(sockets)
      ensures Abs() == ScheduleReconnect(old(Abs()))
    {
      hide Views;
      ClearTimeout();
      timers := timers[nextTimer := backoffRef];
      reconnectTimerRef := Some(nextTimer);
      nextTimer := nextTimer + 1;
      backoffRef := Min(backoffRef * 2, MAX_BACKOFF);
    }

    method Connect()
      requires Valid()
      modifies this
      ensures Valid() && old(sockets) <= sockets && fresh(sockets[|old(sockets)|..])
      ensures Abs() == SocketModel.Connect(old(Abs()))
    {
      hide ScheduleReconnect, Views;
      closedIntentionallyRef := false;
      assert Abs() == old(Abs()).(closedIntentionally := false);
      assert Abs().storage == storage;
      hide Abs;
      if !IsToken(storage) {
        ShowDisconnected();
        Schedule();
      } else {
        OpenSocket(storage.value);
        ShowConnecting();
      }
    }

    method ShowConnecting()
      requires Valid()
      modifies this
      ensures Valid() && sockets == old(sockets)
      ensures Abs() == old(Abs()).(connectedToken := old(Abs()).storage, status := Connecting)
    {
      hide Views;
      connectedTokenRef := storage;
      status := Connecting;
    }

    /** `new WebSocket(...)` with the four handlers set. */
    method OpenSocket(token: string)
      requires Valid()
      modifies this
      ensures Valid() && |sockets| == |old(sockets)| + 1 && old(sockets) <= sockets && fresh(sockets[|old(sockets)|])
      ensures Abs() == old(Abs()).(sockets := old(Abs()).sockets + [Socket(token, true, Opening)],
                                   ws := Some(|old(sockets)|))
    {
      var socket := new WebSocket(token);
      wsRef, ws, sockets := socket, Some(|sockets|), sockets + [socket];
      assert Views(sockets) == old(Views(sockets)) + [Socket(token, true, Opening)];
    }

    method TeardownSocket()
      requires Valid()
      modifies this, wsRef
      ensures Valid() && sockets == old(sockets)
      ensures Abs() == Teardown(old(Abs()))
    {
      hide Views;
      ClearTimeout();
      reconnectTimerRef := None;
      var socket := wsRef;
      ghost var i := ws;
      wsRef, ws := null, None;
      if socket != null {
        Detach(socket, i.value);
      }
    }

    /** Takes the handlers off a socket and closes it. */
    method Detach(socket: WebSocket, ghost i: nat)
      requires Valid() && i < |sockets| && sockets[i] == socket
      modifies socket
      ensures Valid()
      ensures Abs() == (var p := old(Abs());
                        p.(sockets := p.sockets[i := CloseSocket(p.sockets[i].(handled := false))]))
    {
      socket.handled := false;
      socket.Close();
      assert Views(sockets) == old(Views(sockets))[i := CloseSocket(old(Views(sockets))[i].(handled := false))];
    }

    method OnAccessTokenChange(token: Option<string>)
      requires Valid()
      modifies this, wsRef
      ensures Valid() && old(sockets) <= sockets && fresh(sockets[|old(sockets)|..])
      ensures Abs() == SocketModel.OnAccessTokenChange(old(Abs()), token)
    {
      hide Teardown, SocketModel.Connect, Views;
      assert Abs().connectedToken == connectedTokenRef;
      hide Abs;
      if token.None? {
        LogOut();
        TeardownSocket();
        ShowDisconnected();
      } else if token != connectedTokenRef {
        ResetBackoff();
        TeardownSocket();
        Connect();
      }
    }

    method LogOut()
      requires Valid()
      modifies this
      ensures Valid() && sockets == old(sockets) && wsRef == old(wsRef)
      ensures Abs() == old(Abs()).(closedIntentionally := true, connectedToken := None)
    {
      closedIntentionallyRef := true;
      connectedTokenRef := None;
    }

    method ShowDisconnected()
      requires Valid()
      modifies this
      ensures Valid() && sockets == old(sockets)
      ensures Abs() == old(Abs()).(status := Disconnected)
    {
      status := Disconnected;
    }

    method ResetBackoff()
      requires Valid()
      modifies this
      ensures Valid() && sockets == old(sockets) && wsRef == old(wsRef)
      ensures Abs() == old(Abs()).(backoff := old(Abs()).interval)
    {
      backoffRef := reconnectIntervalRef;
    }

    method OnSocketClose()
      requires Valid()
      modifies this
      ensures Valid() && sockets == old(sockets)
      ensures Abs() == OnClose(old(Abs()))
    {
      hide Views, ScheduleReconnect;
      status := Disconnected;
      wsRef, ws := null, None;
      if !closedIntentionallyRef {
        Schedule();
      }
    }

    method FireTimer(t: nat)
      requires Valid()
      modifies this
      ensures Valid() && sockets == old(sockets)
      ensures Abs() == old(Abs()).(timers := old(timers) - {t})
    {
      timers := timers - {t};
    }

    /** The body of `onopen`. */
    method MarkConnected()
      requires Valid()
      modifies this
      ensures Valid() && sockets == old(sockets)
      ensures Abs() == old(Abs()).(status := Connected, backoff := old(Abs()).interval)
    {
      status := Connected;
      backoffRef := reconnectIntervalRef;
    }

    /** The body of `onmessage`. */
    method DispatchMessage()
      requires Valid()
      modifies this
      ensures Valid() && sockets == old(sockets)
      ensures Abs() == old(Abs()).(messages := old(messages) + 1)
    {
      messages := messages + 1;
    }

    method WriteStorage(stored: Option<string>)
      requires Valid()
      modifies this
      ensures Valid() && sockets == old(sockets)
      ensures Abs() == old(Abs()).(storage := stored)
    {
      storage := stored;
    }

    /** The browser moves a socket to another phase. */
    method SetPhase(s: nat, phase: Phase)
      requires Valid() && s < |sockets|
      modifies sockets[s]
      ensures Valid() && Abs() == WithPhase(old(Abs()), s, phase)
    {
      sockets[s].phase := phase;
      assert Views(sockets) == old(Views(sockets))[s := old(Views(sockets))[s].(phase := phase)];
    }

    method Unmount()
      requires Valid()
      modifies this, wsRef
      ensures Valid() && sockets == old(sockets)
      ensures mounted == false && Abs() == (
        var c := ClearTimer(old(Abs())).(mounted := false, closedIntentionally := true);
        if c.ws.Some? && c.ws.value < |c.sockets|
        then c.(sockets := c.sockets[c.ws.value := CloseSocket(c.sockets[c.ws.value])]) else c)
    {
      hide Views;
      mounted := false;
      closedIntentionallyRef := true;
      ClearTimeout();
      if wsRef != null {
        CloseCurrent();
      }
    }

    method CloseCurrent()
      requires Valid() && wsRef != null
      modifies wsRef
      ensures Valid()
      ensures Abs() == (var p := old(Abs()); p.(sockets := p.sockets[ws.value := CloseSocket(p.sockets[ws.value])]))
    {
      wsRef.Close();
      assert Views(sockets) == old(Views(sockets))[ws.value := CloseSocket(old(Views(sockets))[ws.value])];
    }

    /** The callback of a timer. */
    method DeliverTimer(t: nat)
      requires Valid() && mounted
      modifies this
      ensures Valid() && old(sockets) <= sockets && fresh(sockets[|old(sockets)|..])
      ensures Abs() == Step(old(Abs()), TimerFired(t))
    {
      hide SocketModel.Connect, Views;
      if t in timers {
        FireTimer(t);
        Connect();
      }
    }

    /** A socket opens and calls its `onopen`, if that is still set. */
    method DeliverOpen(s: nat)
      requires Valid() && mounted
      modifies this, sockets
      ensures Valid() && sockets == old(sockets)
      ensures Abs() == Step(old(Abs()), SocketOpened(s))
    {
      if s < |sockets| && sockets[s].phase == Opening {
        SetPhase(s, Open);
        hide Views;
        if sockets[s].handled {
          MarkConnected();
        }
      }
    }

    method DeliverMessage(s: nat)
      requires Valid() && mounted
      modifies this
      ensures Valid() && sockets == old(sockets)
      ensures Abs() == Step(old(Abs()), SocketMessage(s))
    {
      hide Views;
      if s < |sockets| && sockets[s].phase == Open && sockets[s].handled {
        DispatchMessage();
      }
    }

    /** The handler of errors closes the socket. */
    method DeliverError(s: nat)
      requires Valid() && mounted
      modifies sockets
      ensures Valid() && sockets == old(sockets)
      ensures Abs() == Step(old(Abs()), SocketErrored(s))
    {
      hide Views;
      if s < |sockets| && sockets[s].phase != Closed && sockets[s].handled {
        SetPhase(s, Closing);
      }
    }

    /** A socket closes and calls its `onclose`, if that is still set. */
    method DeliverClose(s: nat)
      requires Valid() && mounted
      modifies this, sockets
      ensures Valid() && sockets == old(sockets)
      ensures Abs() == Step(old(Abs()), SocketClosed(s))
    {
      hide OnClose;
      if s < |sockets| && sockets[s].phase != Closed {
        SetPhase(s, Closed);
        hide Views;
        if sockets[s].handled {
          OnSocketClose();
        }
      }
    }

    /** The environment delivers one event, if it can happen. */
    method Deliver(e: Event)
      requires Valid()
      modifies this, sockets
      ensures Valid() && old(sockets) <= sockets && fresh(sockets[|old(sockets)|..])
      ensures Abs() == Step(old(Abs()), e)
    {
      hide SocketModel.Connect, OnClose, SocketModel.OnAccessTokenChange, ClearTimer, CloseSocket, Views;
      if !mounted {
        return;
      }
      match e
      case TimerFired(t) => DeliverTimer(t);
      case SocketOpened(s) => DeliverOpen(s);
      case SocketMessage(s) => DeliverMessage(s);
      case SocketErrored(s) => DeliverError(s);
      case SocketClosed(s) => DeliverClose(s);
      case StorageWritten(stored) => WriteStorage(stored);
      case TokenNotified(token) => OnAccessTokenChange(token);
      case Unmounted => Unmount();
    }
  }

  /** A whole run on the objects follows the run of the model. */
  method RunProvider(storage: Option<string>, interval: int, events: seq<Event>) returns (p: WebSocketProvider)
    ensures p.Valid() && p.Abs() == After(Mounted(storage, interval), events)
  {
    hide Step, Mounted, WebSocketProvider.Abs, WebSocketProvider.Valid;
    p := new WebSocketProvider(storage, interval);
    for k := 0 to |events|
      invariant p.Valid() && fresh(p) && fresh(p.sockets)
      invariant p.Abs() == After(Mounted(storage, interval), events[..k])
    {
      assert events[..k + 1][..k] == events[..k];
      ghost var before := p.sockets;
      p.Deliver(events[k]);
      assert p.sockets == before + p.sockets[|before|..];
    }
    assert events[..|events|] == events;
  }
}
