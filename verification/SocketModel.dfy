/**
 The reconnecting socket of the web client as a transition system over one mount: the provider's
 refs, the timers and sockets it has created, and the events the environment can deliver.
 */
module SocketModel {
  import opened Options

  // ---------------------------------------------------------------------------------------------
  // State
  // ---------------------------------------------------------------------------------------------

  datatype Status = Connecting | Connected | Disconnected
  datatype Phase = Opening | Open | Closing | Closed

  /** A browser socket; `handled` tells whether the provider's four handlers are still set on it. */
  datatype Socket = Socket(token: string, handled: bool, phase: Phase)

  datatype Provider = Provider(
    mounted: bool,
    status: Status,
    ws: Option<nat>,                // wsRef, as a position in `sockets`
    timerRef: Option<nat>,          // reconnectTimerRef; may name a timer that has fired
    backoff: int,                   // backoffRef
    interval: int,                  // reconnectIntervalRef
    closedIntentionally: bool,      // closedIntentionallyRef
    connectedToken: Option<string>, // connectedTokenRef
    storage: Option<string>,        // the stored access token
    sockets: seq<Socket>,           // every socket created so far
    timers: map<nat, int>,          // pending timers with their delays
    nextTimer: nat,
    messages: nat)                  // messages passed to the subscribed handlers
  {
    /** The sockets whose events still reach the provider. */
    function Attached(): set<nat> {
      set i | 0 <= i < |sockets| && sockets[i].handled && sockets[i].phase != Closed
    }
  }

  const MAX_BACKOFF: int := 30000

  function Min(a: int, b: int): int {
    if a <= b then a else b
  }

  datatype Event =
    | TimerFired(timer: nat)
    | SocketOpened(socket: nat)
    | SocketMessage(socket: nat)
    | SocketErrored(socket: nat)
    | SocketClosed(socket: nat)
    | StorageWritten(stored: Option<string>)  // another tab changes the stored token
    | TokenNotified(token: Option<string>)    // the token listeners are called
    | Unmounted

  // ---------------------------------------------------------------------------------------------
  // The provider's callbacks
  // ---------------------------------------------------------------------------------------------

  function ClearTimer(p: Provider): Provider {
    if p.timerRef.Some? then p.(timers := p.timers - {p.timerRef.value}) else p
  }

  /** Replaces the pending timer by a new one and doubles the backoff. */
  function ScheduleReconnect(p: Provider): Provider {
    var c := ClearTimer(p);
    c.(timers := c.timers[c.nextTimer := c.backoff],
       timerRef := Some(c.nextTimer),
       nextTimer := c.nextTimer + 1,
       backoff := Min(c.backoff * 2, MAX_BACKOFF))
  }

  predicate IsToken(stored: Option<string>) {
    stored.Some? && stored.value != ""
  }

  function Connect(p: Provider): Provider {
    var q := p.(closedIntentionally := false);
    if !IsToken(q.storage) then ScheduleReconnect(q.(status := Disconnected))
    else
      q.(sockets := q.sockets + [Socket(q.storage.value, true, Opening)],
         ws := Some(|q.sockets|),
         connectedToken := q.storage,
         status := Connecting)
  }

  function CloseSocket(s: Socket): Socket {
    if s.phase == Closed then s else s.(phase := Closing)
  }

  function Teardown(p: Provider): Provider {
    var c := ClearTimer(p).(timerRef := None, ws := None);
    if p.ws.Some? && p.ws.value < |p.sockets|
    then c.(sockets := c.sockets[p.ws.value := CloseSocket(c.sockets[p.ws.value].(handled := false))])
    else c
  }

  function OnAccessTokenChange(p: Provider, token: Option<string>): Provider {
    if token.None? then
      Teardown(p.(closedIntentionally := true, connectedToken := None)).(status := Disconnected)
    else if token == p.connectedToken then p
    else Connect(Teardown(p.(backoff := p.interval)))
  }

  function OnClose(p: Provider): Provider {
    var q := p.(status := Disconnected, ws := None);
    if q.closedIntentionally then q else ScheduleReconnect(q)
  }

  // ---------------------------------------------------------------------------------------------
  // Transitions
  // ---------------------------------------------------------------------------------------------

  /** What the environment can do: fire a pending timer, or report on a socket that is not closed. */
  predicate Enabled(p: Provider, e: Event) {
    && p.mounted
    && match e
       case TimerFired(t) => t in p.timers
       case SocketOpened(s) => s < |p.sockets| && p.sockets[s].phase == Opening
       case SocketMessage(s) => s < |p.sockets| && p.sockets[s].phase == Open
       case SocketErrored(s) => s < |p.sockets| && p.sockets[s].phase != Closed
       case SocketClosed(s) => s < |p.sockets| && p.sockets[s].phase != Closed
       case _ => true
  }

  function WithPhase(p: Provider, s: nat, phase: Phase): Provider
    requires s < |p.sockets|
  {
    p.(sockets := p.sockets[s := p.sockets[s].(phase := phase)])
  }

  function Next(p: Provider, e: Event): Provider
    requires Enabled(p, e)
  {
    match e
    case TimerFired(t) => Connect(p.(timers := p.timers - {t}))
    case SocketOpened(s) =>
      var q := WithPhase(p, s, Open);
      if q.sockets[s].handled then q.(status := Connected, backoff := q.interval) else q
    case SocketMessage(s) =>
      if p.sockets[s].handled then p.(messages := p.messages + 1) else p
    case SocketErrored(s) => if p.sockets[s].handled then WithPhase(p, s, Closing) else p
    case SocketClosed(s) =>
      var q := WithPhase(p, s, Closed);
      if q.sockets[s].handled then OnClose(q) else q
    case StorageWritten(stored) => p.(storage := stored)
    case TokenNotified(token) => OnAccessTokenChange(p, token)
    case Unmounted =>
      var c := ClearTimer(p).(mounted := false, closedIntentionally := true);
      if c.ws.Some? && c.ws.value < |c.sockets|
      then c.(sockets := c.sockets[c.ws.value := CloseSocket(c.sockets[c.ws.value])])
      else c
  }

  /** The provider right after the mount effect has called `connect`. */
  function Mounted(storage: Option<string>, interval: int): Provider {
    Connect(Provider(true, Connecting, None, None, interval, interval, false, None, storage, [], map[], 0, 0))
  }

  /** The provider after a run; events that cannot happen in the current state are ignored. */
  function After(p: Provider, events: seq<Event>): Provider {
    if events == [] then p else Step(After(p, events[..|events| - 1]), events[|events| - 1])
  }

  function Step(p: Provider, e: Event): Provider {
    if Enabled(p, e) then Next(p, e) else p
  }
}
