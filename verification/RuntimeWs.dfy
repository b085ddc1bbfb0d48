/** The reconnecting websocket hook as a transition system over browser events.

    `sockets`, `intervals` and `timeouts` are what the browser keeps; the other components of the state are the
    refs of the hook, and two logs of what it did. Browser handles and sockets are named by numbers. */
module RuntimeWs {
  import opened Wrappers

  const HEARTBEAT_INTERVAL_MS := 20_000
  const PONG_TIMEOUT_MS := 45_000
  const RECONNECT_DELAYS_MS := [1_000, 2_000, 5_000, 10_000, 15_000]

  datatype ReadyState = Connecting | Open | Closing | Closed

  /** `handlers` tells whether the four `on...` properties are still set. */
  datatype Socket = Socket(state: ReadyState, handlers: bool)

  datatype Hook = Hook(
    sockets: seq<Socket>,
    intervals: map<nat, int>,      // running intervals and when they tick next
    timeouts: map<nat, int>,       // pending timeouts and when they are due
    nextHandle: nat,
    now: int,
    socketRef: Option<nat>,
    heartbeatRef: Option<nat>,
    reconnectTimerRef: Option<nat>,
    reconnectAttempt: nat,
    closedByEffect: bool,
    hasConnected: bool,
    lastPongAt: int,
    mounted: bool,                 // the effect is active
    waits: seq<int>,               // reconnect waits since the last open
    delivered: seq<nat>)           // the sockets whose events reached `onEvent`

  datatype Event =
    | Mount                        // the effect runs, for an enabled hook with a target
    | Unmount                      // its cleanup runs
    | Opens(i: nat)
    | Receives(i: nat, pong: bool)
    | Errs(i: nat)
    | Closes(i: nat)
    | TimeoutFires(t: nat)
    | IntervalTicks(t: nat)
    | Advance(until: int)

  /** What the browser can do; a socket that is closed stays silent. */
  predicate Enabled(h: Hook, e: Event) {
    match e
    case Mount => !h.mounted
    case Unmount => h.mounted
    case Opens(i) => i < |h.sockets| && h.sockets[i].state == Connecting
    case Receives(i, _) => i < |h.sockets| && h.sockets[i].state == Open
    case Errs(i) => i < |h.sockets| && h.sockets[i].state != Closed
    case Closes(i) => i < |h.sockets| && h.sockets[i].state != Closed
    case TimeoutFires(t) => t in h.timeouts && h.timeouts[t] <= h.now
    case IntervalTicks(t) => t in h.intervals && h.intervals[t] <= h.now
    case Advance(until) => h.now <= until
  }

  function Step(h: Hook, e: Event): Hook
    requires Enabled(h, e)
  {
    match e
    case Mount => OpenSocket(h.(closedByEffect := false, mounted := true))
    case Unmount => CleanUp(h)
    case Opens(i) =>
      var h' := h.(sockets := h.sockets[i := h.sockets[i].(state := Open)]);
      if h.sockets[i].handlers then OnOpen(h', i) else h'
    case Receives(i, pong) => if h.sockets[i].handlers then OnMessage(h, i, pong) else h
    case Errs(i) => h
    case Closes(i) =>
      var h' := h.(sockets := h.sockets[i := h.sockets[i].(state := Closed)]);
      if h.sockets[i].handlers then OnClose(h', i) else h'
    case TimeoutFires(t) => OpenSocket(h.(timeouts := h.timeouts - {t}, reconnectTimerRef := None))
    case IntervalTicks(t) => Heartbeat(h.(intervals := h.intervals[t := h.intervals[t] + HEARTBEAT_INTERVAL_MS]))
    case Advance(until) => h.(now := until)
  }

  // ----- The functions inside the effect -----

  function ClearHeartbeat(h: Hook): Hook {
    if h.heartbeatRef.Some? then h.(intervals := h.intervals - {h.heartbeatRef.value}, heartbeatRef := None) else h
  }

  function ClearReconnectTimer(h: Hook): Hook {
    if h.reconnectTimerRef.Some? then h.(timeouts := h.timeouts - {h.reconnectTimerRef.value}, reconnectTimerRef := None) else h
  }

  function Delay(attempt: nat): int {
    RECONNECT_DELAYS_MS[if attempt < 4 then attempt else 4]
  }

  function ScheduleReconnect(h: Hook): Hook {
    if h.closedByEffect || h.reconnectTimerRef.Some? then h
    else
      var delay := Delay(h.reconnectAttempt);
      h.(reconnectAttempt := h.reconnectAttempt + 1, waits := h.waits + [delay],
         timeouts := h.timeouts[h.nextHandle := h.now + delay], reconnectTimerRef := Some(h.nextHandle),
         nextHandle := h.nextHandle + 1)
  }

  /** Takes the handlers off a socket and closes it; `close` on a closed socket does nothing. */
  function Abandon(sockets: seq<Socket>, ref: Option<nat>): seq<Socket> {
    if ref.Some? && ref.value < |sockets| then
      sockets[ref.value := Socket(if sockets[ref.value].state == Closed then Closed else Closing, false)]
    else sockets
  }

  function OpenSocket(h: Hook): Hook {
    var h' := ClearReconnectTimer(ClearHeartbeat(h));
    h'.(sockets := Abandon(h.sockets, h.socketRef) + [Socket(Connecting, true)], socketRef := Some(|h.sockets|))
  }

  function OnOpen(h: Hook, i: nat): Hook {
    if h.socketRef != Some(i) then h
    else
      h.(reconnectAttempt := 0, waits := [], lastPongAt := h.now, hasConnected := true,
         intervals := h.intervals[h.nextHandle := h.now + HEARTBEAT_INTERVAL_MS], heartbeatRef := Some(h.nextHandle),
         nextHandle := h.nextHandle + 1)
  }

  function OnMessage(h: Hook, i: nat, pong: bool): Hook {
    if h.socketRef != Some(i) then h
    else if pong then h.(lastPongAt := h.now)
    else h.(delivered := h.delivered + [i])
  }

  function OnClose(h: Hook, i: nat): Hook {
    var h' := ClearHeartbeat(if h.socketRef == Some(i) then h.(socketRef := None) else h);
    if !h.closedByEffect then ScheduleReconnect(h') else h'
  }

  /** The heartbeat's tick: closes a socket whose last pong is too old, and otherwise sends a ping. */
  function Heartbeat(h: Hook): Hook {
    if h.socketRef.None? || h.socketRef.value >= |h.sockets| || h.sockets[h.socketRef.value].state != Open then h
    else if h.now - h.lastPongAt > PONG_TIMEOUT_MS then
      h.(sockets := h.sockets[h.socketRef.value := h.sockets[h.socketRef.value].(state := Closing)])
    else h
  }

  /** The cleanup of the effect. */
  function CleanUp(h: Hook): Hook {
    var h' := ClearReconnectTimer(ClearHeartbeat(h.(closedByEffect := true, mounted := false)));
    h'.(sockets := Abandon(h.sockets, h.socketRef), socketRef := None)
  }

  // ----- Runs -----

  ghost predicate Run(h: Hook, events: seq<Event>, h': Hook)
    decreases |events|
  {
    if events == [] then h' == h
    else Enabled(h, events[0]) && Run(Step(h, events[0]), events[1..], h')
  }

  /** A component that has just been created. */
  predicate Initial(h: Hook) {
    && h.sockets == [] && h.intervals == map[] && h.timeouts == map[] && h.waits == [] && h.delivered == []
    && h.socketRef == h.heartbeatRef == h.reconnectTimerRef == None
    && h.reconnectAttempt == 0 && !h.closedByEffect && !h.hasConnected && !h.mounted && h.lastPongAt == h.now
  }
}
