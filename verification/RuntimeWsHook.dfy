/** The hook itself: the functions of the effect, updating the refs and the browser's timers in place. */
module RuntimeWsHook {
  import opened Wrappers
  import opened RuntimeWs
  import opened RuntimeWsSafety
  import opened RuntimeWsEvents

  class UseRuntimeWs {
    var sockets: seq<Socket>
    var intervals: map<nat, int>
    var timeouts: map<nat, int>
    var nextHandle: nat
    var now: int
    var socketRef: Option<nat>
    var heartbeatRef: Option<nat>
    var reconnectTimerRef: Option<nat>
    var reconnectAttempt: nat
    var closedByEffect: bool
    var hasConnected: bool
    var lastPongAt: int
    var mounted: bool
    ghost var waits: seq<int>
    ghost var delivered: seq<nat>

    ghost function Snapshot(): Hook
      reads this
    {
      Hook(sockets, intervals, timeouts, nextHandle, now, socketRef, heartbeatRef, reconnectTimerRef, reconnectAttempt,
           closedByEffect, hasConnected, lastPongAt, mounted, waits, delivered)
    }

    constructor (startedAt: int)
      ensures Initial(Snapshot()) && now == startedAt
    {
      sockets, intervals, timeouts, nextHandle, now := [], map[], map[], 0, startedAt;
      socketRef, heartbeatRef, reconnectTimerRef, reconnectAttempt := None, None, None, 0;
      closedByEffect, hasConnected, lastPongAt, mounted := false, false, startedAt, false;
      waits, delivered := [], [];
    }

    method ClearHeartbeatTimer()
      modifies `intervals, `heartbeatRef
      ensures Snapshot() == ClearHeartbeat(old(Snapshot()))
    {
      if heartbeatRef.Some? {
        intervals := intervals - {heartbeatRef.value};
        heartbeatRef := None;
      }
    }

    method ClearReconnect()
      modifies `timeouts, `reconnectTimerRef
      ensures Snapshot() == ClearReconnectTimer(old(Snapshot()))
    {
      if reconnectTimerRef.Some? {
        timeouts := timeouts - {reconnectTimerRef.value};
        reconnectTimerRef := None;
      }
    }

    method StopTimers()
      modifies `intervals, `heartbeatRef, `timeouts, `reconnectTimerRef
      ensures Snapshot() == ClearReconnectTimer(ClearHeartbeat(old(Snapshot())))
    {
      ClearHeartbeatTimer();
      ClearReconnect();
    }

    method Schedule()
      modifies `timeouts, `reconnectTimerRef, `reconnectAttempt, `nextHandle, `waits
      ensures Snapshot() == ScheduleReconnect(old(Snapshot()))
    {
      if closedByEffect || reconnectTimerRef.Some? {
        return;
      }
      var attempt := reconnectAttempt;
      var last := |RECONNECT_DELAYS_MS| - 1;
      var delay := RECONNECT_DELAYS_MS[if attempt < last then attempt else last];
      reconnectAttempt := attempt + 1;
      reconnectTimerRef := Some(nextHandle);
      timeouts := timeouts[nextHandle := now + delay];
      nextHandle := nextHandle + 1;
      waits := waits + [delay];
    }

    /** Takes the handlers off the current socket, if there is one, and closes it. */
    method AbandonCurrent()
      modifies `sockets
      ensures sockets == Abandon(old(sockets), socketRef)
    {
      if socketRef.Some? && socketRef.value < |sockets| {
        var state := sockets[socketRef.value].state;
        sockets := sockets[socketRef.value := Socket(if state == Closed then Closed else Closing, false)];
      }
    }

    /** `openSocket`: the new socket is the only one that can still call the hook, and no timer is left. */
    method Open()
      modifies `sockets, `intervals, `timeouts, `socketRef, `heartbeatRef, `reconnectTimerRef
      ensures Snapshot() == OpenSocket(old(Snapshot()))
      ensures old(CanOpen(Snapshot())) ==> Inv(Snapshot()) && timeouts == map[] && intervals == map[]
      ensures old(CanOpen(Snapshot())) ==> forall i | 0 <= i < |sockets| :: CanCall(sockets[i]) <==> i == |old(sockets)|
    {
      ghost var h := Snapshot();
      if CanOpen(h) {
        OpenSocketKeeps(h);
        NothingPends(OpenSocket(h));
      }
      StopTimers();
      AbandonCurrent();
      socketRef := Some(|sockets|);
      sockets := sockets + [Socket(Connecting, true)];
    }

    /** `onOpen`: nothing for a replaced socket; for the current one, the heartbeat is the only interval, its first tick
        is due in twenty seconds, and the next reconnect waits one second again. */
    method HandleOpen(i: nat)
      modifies `intervals, `heartbeatRef, `nextHandle, `reconnectAttempt, `hasConnected, `lastPongAt, `waits
      ensures Snapshot() == OnOpen(old(Snapshot()), i)
      ensures socketRef != Some(i) ==> Snapshot() == old(Snapshot())
      ensures socketRef == Some(i) && old(heartbeatRef.None? && TimersSound(Snapshot())) ==>
                heartbeatRef.Some? && intervals == map[heartbeatRef.value := now + 20_000]
      ensures socketRef == Some(i) ==> lastPongAt == now && Delay(reconnectAttempt) == 1_000 && WaitsSound(Snapshot())
    {
      if socketRef != Some(i) {
        return;
      }
      ResetBackoff();
      lastPongAt, hasConnected := now, true;
      StartHeartbeat();
    }

    method ResetBackoff()
      modifies `reconnectAttempt, `waits
      ensures reconnectAttempt == 0 && waits == []
    {
      reconnectAttempt, waits := 0, [];
    }

    /** `setInterval` for the heartbeat. */
    method StartHeartbeat()
      modifies `intervals, `heartbeatRef, `nextHandle
      ensures heartbeatRef == Some(old(nextHandle)) && nextHandle == old(nextHandle) + 1
      ensures intervals == old(intervals)[old(nextHandle) := now + HEARTBEAT_INTERVAL_MS]
    {
      heartbeatRef := Some(nextHandle);
      intervals := intervals[nextHandle := now + HEARTBEAT_INTERVAL_MS];
      nextHandle := nextHandle + 1;
    }

    method HandleMessage(i: nat, pong: bool)
      modifies `lastPongAt, `delivered
      ensures Snapshot() == OnMessage(old(Snapshot()), i, pong)
      ensures socketRef != Some(i) ==> Snapshot() == old(Snapshot())
      ensures socketRef == Some(i) && pong ==> lastPongAt == now && delivered == old(delivered)
      ensures socketRef == Some(i) && !pong ==> lastPongAt == old(lastPongAt) && delivered == old(delivered) + [i]
    {
      if socketRef != Some(i) {
        return;
      }
      if pong {
        lastPongAt := now;
        return;
      }
      delivered := delivered + [i];
    }

    /** `onClose`: the socket is no longer current, no heartbeat is left, and while the effect is active a reconnect is
        pending, due after a wait of at most fifteen seconds unless one was pending before. */
    method HandleClose(i: nat)
      modifies `intervals, `timeouts, `socketRef, `heartbeatRef, `reconnectTimerRef, `reconnectAttempt, `nextHandle, `waits
      ensures Snapshot() == OnClose(old(Snapshot()), i)
      ensures socketRef != Some(i) && heartbeatRef.None?
      ensures old(TimersSound(Snapshot())) ==> TimersSound(Snapshot()) && intervals == map[]
      ensures !closedByEffect ==> reconnectTimerRef.Some?
      ensures closedByEffect || old(reconnectTimerRef.Some?) ==> timeouts == old(timeouts) && waits == old(waits)
      ensures !closedByEffect && old(reconnectTimerRef.None?) ==>
                exists wait :: 1_000 <= wait <= 15_000 && waits == old(waits) + [wait]
                  && reconnectTimerRef.value in timeouts && timeouts[reconnectTimerRef.value] == now + wait
    {
      if socketRef == Some(i) {
        socketRef := None;
      }
      ClearHeartbeatTimer();
      if !closedByEffect {
        Schedule();
      }
    }

    method HandleTick()
      modifies `sockets
      ensures Snapshot() == Heartbeat(old(Snapshot()))
      ensures |sockets| == |old(sockets)|
      ensures forall k | 0 <= k < |sockets| && sockets[k] != old(sockets)[k] ::
                socketRef == Some(k) && sockets[k].state == Closing && now - lastPongAt > 45_000
    {
      if socketRef.None? || socketRef.value >= |sockets| || sockets[socketRef.value].state != ReadyState.Open {
        return;
      }
      if now - lastPongAt > PONG_TIMEOUT_MS {
        sockets := sockets[socketRef.value := sockets[socketRef.value].(state := Closing)];
      }
    }

    method RunEffect()
      requires !mounted
      modifies this
      ensures Snapshot() == Step(old(Snapshot()), Mount)
    {
      closedByEffect, mounted := false, true;
      Open();
    }

    /** The cleanup leaves nothing that could call the hook. */
    method RunCleanup()
      requires mounted
      modifies `closedByEffect, `mounted, `sockets, `intervals, `timeouts, `socketRef, `heartbeatRef, `reconnectTimerRef
      ensures Snapshot() == Step(old(Snapshot()), Unmount)
      ensures old(Inv(Snapshot())) ==> Quiet(Snapshot())
    {
      ghost var h := Snapshot();
      Disconnect();
      if Inv(h) {
        CleanupQuiets(h);
      }
    }

    method Disconnect()
      modifies `closedByEffect, `mounted, `sockets, `intervals, `timeouts, `socketRef, `heartbeatRef, `reconnectTimerRef
      ensures Snapshot() == CleanUp(old(Snapshot()))
    {
      ghost var h := Snapshot();
      closedByEffect, mounted := true, false;
      assert Snapshot() == h.(closedByEffect := true, mounted := false);
      StopTimers();
      LetGo();
    }

    method LetGo()
      modifies `sockets, `socketRef
      ensures sockets == Abandon(old(sockets), old(socketRef)) && socketRef == None
    {
      AbandonCurrent();
      socketRef := None;
    }

    /** A socket fires an event; it reaches the hook only through handlers that are still set. */
    method SocketFires(e: Event)
      requires Enabled(Snapshot(), e) && (e.Opens? || e.Receives? || e.Errs? || e.Closes?)
      modifies this
      ensures Snapshot() == Step(old(Snapshot()), e)
    {
      SetState(e);
      if sockets[e.i].handlers {
        match e {
          case Opens(i) => HandleOpen(i);
          case Receives(i, pong) => HandleMessage(i, pong);
          case Errs(i) =>
          case Closes(i) => HandleClose(i);
        }
      }
    }

    /** The browser's side of a socket event. */
    method SetState(e: Event)
      requires Enabled(Snapshot(), e) && (e.Opens? || e.Receives? || e.Errs? || e.Closes?)
      modifies `sockets
      ensures e.Opens? ==> sockets == old(sockets)[e.i := old(sockets)[e.i].(state := ReadyState.Open)]
      ensures e.Closes? ==> sockets == old(sockets)[e.i := old(sockets)[e.i].(state := Closed)]
      ensures e.Receives? || e.Errs? ==> sockets == old(sockets)
    {
      if e.Opens? {
        sockets := sockets[e.i := sockets[e.i].(state := ReadyState.Open)];
      } else if e.Closes? {
        sockets := sockets[e.i := sockets[e.i].(state := Closed)];
      }
    }

    /** A timer fires, or time passes. */
    method ClockFires(e: Event)
      requires Enabled(Snapshot(), e) && (e.TimeoutFires? || e.IntervalTicks? || e.Advance?)
      modifies this
      ensures Snapshot() == Step(old(Snapshot()), e)
    {
      match e {
        case TimeoutFires(t) =>
          timeouts, reconnectTimerRef := timeouts - {t}, None;
          Open();
        case IntervalTicks(t) =>
          intervals := intervals[t := intervals[t] + HEARTBEAT_INTERVAL_MS];
          HandleTick();
        case Advance(until) => now := until;
      }
    }

    /** Any event, in any order, keeps what the hook promises. */
    method Deliver(e: Event)
      requires Inv(Snapshot()) && Enabled(Snapshot(), e)
      modifies this
      ensures Snapshot() == Step(old(Snapshot()), e)
      ensures Inv(Snapshot())
      ensures delivered == old(delivered) + if e.Receives? && !e.pong && old(socketRef) == Some(e.i) then [e.i] else []
      ensures lastPongAt == if old(ShowsLife(Snapshot(), e)) then old(now) else old(lastPongAt)
    {
      StepKeepsInv(Snapshot(), e);
      DeliveredExactly(Snapshot(), e);
      SilenceStartsAtLife(Snapshot(), e);
      match e {
        case Mount => RunEffect();
        case Unmount => RunCleanup();
        case Opens(_) => SocketFires(e);
        case Receives(_, _) => SocketFires(e);
        case Errs(_) => SocketFires(e);
        case Closes(_) => SocketFires(e);
        case TimeoutFires(_) => ClockFires(e);
        case IntervalTicks(_) => ClockFires(e);
        case Advance(_) => ClockFires(e);
      }
    }
  }
}
