/** What the websocket hook keeps, whatever the browser does and in whatever order. */
module RuntimeWsSafety {
  import opened Wrappers
  import opened RuntimeWs

  function Refs(ref: Option<nat>): set<nat> {
    if ref.Some? then {ref.value} else {}
  }

  /** The browser runs exactly the timers the refs name. */
  ghost predicate TimersSound(h: Hook) {
    && h.timeouts.Keys == Refs(h.reconnectTimerRef)
    && h.intervals.Keys == Refs(h.heartbeatRef)
  }

  /** Only the current socket can still call the hook, and it can. */
  ghost predicate SocketsSound(h: Hook) {
    && (h.socketRef.Some? ==> h.socketRef.value < |h.sockets| && CanCall(h.sockets[h.socketRef.value]))
    && (forall i | 0 <= i < |h.sockets| :: CanCall(h.sockets[i]) ==> h.socketRef == Some(i))
  }

  predicate CanCall(s: Socket) {
    s.handlers && s.state != Closed
  }

  predicate HasCurrent(h: Hook) {
    h.socketRef.Some? && h.socketRef.value < |h.sockets|
  }

  function Current(h: Hook): Socket
    requires HasCurrent(h)
  {
    h.sockets[h.socketRef.value]
  }

  /** A heartbeat runs only for a current socket that has opened, and always for one that is open. */
  ghost predicate HeartbeatSound(h: Hook) {
    && (h.heartbeatRef.Some? ==> HasCurrent(h) && Current(h).state != Connecting)
    && (HasCurrent(h) && Current(h).state == Open ==> h.heartbeatRef.Some?)
  }

  /** While the effect is active there is exactly one of a current socket and a pending reconnect; afterwards
      there is neither. */
  ghost predicate EffectSound(h: Hook) {
    if h.mounted then !h.closedByEffect && (h.socketRef.Some? <==> h.reconnectTimerRef.None?)
    else h.socketRef == None && h.reconnectTimerRef == None && h.heartbeatRef == None
  }

  /** The waits since the last open are the delays in their order. */
  ghost predicate WaitsSound(h: Hook) {
    |h.waits| == h.reconnectAttempt && forall k | 0 <= k < |h.waits| :: h.waits[k] == Delay(k)
  }

  ghost predicate Inv(h: Hook) {
    TimersSound(h) && SocketsSound(h) && HeartbeatSound(h) && EffectSound(h) && WaitsSound(h)
  }

  /** `openSocket` may be called: on mounting, and when a reconnect timer fires. */
  ghost predicate CanOpen(h: Hook) {
    TimersSound(h) && SocketsSound(h) && WaitsSound(h) && h.mounted && !h.closedByEffect
  }

  lemma OpenSocketKeeps(h: Hook)
    requires CanOpen(h)
    ensures Inv(OpenSocket(h))
  {
  }

  lemma NothingPends(h: Hook)
    requires TimersSound(h) && h.reconnectTimerRef.None? && h.heartbeatRef.None?
    ensures h.timeouts == map[] && h.intervals == map[]
  {
    assert h.timeouts.Keys == {} && h.intervals.Keys == {};
  }

  lemma CleanUpKeeps(h: Hook)
    requires Inv(h)
    ensures Inv(CleanUp(h))
  {
  }

  lemma OpensKeeps(h: Hook, i: nat)
    requires Inv(h) && Enabled(h, Opens(i))
    ensures Inv(Step(h, Opens(i)))
  {
  }

  lemma ClosesKeeps(h: Hook, i: nat)
    requires Inv(h) && Enabled(h, Closes(i))
    ensures Inv(Step(h, Closes(i)))
  {
  }

  lemma TickKeeps(h: Hook, t: nat)
    requires Inv(h) && Enabled(h, IntervalTicks(t))
    ensures Inv(Step(h, IntervalTicks(t)))
  {
  }

  lemma StepKeepsInv(h: Hook, e: Event)
    requires Inv(h) && Enabled(h, e)
    ensures Inv(Step(h, e))
  {
    match e {
      case Mount => OpenSocketKeeps(h.(closedByEffect := false, mounted := true));
      case Unmount => CleanUpKeeps(h);
      case Opens(i) => OpensKeeps(h, i);
      case Receives(i, pong) =>
      case Errs(i) =>
      case Closes(i) => ClosesKeeps(h, i);
      case TimeoutFires(t) => OpenSocketKeeps(h.(timeouts := h.timeouts - {t}, reconnectTimerRef := None));
      case IntervalTicks(t) => TickKeeps(h, t);
      case Advance(until) =>
    }
  }

  lemma {:induction false} RunKeepsInv(h: Hook, events: seq<Event>, h': Hook)
    requires Inv(h) && Run(h, events, h')
    ensures Inv(h')
    decreases |events|
  {
    if events != [] {
      StepKeepsInv(h, events[0]);
      RunKeepsInv(Step(h, events[0]), events[1..], h');
    }
  }

  /** After any run from a new component: while the effect is active exactly one of a current socket and a pending
      reconnect exists; no other socket can call the hook; the browser runs at most one heartbeat, and only for a
      current socket that has opened. */
  lemma OneConnectionAtATime(h: Hook, events: seq<Event>, h': Hook)
    requires Initial(h) && Run(h, events, h')
    ensures h'.mounted ==> (h'.socketRef.Some? <==> h'.timeouts == map[])
    ensures |h'.timeouts| <= 1 && |h'.intervals| <= 1
    ensures forall i | 0 <= i < |h'.sockets| && CanCall(h'.sockets[i]) :: h'.socketRef == Some(i)
    ensures h'.intervals != map[] ==> HasCurrent(h') && (Current(h').state == Open || Current(h').state == Closing)
  {
    RunKeepsInv(h, events, h');
    assert h'.timeouts.Keys == Refs(h'.reconnectTimerRef) && h'.intervals.Keys == Refs(h'.heartbeatRef);
  }

  // ----- After the cleanup -----

  /** Nothing is left that could call the hook: no timer, no socket with handlers, no ref. */
  ghost predicate Quiet(h: Hook) {
    && !h.mounted && h.timeouts == map[] && h.intervals == map[]
    && h.socketRef == h.heartbeatRef == h.reconnectTimerRef == None
    && forall i | 0 <= i < |h.sockets| :: !CanCall(h.sockets[i])
  }

  lemma CleanupQuiets(h: Hook)
    requires Inv(h) && h.mounted
    ensures Quiet(Step(h, Unmount))
  {
    CleanUpKeeps(h);
    var h' := Step(h, Unmount);
    assert h'.timeouts.Keys == {} && h'.intervals.Keys == {};
  }

  /** After the cleanup no late event brings anything back or reaches the application, until the effect runs again. */
  lemma {:induction false} LateEventsDoNothing(h: Hook, events: seq<Event>, h': Hook)
    requires Quiet(h) && Run(h, events, h')
    requires forall k | 0 <= k < |events| :: !events[k].Mount?
    ensures Quiet(h') && h'.delivered == h.delivered && |h'.sockets| == |h.sockets|
    decreases |events|
  {
    if events != [] {
      assert !events[0].Mount?;
      LateEventsDoNothing(Step(h, events[0]), events[1..], h');
    }
  }

  // ----- Backoff -----

  /** Until an open resets them, the waits never decrease, and no wait is longer than 15 seconds. */
  lemma WaitsNeverDecrease(h: Hook, events: seq<Event>, h': Hook)
    requires Initial(h) && Run(h, events, h')
    ensures forall j, k | 0 <= j <= k < |h'.waits| :: 1_000 <= h'.waits[j] <= h'.waits[k] <= 15_000
  {
    RunKeepsInv(h, events, h');
  }

  // ----- Timing -----

  /** Intervals tick on time: the clock never passes the next tick of a running interval. */
  ghost predicate Punctual(h: Hook, e: Event) {
    e.Advance? ==> forall t | t in h.intervals :: e.until <= h.intervals[t]
  }

  ghost predicate PunctualRun(h: Hook, events: seq<Event>)
    decreases |events|
  {
    events != [] && Enabled(h, events[0]) ==> Punctual(h, events[0]) && PunctualRun(Step(h, events[0]), events[1..])
  }

  /** The next tick comes at most 65 seconds after the last pong of an open socket. */
  ghost predicate Timely(h: Hook) {
    && h.lastPongAt <= h.now
    && forall t | t in h.intervals :: h.now <= h.intervals[t]
         && (HasCurrent(h) && Current(h).state == Open ==> h.intervals[t] <= h.lastPongAt + PONG_TIMEOUT_MS + HEARTBEAT_INTERVAL_MS)
  }

  lemma StepKeepsTimely(h: Hook, e: Event)
    requires Inv(h) && Timely(h) && Enabled(h, e) && Punctual(h, e)
    ensures Timely(Step(h, e))
  {
  }

  lemma {:induction false} RunKeepsTimely(h: Hook, events: seq<Event>, h': Hook)
    requires Inv(h) && Timely(h) && Run(h, events, h') && PunctualRun(h, events)
    ensures Inv(h') && Timely(h')
    decreases |events|
  {
    if events != [] {
      StepKeepsInv(h, events[0]);
      StepKeepsTimely(h, events[0]);
      RunKeepsTimely(Step(h, events[0]), events[1..], h');
    }
  }

  /** With punctual ticks a current socket is only still open if its last pong, or its opening, is at most 65
      seconds ago: by then the heartbeat has told it to close. */
  lemma SilentSocketsAreClosed(h: Hook, events: seq<Event>, h': Hook)
    requires Initial(h) && Run(h, events, h') && PunctualRun(h, events)
    ensures HasCurrent(h') && Current(h').state == Open ==> h'.now - h'.lastPongAt <= 65_000
  {
    RunKeepsTimely(h, events, h');
  }

  /** Only a heartbeat tells the current socket to close while it stays current, and only when its last pong is
      more than 45 seconds ago; and then the heartbeat does. */
  lemma OnlySilenceCloses(h: Hook, e: Event)
    requires Inv(h) && Enabled(h, e) && HasCurrent(h) && Current(h).state == Open
    ensures Step(h, e).socketRef == h.socketRef && Step(h, e).sockets[h.socketRef.value].state == Closing
      <==> e.IntervalTicks? && h.now - h.lastPongAt > 45_000
  {
  }
}
