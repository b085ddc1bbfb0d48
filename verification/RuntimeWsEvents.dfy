/** What each browser event does to the websocket hook, and what the application receives over a run. */
module RuntimeWsEvents {
  import opened Wrappers
  import opened RuntimeWs
  import opened RuntimeWsSafety

  // ----- Messages -----

  /** The application receives a message that is no pong, on the current socket. */
  predicate Reaches(h: Hook, e: Event) {
    e.Receives? && !e.pong && h.socketRef == Some(e.i)
  }

  /** What the application receives from an event. */
  function Receipt(h: Hook, e: Event): seq<nat> {
    if Reaches(h, e) then [e.i] else []
  }

  /** Every such message is passed on once, and nothing else is. */
  lemma DeliveredExactly(h: Hook, e: Event)
    requires Inv(h) && Enabled(h, e)
    ensures Step(h, e).delivered == h.delivered + Receipt(h, e)
  {
  }

  /** What the application receives from a run. */
  ghost function Receipts(h: Hook, events: seq<Event>): seq<nat>
    decreases |events|
  {
    if events == [] || !Enabled(h, events[0]) then [] else Receipt(h, events[0]) + Receipts(Step(h, events[0]), events[1..])
  }

  /** Over a run the application receives the messages of the current sockets that are no pongs, in their order. */
  lemma {:induction false} DeliveredInOrder(h: Hook, events: seq<Event>, h': Hook)
    requires Inv(h) && Run(h, events, h')
    ensures h'.delivered == h.delivered + Receipts(h, events)
    decreases |events|
  {
    if events != [] {
      StepKeepsInv(h, events[0]);
      DeliveredExactly(h, events[0]);
      DeliveredInOrder(Step(h, events[0]), events[1..], h');
    }
  }

  // ----- Signs of life -----

  /** The current socket opens, or receives a pong. */
  predicate ShowsLife(h: Hook, e: Event) {
    || (e.Opens? && h.socketRef == Some(e.i))
    || (e.Receives? && e.pong && h.socketRef == Some(e.i))
  }

  /** The silence is measured from the last of these. */
  lemma SilenceStartsAtLife(h: Hook, e: Event)
    requires Inv(h) && Enabled(h, e)
    ensures Step(h, e).lastPongAt == if ShowsLife(h, e) then h.now else h.lastPongAt
    ensures Step(h, e).hasConnected <==> h.hasConnected || (e.Opens? && h.socketRef == Some(e.i))
  {
  }

  // ----- Opening, closing and reconnecting -----

  /** The wait before the k-th reconnect since the last open. */
  function ListedWait(k: nat): int {
    if k == 0 then 1_000 else if k == 1 then 2_000 else if k == 2 then 5_000 else if k == 3 then 10_000 else 15_000
  }

  lemma WaitsAreListed(h: Hook, events: seq<Event>, h': Hook)
    requires Initial(h) && Run(h, events, h')
    ensures forall k | 0 <= k < |h'.waits| :: h'.waits[k] == ListedWait(k)
  {
    RunKeepsInv(h, events, h');
  }

  /** When the current socket closes, the heartbeat stops and a reconnect is due after the next wait of the list. */
  lemma CloseSchedulesReconnect(h: Hook, i: nat)
    requires Inv(h) && h.mounted && h.socketRef == Some(i) && Enabled(h, Closes(i))
    ensures var h', wait := Step(h, Closes(i)), ListedWait(|h.waits|);
      && h'.socketRef == None && h'.intervals == map[] && h'.reconnectTimerRef.Some?
      && h'.timeouts == map[h'.reconnectTimerRef.value := h.now + wait] && h'.waits == h.waits + [wait]
  {
    ClosesKeeps(h, i);
    var h' := Step(h, Closes(i));
    assert h'.intervals.Keys == {} && h'.timeouts.Keys == {h'.reconnectTimerRef.value};
  }

  /** The reconnect, like mounting, opens one new socket, which becomes the current one. */
  lemma ReconnectOpensOne(h: Hook, e: Event)
    requires Inv(h) && Enabled(h, e) && (e.Mount? || e.TimeoutFires?)
    ensures Step(h, e).sockets == h.sockets + [Socket(Connecting, true)] && Step(h, e).socketRef == Some(|h.sockets|)
    ensures Step(h, e).timeouts == map[] && Step(h, e).intervals == map[]
  {
    StepKeepsInv(h, e);
    NothingPends(Step(h, e));
  }

  /** When the current socket opens, its heartbeat is due in twenty seconds, and the waits start over. */
  lemma OpenStartsHeartbeat(h: Hook, i: nat)
    requires Inv(h) && h.socketRef == Some(i) && Enabled(h, Opens(i))
    ensures var h' := Step(h, Opens(i));
      && h'.heartbeatRef.Some? && h'.intervals == map[h'.heartbeatRef.value := h.now + 20_000]
      && h'.waits == [] && h'.reconnectAttempt == 0 && h'.socketRef == Some(i)
  {
    assert h.intervals.Keys == {};
  }

  /** A tick makes the next one due twenty seconds later. */
  lemma TicksAreRegular(h: Hook, t: nat)
    requires Inv(h) && Enabled(h, IntervalTicks(t))
    ensures Step(h, IntervalTicks(t)).intervals == h.intervals[t := h.intervals[t] + 20_000]
  {
  }

  /** The cleanup closes the current socket and takes its handlers off. */
  lemma CleanupCloses(h: Hook, i: nat)
    requires Inv(h) && h.mounted && h.socketRef == Some(i)
    ensures Step(h, Unmount).sockets == h.sockets[i := Socket(Closing, false)]
  {
  }

  /** What happens to a socket that is not current changes nothing but that socket. */
  lemma StaleSocketsAreIgnored(h: Hook, e: Event)
    requires Inv(h) && Enabled(h, e) && (e.Opens? || e.Receives? || e.Errs? || e.Closes?) && h.socketRef != Some(e.i)
    ensures Step(h, e) == h.(sockets := Step(h, e).sockets)
    ensures forall k | 0 <= k < |h.sockets| && k != e.i :: Step(h, e).sockets[k] == h.sockets[k]
  {
  }
}
