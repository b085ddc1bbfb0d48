/** The chat dispatch protocol as a transition system: any number of workers claim actions, run them on a thread
    pool and give up waiting after a timeout, while the abandoned threads keep running.

    Every database session of the worker is one atomic step. An action is named by its row number in the table. */
module ChatDispatch {
  import opened Wrappers

  datatype Status = Queued | Running | Completed | Failed

  datatype Target = Cocoon(id: string) | ChatGroup(id: string)

  /** A payload value: a number, or anything else as text. */
  datatype Value = Num(n: int) | Other(text: string)

  type Payload = map<string, Value>

  datatype Error = TimedOut(seconds: int, attempt: int, limit: int) | Raised(text: string)

  datatype Action = Action(
    target: Target, eventType: string, status: Status, payload: Payload,
    debounceUntil: Option<int>, queuedAt: int, startedAt: Option<int>, finishedAt: Option<int>, error: Option<Error>)

  datatype FailedRound = FailedRound(target: Target, action: nat, eventType: string, reason: string)

  const ATTEMPT := "chat_retry_attempt"
  const PARENT := "chat_retry_parent_action_id"

  /** `int(payload.get("chat_retry_attempt") or 1)`; only numbers are ever stored under this key. */
  function Attempt(p: Payload): int {
    if ATTEMPT in p && p[ATTEMPT].Num? && p[ATTEMPT].n != 0 then p[ATTEMPT].n else 1
  }

  /** `limit` is the worker's maximal number of attempts and `seconds` its timeout. The last five components are
      history: they record what happened and guide no step. */
  datatype State = State(
    limit: int,
    seconds: int,
    actions: seq<Action>,
    rounds: seq<FailedRound>,
    envelopes: seq<nat>,      // the queue
    submitted: set<nat>,      // handed to the pool, not picked up by a thread yet
    live: set<nat>,           // the runtime is running
    finished: set<nat>,       // the future is done
    waiting: set<nat>,        // a worker is waiting for the future
    starts: seq<nat>,         // every start of the runtime
    claims: nat,              // how many claims succeeded
    retryOf: map<nat, nat>,   // the action a retry was made for
    merged: set<nat>,         // the actions that a later message was merged into
    arrived: nat)             // the weight of everything that arrived from outside

  /** How the runtime ends. It looks at the status again before it writes anything: it completes an action that is
      still running, and it aborts, or returns without a trace, only when the action is not. */
  datatype Outcome = Completes | Aborts | Raises(text: string)

  datatype Event =
    | Arrive(action: Action)
    | Merge(id: nat, payload: Payload, debounceUntil: int)
    | Poll
    | Claim(id: nat, now: int)
    | ThreadStart(id: nat)
    | RuntimeEnd(id: nat, outcome: Outcome, now: int)
    | Collect(id: nat)
    | TimeOut(id: nat, now: int)

  // ----- Claiming -----

  predicate Ready(a: Action, now: int) {
    a.status == Queued && (a.debounceUntil.None? || a.debounceUntil.value <= now)
  }

  /** The debounce of every queued action is over. */
  ghost predicate DebounceOver(actions: seq<Action>, now: int) {
    forall i | 0 <= i < |actions| && actions[i].status == Queued :: Ready(actions[i], now)
  }

  /** `_has_prior_unfinished_chat_action` */
  predicate BlockedBy(a: Action, prior: Action) {
    && prior.target == a.target && prior.eventType == "chat"
    && (prior.status == Queued || prior.status == Running)
    && (prior.queuedAt < a.queuedAt || prior.startedAt.Some?)
  }

  predicate Blocked(actions: seq<Action>, id: nat)
    requires id < |actions|
  {
    exists j | 0 <= j < |actions| :: j != id && BlockedBy(actions[id], actions[j])
  }

  // ----- Steps -----

  /** The weight of an action: how often it and its retries can still be claimed. */
  function Weight(limit: int, a: Action): nat {
    if Attempt(a.payload) < limit then limit - Attempt(a.payload) + 1 else 1
  }

  function RetryPayload(parent: nat, a: Action): Payload {
    a.payload[ATTEMPT := Num(Attempt(a.payload) + 1)][PARENT := Num(parent)]
  }

  function Retry(parent: nat, a: Action, now: int): Action {
    Action(a.target, "chat", Queued, RetryPayload(parent, a), Some(now), now, None, None, None)
  }

  /** An action as the API queues it: not started, no retry of another action, and with a positive attempt number
      if it has one. */
  predicate FreshAction(a: Action) {
    && a.status == Queued && a.startedAt.None? && PARENT !in a.payload
    && (ATTEMPT in a.payload ==> a.payload[ATTEMPT].Num? && a.payload[ATTEMPT].n >= 1)
  }

  /** A new message of the target is merged into a chat action that is still queued, be it a retry: the payload is
      replaced, except for the attempt number. */
  predicate CanMerge(a: Action, payload: Payload) {
    && a.status == Queued && a.eventType == "chat"
    && ATTEMPT in payload && payload[ATTEMPT] == Num(Attempt(a.payload))
  }

  ghost predicate Enabled(s: State, e: Event) {
    match e
    case Arrive(a) => FreshAction(a)
    case Merge(id, payload, _) => id < |s.actions| && CanMerge(s.actions[id], payload)
    case Poll => true
    case Claim(id, now) => id < |s.actions| && Ready(s.actions[id], now) && !Blocked(s.actions, id)
    case ThreadStart(id) => id in s.submitted
    case RuntimeEnd(id, outcome, _) =>
      && id in s.live
      && (outcome.Completes? ==> id < |s.actions| && s.actions[id].status == Running)
      && (outcome.Aborts? ==> id < |s.actions| && s.actions[id].status != Running)
    case Collect(id) => id in s.waiting && id in s.finished
    case TimeOut(id, _) => id in s.waiting
  }

  function Step(s: State, e: Event): State {
    match e
    case Arrive(a) => s.(actions := s.actions + [a], envelopes := s.envelopes + [|s.actions|],
                         arrived := s.arrived + Weight(s.limit, a))
    case Merge(id, payload, debounceUntil) => AfterMerge(s, id, payload, debounceUntil)
    case Poll => AfterPoll(s)
    case Claim(id, now) => AfterClaim(s, id, now)
    case ThreadStart(id) => AfterThreadStart(s, id)
    case RuntimeEnd(id, outcome, now) => AfterRuntimeEnd(s, id, outcome, now)
    case Collect(id) => s.(waiting := s.waiting - {id})
    case TimeOut(id, now) => AfterTimeOut(s, id, now)
  }

  /** Merging a message moves the debounce too. */
  function AfterMerge(s: State, id: nat, payload: Payload, debounceUntil: int): State {
    if id < |s.actions| then
      s.(actions := s.actions[id := s.actions[id].(payload := payload, debounceUntil := Some(debounceUntil))],
         merged := s.merged + {id})
    else s
  }

  /** `consume_next`: an empty queue stays empty. */
  function Rest(envelopes: seq<nat>): seq<nat> {
    if envelopes == [] then [] else envelopes[1..]
  }

  function ClaimedRow(a: Action, now: int): Action {
    a.(status := Running, startedAt := if a.startedAt.Some? then a.startedAt else Some(now))
  }

  /** A poll that finds nothing to claim. */
  function AfterPoll(s: State): State {
    s.(envelopes := Rest(s.envelopes))
  }

  /** `process_next` up to `submit`; a consumed envelope does not choose the action. */
  function AfterClaim(s: State, id: nat, now: int): State {
    if id < |s.actions| then
      s.(actions := s.actions[id := ClaimedRow(s.actions[id], now)],
         envelopes := Rest(s.envelopes),
         submitted := s.submitted + {id}, waiting := s.waiting + {id}, claims := s.claims + 1)
    else s
  }

  /** `_run_action_session` up to the call of the runtime. */
  function AfterThreadStart(s: State, id: nat): State {
    var s' := s.(submitted := s.submitted - {id});
    if id >= |s.actions| || s.actions[id].status != Running then s'.(finished := s'.finished + {id})
    else s'.(live := s'.live + {id}, starts := s'.starts + [id])
  }

  /** The rest of `_run_action_session`. An exception marks the action as failed whatever its status is. */
  function AfterRuntimeEnd(s: State, id: nat, outcome: Outcome, now: int): State {
    var s' := s.(live := s.live - {id}, finished := s.finished + {id});
    if id >= |s.actions| then s'
    else
      var a := s.actions[id];
      match outcome
      case Completes => s'.(actions := s.actions[id := a.(status := Completed, finishedAt := Some(now))])
      case Aborts => s'
      case Raises(text) => s'.(actions := s.actions[id := a.(status := Failed, error := Some(Raised(text)))],
                               rounds := s.rounds + [FailedRound(a.target, id, a.eventType, text)])
  }

  function TimeOutError(s: State, a: Action): Error {
    TimedOut(s.seconds, Attempt(a.payload), s.limit)
  }

  /** `_handle_timed_out_action` */
  function AfterTimeOut(s: State, id: nat, now: int): State {
    var s' := s.(waiting := s.waiting - {id});
    if id >= |s.actions| || s.actions[id].status != Running then s'
    else
      var a := s.actions[id];
      var failed := s.actions[id := a.(status := Failed, error := Some(TimeOutError(s, a)), finishedAt := Some(now))];
      var s'' := s'.(rounds := s.rounds + [FailedRound(a.target, id, a.eventType, "timeout")]);
      if Attempt(a.payload) < s.limit then
        s''.(actions := failed + [Retry(id, a, now)], envelopes := s.envelopes + [|s.actions|],
             retryOf := s.retryOf[|s.actions| := id])
      else s''.(actions := failed)
  }

  // ----- Runs -----

  ghost predicate Run(s: State, events: seq<Event>, s': State)
    decreases |events|
  {
    if events == [] then s' == s
    else Enabled(s, events[0]) && Run(Step(s, events[0]), events[1..], s')
  }

  /** The events can happen one after another. */
  ghost predicate Possible(s: State, events: seq<Event>)
    decreases |events|
  {
    events != [] ==> Enabled(s, events[0]) && Possible(Step(s, events[0]), events[1..])
  }

  function After(s: State, events: seq<Event>): State
    decreases |events|
  {
    if events == [] then s else After(Step(s, events[0]), events[1..])
  }

  /** Nothing has happened yet; the table may hold queued actions. */
  ghost predicate Initial(s: State) {
    && s.submitted == s.live == s.finished == s.waiting == {}
    && s.starts == [] && s.claims == 0 && s.retryOf == map[] && s.merged == {} && s.arrived == TotalWeight(s.limit, s.actions)
    && forall i | 0 <= i < |s.actions| :: FreshAction(s.actions[i])
  }

  /** How many claims the actions that are not over can still lead to. A running action has used one of its own. */
  function Pending(limit: int, a: Action): nat {
    match a.status
    case Queued => Weight(limit, a)
    case Running => Weight(limit, a) - 1
    case Completed => 0
    case Failed => 0
  }

  function TotalWeight(limit: int, actions: seq<Action>): nat {
    if actions == [] then 0
    else TotalWeight(limit, actions[..|actions| - 1]) + Pending(limit, actions[|actions| - 1])
  }
}
