/** The worker itself: the same steps, taken by methods that update the tables, the queue and the pool. */
module ChatDispatchWorker {
  import opened Wrappers
  import opened ChatDispatch
  import opened ChatDispatchSafety

  datatype AuditRun = AuditRun(action: nat, startedAt: int, status: Status, finishedAt: Option<int>)

  predicate Names(actions: seq<Action>, candidates: seq<nat>) {
    forall i | 0 <= i < |candidates| :: candidates[i] < |actions|
  }

  ghost predicate CandidatesReady(actions: seq<Action>, candidates: seq<nat>, now: int) {
    forall i | 0 <= i < |candidates| :: candidates[i] < |actions| && Ready(actions[candidates[i]], now)
  }

  /** What the database answers to the claim query: at most fifty ready actions, oldest first, none left out
      that is older than one of them. */
  ghost predicate IsCandidateQuery(actions: seq<Action>, candidates: seq<nat>, now: int) {
    && |candidates| <= 50
    && CandidatesReady(actions, candidates, now)
    && (forall i, j | 0 <= i < j < |candidates| ::
          candidates[i] != candidates[j] && actions[candidates[i]].queuedAt <= actions[candidates[j]].queuedAt)
    && (forall k | 0 <= k < |actions| && Ready(actions[k], now) && k !in candidates ::
          |candidates| == 50 && forall i | 0 <= i < |candidates| :: actions[candidates[i]].queuedAt <= actions[k].queuedAt)
  }

  /** The first candidate that nothing blocks. */
  ghost function FirstUnblocked(actions: seq<Action>, candidates: seq<nat>): (first: Option<nat>)
    requires Names(actions, candidates)
    ensures first.None? ==> forall i | 0 <= i < |candidates| :: Blocked(actions, candidates[i])
    ensures first.Some? ==> first.value in candidates && first.value < |actions| && !Blocked(actions, first.value)
  {
    if candidates == [] then None
    else if !Blocked(actions, candidates[0]) then Some(candidates[0])
    else FirstUnblocked(actions, candidates[1..])
  }

  /** The candidate at this position is claimed: it is the first that nothing blocks. */
  ghost predicate FirstAt(actions: seq<Action>, candidates: seq<nat>, i: int)
    requires Names(actions, candidates)
  {
    && 0 <= i < |candidates| && !Blocked(actions, candidates[i])
    && forall j | 0 <= j < i :: Blocked(actions, candidates[j])
  }

  lemma {:induction false} FirstUnblockedIsFirst(actions: seq<Action>, candidates: seq<nat>, i: nat)
    requires Names(actions, candidates) && FirstAt(actions, candidates, i)
    ensures FirstUnblocked(actions, candidates) == Some(candidates[i])
  {
    if i > 0 {
      assert Blocked(actions, candidates[0]);
      FirstUnblockedIsFirst(actions, candidates[1..], i - 1);
    }
  }

  lemma {:induction false} FirstUnblockedHasIndex(actions: seq<Action>, candidates: seq<nat>) returns (i: nat)
    requires Names(actions, candidates) && FirstUnblocked(actions, candidates).Some?
    ensures FirstAt(actions, candidates, i) && FirstUnblocked(actions, candidates) == Some(candidates[i])
  {
    if !Blocked(actions, candidates[0]) {
      i := 0;
    } else {
      var k := FirstUnblockedHasIndex(actions, candidates[1..]);
      i := k + 1;
      forall j | 0 <= j < i ensures Blocked(actions, candidates[j]) {
        assert j > 0 ==> candidates[j] == candidates[1..][j - 1];
      }
    }
  }

  /** No ready action that nothing blocks is older. */
  ghost predicate OldestUnblocked(actions: seq<Action>, c: nat, now: int) {
    && c < |actions| && Ready(actions[c], now) && !Blocked(actions, c)
    && forall k | 0 <= k < |actions| && Ready(actions[k], now) && !Blocked(actions, k) :: actions[c].queuedAt <= actions[k].queuedAt
  }

  /** What a call claims is the oldest action that it could claim. */
  lemma OldestIsClaimed(actions: seq<Action>, candidates: seq<nat>, now: int)
    requires IsCandidateQuery(actions, candidates, now) && FirstUnblocked(actions, candidates).Some?
    ensures OldestUnblocked(actions, FirstUnblocked(actions, candidates).value, now)
  {
    var i := FirstUnblockedHasIndex(actions, candidates);
    assert Ready(actions[candidates[i]], now);
    forall k | 0 <= k < |actions| && Ready(actions[k], now) && !Blocked(actions, k)
      ensures actions[candidates[i]].queuedAt <= actions[k].queuedAt
    {
      if k in candidates {
        var j :| 0 <= j < |candidates| && candidates[j] == k;
        assert i <= j;
        assert i < j ==> actions[candidates[i]].queuedAt <= actions[candidates[j]].queuedAt;
      }
    }
  }

  function Held(envelope: Option<nat>): seq<nat> {
    if envelope.Some? then [envelope.value] else []
  }

  function Consumed(envelopes: seq<nat>): seq<nat> {
    if envelopes == [] then [] else [envelopes[0]]
  }

  /** What happens between `submit` and the return of `process_next`: anything that other workers, the threads of
      the pool and the API do meanwhile, and whether the wait then expires or finds the future done. */
  datatype Schedule = Schedule(meanwhile: seq<Event>, expires: bool, at: int)

  /** Nobody else waits for the future. */
  predicate LeavesWait(events: seq<Event>, id: nat) {
    forall i | 0 <= i < |events| :: events[i] != Collect(id) && !(events[i].TimeOut? && events[i].id == id)
  }

  ghost predicate Fits(s: State, id: nat, schedule: Schedule) {
    && Possible(s, schedule.meanwhile) && LeavesWait(schedule.meanwhile, id)
    && (!schedule.expires ==> id in After(s, schedule.meanwhile).finished)
  }

  /** One call of `process_next`: what the claim query answers, when, and what happens during the wait. */
  datatype Call = Call(candidates: seq<nat>, now: int, schedule: Schedule)

  ghost predicate CanCall(s: State, call: Call) {
    && IsCandidateQuery(s.actions, call.candidates, call.now)
    && var first := FirstUnblocked(s.actions, call.candidates);
       first.Some? ==> Fits(AfterClaim(s, first.value, call.now), first.value, call.schedule)
  }

  /** How the wait for a future ends. */
  function EndOfWait(id: nat, schedule: Schedule): Event {
    if schedule.expires then TimeOut(id, schedule.at) else Collect(id)
  }

  /** Where a call leads. */
  ghost function Called(s: State, call: Call): State
    requires CanCall(s, call)
  {
    var first := FirstUnblocked(s.actions, call.candidates);
    if first.None? then AfterPoll(s)
    else Step(After(AfterClaim(s, first.value, call.now), call.schedule.meanwhile), EndOfWait(first.value, call.schedule))
  }

  /** The call claims this action and waits for it. */
  ghost predicate Claims(s: State, s': State, c: nat, now: int, schedule: Schedule) {
    s' == Step(After(AfterClaim(s, c, now), schedule.meanwhile), EndOfWait(c, schedule))
  }

  class Worker {
    const limit: int
    const seconds: int

    var actions: seq<Action>
    var rounds: seq<FailedRound>
    var audits: seq<AuditRun>
    var envelopes: seq<nat>
    var acked: seq<nat>
    var submitted: set<nat>
    var live: set<nat>
    var finished: set<nat>
    var waiting: set<nat>

    ghost var starts: seq<nat>
    ghost var claims: nat
    ghost var retryOf: map<nat, nat>
    ghost var merged: set<nat>
    ghost var arrived: nat

    ghost function Snapshot(): State
      reads this
    {
      State(limit, seconds, actions, rounds, envelopes, submitted, live, finished, waiting, starts, claims, retryOf, merged, arrived)
    }

    constructor (actions: seq<Action>, limit: int, seconds: int)
      requires forall i | 0 <= i < |actions| :: FreshAction(actions[i])
      ensures Initial(Snapshot()) && this.actions == actions && this.limit == limit && this.seconds == seconds
    {
      this.actions, this.limit, this.seconds := actions, limit, seconds;
      rounds, audits, envelopes, acked := [], [], [], [];
      submitted, live, finished, waiting := {}, {}, {}, {};
      starts, claims, retryOf, merged, arrived := [], 0, map[], {}, TotalWeight(limit, actions);
    }

    /** `_has_prior_unfinished_chat_action` */
    method HasPriorUnfinished(id: nat) returns (blocked: bool)
      requires id < |actions|
      ensures blocked == Blocked(actions, id)
    {
      for j := 0 to |actions|
        invariant forall k | 0 <= k < j :: k != id ==> !BlockedBy(actions[id], actions[k])
      {
        if j != id && BlockedBy(actions[id], actions[j]) {
          return true;
        }
      }
      return false;
    }

    /** `_claim_next_ready_action`: the first candidate that nothing blocks. */
    method ClaimNextReadyAction(candidates: seq<nat>, now: int) returns (claimed: Option<nat>)
      requires CandidatesReady(actions, candidates, now)
      modifies `actions
      ensures claimed == FirstUnblocked(old(actions), candidates)
      ensures claimed.Some? ==> exists i :: FirstAt(old(actions), candidates, i) && claimed.value == candidates[i]
      ensures claimed.None? ==> actions == old(actions) && forall i | 0 <= i < |candidates| :: Blocked(actions, candidates[i])
      ensures claimed.Some? ==> actions == old(actions)[claimed.value := ClaimedRow(old(actions)[claimed.value], now)]
    {
      for i := 0 to |candidates|
        invariant actions == old(actions)
        invariant forall j | 0 <= j < i :: Blocked(actions, candidates[j])
      {
        var c := candidates[i];
        var blocked := HasPriorUnfinished(c);
        if !blocked {
          FirstUnblockedIsFirst(actions, candidates, i);
          var a := actions[c];
          actions := actions[c := a.(status := Running, startedAt := if a.startedAt.Some? then a.startedAt else Some(now))];
          return Some(c);
        }
      }
      return None;
    }

    /** The part of `process_next` before the wait. `envelope` is what was consumed from the queue. */
    method BeginNext(candidates: seq<nat>, now: int) returns (claimed: Option<nat>, envelope: Option<nat>)
      requires CandidatesReady(actions, candidates, now)
      modifies `actions, `envelopes, `submitted, `waiting, `claims
      ensures claimed == FirstUnblocked(old(actions), candidates)
      ensures Held(envelope) == Consumed(old(envelopes))
      ensures claimed.None? ==> Snapshot() == AfterPoll(old(Snapshot()))
      ensures claimed.Some? ==> Snapshot() == AfterClaim(old(Snapshot()), claimed.value, now)
    {
      ghost var s := Snapshot();
      envelope := ConsumeNext();
      assert Snapshot() == AfterPoll(s);
      claimed := ClaimNextReadyAction(candidates, now);
      if claimed.Some? {
        Submit(claimed.value);
      }
    }

    /** `executor.submit`; the worker then waits for the future. */
    method Submit(id: nat)
      modifies `submitted, `waiting, `claims
      ensures submitted == old(submitted) + {id} && waiting == old(waiting) + {id} && claims == old(claims) + 1
    {
      submitted, waiting := submitted + {id}, waiting + {id};
      claims := claims + 1;
    }

    method ConsumeNext() returns (envelope: Option<nat>)
      modifies `envelopes
      ensures Held(envelope) == Consumed(old(envelopes)) && envelopes == Rest(old(envelopes))
    {
      if envelopes == [] {
        return None;
      }
      envelope, envelopes := Some(envelopes[0]), envelopes[1..];
    }

    method Ack(envelope: Option<nat>)
      modifies `acked
      ensures acked == old(acked) + Held(envelope)
    {
      if envelope.Some? {
        acked := acked + [envelope.value];
      }
    }

    /** `_run_action_session` up to the call of the runtime: does the runtime start? */
    method StartSession(id: nat) returns (started: bool)
      requires id in submitted
      modifies `submitted, `live, `finished, `starts
      ensures Snapshot() == AfterThreadStart(old(Snapshot()), id)
      ensures started <==> id < |actions| && actions[id].status == Running
      ensures old(Inv(Snapshot())) ==> Inv(Snapshot()) && (started ==> id !in old(starts)) && (!started ==> id in finished)
    {
      ghost var s := Snapshot();
      if Inv(s) {
        StepKeepsInv(s, ThreadStart(id));
      }
      submitted := submitted - {id};
      if id >= |actions| || actions[id].status != Running {
        finished := finished + {id};
        return false;
      }
      live, starts := live + {id}, starts + [id];
      return true;
    }

    /** The rest of `_run_action_session`, once the runtime has returned or raised. */
    method EndSession(id: nat, outcome: Outcome, now: int)
      requires Enabled(Snapshot(), RuntimeEnd(id, outcome, now))
      modifies `actions, `rounds, `audits, `live, `finished
      ensures Snapshot() == AfterRuntimeEnd(old(Snapshot()), id, outcome, now)
      ensures !outcome.Raises? || id >= |actions| ==> audits == old(audits)
      ensures outcome.Raises? && id < |actions| ==> LatestFinished(old(audits), audits, id, now)
    {
      live, finished := live - {id}, finished + {id};
      match outcome {
        case Completes =>
          actions := actions[id := actions[id].(status := Completed, finishedAt := Some(now))];
        case Aborts =>
        case Raises(text) =>
          if id < |actions| {
            RecordFailure(id, actions[id].(status := Failed, error := Some(Raised(text))), text, now);
          }
      }
    }

    /** `_handle_timed_out_action` */
    method HandleTimedOutAction(id: nat, now: int)
      requires id in waiting
      modifies `actions, `rounds, `audits, `envelopes, `waiting, `retryOf
      ensures Snapshot() == AfterTimeOut(old(Snapshot()), id, now)
      ensures if id < |old(actions)| && old(actions)[id].status == Running
              then LatestFinished(old(audits), audits, id, now) else audits == old(audits)
    {
      waiting := waiting - {id};
      if id >= |actions| || actions[id].status != Running {
        return;
      }
      var a := actions[id];
      var attempt := Attempt(a.payload);
      var failed := a.(status := Failed, error := Some(TimedOut(seconds, attempt, limit)), finishedAt := Some(now));
      RecordFailure(id, failed, "timeout", now);
      if attempt < limit {
        EnqueueRetry(id, a, now);
      }
    }

    /** A failed action, its failed round and its audit run. */
    method RecordFailure(id: nat, failed: Action, reason: string, now: int)
      requires id < |actions|
      modifies `actions, `rounds, `audits
      ensures actions == old(actions)[id := failed]
      ensures rounds == old(rounds) + [FailedRound(failed.target, id, failed.eventType, reason)]
      ensures LatestFinished(old(audits), audits, id, now)
    {
      actions := actions[id := failed];
      rounds := rounds + [FailedRound(failed.target, id, failed.eventType, reason)];
      FinishLatestAuditRun(id, now);
    }

    /** The retry is committed first and enqueued afterwards. */
    method EnqueueRetry(id: nat, a: Action, now: int)
      modifies `actions, `envelopes, `retryOf
      ensures actions == old(actions) + [Retry(id, a, now)]
      ensures envelopes == old(envelopes) + [|old(actions)|] && retryOf == old(retryOf)[|old(actions)| := id]
    {
      var payload := a.payload[ATTEMPT := Num(Attempt(a.payload) + 1)];
      payload := payload[PARENT := Num(id)];
      var retry := |actions|;
      actions := actions + [Action(a.target, "chat", Queued, payload, Some(now), now, None, None, None)];
      envelopes := envelopes + [retry];
      retryOf := retryOf[retry := id];
    }

    /** The latest audit run of the action was finished if it was running, and nothing else was touched. */
    static ghost predicate LatestFinished(was: seq<AuditRun>, now': seq<AuditRun>, id: nat, now: int) {
      || (now' == was && forall i | 0 <= i < |was| :: was[i].action != id)
      || exists i :: 0 <= i < |was| && IsLatest(was, id, i) && now' == was[i := Finished(was[i], now)]
    }

    static function Finished(run: AuditRun, now: int): AuditRun {
      if run.status == Running then run.(status := Failed, finishedAt := Some(now)) else run
    }

    static ghost predicate IsLatest(runs: seq<AuditRun>, id: nat, i: nat)
      requires i < |runs|
    {
      runs[i].action == id && forall j | 0 <= j < |runs| && runs[j].action == id :: runs[j].startedAt <= runs[i].startedAt
    }

    /** The newest audit run of an action, if it has any. */
    static method FindLatest(runs: seq<AuditRun>, id: nat) returns (found: Option<nat>)
      ensures found.None? <==> forall j | 0 <= j < |runs| :: runs[j].action != id
      ensures found.Some? ==> found.value < |runs| && IsLatest(runs, id, found.value)
    {
      found := None;
      for i := 0 to |runs|
        invariant found.None? <==> forall j | 0 <= j < i :: runs[j].action != id
        invariant found.Some? ==> found.value < i && runs[found.value].action == id
        invariant found.Some? ==> forall j | 0 <= j < i && runs[j].action == id :: runs[j].startedAt <= runs[found.value].startedAt
      {
        if runs[i].action == id && (found.None? || runs[found.value].startedAt < runs[i].startedAt) {
          found := Some(i);
        }
      }
    }

    /** `_finish_latest_audit_run` */
    method FinishLatestAuditRun(id: nat, now: int)
      modifies `audits
      ensures LatestFinished(old(audits), audits, id, now)
    {
      var latest := FindLatest(audits, id);
      assert latest.Some? ==> audits[latest.value := audits[latest.value]] == audits;
      if latest.None? || audits[latest.value].status != Running {
        return;
      }
      audits := audits[latest.value := audits[latest.value].(status := Failed, finishedAt := Some(now))];
    }

    method AddAction(a: Action)
      modifies `actions, `envelopes, `arrived
      ensures Snapshot() == Step(old(Snapshot()), Arrive(a))
    {
      arrived := arrived + Weight(limit, a);
      actions, envelopes := actions + [a], envelopes + [|actions|];
    }

    method MergeMessage(id: nat, payload: Payload, debounceUntil: int)
      requires id < |actions|
      modifies `actions, `merged
      ensures Snapshot() == AfterMerge(old(Snapshot()), id, payload, debounceUntil)
    {
      actions, merged := actions[id := actions[id].(payload := payload, debounceUntil := Some(debounceUntil))], merged + {id};
    }

    /** The claim of another worker. */
    method ClaimElsewhere(id: nat, now: int)
      requires id < |actions|
      modifies `actions, `envelopes, `submitted, `waiting, `claims
      ensures Snapshot() == AfterClaim(old(Snapshot()), id, now)
    {
      var _ := ConsumeNext();
      actions := actions[id := ClaimedRow(actions[id], now)];
      Submit(id);
    }

    method StopWaiting(id: nat)
      modifies `waiting
      ensures waiting == old(waiting) - {id}
    {
      waiting := waiting - {id};
    }

    /** What the pool, another worker or the API does. */
    method Perform(e: Event)
      requires Enabled(Snapshot(), e)
      modifies this
      ensures Snapshot() == Step(old(Snapshot()), e) && acked == old(acked)
    {
      match e {
        case Arrive(a) => AddAction(a);
        case Merge(id, payload, debounceUntil) => MergeMessage(id, payload, debounceUntil);
        case Poll => var _ := ConsumeNext();
        case Claim(id, now) => ClaimElsewhere(id, now);
        case ThreadStart(id) => var _ := StartSession(id);
        case RuntimeEnd(id, outcome, now) => EndSession(id, outcome, now);
        case Collect(id) => StopWaiting(id);
        case TimeOut(id, now) => HandleTimedOutAction(id, now);
      }
    }

    method PerformAll(events: seq<Event>)
      requires Possible(Snapshot(), events)
      modifies this
      ensures Snapshot() == After(old(Snapshot()), events) && acked == old(acked)
      decreases |events|
    {
      if events != [] {
        Perform(events[0]);
        PerformAll(events[1..]);
      }
    }

    /** The wait for the future, whatever happens meanwhile. */
    method AwaitResult(id: nat, schedule: Schedule)
      requires id in waiting && Fits(Snapshot(), id, schedule)
      modifies this
      ensures Snapshot() == Step(After(old(Snapshot()), schedule.meanwhile), EndOfWait(id, schedule))
      ensures acked == old(acked)
    {
      ghost var s := Snapshot();
      PerformAll(schedule.meanwhile);
      StillWaits(s, schedule.meanwhile, id);
      Perform(EndOfWait(id, schedule));
    }

    /** `process_next`: false when there was nothing to claim. Either way the consumed envelope is acknowledged, and
        a successful call uses up weight, beyond what arrives, whatever the runtime and everybody else do. */
    method ProcessNext(candidates: seq<nat>, now: int, schedule: Schedule) returns (done: bool)
      requires Inv(Snapshot()) && CanCall(Snapshot(), Call(candidates, now, schedule))
      modifies this
      ensures Snapshot() == Called(old(Snapshot()), Call(candidates, now, schedule)) && Inv(Snapshot())
      ensures done <==> exists c :: 0 <= c < |old(actions)| && c in candidates && !Blocked(old(actions), c)
      ensures done ==> exists c :: OldestUnblocked(old(actions), c, now) && Claims(old(Snapshot()), Snapshot(), c, now, schedule)
      ensures done ==> TotalWeight(limit, actions) + old(arrived) < TotalWeight(limit, old(actions)) + arrived
      ensures acked == old(acked) + Consumed(old(envelopes))
    {
      CallSpends(Snapshot(), Call(candidates, now, schedule));
      if FirstUnblocked(actions, candidates).Some? {
        OldestIsClaimed(actions, candidates, now);
      }
      var claimed, envelope := BeginNext(candidates, now);
      done := claimed.Some?;
      if done {
        AwaitResult(claimed.value, schedule);
      }
      Ack(envelope);
    }
  }

  // ----- What steps spend -----

  /** No weight comes from anywhere but arrivals, and claims use it up. */
  ghost predicate Spends(s: State, s': State) {
    && s'.limit == s.limit && s'.claims >= s.claims
    && TotalWeight(s.limit, s'.actions) + s'.claims + s.arrived <= TotalWeight(s.limit, s.actions) + s.claims + s'.arrived
  }

  lemma Keeps(s: State, e: Event)
    requires Inv(s) && Enabled(s, e)
    ensures Inv(Step(s, e)) && Spends(s, Step(s, e))
  {
    StepKeepsInv(s, e);
    StepWeight(s, e);
  }

  lemma {:induction false} RunSpends(s: State, events: seq<Event>)
    requires Inv(s) && Possible(s, events)
    ensures Inv(After(s, events)) && Spends(s, After(s, events))
    decreases |events|
  {
    if events != [] {
      Keeps(s, events[0]);
      RunSpends(Step(s, events[0]), events[1..]);
    }
  }

  /** Only the worker that waits for a future stops waiting for it. */
  lemma {:induction false} StillWaits(s: State, events: seq<Event>, id: nat)
    requires id in s.waiting && Possible(s, events) && LeavesWait(events, id)
    ensures id in After(s, events).waiting
    decreases |events|
  {
    if events != [] {
      assert events[0] != Collect(id) && !(events[0].TimeOut? && events[0].id == id);
      StillWaits(Step(s, events[0]), events[1..], id);
    }
  }

  lemma CallSpends(s: State, call: Call)
    requires Inv(s) && CanCall(s, call)
    ensures Inv(Called(s, call)) && Spends(s, Called(s, call))
    ensures FirstUnblocked(s.actions, call.candidates).Some? ==> Called(s, call).claims > s.claims
  {
    var first := FirstUnblocked(s.actions, call.candidates);
    if first.None? {
      Keeps(s, Poll);
    } else {
      var id := first.value;
      assert Ready(s.actions[id], call.now);
      Keeps(s, Claim(id, call.now));
      var s1 := AfterClaim(s, id, call.now);
      RunSpends(s1, call.schedule.meanwhile);
      StillWaits(s1, call.schedule.meanwhile, id);
      Keeps(After(s1, call.schedule.meanwhile), EndOfWait(id, call.schedule));
    }
  }
}
