/** What each step of the dispatch does to the tables, row by row. */
module ChatDispatchSteps {
  import opened Wrappers
  import opened ChatDispatch
  import opened ChatDispatchSafety

  predicate Over(a: Action) {
    a.status == Completed || a.status == Failed
  }

  /** An action can be claimed if and only if it is queued, its debounce is over, every older chat action of its target
      is over, and no chat action of its target is running. */
  lemma ClaimableIff(s: State, id: nat, now: int)
    requires Inv(s) && id < |s.actions|
    ensures Enabled(s, Claim(id, now)) <==>
      && s.actions[id].status == Queued
      && (s.actions[id].debounceUntil == None || s.actions[id].debounceUntil.value <= now)
      && (forall j | 0 <= j < |s.actions| && j != id && SameChat(s.actions, j, id) ::
            s.actions[j].status != Running && (s.actions[j].queuedAt < s.actions[id].queuedAt ==> Over(s.actions[j])))
  {
    forall j | 0 <= j < |s.actions|
      ensures BlockedBy(s.actions[id], s.actions[j]) <==> HoldsUp(s.actions[j], s.actions[id])
    {
      assert ActionSound(s.actions[j]);
      RunningBlocks(s.actions[id], s.actions[j]);
    }
  }

  predicate SameChat(actions: seq<Action>, j: nat, id: nat)
    requires j < |actions| && id < |actions|
  {
    actions[j].target == actions[id].target && actions[j].eventType == "chat"
  }

  lemma RunningBlocks(a: Action, prior: Action)
    requires ActionSound(prior)
    ensures BlockedBy(a, prior) <==> HoldsUp(prior, a)
  {
  }

  /** A chat action of the same target that is running, or queued and older. */
  predicate HoldsUp(prior: Action, a: Action) {
    && prior.target == a.target && prior.eventType == "chat"
    && (prior.status == Running || (prior.status == Queued && prior.queuedAt < a.queuedAt))
  }

  /** Every other row stays as it is. */
  ghost predicate OthersStay(actions: seq<Action>, actions': seq<Action>, id: nat) {
    |actions| <= |actions'| && forall j | 0 <= j < |actions| && j != id :: actions'[j] == actions[j]
  }

  /** A claim starts the action now and consumes one envelope, whichever action that was for. */
  lemma ClaimStarts(s: State, id: nat, now: int)
    requires Inv(s) && Enabled(s, Claim(id, now))
    ensures var s' := Step(s, Claim(id, now));
      && |s'.actions| == |s.actions| && OthersStay(s.actions, s'.actions, id)
      && s'.actions[id] == s.actions[id].(status := Running, startedAt := Some(now))
      && s'.envelopes == (if s.envelopes == [] then [] else s.envelopes[1..])
      && s'.submitted == s.submitted + {id} && s'.waiting == s.waiting + {id} && s'.rounds == s.rounds
  {
    assert ActionSound(s.actions[id]);
  }

  /** A timeout of a running action fails it, records why, and queues a retry of it unless that was the last attempt. */
  lemma TimeOutFailsAndRetries(s: State, id: nat, now: int)
    requires Inv(s) && Enabled(s, TimeOut(id, now)) && s.actions[id].status == Running
    ensures var a, attempt, s' := s.actions[id], Attempt(s.actions[id].payload), Step(s, TimeOut(id, now));
      && OthersStay(s.actions, s'.actions, id)
      && s'.actions[id] == a.(status := Failed, error := Some(TimedOut(s.seconds, attempt, s.limit)), finishedAt := Some(now))
      && s'.rounds == s.rounds + [FailedRound(a.target, id, a.eventType, "timeout")]
      && (attempt >= s.limit ==> |s'.actions| == |s.actions| && s'.envelopes == s.envelopes)
      && (attempt < s.limit ==> |s'.actions| == |s.actions| + 1 && s'.envelopes == s.envelopes + [|s.actions|]
                                && IsRetry(a, id, s'.actions[|s.actions|], now))
      && s'.waiting == s.waiting - {id} && s'.live == s.live && s'.submitted == s.submitted
  {
  }

  /** A queued chat action of the same target that is one attempt further and names its parent. */
  ghost predicate IsRetry(a: Action, id: nat, r: Action, now: int) {
    && r.target == a.target && r.eventType == "chat" && r.status == Queued
    && r.queuedAt == now && r.debounceUntil == Some(now) && r.startedAt == None && r.finishedAt == None && r.error == None
    && Lookup(r.payload, "chat_retry_attempt") == Some(Num(Attempt(a.payload) + 1))
    && Lookup(r.payload, "chat_retry_parent_action_id") == Some(Num(id))
    && forall k | k != "chat_retry_attempt" && k != "chat_retry_parent_action_id" :: Lookup(r.payload, k) == Lookup(a.payload, k)
  }

  /** A timeout of an action that is no longer running only ends the wait. */
  lemma LateTimeOutDoesNothing(s: State, id: nat, now: int)
    requires Inv(s) && Enabled(s, TimeOut(id, now)) && s.actions[id].status != Running
    ensures Step(s, TimeOut(id, now)) == s.(waiting := s.waiting - {id})
  {
  }

  /** The runtime completes its action, fails it with what it raised, or leaves no trace; the audit runs are the
      worker's. */
  lemma RuntimeEndsAs(s: State, id: nat, outcome: Outcome, now: int)
    requires Inv(s) && Enabled(s, RuntimeEnd(id, outcome, now))
    ensures id < |s.actions|
    ensures var a, s' := s.actions[id], Step(s, RuntimeEnd(id, outcome, now));
      && |s'.actions| == |s.actions| && OthersStay(s.actions, s'.actions, id) && s'.envelopes == s.envelopes
      && s'.live == s.live - {id} && s'.finished == s.finished + {id} && s'.waiting == s.waiting
      && (outcome == Completes ==> s'.actions[id] == a.(status := Completed, finishedAt := Some(now)) && s'.rounds == s.rounds)
      && (outcome == Aborts ==> s'.actions[id] == a && s'.rounds == s.rounds)
      && (outcome.Raises? ==>
            && s'.actions[id] == a.(status := Failed, error := Some(Raised(outcome.text)))
            && s'.rounds == s.rounds + [FailedRound(a.target, id, a.eventType, outcome.text)])
  {
  }

  /** A thread starts the runtime of a running action, and is done at once with any other. */
  lemma ThreadStartsRuntimeIff(s: State, id: nat)
    requires Inv(s) && Enabled(s, ThreadStart(id))
    ensures id < |s.actions|
    ensures var s' := Step(s, ThreadStart(id));
      && s'.actions == s.actions && s'.submitted == s.submitted - {id}
      && (s.actions[id].status == Running ==> s'.live == s.live + {id} && s'.finished == s.finished)
      && (s.actions[id].status != Running ==> s'.live == s.live && s'.finished == s.finished + {id})
  {
  }

  /** The number of an attempt: the one in the payload, or 1. */
  lemma AttemptIs(p: Payload)
    ensures "chat_retry_attempt" !in p ==> Attempt(p) == 1
    ensures "chat_retry_attempt" in p && p["chat_retry_attempt"].Num? && p["chat_retry_attempt"].n != 0 ==>
              Attempt(p) == p["chat_retry_attempt"].n
  {
  }

  /** A table of first attempts weighs the limit times its length: so many calls drain it. */
  lemma {:induction false} FirstAttemptsWeigh(limit: nat, actions: seq<Action>)
    requires limit >= 1
    requires forall i | 0 <= i < |actions| :: actions[i].status == Queued && Attempt(actions[i].payload) == 1
    ensures TotalWeight(limit, actions) == limit * |actions|
  {
    if actions != [] {
      FirstAttemptsWeigh(limit, actions[..|actions| - 1]);
    }
  }
}
