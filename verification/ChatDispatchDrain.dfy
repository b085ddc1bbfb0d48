/** What a worker finds, and why it drains: a call that finds nothing leaves nothing unfinished. */
module ChatDispatchDrain {
  import opened Wrappers
  import opened Sequences
  import opened ChatDispatch
  import opened ChatDispatchSafety
  import opened ChatDispatchTheorems
  import opened ChatDispatchWorker

  // ----- Draining -----

  ghost predicate Drained(actions: seq<Action>) {
    forall i | 0 <= i < |actions| :: actions[i].status == Completed || actions[i].status == Failed
  }

  /** When nobody waits, every debounce is over and something is queued, the worker finds an action, however many are
      queued. */
  lemma IdleWorkerClaims(s: State, candidates: seq<nat>, now: int, queued: nat)
    requires Inv(s) && s.waiting == {} && IsCandidateQuery(s.actions, candidates, now) && DebounceOver(s.actions, now)
    requires queued < |s.actions| && s.actions[queued].status == Queued
    ensures FirstUnblocked(s.actions, candidates).Some?
  {
    assert queued in candidates || |candidates| == 50;
    var first := candidates[0];
    forall j | 0 <= j < |s.actions| && j != first ensures !BlockedBy(s.actions[first], s.actions[j]) {
      if s.actions[j].status == Queued {
        assert Ready(s.actions[j], now);
        assert s.actions[first].queuedAt <= s.actions[j].queuedAt;
      }
    }
    assert !Blocked(s.actions, first);
  }

  /** When nobody waits and every debounce is over, a call returns false if and only if nothing is unfinished. */
  lemma FalseIffDrained(s: State, candidates: seq<nat>, now: int)
    requires Inv(s) && s.waiting == {} && IsCandidateQuery(s.actions, candidates, now) && DebounceOver(s.actions, now)
    ensures FirstUnblocked(s.actions, candidates).None? <==> Drained(s.actions)
  {
    if queued :| 0 <= queued < |s.actions| && s.actions[queued].status == Queued {
      IdleWorkerClaims(s, candidates, now, queued);
    }
  }

  /** The same after any run of any number of workers, with the bound on what they claimed. */
  lemma FalseOnlyWhenDrained(s: State, events: seq<Event>, s': State, candidates: seq<nat>, now: int)
    requires Initial(s) && Run(s, events, s') && NoArrivals(events) && s'.waiting == {}
    requires IsCandidateQuery(s'.actions, candidates, now) && DebounceOver(s'.actions, now)
    ensures FirstUnblocked(s'.actions, candidates).None? <==> Drained(s'.actions)
    ensures s'.claims <= TotalWeight(s.limit, s.actions)
  {
    InitiallySound(s);
    RunKeepsInv(s, events, s');
    ClaimsAreBounded(s, events, s');
    FalseIffDrained(s', candidates, now);
  }

  /** Calls one after another, without arrivals, each when the debounces are over; between calls nobody waits. */
  ghost predicate Serves(s: State, calls: seq<Call>)
    decreases |calls|
  {
    calls != [] ==>
      && CanCall(s, calls[0]) && DebounceOver(s.actions, calls[0].now) && NoArrivals(calls[0].schedule.meanwhile)
      && Called(s, calls[0]).waiting == {}
      && Serves(Called(s, calls[0]), calls[1..])
  }

  ghost function AfterCalls(s: State, calls: seq<Call>): State
    requires Serves(s, calls)
    decreases |calls|
  {
    if calls == [] then s else AfterCalls(Called(s, calls[0]), calls[1..])
  }

  /** The worker drains the table: after as many calls as the table weighs nothing is unfinished, whatever the runtimes
      do and whichever envelopes are lost. */
  lemma {:induction false} DrainsInBoundedCalls(s: State, calls: seq<Call>)
    requires Inv(s) && s.waiting == {} && Serves(s, calls)
    requires |calls| >= TotalWeight(s.limit, s.actions)
    ensures Drained(AfterCalls(s, calls).actions)
    decreases |calls|
  {
    if calls == [] {
      WeightlessIsDrained(s);
    } else {
      CallSpends(s, calls[0]);
      CallArrivesNothing(s, calls[0]);
      FalseIffDrained(s, calls[0].candidates, calls[0].now);
      if FirstUnblocked(s.actions, calls[0].candidates).None? {
        DrainedWeighsNothing(s.limit, s.actions);
      }
      DrainsInBoundedCalls(Called(s, calls[0]), calls[1..]);
    }
  }

  lemma {:induction false} DrainedWeighsNothing(limit: int, actions: seq<Action>)
    requires Drained(actions)
    ensures TotalWeight(limit, actions) == 0
  {
    if actions != [] {
      assert actions[..|actions| - 1] + [actions[|actions| - 1]] == actions;
      DrainedWeighsNothing(limit, actions[..|actions| - 1]);
    }
  }

  lemma {:induction false} QueuedWeighs(limit: int, actions: seq<Action>, i: nat)
    requires i < |actions| && actions[i].status == Queued
    ensures TotalWeight(limit, actions) > 0
  {
    if i < |actions| - 1 {
      QueuedWeighs(limit, actions[..|actions| - 1], i);
    }
  }

  lemma WeightlessIsDrained(s: State)
    requires Inv(s) && s.waiting == {} && TotalWeight(s.limit, s.actions) == 0
    ensures Drained(s.actions)
  {
    forall i | 0 <= i < |s.actions| ensures s.actions[i].status != Queued {
      if s.actions[i].status == Queued {
        QueuedWeighs(s.limit, s.actions, i);
      }
    }
  }

  lemma {:induction false} NothingArrivesMeanwhile(s: State, events: seq<Event>)
    requires Possible(s, events) && NoArrivals(events)
    ensures After(s, events).arrived == s.arrived
    decreases |events|
  {
    if events != [] {
      assert !events[0].Arrive?;
      NothingArrivesMeanwhile(Step(s, events[0]), events[1..]);
    }
  }

  lemma CallArrivesNothing(s: State, call: Call)
    requires CanCall(s, call) && NoArrivals(call.schedule.meanwhile)
    ensures Called(s, call).arrived == s.arrived
  {
    var first := FirstUnblocked(s.actions, call.candidates);
    if first.Some? {
      NothingArrivesMeanwhile(AfterClaim(s, first.value, call.now), call.schedule.meanwhile);
    }
  }

  predicate NoClaims(events: seq<Event>) {
    forall i | 0 <= i < |events| :: !events[i].Claim?
  }

  /** A worker that is alone leaves nobody waiting. */
  lemma AloneLeavesNobodyWaiting(s: State, call: Call)
    requires s.waiting == {} && CanCall(s, call) && NoClaims(call.schedule.meanwhile)
    ensures Called(s, call).waiting == {}
  {
    var first := FirstUnblocked(s.actions, call.candidates);
    if first.Some? {
      OnlyClaimsWait(AfterClaim(s, first.value, call.now), call.schedule.meanwhile);
    }
  }

  lemma {:induction false} OnlyClaimsWait(s: State, events: seq<Event>)
    requires Possible(s, events) && NoClaims(events)
    ensures After(s, events).waiting <= s.waiting
    decreases |events|
  {
    if events != [] {
      assert !events[0].Claim?;
      OnlyClaimsWait(Step(s, events[0]), events[1..]);
    }
  }

  // ----- Starving -----

  predicate Claimable(actions: seq<Action>, id: nat, now: int) {
    id < |actions| && Ready(actions[id], now) && !Blocked(actions, id)
  }

  /** The ready actions that are older than everything that could be claimed. */
  ghost function OlderThanClaimable(actions: seq<Action>, now: int): set<nat> {
    set k | 0 <= k < |actions| && Ready(actions[k], now) && OlderThanAll(actions, k, now)
  }

  ghost predicate OlderThanAll(actions: seq<Action>, k: nat, now: int)
    requires k < |actions|
  {
    forall c | 0 <= c < |actions| && Claimable(actions, c, now) :: actions[k].queuedAt < actions[c].queuedAt
  }

  /** The ready actions that cannot be claimed and are no younger than anything that could be. */
  ghost function AheadOfClaimable(actions: seq<Action>, now: int): set<nat> {
    set k | 0 <= k < |actions| && Ready(actions[k], now) && Blocked(actions, k) && NoYoungerThanAny(actions, k, now)
  }

  ghost predicate NoYoungerThanAny(actions: seq<Action>, k: nat, now: int)
    requires k < |actions|
  {
    forall c | 0 <= c < |actions| && Claimable(actions, c, now) :: actions[k].queuedAt <= actions[c].queuedAt
  }

  /** Ready actions were queued at different times. */
  ghost predicate DistinctTimes(actions: seq<Action>, now: int) {
    forall i, j | 0 <= i < j < |actions| && Ready(actions[i], now) && Ready(actions[j], now) :: actions[i].queuedAt != actions[j].queuedAt
  }

  /** Although something could be claimed, a call finds nothing if and only if at least fifty ready actions are older
      than everything that could be claimed. */
  lemma StarvedIffFiftyOlder(actions: seq<Action>, candidates: seq<nat>, now: int, id: nat)
    requires IsCandidateQuery(actions, candidates, now) && DistinctTimes(actions, now) && Claimable(actions, id, now)
    ensures FirstUnblocked(actions, candidates).None? <==> |OlderThanClaimable(actions, now)| >= 50
  {
    if FirstUnblocked(actions, candidates).None? {
      StarvedMeansFiftyAhead(actions, candidates, now, id);
      SubsetCounts(AheadOfClaimable(actions, now), OlderThanClaimable(actions, now));
    } else {
      FoundAmongFifty(actions, candidates, now, FirstUnblocked(actions, candidates).value);
    }
  }

  /** Where times may be equal, a starved call means that fifty ready actions stand ahead. */
  lemma StarvedMeansFiftyAhead(actions: seq<Action>, candidates: seq<nat>, now: int, id: nat)
    requires IsCandidateQuery(actions, candidates, now) && Claimable(actions, id, now)
    requires FirstUnblocked(actions, candidates).None?
    ensures |AheadOfClaimable(actions, now)| >= 50
  {
    assert id !in candidates;
    forall k | k in candidates ensures k in AheadOfClaimable(actions, now) {
      var i :| 0 <= i < |candidates| && candidates[i] == k;
      assert Blocked(actions, candidates[i]) && Ready(actions[candidates[i]], now);
      forall c | 0 <= c < |actions| && Claimable(actions, c, now) ensures actions[k].queuedAt <= actions[c].queuedAt {
        assert c !in candidates;
        assert actions[candidates[i]].queuedAt <= actions[c].queuedAt;
      }
    }
    DistinctCounts(candidates);
    SubsetCounts(Elements(candidates), AheadOfClaimable(actions, now));
  }

  /** A query that returns something claimable returns everything older, and at most fifty in all; whether
      times are equal or not. */
  lemma FoundAmongFifty(actions: seq<Action>, candidates: seq<nat>, now: int, found: nat)
    requires IsCandidateQuery(actions, candidates, now) && found in candidates && found < |actions| && !Blocked(actions, found)
    ensures |OlderThanClaimable(actions, now)| < 50
  {
    var i :| 0 <= i < |candidates| && candidates[i] == found;
    assert Ready(actions[candidates[i]], now);
    var older := OlderThanClaimable(actions, now);
    assert found !in older;
    forall k | k in older ensures k in candidates {
      assert actions[k].queuedAt < actions[candidates[i]].queuedAt;
    }
    DistinctCounts(candidates);
    SubsetCounts(older + {found}, Elements(candidates));
  }

  /** One busy target starves all the others: while its chat action runs, a query filled with its queued actions finds
      nothing. */
  lemma BusyTargetStarves(actions: seq<Action>, candidates: seq<nat>, now: int, busy: nat)
    requires CandidatesReady(actions, candidates, now)
    requires busy < |actions| && ActionSound(actions[busy])
    requires actions[busy].status == Running && actions[busy].eventType == "chat"
    requires forall i | 0 <= i < |candidates| :: actions[candidates[i]].target == actions[busy].target
    ensures FirstUnblocked(actions, candidates).None?
  {
    forall c | c in candidates ensures Blocked(actions, c) {
      var i :| 0 <= i < |candidates| && candidates[i] == c;
      assert Ready(actions[candidates[i]], now);
      assert BlockedBy(actions[candidates[i]], actions[busy]);
    }
  }
}
