/** What the chat dispatch protocol promises for every run, whatever the interleaving. */
module ChatDispatchTheorems {
  import opened Wrappers
  import opened ChatDispatch
  import opened ChatDispatchSafety

  // ----- One start per action -----

  /** The runtime is only ever started by a thread that finds its action running. */
  lemma StartsOnlyWhileRunning(s: State, e: Event)
    requires Inv(s) && Enabled(s, e) && Step(s, e).starts != s.starts
    ensures e.ThreadStart? && Step(s, e).starts == s.starts + [e.id]
    ensures e.id !in s.starts && e.id < |s.actions| && s.actions[e.id].status == Running
  {
  }

  /** From the empty pool on, no action's runtime is started twice. */
  lemma RuntimeStartsAtMostOnce(s: State, events: seq<Event>, s': State)
    requires Initial(s) && Run(s, events, s')
    ensures forall i, j | 0 <= i < j < |s'.starts| :: s'.starts[i] != s'.starts[j]
    ensures forall id | id in s'.starts :: id < |s'.actions| && s'.actions[id].status != Queued
  {
    InitiallySound(s);
    RunKeepsInv(s, events, s');
  }

  /** An action that is over before its thread begins is never run, and stays over. */
  lemma {:induction false} NeverRunAfterFailure(s: State, events: seq<Event>, s': State, id: nat)
    requires Inv(s) && Run(s, events, s')
    requires id < |s.actions| && s.actions[id].status == Failed && id !in s.starts
    ensures id < |s'.actions| && s'.actions[id].status == Failed && id !in s'.starts
    decreases |events|
  {
    if events != [] {
      StepKeepsInv(s, events[0]);
      StepEvolves(s, events[0]);
      assert RowEvolves(s.actions[id], Step(s, events[0]).actions[id]);
      if Step(s, events[0]).starts != s.starts {
        StartsOnlyWhileRunning(s, events[0]);
      }
      NeverRunAfterFailure(Step(s, events[0]), events[1..], s', id);
    }
  }

  /** In particular an action that is timed out while it is still waiting for a thread. */
  lemma TimedOutBeforeStartNeverRuns(s: State, id: nat, now: int, events: seq<Event>, s': State)
    requires Inv(s) && id in s.submitted && Enabled(s, TimeOut(id, now))
    requires s.actions[id].status == Running
    requires Run(Step(s, TimeOut(id, now)), events, s')
    ensures id !in s'.starts && id < |s'.actions| && s'.actions[id].status == Failed
  {
    StepKeepsInv(s, TimeOut(id, now));
    NeverRunAfterFailure(Step(s, TimeOut(id, now)), events, s', id);
  }

  // ----- Retry chains -----

  /** The action a chain of retries began with. */
  ghost function Root(retryOf: map<nat, nat>, c: nat): nat {
    if c in retryOf && retryOf[c] < c then Root(retryOf, retryOf[c]) else c
  }

  /** How many retries lead from the root to an action. */
  ghost function Depth(retryOf: map<nat, nat>, c: nat): nat {
    if c in retryOf && retryOf[c] < c then Depth(retryOf, retryOf[c]) + 1 else 0
  }

  ghost predicate SameButRetryKeys(p: Payload, q: Payload) {
    forall k | k != ATTEMPT && k != PARENT :: Lookup(p, k) == Lookup(q, k)
  }

  /** No message was merged into a retry on the way from the root. */
  ghost predicate Unmerged(retryOf: map<nat, nat>, merged: set<nat>, c: nat) {
    c in retryOf && retryOf[c] < c ==> c !in merged && Unmerged(retryOf, merged, retryOf[c])
  }

  /** Along a chain the attempts count up by one, never beyond the limit, and the target stays. Nothing but the two
      retry keys of the payload changes, unless a message was merged into one of the retries. */
  lemma {:induction false} ChainCountsUp(s: State, c: nat)
    requires Inv(s) && c < |s.actions|
    ensures var root := Root(s.retryOf, c);
      && root < |s.actions| && root !in s.retryOf
      && Attempt(s.actions[c].payload) == Attempt(s.actions[root].payload) + Depth(s.retryOf, c)
      && (c != root ==> Attempt(s.actions[c].payload) <= s.limit)
      && s.actions[c].target == s.actions[root].target
      && (Unmerged(s.retryOf, s.merged, c) ==> SameButRetryKeys(s.actions[c].payload, s.actions[root].payload))
    decreases c
  {
    if c in s.retryOf {
      assert RetryLink(s.limit, s.actions, s.merged, s.retryOf[c], c);
      ChainCountsUp(s, s.retryOf[c]);
    }
  }

  /** A chain has no branches: two of its actions at the same depth are one. */
  lemma {:induction false} ChainIsLinear(s: State, b: nat, c: nat)
    requires Inv(s) && b < |s.actions| && c < |s.actions|
    requires Root(s.retryOf, b) == Root(s.retryOf, c) && Depth(s.retryOf, b) == Depth(s.retryOf, c)
    ensures b == c
    decreases b
  {
    if b in s.retryOf {
      assert RetryLink(s.limit, s.actions, s.merged, s.retryOf[b], b);
      if c in s.retryOf {
        assert RetryLink(s.limit, s.actions, s.merged, s.retryOf[c], c);
        ChainIsLinear(s, s.retryOf[b], s.retryOf[c]);
      }
    } else if c in s.retryOf {
      assert RetryLink(s.limit, s.actions, s.merged, s.retryOf[c], c);
    }
  }

  /** Whatever stands earlier in a chain was retried. */
  lemma {:induction false} EarlierWasRetried(s: State, b: nat, c: nat)
    requires Inv(s) && b < |s.actions| && c < |s.actions|
    requires Root(s.retryOf, b) == Root(s.retryOf, c) && Depth(s.retryOf, b) < Depth(s.retryOf, c)
    ensures s.actions[b].status == Failed
    decreases c
  {
    var parent := s.retryOf[c];
    assert RetryLink(s.limit, s.actions, s.merged, parent, c);
    if Depth(s.retryOf, b) == Depth(s.retryOf, parent) {
      ChainIsLinear(s, b, parent);
    } else {
      EarlierWasRetried(s, b, parent);
    }
  }

  /** At most one action of a chain is queued, running or completed; so at most one ever completes. */
  lemma OneSurvivorPerChain(s: State, b: nat, c: nat)
    requires Inv(s) && b < |s.actions| && c < |s.actions| && b != c
    requires Root(s.retryOf, b) == Root(s.retryOf, c)
    ensures s.actions[b].status == Failed || s.actions[c].status == Failed
  {
    if Depth(s.retryOf, b) == Depth(s.retryOf, c) {
      ChainIsLinear(s, b, c);
    } else if Depth(s.retryOf, b) < Depth(s.retryOf, c) {
      EarlierWasRetried(s, b, c);
    } else {
      EarlierWasRetried(s, c, b);
    }
  }

  // ----- Draining -----

  ghost predicate NoArrivals(events: seq<Event>) {
    forall i | 0 <= i < |events| :: !events[i].Arrive?
  }

  lemma {:induction false} NothingArrives(s: State, events: seq<Event>, s': State)
    requires Run(s, events, s') && NoArrivals(events)
    ensures s'.arrived == s.arrived && s'.limit == s.limit
    decreases |events|
  {
    if events != [] {
      NothingArrives(Step(s, events[0]), events[1..], s');
    }
  }

  /** Without arrivals the number of claims, over any run of any number of workers, is at most the weight of the
      table at the start: the sum over its queued actions of the attempts they have left. */
  lemma ClaimsAreBounded(s: State, events: seq<Event>, s': State)
    requires Initial(s) && Run(s, events, s') && NoArrivals(events)
    ensures s'.claims + TotalWeight(s'.limit, s'.actions) <= TotalWeight(s.limit, s.actions)
  {
    InitiallySound(s);
    RunKeepsInv(s, events, s');
    NothingArrives(s, events, s');
  }

  /** When nobody waits for a future and every debounce is over, some queued action can be claimed; no envelope is
      needed. */
  lemma SomethingCanBeClaimed(s: State, now: int, queued: nat)
    requires Inv(s) && s.waiting == {} && queued < |s.actions| && s.actions[queued].status == Queued
    requires DebounceOver(s.actions, now)
    ensures exists id :: Enabled(s, Claim(id, now))
  {
    var id := Earliest(s.actions, queued, |s.actions|);
    assert forall j | 0 <= j < |s.actions| :: !BlockedBy(s.actions[id], s.actions[j]);
    assert Enabled(s, Claim(id, now));
  }

  /** A queued action that no queued action among the first `n` precedes. */
  lemma {:induction false} Earliest(actions: seq<Action>, queued: nat, n: nat) returns (id: nat)
    requires queued < |actions| && actions[queued].status == Queued && n <= |actions|
    ensures id < |actions| && actions[id].status == Queued
    ensures forall j | 0 <= j < n && actions[j].status == Queued :: actions[id].queuedAt <= actions[j].queuedAt
  {
    if n == 0 {
      id := queued;
    } else {
      id := Earliest(actions, queued, n - 1);
      if actions[n - 1].status == Queued && actions[n - 1].queuedAt < actions[id].queuedAt {
        id := n - 1;
      }
    }
  }

  // ----- One chat action at a time -----

  /** At every moment of every run at most one chat action of a target is running. */
  lemma OneChatActionRuns(s: State, events: seq<Event>, s': State, i: nat, j: nat)
    requires Initial(s) && Run(s, events, s')
    requires i < |s'.actions| && j < |s'.actions| && s'.actions[i].target == s'.actions[j].target
    requires s'.actions[i].eventType == s'.actions[j].eventType == "chat"
    requires s'.actions[i].status == s'.actions[j].status == Running
    ensures i == j
  {
    InitiallySound(s);
    RunKeepsInv(s, events, s');
  }
}
