/** Safety of the chat dispatch protocol over every interleaving. */
module ChatDispatchSafety {
  import opened Wrappers
  import opened ChatDispatch

  // ----- Invariants -----

  ghost predicate ActionsSound(actions: seq<Action>) {
    forall i | 0 <= i < |actions| :: ActionSound(actions[i])
  }

  predicate ActionSound(a: Action) {
    && (a.status == Queued ==> a.startedAt.None?)
    && (a.status == Running ==> a.startedAt.Some?)
    && Attempt(a.payload) >= 1
  }

  /** An id in the pool names an action that was claimed. */
  ghost predicate Claimed(actions: seq<Action>, id: nat) {
    id < |actions| && actions[id].status != Queued
  }

  /** The stages of the thread pool exclude one another, and a started runtime is never started again. */
  ghost predicate PoolSound(s: State) {
    && (forall id | id in s.submitted :: Claimed(s.actions, id) && id !in s.live && id !in s.finished && id !in s.starts)
    && (forall id | id in s.live :: Claimed(s.actions, id) && id !in s.finished && s.actions[id].status != Completed)
    && (forall id | id in s.finished :: Claimed(s.actions, id))
    && (forall id | id in s.waiting :: id in s.submitted || id in s.live || id in s.finished)
    && (forall id | id in s.starts :: Claimed(s.actions, id))
    && (forall i, j | 0 <= i < j < |s.starts| :: s.starts[i] != s.starts[j])
  }

  /** A retry continues the action it was made for; unless a message was merged into it, its payload differs only in
      the two retry keys. */
  ghost predicate RetryLink(limit: int, actions: seq<Action>, merged: set<nat>, parent: nat, child: nat) {
    && parent < child < |actions|
    && actions[parent].status == Failed
    && actions[child].target == actions[parent].target && actions[child].eventType == "chat"
    && Attempt(actions[child].payload) == Attempt(actions[parent].payload) + 1 <= limit
    && (child !in merged ==> actions[child].payload == RetryPayload(parent, actions[parent]))
  }

  ghost predicate ChainsSound(limit: int, actions: seq<Action>, retryOf: map<nat, nat>, merged: set<nat>) {
    && (forall c | c in retryOf :: RetryLink(limit, actions, merged, retryOf[c], c))
    && (forall b, c | b in retryOf && c in retryOf && retryOf[b] == retryOf[c] :: b == c)
    && (forall m | m in merged :: m < |actions|)
  }

  /** At most one chat action of a target is running. */
  ghost predicate Exclusive(actions: seq<Action>) {
    forall i, j | 0 <= i < j < |actions| ::
      !(actions[i].status == Running && actions[j].status == Running && actions[i].target == actions[j].target
        && actions[i].eventType == "chat" && actions[j].eventType == "chat")
  }

  /** Somebody waits for every running action, and what is finished does not run. */
  ghost predicate Awaited(s: State) {
    && (forall i | 0 <= i < |s.actions| && s.actions[i].status == Running :: i in s.waiting)
    && (forall id | id in s.finished && id < |s.actions| :: s.actions[id].status != Running)
  }

  ghost predicate WithinBudget(s: State) {
    s.claims + TotalWeight(s.limit, s.actions) <= s.arrived
  }

  ghost predicate Inv(s: State) {
    && ActionsSound(s.actions) && PoolSound(s) && ChainsSound(s.limit, s.actions, s.retryOf, s.merged)
    && Exclusive(s.actions) && Awaited(s) && WithinBudget(s)
  }

  lemma InitiallySound(s: State)
    requires Initial(s)
    ensures Inv(s)
  {
  }

  // ----- The weight of the table -----

  lemma {:induction false} WeightAppend(limit: int, actions: seq<Action>, a: Action)
    ensures TotalWeight(limit, actions + [a]) == TotalWeight(limit, actions) + Pending(limit, a)
  {
    assert (actions + [a])[..|actions|] == actions;
  }

  lemma {:induction false} WeightUpdate(limit: int, actions: seq<Action>, i: nat, a: Action)
    requires i < |actions|
    ensures TotalWeight(limit, actions[i := a]) + Pending(limit, actions[i]) == TotalWeight(limit, actions) + Pending(limit, a)
  {
    var last := |actions| - 1;
    var actions' := actions[i := a];
    if i == last {
      assert actions'[..last] == actions[..last];
    } else {
      assert actions'[..last] == actions[..last][i := a];
      WeightUpdate(limit, actions[..last], i, a);
    }
  }

  // ----- How the table evolves -----

  /** What a step may do to a row: target, type and attempt stay, what is over stays as it is, and a payload only
      changes while the action is queued. */
  predicate RowEvolves(a: Action, a': Action) {
    && a'.target == a.target && a'.eventType == a.eventType && Attempt(a'.payload) == Attempt(a.payload)
    && (a.status != Queued ==> a'.status != Queued && a'.payload == a.payload)
    && (a.status == Failed ==> a'.status == Failed)
    && (a.status == Completed ==> a'.status == Completed)
  }

  ghost predicate Evolves(actions: seq<Action>, actions': seq<Action>, merged': set<nat>) {
    && |actions| <= |actions'|
    && forall i | 0 <= i < |actions| :: RowEvolves(actions[i], actions'[i]) && (i !in merged' ==> actions'[i].payload == actions[i].payload)
  }

  lemma StepEvolves(s: State, e: Event)
    requires PoolSound(s) && Enabled(s, e)
    ensures Evolves(s.actions, Step(s, e).actions, Step(s, e).merged) && s.merged <= Step(s, e).merged
  {
  }

  /** The rows that were there keep their links. */
  lemma ChainsEvolve(limit: int, actions: seq<Action>, actions': seq<Action>, retryOf: map<nat, nat>, merged: set<nat>, merged': set<nat>)
    requires ChainsSound(limit, actions, retryOf, merged) && Evolves(actions, actions', merged') && merged <= merged'
    requires forall m | m in merged' :: m < |actions|
    ensures ChainsSound(limit, actions', retryOf, merged')
  {
    forall c | c in retryOf ensures RetryLink(limit, actions', merged', retryOf[c], c) {
      assert RetryLink(limit, actions, merged, retryOf[c], c);
    }
  }

  // ----- Every step keeps the invariants -----

  lemma ActionsStaySound(s: State, e: Event)
    requires ActionsSound(s.actions) && Enabled(s, e)
    ensures ActionsSound(Step(s, e).actions)
  {
  }

  /** A step that changes no stage of the pool. */
  lemma PoolKeptByRows(s: State, s': State)
    requires PoolSound(s) && Evolves(s.actions, s'.actions, s'.merged)
    requires s'.submitted == s.submitted && s'.live == s.live && s'.finished == s.finished && s'.waiting <= s.waiting
    requires s'.starts == s.starts
    requires forall i | i in s.live && i < |s.actions| && s.actions[i].status != Completed :: s'.actions[i].status != Completed
    ensures PoolSound(s')
  {
    assert forall id | Claimed(s.actions, id) :: Claimed(s'.actions, id);
  }

  lemma PoolKeptByClaim(s: State, id: nat, now: int)
    requires PoolSound(s) && Enabled(s, Claim(id, now))
    ensures PoolSound(AfterClaim(s, id, now))
  {
    assert !Claimed(s.actions, id);
    assert forall j | Claimed(s.actions, j) :: Claimed(AfterClaim(s, id, now).actions, j);
  }

  lemma PoolKeptByStart(s: State, id: nat)
    requires PoolSound(s) && Enabled(s, ThreadStart(id))
    ensures PoolSound(AfterThreadStart(s, id))
  {
  }

  lemma PoolKeptByEnd(s: State, id: nat, outcome: Outcome, now: int)
    requires PoolSound(s) && Enabled(s, RuntimeEnd(id, outcome, now))
    ensures PoolSound(AfterRuntimeEnd(s, id, outcome, now))
  {
    assert Claimed(s.actions, id);
    assert forall j | Claimed(s.actions, j) :: Claimed(AfterRuntimeEnd(s, id, outcome, now).actions, j);
  }

  lemma PoolStaysSound(s: State, e: Event)
    requires PoolSound(s) && Enabled(s, e)
    ensures PoolSound(Step(s, e))
  {
    StepEvolves(s, e);
    match e {
      case Claim(id, now) => PoolKeptByClaim(s, id, now);
      case ThreadStart(id) => PoolKeptByStart(s, id);
      case RuntimeEnd(id, outcome, now) => PoolKeptByEnd(s, id, outcome, now);
      case Arrive(_) => PoolKeptByRows(s, Step(s, e));
      case Merge(_, _, _) => PoolKeptByRows(s, Step(s, e));
      case Poll => PoolKeptByRows(s, Step(s, e));
      case Collect(_) => PoolKeptByRows(s, Step(s, e));
      case TimeOut(_, _) => PoolKeptByRows(s, Step(s, e));
    }
  }

  lemma LinksStaySound(s: State, e: Event)
    requires PoolSound(s) && ChainsSound(s.limit, s.actions, s.retryOf, s.merged) && Enabled(s, e)
    ensures ChainsSound(s.limit, Step(s, e).actions, s.retryOf, Step(s, e).merged)
  {
    StepEvolves(s, e);
    ChainsEvolve(s.limit, s.actions, Step(s, e).actions, s.retryOf, s.merged, Step(s, e).merged);
  }

  lemma ChainsStaySound(s: State, e: Event)
    requires ActionsSound(s.actions) && PoolSound(s) && ChainsSound(s.limit, s.actions, s.retryOf, s.merged) && Enabled(s, e)
    ensures var s' := Step(s, e); ChainsSound(s'.limit, s'.actions, s'.retryOf, s'.merged)
  {
    LinksStaySound(s, e);
    if e.TimeOut? {
      TimeOutExtendsChain(s, e.id, e.now);
    }
  }

  lemma TimeOutExtendsChain(s: State, id: nat, now: int)
    requires ActionsSound(s.actions) && ChainsSound(s.limit, s.actions, s.retryOf, s.merged)
    requires ChainsSound(s.limit, AfterTimeOut(s, id, now).actions, s.retryOf, s.merged)
    ensures ChainsSound(s.limit, AfterTimeOut(s, id, now).actions, AfterTimeOut(s, id, now).retryOf, s.merged)
  {
    if id < |s.actions| && s.actions[id].status == Running && Attempt(s.actions[id].payload) < s.limit {
      var s' := AfterTimeOut(s, id, now);
      assert RetryLink(s.limit, s'.actions, s.merged, id, |s.actions|);
      forall c | c in s.retryOf ensures s.retryOf[c] != id {
        assert RetryLink(s.limit, s.actions, s.merged, s.retryOf[c], c);
      }
    }
  }

  lemma StaysExclusive(s: State, e: Event)
    requires ActionsSound(s.actions) && PoolSound(s) && Exclusive(s.actions) && Enabled(s, e)
    ensures Exclusive(Step(s, e).actions)
  {
    if e.Claim? {
      forall j | 0 <= j < |s.actions| && j != e.id && s.actions[j].status == Running && s.actions[j].eventType == "chat"
        ensures s.actions[j].target != s.actions[e.id].target
      {
        assert !BlockedBy(s.actions[e.id], s.actions[j]);
      }
    }
  }

  lemma StaysAwaited(s: State, e: Event)
    requires PoolSound(s) && Awaited(s) && Enabled(s, e)
    ensures Awaited(Step(s, e))
  {
    match e {
      case Claim(id, now) => assert id !in s.finished;
      case TimeOut(id, now) => assert id in s.waiting;
      case _ =>
    }
  }

  /** No step creates weight except an arrival, and a claim uses one unit up. */
  lemma StepWeight(s: State, e: Event)
    requires ActionsSound(s.actions) && PoolSound(s) && Enabled(s, e)
    ensures var s' := Step(s, e);
      TotalWeight(s.limit, s'.actions) + s'.claims + s.arrived <= TotalWeight(s.limit, s.actions) + s.claims + s'.arrived
    ensures !e.Arrive? ==> Step(s, e).arrived == s.arrived
  {
    var s' := Step(s, e);
    match e {
      case Arrive(a) => WeightAppend(s.limit, s.actions, a);
      case Merge(id, _, _) => WeightUpdate(s.limit, s.actions, id, s'.actions[id]);
      case Claim(id, now) => WeightUpdate(s.limit, s.actions, id, s'.actions[id]);
      case ThreadStart(id) =>
      case RuntimeEnd(id, outcome, now) => WeightUpdate(s.limit, s.actions, id, s'.actions[id]);
      case Collect(id) =>
      case Poll =>
      case TimeOut(id, now) => TimeOutWeighsLess(s, id, now);
    }
  }

  lemma TimeOutWeighsLess(s: State, id: nat, now: int)
    requires ActionsSound(s.actions)
    ensures TotalWeight(s.limit, AfterTimeOut(s, id, now).actions) <= TotalWeight(s.limit, s.actions)
  {
    if id < |s.actions| && s.actions[id].status == Running {
      var a := s.actions[id];
      var failed := s.actions[id := a.(status := Failed, error := Some(TimeOutError(s, a)), finishedAt := Some(now))];
      WeightUpdate(s.limit, s.actions, id, failed[id]);
      WeightAppend(s.limit, failed, Retry(id, a, now));
    }
  }

  lemma StepKeepsInv(s: State, e: Event)
    requires Inv(s) && Enabled(s, e)
    ensures Inv(Step(s, e))
  {
    ActionsStaySound(s, e);
    PoolStaysSound(s, e);
    ChainsStaySound(s, e);
    StaysExclusive(s, e);
    StaysAwaited(s, e);
    StepWeight(s, e);
  }

  /** The invariants hold after every run. */
  lemma {:induction false} RunKeepsInv(s: State, events: seq<Event>, s': State)
    requires Inv(s) && Run(s, events, s')
    ensures Inv(s')
    decreases |events|
  {
    if events != [] {
      StepKeepsInv(s, events[0]);
      RunKeepsInv(Step(s, events[0]), events[1..], s');
    }
  }
}
