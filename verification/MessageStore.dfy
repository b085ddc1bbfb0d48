/** The message lists of the chat session store: always the sorted listing of what was written last under each id. */
module MessageStore {
  import opened Sequences
  import opened Ordering

  datatype Message = Message(id: int, createdAt: int, body: string)

  /** The comparator of `sortMessages`: by time, then by id. */
  predicate NotAfter(a: Message, b: Message) {
    a.createdAt < b.createdAt || (a.createdAt == b.createdAt && a.id <= b.id)
  }

  function SortMessages(items: seq<Message>): seq<Message> {
    Sort(NotAfter, items)
  }

  /** `Map.set` on an insertion-ordered map whose values are `entries`: an id keeps its place. */
  function Put(entries: seq<Message>, m: Message): seq<Message> {
    if entries == [] then [m]
    else if entries[0].id == m.id then [m] + entries[1..]
    else [entries[0]] + Put(entries[1..], m)
  }

  function PutAll(entries: seq<Message>, items: seq<Message>): seq<Message> {
    if items == [] then entries else Put(PutAll(entries, items[..|items| - 1]), items[|items| - 1])
  }

  function Merged(existing: seq<Message>, next: seq<Message>): seq<Message> {
    SortMessages(PutAll(PutAll([], existing), next))
  }

  // ----- The map behind a list -----

  type Store = m: map<int, Message> | forall k | k in m :: m[k].id == k

  /** The last write under each id. */
  function LastWrites(items: seq<Message>): Store {
    if items == [] then map[] else LastWrites(items[..|items| - 1])[items[|items| - 1].id := items[|items| - 1]]
  }

  ghost predicate DistinctIds(items: seq<Message>) {
    forall i, j | 0 <= i < j < |items| :: items[i].id != items[j].id
  }

  /** The list is the sorted listing of the map. */
  ghost predicate Lists(m: Store, q: seq<Message>) {
    IsListing(NotAfter, m.Values, q)
  }

  lemma OrderIsTotal(m: Store)
    ensures Preorder(NotAfter) && NoTies(NotAfter, m.Values)
  {
  }

  /** There is only one such list. */
  lemma ListIsDetermined(m: Store, p: seq<Message>, q: seq<Message>)
    requires Lists(m, p) && Lists(m, q)
    ensures p == q
  {
    OrderIsTotal(m);
    ListingIsUnique(NotAfter, m.Values, p, q);
  }

  /** Entries with distinct ids hold a map. */
  ghost predicate Holds(entries: seq<Message>, m: Store) {
    DistinctIds(entries) && Elements(entries) == m.Values
  }

  lemma {:induction false} PutHolds(entries: seq<Message>, x: Message, m: Store)
    requires Holds(entries, m)
    ensures Holds(Put(entries, x), m[x.id := x])
  {
    PutElements(entries, x);
    var r, m' := Put(entries, x), m[x.id := x];
    forall e ensures e in r <==> e in m'.Values {
      assert e in entries <==> e in Elements(entries);
      assert e in m.Values <==> e.id in m && m[e.id] == e;
      assert e in m'.Values <==> e.id in m' && m'[e.id] == e;
    }
  }

  lemma {:induction false} PutElements(entries: seq<Message>, x: Message)
    requires DistinctIds(entries)
    ensures DistinctIds(Put(entries, x))
    ensures forall e :: e in Put(entries, x) <==> e == x || (e in entries && e.id != x.id)
  {
    if entries != [] {
      var first, rest := entries[0], entries[1..];
      assert entries == [first] + rest;
      if first.id == x.id {
        assert forall e | e in rest :: e.id != x.id;
      } else {
        PutElements(rest, x);
        assert forall e | e in rest :: e.id != first.id;
      }
    }
  }

  lemma {:induction false} PutAllHolds(entries: seq<Message>, items: seq<Message>, m: Store)
    requires Holds(entries, m)
    ensures Holds(PutAll(entries, items), m + LastWrites(items))
  {
    if items == [] {
      assert m + LastWrites(items) == m;
    } else {
      var init, last := items[..|items| - 1], items[|items| - 1];
      PutAllHolds(entries, init, m);
      PutHolds(PutAll(entries, init), last, m + LastWrites(init));
      assert m + LastWrites(items) == (m + LastWrites(init))[last.id := last];
    }
  }

  lemma {:induction false} DistinctHolds(items: seq<Message>)
    requires DistinctIds(items)
    ensures Holds(items, LastWrites(items))
  {
    if items != [] {
      var init, last := items[..|items| - 1], items[|items| - 1];
      DistinctHolds(init);
      assert items == init + [last];
      forall e ensures e in items <==> e in LastWrites(items).Values {
        assert e in init <==> e in Elements(init);
        assert e in LastWrites(init).Values <==> e.id in LastWrites(init) && LastWrites(init)[e.id] == e;
        assert e in LastWrites(items).Values <==> e.id in LastWrites(items) && LastWrites(items)[e.id] == e;
        if e.id == last.id {
          assert e !in init;
        }
      }
    }
  }

  lemma HeldIsSorted(entries: seq<Message>, m: Store)
    requires Holds(entries, m)
    ensures Lists(m, SortMessages(entries))
  {
    OrderIsTotal(m);
    assert NoRepeats(entries);
    SortLists(NotAfter, entries);
  }

  /** Merging writes the new messages over the old, whatever the list was. */
  lemma MergeLists(existing: seq<Message>, next: seq<Message>)
    ensures Lists(LastWrites(existing) + LastWrites(next), Merged(existing, next))
  {
    PutAllHolds([], existing, map[]);
    assert map[] + LastWrites(existing) == LastWrites(existing);
    PutAllHolds(PutAll([], existing), next, LastWrites(existing));
    HeldIsSorted(PutAll(PutAll([], existing), next), LastWrites(existing) + LastWrites(next));
  }

  lemma MergeWritesOver(existing: seq<Message>, next: seq<Message>, m: Store)
    requires Lists(m, existing)
    ensures Lists(m + LastWrites(next), Merged(existing, next))
  {
    ListedIsHeld(existing, m);
    DistinctHolds(existing);
    SameMap(LastWrites(existing), m);
    MergeLists(existing, next);
  }

  lemma ListedIsHeld(q: seq<Message>, m: Store)
    requires Lists(m, q)
    ensures Holds(q, m)
  {
    forall i, j | 0 <= i < j < |q| ensures q[i].id != q[j].id {
      assert q[i] in Elements(q) && q[j] in Elements(q);
    }
  }

  lemma SameMap(m: Store, n: Store)
    requires m.Values == n.Values
    ensures m == n
  {
    forall k ensures k in m <==> k in n {
      assert k in m ==> m[k] in n.Values;
      assert k in n ==> n[k] in m.Values;
    }
    forall k | k in m ensures m[k] == n[k] {
      assert m[k] in n.Values;
    }
  }

  /** `setMessages` leaves the listing of the last writes exactly when no id occurs twice in the batch. */
  lemma SetListsIffDistinct(batch: seq<Message>)
    ensures Lists(LastWrites(batch), SortMessages(batch)) <==> DistinctIds(batch)
  {
    if DistinctIds(batch) {
      DistinctHolds(batch);
      HeldIsSorted(batch, LastWrites(batch));
    }
    if Lists(LastWrites(batch), SortMessages(batch)) {
      OrderIsTotal(LastWrites(batch));
      SortIsSorted(NotAfter, batch);
      SameMultiset(batch, SortMessages(batch));
      forall i, j | 0 <= i < j < |batch| ensures batch[i].id != batch[j].id {
        assert batch[i] in Elements(batch) && batch[j] in Elements(batch);
      }
    }
  }

  // ----- Runs -----

  datatype Op = SetTo(batch: seq<Message>) | Prepend(batch: seq<Message>) | Upsert(message: Message)

  function Apply(q: seq<Message>, op: Op): seq<Message> {
    match op
    case SetTo(batch) => SortMessages(batch)
    case Prepend(batch) => Merged(q, batch)
    case Upsert(m) => Merged(q, [m])
  }

  function Write(m: Store, op: Op): Store {
    match op
    case SetTo(batch) => LastWrites(batch)
    case Prepend(batch) => m + LastWrites(batch)
    case Upsert(x) => m[x.id := x]
  }

  function ApplyAll(q: seq<Message>, ops: seq<Op>): seq<Message>
    decreases |ops|
  {
    if ops == [] then q else ApplyAll(Apply(q, ops[0]), ops[1..])
  }

  function WriteAll(m: Store, ops: seq<Op>): Store
    decreases |ops|
  {
    if ops == [] then m else WriteAll(Write(m, ops[0]), ops[1..])
  }

  /** Every batch given to `setMessages` has distinct ids; merged batches may repeat them. */
  ghost predicate SetsAreDistinct(ops: seq<Op>) {
    forall i | 0 <= i < |ops| :: ops[i].SetTo? ==> DistinctIds(ops[i].batch)
  }

  lemma ApplyLists(q: seq<Message>, m: Store, op: Op)
    requires Lists(m, q) && (op.SetTo? ==> DistinctIds(op.batch))
    ensures Lists(Write(m, op), Apply(q, op))
  {
    match op {
      case SetTo(batch) => SetListsIffDistinct(batch);
      case Prepend(batch) => MergeWritesOver(q, batch, m);
      case Upsert(x) =>
        MergeWritesOver(q, [x], m);
        assert LastWrites([x]) == map[x.id := x];
        assert m + LastWrites([x]) == m[x.id := x];
    }
  }

  /** After any sequence of operations the list is the listing of the last writes. */
  lemma {:induction false} AlwaysTheLastWrites(q: seq<Message>, m: Store, ops: seq<Op>)
    requires Lists(m, q) && SetsAreDistinct(ops)
    ensures Lists(WriteAll(m, ops), ApplyAll(q, ops))
    decreases |ops|
  {
    if ops != [] {
      ApplyLists(q, m, ops[0]);
      AlwaysTheLastWrites(Apply(q, ops[0]), Write(m, ops[0]), ops[1..]);
    }
  }

  /** Batches agree when they say the same under the ids they share. */
  ghost predicate Agree(a: seq<Message>, b: seq<Message>) {
    forall k | k in LastWrites(a) && k in LastWrites(b) :: LastWrites(a)[k] == LastWrites(b)[k]
  }

  /** Agreeing batches can be merged in either order. */
  lemma MergingCommutes(q: seq<Message>, m: Store, a: seq<Message>, b: seq<Message>)
    requires Lists(m, q) && Agree(a, b)
    ensures Merged(Merged(q, a), b) == Merged(Merged(q, b), a)
  {
    MergeTwice(q, m, a, b);
    MergeTwice(q, m, b, a);
    AgreeingWritesCommute(m, LastWrites(a), LastWrites(b));
    ListIsDetermined(m + LastWrites(a) + LastWrites(b), Merged(Merged(q, a), b), Merged(Merged(q, b), a));
  }

  lemma MergeTwice(q: seq<Message>, m: Store, a: seq<Message>, b: seq<Message>)
    requires Lists(m, q)
    ensures Lists(m + LastWrites(a) + LastWrites(b), Merged(Merged(q, a), b))
  {
    MergeWritesOver(q, a, m);
    MergeWritesOver(Merged(q, a), b, m + LastWrites(a));
  }

  lemma AgreeingWritesCommute(m: Store, a: Store, b: Store)
    requires forall k | k in a && k in b :: a[k] == b[k]
    ensures m + a + b == m + b + a
  {
  }

  /** Merging a batch again changes nothing. */
  lemma MergingIsIdempotent(q: seq<Message>, m: Store, a: seq<Message>)
    requires Lists(m, q)
    ensures Merged(Merged(q, a), a) == Merged(q, a)
  {
    MergeWritesOver(q, a, m);
    MergeTwice(q, m, a, a);
    assert m + LastWrites(a) + LastWrites(a) == m + LastWrites(a);
    ListIsDetermined(m + LastWrites(a), Merged(Merged(q, a), a), Merged(q, a));
  }

  // ----- What is shown -----

  /** Oldest first, and by id at the same time. */
  ghost predicate Chronological(q: seq<Message>) {
    forall i, j | 0 <= i < j < |q| :: q[i].createdAt < q[j].createdAt || (q[i].createdAt == q[j].createdAt && q[i].id < q[j].id)
  }

  /** The message is there, and nothing after it has its id. */
  ghost predicate LastIn(items: seq<Message>, x: Message) {
    exists i :: 0 <= i < |items| && items[i] == x && forall j | i < j < |items| :: items[j].id != x.id
  }

  /** A list shows exactly the last message told under each id, oldest first. */
  ghost predicate Shows(q: seq<Message>, told: seq<Message>) {
    Chronological(q) && forall x :: x in q <==> LastIn(told, x)
  }

  /** Sorting, by itself, orders by time and id and keeps every message. */
  lemma SortedByTime(items: seq<Message>)
    ensures var q := SortMessages(items);
      && multiset(q) == multiset(items)
      && forall i, j | 0 <= i < j < |q| :: q[i].createdAt < q[j].createdAt || (q[i].createdAt == q[j].createdAt && q[i].id <= q[j].id)
  {
    SortIsSorted(NotAfter, items);
  }

  lemma LastWritesAre(items: seq<Message>)
    ensures forall x :: LastIn(items, x) <==> x.id in LastWrites(items) && LastWrites(items)[x.id] == x
  {
    forall x ensures LastIn(items, x) <==> x.id in LastWrites(items) && LastWrites(items)[x.id] == x {
      LastWriteIs(items, x);
    }
  }

  lemma {:induction false} LastWriteIs(items: seq<Message>, x: Message)
    ensures LastIn(items, x) <==> x.id in LastWrites(items) && LastWrites(items)[x.id] == x
  {
    if items != [] {
      var init, last := items[..|items| - 1], items[|items| - 1];
      LastWriteIs(init, x);
      assert items == init + [last];
      if x == last || (x.id != last.id && LastIn(init, x)) {
        LastStays(init, last, x);
      } else if LastIn(items, x) {
        LastWasThere(init, last, x);
      }
    }
  }

  lemma LastStays(init: seq<Message>, last: Message, x: Message)
    requires x == last || (x.id != last.id && LastIn(init, x))
    ensures LastIn(init + [last], x)
  {
    var items := init + [last];
    if x == last {
      assert items[|init|] == x;
    } else {
      var i :| 0 <= i < |init| && init[i] == x && forall j | i < j < |init| :: init[j].id != x.id;
      assert items[i] == x;
    }
  }

  lemma LastWasThere(init: seq<Message>, last: Message, x: Message)
    requires LastIn(init + [last], x) && x != last
    ensures x.id != last.id && LastIn(init, x)
  {
    var items := init + [last];
    var i :| 0 <= i < |items| && items[i] == x && forall j | i < j < |items| :: items[j].id != x.id;
    assert items[|init|] == last;
    assert i < |init| && init[i] == x;
    forall j | i < j < |init| ensures init[j].id != x.id {
      assert items[j] == init[j];
    }
  }

  /** The sorted listing of the last writes shows what was told. */
  lemma ListingShows(q: seq<Message>, told: seq<Message>)
    requires Lists(LastWrites(told), q)
    ensures Shows(q, told)
  {
    LastWritesAre(told);
    var m := LastWrites(told);
    forall x ensures x in q <==> x.id in m && m[x.id] == x {
      assert x in q <==> x in Elements(q);
    }
    forall i, j | 0 <= i < j < |q|
      ensures q[i].createdAt < q[j].createdAt || (q[i].createdAt == q[j].createdAt && q[i].id < q[j].id)
    {
      assert NotAfter(q[i], q[j]) && q[i] != q[j] && q[i] in q && q[j] in q;
    }
  }

  lemma {:induction false} WritesAppend(a: seq<Message>, b: seq<Message>)
    ensures LastWrites(a + b) == LastWrites(a) + LastWrites(b)
  {
    if b == [] {
      assert a + b == a;
    } else {
      var init, last := b[..|b| - 1], b[|b| - 1];
      WritesAppend(a, init);
      assert (a + b)[..|a + b| - 1] == a + init && (a + b)[|a + b| - 1] == last;
      assert LastWrites(a) + LastWrites(init)[last.id := last] == (LastWrites(a) + LastWrites(init))[last.id := last];
    }
  }

  /** A merge shows the new messages over the old ones, whatever the old list was. */
  lemma MergeShows(existing: seq<Message>, next: seq<Message>)
    ensures Shows(Merged(existing, next), existing + next)
  {
    MergeLists(existing, next);
    WritesAppend(existing, next);
    ListingShows(Merged(existing, next), existing + next);
  }

  lemma SetShowsDistinct(batch: seq<Message>)
    requires DistinctIds(batch)
    ensures Shows(SortMessages(batch), batch)
  {
    SetListsIffDistinct(batch);
    ListingShows(SortMessages(batch), batch);
  }

  /** Everything told since the list was last set. */
  function Told(told: seq<Message>, ops: seq<Op>): seq<Message>
    decreases |ops|
  {
    if ops == [] then told
    else
      var next :=
        match ops[0]
        case SetTo(batch) => batch
        case Prepend(batch) => told + batch
        case Upsert(m) => told + [m];
      Told(next, ops[1..])
  }

  lemma {:induction false} WritesAreTold(told: seq<Message>, ops: seq<Op>)
    ensures WriteAll(LastWrites(told), ops) == LastWrites(Told(told, ops))
    decreases |ops|
  {
    if ops != [] {
      match ops[0] {
        case SetTo(batch) => WritesAreTold(batch, ops[1..]);
        case Prepend(batch) =>
          WritesAppend(told, batch);
          WritesAreTold(told + batch, ops[1..]);
        case Upsert(m) =>
          WritesAppend(told, [m]);
          assert LastWrites([m]) == map[m.id := m];
          assert LastWrites(told) + LastWrites([m]) == LastWrites(told)[m.id := m];
          WritesAreTold(told + [m], ops[1..]);
      }
    }
  }

  /** After every sequence of sets of distinct ids, prepends and upserts the list shows the last message told under
      each id, oldest first. */
  lemma AlwaysShowsTheLastTold(ops: seq<Op>)
    requires SetsAreDistinct(ops)
    ensures Shows(ApplyAll([], ops), Told([], ops))
  {
    assert Lists(LastWrites([]), []);
    AlwaysTheLastWrites([], LastWrites([]), ops);
    WritesAreTold([], ops);
    ListingShows(ApplyAll([], ops), Told([], ops));
  }

  // ----- The store -----

  /** A session: its messages, and everything the message actions carry along. */
  datatype Session = Session(messages: seq<Message>, others: string)

  const EMPTY_SESSION := Session([], "")

  /** `mergeMessages`: fill a map with both lists, then sort its values. */
  method MergeMessages(existing: seq<Message>, nextItems: seq<Message>) returns (merged: seq<Message>)
    ensures merged == Merged(existing, nextItems)
    ensures Shows(merged, existing + nextItems)
  {
    MergeShows(existing, nextItems);
    var entries := [];
    for i := 0 to |existing|
      invariant entries == PutAll([], existing[..i])
    {
      assert existing[..i + 1][..i] == existing[..i];
      entries := Put(entries, existing[i]);
    }
    assert existing[..|existing|] == existing;
    for i := 0 to |nextItems|
      invariant entries == PutAll(PutAll([], existing), nextItems[..i])
    {
      assert nextItems[..i + 1][..i] == nextItems[..i];
      entries := Put(entries, nextItems[i]);
    }
    assert nextItems[..|nextItems|] == nextItems;
    merged := SortMessages(entries);
  }

  class ChatSessionStore {
    var sessions: map<string, Session>

    function Get(key: string): Session
      reads this
    {
      if key in sessions then sessions[key] else EMPTY_SESSION
    }

    constructor ()
      ensures sessions == map[]
    {
      sessions := map[];
    }

    method SetMessages(key: string, messages: seq<Message>)
      modifies this
      ensures Get(key).messages == SortMessages(messages)
      ensures Lists(LastWrites(messages), Get(key).messages) <==> DistinctIds(messages)
      ensures DistinctIds(messages) ==> Shows(Get(key).messages, messages)
      ensures sessions == old(sessions)[key := old(Get(key)).(messages := Get(key).messages)]
    {
      SetListsIffDistinct(messages);
      if DistinctIds(messages) {
        SetShowsDistinct(messages);
      }
      sessions := sessions[key := Get(key).(messages := SortMessages(messages))];
    }

    method PrependMessages(key: string, messages: seq<Message>)
      modifies this
      ensures Lists(LastWrites(old(Get(key)).messages) + LastWrites(messages), Get(key).messages)
      ensures Shows(Get(key).messages, old(Get(key)).messages + messages)
      ensures sessions == old(sessions)[key := old(Get(key)).(messages := Merged(old(Get(key)).messages, messages))]
    {
      var merged := MergeMessages(Get(key).messages, messages);
      MergeLists(Get(key).messages, messages);
      sessions := sessions[key := Get(key).(messages := merged)];
    }

    method UpsertMessage(key: string, message: Message)
      modifies this
      ensures Lists(LastWrites(old(Get(key)).messages)[message.id := message], Get(key).messages)
      ensures Shows(Get(key).messages, old(Get(key)).messages + [message])
      ensures sessions == old(sessions)[key := old(Get(key)).(messages := Merged(old(Get(key)).messages, [message]))]
    {
      var merged := MergeMessages(Get(key).messages, [message]);
      MergeLists(Get(key).messages, [message]);
      assert LastWrites([message]) == map[message.id := message];
      assert LastWrites(Get(key).messages) + LastWrites([message]) == LastWrites(Get(key).messages)[message.id := message];
      sessions := sessions[key := Get(key).(messages := merged)];
    }
  }
}
