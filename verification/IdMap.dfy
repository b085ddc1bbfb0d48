/** The map between the server's string ids and the small numbers the older pages use. */
module IdMap {
  import opened Wrappers
  import opened Decimals

  datatype Namespace =
    | Audit | Character | Checkpoint | Cocoon | EmbeddingProvider | Group | GroupMember | Invite
    | Memory | Merge | Message | Model | Provider | Role | Tag | User

  datatype NamespaceState = NamespaceState(
    actualToLegacy: map<string, nat>, legacyToActual: map<string, string>, next: nat)

  const EMPTY := NamespaceState(map[], map[], 1)

  /** A legacy id as the pages pass it: a number, or a string. */
  datatype LegacyId = Number(n: int) | Text(s: string)

  /** What the session storage may hold: nothing, something that does not parse, or a saved store. */
  datatype Storage = Absent | Corrupt | Saved(store: map<Namespace, NamespaceState>)

  function StringOf(id: LegacyId): string {
    match id
    case Number(n) => if n < 0 then "-" + Decimal(-n) else Decimal(n)
    case Text(s) => s
  }

  /** `/[a-z-]/i` finds something. */
  predicate HasLetterOrDash(s: string) {
    exists i | 0 <= i < |s| :: s[i] == '-' || 'a' <= s[i] <= 'z' || 'A' <= s[i] <= 'Z'
  }

  lemma DecimalHasNoLetter(n: nat)
    ensures !HasLetterOrDash(Decimal(n)) && |Decimal(n)| >= 1
  {
    DecimalIsDigits(n);
  }

  // ----- One namespace -----

  function Remember(s: NamespaceState, id: string): (NamespaceState, nat) {
    if id in s.actualToLegacy && s.actualToLegacy[id] != 0 then (s, s.actualToLegacy[id])
    else
      (NamespaceState(s.actualToLegacy[id := s.next], s.legacyToActual[Decimal(s.next) := id], s.next + 1), s.next)
  }

  function Resolve(s: NamespaceState, id: LegacyId): string {
    if id.Text? && HasLetterOrDash(id.s) then id.s
    else if StringOf(id) in s.legacyToActual then s.legacyToActual[StringOf(id)]
    else StringOf(id)
  }

  /** The two tables are inverse bijections between the known ids and the numbers below `next`. */
  ghost predicate Bijective(s: NamespaceState) {
    && 1 <= s.next
    && (forall id | id in s.actualToLegacy ::
          var n := s.actualToLegacy[id];
          1 <= n < s.next && Lookup(s.legacyToActual, Decimal(n)) == Some(id))
    && (forall n: nat | 1 <= n < s.next ::
          Decimal(n) in s.legacyToActual && Lookup(s.actualToLegacy, s.legacyToActual[Decimal(n)]) == Some(n))
    && (forall k | k in s.legacyToActual :: exists n: nat :: 1 <= n < s.next && k == Decimal(n))
  }

  /** Remembering keeps the bijection. */
  lemma RememberKeepsBijection(s: NamespaceState, id: string)
    requires Bijective(s)
    ensures Bijective(Remember(s, id).0)
  {
    if id !in s.actualToLegacy {
      var s' := Remember(s, id).0;
      forall m: nat | m != s.next ensures Decimal(m) != Decimal(s.next) {
        if Decimal(m) == Decimal(s.next) { DecimalIsInjective(m, s.next); }
      }
      forall k | k in s'.legacyToActual ensures exists m: nat :: 1 <= m < s'.next && k == Decimal(m) {
        if k != Decimal(s.next) {
          assert k in s.legacyToActual;
        }
      }
      NewNumberIsBound(s, id);
    }
  }

  lemma NewNumberIsBound(s: NamespaceState, id: string)
    requires Bijective(s) && id !in s.actualToLegacy
    requires forall m: nat | m != s.next :: Decimal(m) != Decimal(s.next)
    ensures var s' := Remember(s, id).0;
      && (forall x | x in s'.actualToLegacy ::
            var n := s'.actualToLegacy[x];
            1 <= n < s'.next && Lookup(s'.legacyToActual, Decimal(n)) == Some(x))
      && (forall n: nat | 1 <= n < s'.next ::
            Decimal(n) in s'.legacyToActual && Lookup(s'.actualToLegacy, s'.legacyToActual[Decimal(n)]) == Some(n))
  {
    var s' := Remember(s, id).0;
    forall n: nat | 1 <= n < s'.next
      ensures Decimal(n) in s'.legacyToActual && Lookup(s'.actualToLegacy, s'.legacyToActual[Decimal(n)]) == Some(n)
    {
      if n != s.next {
        assert Lookup(s.actualToLegacy, s.legacyToActual[Decimal(n)]) == Some(n);
      }
    }
  }

  /** Remembering never renumbers a known id, and is undone by resolving the number, given as a number or as a
      string. */
  lemma RememberThenResolve(s: NamespaceState, id: string)
    requires Bijective(s)
    ensures var (s', n) := Remember(s, id);
      && (forall known | known in s.actualToLegacy :: Lookup(s'.actualToLegacy, known) == Some(s.actualToLegacy[known]))
      && Lookup(s'.actualToLegacy, id) == Some(n)
      && Resolve(s', Number(n)) == id && Resolve(s', Text(Decimal(n))) == id
  {
    DecimalHasNoLetter(Remember(s, id).1);
  }

  /** Resolving a number in use is undone by remembering. */
  lemma ResolveThenRemember(s: NamespaceState, n: nat)
    requires Bijective(s) && 1 <= n < s.next
    ensures Remember(s, Resolve(s, Number(n))) == (s, n)
  {
    assert Decimal(n) in s.legacyToActual;
  }

  /** A text that is an id already, because it has a letter or a dash, is not looked up. */
  lemma IdsResolveToThemselves(s: NamespaceState, text: string, i: nat)
    requires i < |text| && (text[i] == '-' || 'a' <= text[i] <= 'z' || 'A' <= text[i] <= 'Z')
    ensures Resolve(s, Text(text)) == text
  {
  }

  /** A number that no id has resolves to itself, written in decimal, as a number and as a string. */
  lemma UnusedNumbersResolveToThemselves(s: NamespaceState, n: nat)
    requires Bijective(s) && (n == 0 || n >= s.next)
    ensures Resolve(s, Number(n)) == Resolve(s, Text(Decimal(n))) == Decimal(n)
    ensures n > 0 ==> Resolve(s, Number(0 - n)) == Resolve(s, Text("-" + Decimal(n))) == "-" + Decimal(n)
  {
    DecimalHasNoLetter(n);
    if Decimal(n) in s.legacyToActual {
      var m: nat :| 1 <= m < s.next && Decimal(n) == Decimal(m);
      DecimalIsInjective(n, m);
    }
    forall m: nat ensures Decimal(m) != "-" + Decimal(n) {
      DecimalIsDigits(m);
      assert ("-" + Decimal(n))[0] == '-';
    }
  }

  // ----- The page -----

  type Snapshot = map<Namespace, NamespaceState>

  /** A browser page. `saved` lists every snapshot this module ever wrote. */
  datatype Page = Page(hasWindow: bool, store: Snapshot, hydrated: bool, storage: Storage, saved: seq<Snapshot>)

  const INITIAL: Snapshot := map ns: Namespace | true :: EMPTY

  /** A partial snapshot only replaces the namespaces it has. */
  function Hydrate(p: Page): Page {
    if p.hydrated || !p.hasWindow || !p.storage.Saved? then p.(hydrated := true)
    else p.(hydrated := true, store := p.store + p.storage.store)
  }

  /** Saving is best effort: `ok` tells whether the browser accepted it. */
  function Persist(p: Page, ok: bool): Page {
    if !p.hasWindow || !ok then p else p.(storage := Saved(p.store), saved := p.saved + [p.store])
  }

  function StateOf(store: Snapshot, ns: Namespace): NamespaceState {
    if ns in store then store[ns] else EMPTY
  }

  function RememberId(p: Page, ns: Namespace, id: string, ok: bool): Page {
    var h := Hydrate(p);
    var s := StateOf(h.store, ns);
    var next := h.(store := h.store[ns := Remember(s, id).0]);
    if id in s.actualToLegacy && s.actualToLegacy[id] != 0 then h else Persist(next, ok)
  }

  datatype Event =
    | Remembers(ns: Namespace, id: string, ok: bool)
    | Looks(ns: Namespace, legacy: LegacyId)
    | Reloads(storage: Storage)

  /** A reload finds what the storage held at some earlier time, or nothing, or something broken. */
  ghost predicate Possible(p: Page, e: Event) {
    e.Reloads? && e.storage.Saved? ==> e.storage.store in p.saved
  }

  function Step(p: Page, e: Event): Page {
    match e
    case Remembers(ns, id, ok) => RememberId(p, ns, id, ok)
    case Looks(_, _) => Hydrate(p)
    case Reloads(storage) => p.(store := INITIAL, hydrated := false, storage := storage)
  }

  ghost predicate Run(p: Page, events: seq<Event>, p': Page)
    decreases |events|
  {
    if events == [] then p' == p
    else Possible(p, events[0]) && Run(Step(p, events[0]), events[1..], p')
  }

  ghost predicate AllBijective(store: Snapshot) {
    forall ns | ns in store :: Bijective(store[ns])
  }

  ghost predicate Sound(p: Page) {
    && AllBijective(p.store)
    && (p.storage.Saved? ==> AllBijective(p.storage.store))
    && (forall i | 0 <= i < |p.saved| :: AllBijective(p.saved[i]))
  }

  lemma HydrateKeepsSound(p: Page)
    requires Sound(p)
    ensures Sound(Hydrate(p))
  {
    var h := Hydrate(p);
    forall ns | ns in h.store ensures Bijective(h.store[ns]) {
      assert ns in p.store || (p.storage.Saved? && ns in p.storage.store);
    }
  }

  lemma UpdateKeepsSound(store: Snapshot, ns: Namespace, id: string)
    requires AllBijective(store)
    ensures AllBijective(store[ns := Remember(StateOf(store, ns), id).0])
  {
    RememberKeepsBijection(StateOf(store, ns), id);
  }

  lemma PersistKeepsSound(p: Page, ok: bool)
    requires Sound(p)
    ensures Sound(Persist(p, ok))
  {
    var p' := Persist(p, ok);
    forall i | 0 <= i < |p'.saved| ensures AllBijective(p'.saved[i]) {
      assert i < |p.saved| ==> p'.saved[i] == p.saved[i];
    }
  }

  lemma StepKeepsSound(p: Page, e: Event)
    requires Sound(p) && Possible(p, e)
    ensures Sound(Step(p, e))
  {
    HydrateKeepsSound(p);
    match e {
      case Remembers(ns, id, ok) =>
        var h := Hydrate(p);
        UpdateKeepsSound(h.store, ns, id);
        PersistKeepsSound(h.(store := h.store[ns := Remember(StateOf(h.store, ns), id).0]), ok);
      case Looks(_, _) =>
      case Reloads(storage) =>
        if storage.Saved? {
          var i :| 0 <= i < |p.saved| && p.saved[i] == storage.store;
          assert AllBijective(p.saved[i]);
        }
        assert AllBijective(INITIAL);
    }
  }

  /** After every run of remembering, resolving, saving and reloading, from whatever earlier snapshot, the tables of
      every namespace are inverse bijections. */
  lemma {:induction false} AlwaysBijective(p: Page, events: seq<Event>, p': Page)
    requires Sound(p) && Run(p, events, p')
    ensures Sound(p')
    decreases |events|
  {
    if events != [] {
      StepKeepsSound(p, events[0]);
      AlwaysBijective(Step(p, events[0]), events[1..], p');
    }
  }

  /** A new id is saved at once when the browser accepts it. */
  lemma RememberSavesNewIds(p: Page, ns: Namespace, id: string)
    requires p.hasWindow && id !in StateOf(Hydrate(p).store, ns).actualToLegacy
    ensures var p' := RememberId(p, ns, id, true); p'.storage == Saved(p'.store) && p'.store in p'.saved
  {
    assert RememberId(p, ns, id, true).saved != [];
  }

  lemma SoundAt(p: Page, ns: Namespace)
    requires Sound(p)
    ensures Bijective(StateOf(p.store, ns))
  {
  }

  predicate Numbers(store: Snapshot, ns: Namespace, id: string, n: nat) {
    Lookup(StateOf(store, ns).actualToLegacy, id) == Some(n)
  }

  /** A number that resolves to its id, as a number or as a string. */
  predicate Resolves(store: Snapshot, ns: Namespace, id: string, n: nat) {
    Resolve(StateOf(store, ns), Number(n)) == id && Resolve(StateOf(store, ns), Text(Decimal(n))) == id
  }

  lemma KnownResolves(store: Snapshot, ns: Namespace, id: string, n: nat)
    requires AllBijective(store) && Numbers(store, ns, id, n)
    ensures Resolves(store, ns, id, n) && Remember(StateOf(store, ns), id) == (StateOf(store, ns), n)
  {
    RememberThenResolve(StateOf(store, ns), id);
  }

  function AfterRemember(store: Snapshot, ns: Namespace, id: string): Snapshot {
    store[ns := Remember(StateOf(store, ns), id).0]
  }

  lemma NumberIsKept(store: Snapshot, ns: Namespace, id: string, other: Namespace, x: string, m: nat)
    requires AllBijective(store) && Numbers(store, other, x, m)
    ensures Numbers(AfterRemember(store, ns, id), other, x, m)
  {
    if other == ns {
      RememberThenResolve(StateOf(store, ns), id);
      assert x in StateOf(store, ns).actualToLegacy;
    }
  }

  ghost predicate KeepsNumbers(before: Snapshot, after: Snapshot) {
    forall ns, id, n | Numbers(before, ns, id, n) :: Numbers(after, ns, id, n)
  }

  lemma RememberIn(store: Snapshot, ns: Namespace, id: string)
    requires AllBijective(store)
    ensures var n := Remember(StateOf(store, ns), id).1;
      Numbers(AfterRemember(store, ns, id), ns, id, n) && Resolves(AfterRemember(store, ns, id), ns, id, n)
    ensures KeepsNumbers(store, AfterRemember(store, ns, id))
  {
    RememberThenResolve(StateOf(store, ns), id);
    assert StateOf(AfterRemember(store, ns, id), ns) == Remember(StateOf(store, ns), id).0;
    forall other, x, m | Numbers(store, other, x, m) ensures Numbers(AfterRemember(store, ns, id), other, x, m) {
      NumberIsKept(store, ns, id, other, x, m);
    }
  }

  /** What a caller of `rememberLegacyId` gets: a number that resolves to the id, with no other number changed. */
  lemma RememberedResolves(p: Page, ns: Namespace, id: string, ok: bool)
    requires Sound(p)
    ensures var p', n := RememberId(p, ns, id, ok), Remember(StateOf(Hydrate(p).store, ns), id).1;
      && Sound(p') && Numbers(p'.store, ns, id, n) && Resolves(p'.store, ns, id, n)
      && KeepsNumbers(Hydrate(p).store, p'.store)
  {
    StepKeepsSound(p, Remembers(ns, id, ok));
    HydrateKeepsSound(p);
    RememberIn(Hydrate(p).store, ns, id);
  }

  lemma StepKeepsNumber(p: Page, e: Event, ns: Namespace, id: string, n: nat)
    requires Sound(p) && p.hydrated && !e.Reloads? && Numbers(p.store, ns, id, n)
    ensures Step(p, e).hydrated && Numbers(Step(p, e).store, ns, id, n)
  {
    if e.Remembers? {
      RememberedResolves(p, e.ns, e.id, e.ok);
    }
  }

  predicate NoReload(events: seq<Event>) {
    events == [] || (!events[0].Reloads? && NoReload(events[1..]))
  }

  /** Until the next reload a number that was handed out keeps resolving to its id. */
  lemma {:induction false} NumbersStayUntilReload(p: Page, events: seq<Event>, p': Page, ns: Namespace, id: string, n: nat)
    requires Sound(p) && p.hydrated && Run(p, events, p')
    requires NoReload(events)
    requires Numbers(p.store, ns, id, n)
    ensures Numbers(p'.store, ns, id, n) && Resolves(p'.store, ns, id, n)
    decreases |events|
  {
    if events == [] {
      KnownResolves(p.store, ns, id, n);
    } else {
      StepKeepsSound(p, events[0]);
      StepKeepsNumber(p, events[0], ns, id, n);
      NumbersStayUntilReload(Step(p, events[0]), events[1..], p', ns, id, n);
    }
  }

  // ----- Across reloads -----

  /** The stored snapshot has the number, and so does the store once it has been read from there. */
  predicate Keeps(p: Page, ns: Namespace, id: string, n: nat) {
    && p.hasWindow && p.storage.Saved? && Numbers(p.storage.store, ns, id, n)
    && (p.hydrated ==> Numbers(p.store, ns, id, n))
  }

  /** Every reload of the run finds what the storage held, or an earlier snapshot that has the number. */
  ghost predicate ReloadsKeep(p: Page, events: seq<Event>, ns: Namespace, id: string, n: nat)
    decreases |events|
  {
    events != [] ==>
      && (events[0].Reloads? ==> events[0].storage == p.storage || (events[0].storage.Saved? && Numbers(events[0].storage.store, ns, id, n)))
      && ReloadsKeep(Step(p, events[0]), events[1..], ns, id, n)
  }

  lemma HydratingReadsTheNumber(p: Page, ns: Namespace, id: string, n: nat)
    requires Keeps(p, ns, id, n)
    ensures Numbers(Hydrate(p).store, ns, id, n) && Hydrate(p).hydrated && Keeps(Hydrate(p), ns, id, n)
  {
  }

  /** Remembering keeps a saved number, whether its own save works or not. */
  lemma RememberingKeepsTheNumber(p: Page, ns: Namespace, id: string, n: nat, other: Namespace, x: string, ok: bool)
    requires Sound(p) && Keeps(p, ns, id, n)
    ensures Keeps(RememberId(p, other, x, ok), ns, id, n)
  {
    HydratingReadsTheNumber(p, ns, id, n);
    RememberedResolves(p, other, x, ok);
  }

  lemma StepKeepsSaved(p: Page, e: Event, ns: Namespace, id: string, n: nat)
    requires Sound(p) && Keeps(p, ns, id, n)
    requires e.Reloads? ==> e.storage == p.storage || (e.storage.Saved? && Numbers(e.storage.store, ns, id, n))
    ensures Keeps(Step(p, e), ns, id, n)
  {
    match e {
      case Remembers(other, x, ok) => RememberingKeepsTheNumber(p, ns, id, n, other, x, ok);
      case Looks(_, _) => HydratingReadsTheNumber(p, ns, id, n);
      case Reloads(_) =>
    }
  }

  /** A saved number survives every run: saves that work and saves that fail, and any number of reloads from the
      storage or from an earlier snapshot that has it. Afterwards it still resolves to its id. */
  lemma {:induction false} SavedNumbersSurvive(p: Page, events: seq<Event>, p': Page, ns: Namespace, id: string, n: nat)
    requires Sound(p) && Run(p, events, p') && Keeps(p, ns, id, n) && ReloadsKeep(p, events, ns, id, n)
    ensures Keeps(p', ns, id, n)
    ensures var state := StateOf(Hydrate(p').store, ns);
      Resolves(Hydrate(p').store, ns, id, n) && Remember(state, id) == (state, n)
    decreases |events|
  {
    if events == [] {
      HydratingReadsTheNumber(p, ns, id, n);
      HydrateKeepsSound(p);
      KnownResolves(Hydrate(p).store, ns, id, n);
    } else {
      StepKeepsSound(p, events[0]);
      StepKeepsSaved(p, events[0], ns, id, n);
      SavedNumbersSurvive(Step(p, events[0]), events[1..], p', ns, id, n);
    }
  }

  /** A new id whose save works is kept from then on. */
  lemma RememberingSaves(p: Page, ns: Namespace, id: string)
    requires p.hasWindow && id !in StateOf(Hydrate(p).store, ns).actualToLegacy
    ensures Keeps(RememberId(p, ns, id, true), ns, id, StateOf(Hydrate(p).store, ns).next)
  {
    RememberSavesNewIds(p, ns, id);
  }

  // ----- The module -----

  class IdMapModule {
    const hasWindow: bool
    var store: Snapshot
    var hydrated: bool
    var storage: Storage
    ghost var saved: seq<Snapshot>

    ghost function View(): Page
      reads this
    {
      Page(hasWindow, store, hydrated, storage, saved)
    }

    constructor (hasWindow: bool)
      ensures Sound(View()) && View() == Page(hasWindow, INITIAL, false, Absent, [])
    {
      this.hasWindow := hasWindow;
      store, hydrated, storage, saved := INITIAL, false, Absent, [];
    }

    method HydrateStore()
      modifies this
      ensures View() == Hydrate(old(View()))
    {
      if hydrated || !hasWindow {
        hydrated := true;
        return;
      }
      hydrated := true;
      if storage.Saved? {
        var snapshot := storage.store;
        var todo := snapshot.Keys;
        while todo != {}
          invariant todo <= snapshot.Keys && hydrated && storage == old(storage) && saved == old(saved)
          invariant store == old(store) + (snapshot - todo)
        {
          var ns :| ns in todo;
          store := store[ns := snapshot[ns]];
          todo := todo - {ns};
        }
        assert snapshot - todo == snapshot;
      }
    }

    method PersistStore(ok: bool)
      modifies `storage, `saved
      ensures View() == Persist(old(View()), ok)
    {
      if !hasWindow || !ok {
        return;
      }
      storage, saved := Saved(store), saved + [store];
    }

    method RememberLegacyId(ns: Namespace, actualId: string, ok: bool) returns (legacy: nat)
      modifies this
      ensures View() == RememberId(old(View()), ns, actualId, ok)
      ensures old(Sound(View())) ==> Sound(View()) && Numbers(store, ns, actualId, legacy) && Resolves(store, ns, actualId, legacy)
      ensures old(Sound(View())) ==> KeepsNumbers(Hydrate(old(View())).store, store)
    {
      ghost var was := View();
      if Sound(was) {
        RememberedResolves(was, ns, actualId, ok);
      }
      HydrateStore();
      var scoped := StateOf(store, ns);
      if actualId in scoped.actualToLegacy && scoped.actualToLegacy[actualId] != 0 {
        return scoped.actualToLegacy[actualId];
      }
      legacy := scoped.next;
      store := store[ns := NamespaceState(scoped.actualToLegacy[actualId := legacy],
                                          scoped.legacyToActual[Decimal(legacy) := actualId], legacy + 1)];
      PersistStore(ok);
    }

    method ResolveActualId(ns: Namespace, legacy: LegacyId) returns (actual: string)
      modifies this
      ensures View() == Hydrate(old(View())) && actual == Resolve(StateOf(store, ns), legacy)
      ensures old(Sound(View())) ==> Sound(View())
      ensures old(Sound(View())) && legacy.Number? && 1 <= legacy.n < StateOf(store, ns).next ==>
                Numbers(store, ns, actual, legacy.n)
    {
      ghost var was := View();
      HydrateStore();
      actual := Resolve(StateOf(store, ns), legacy);
      if Sound(was) {
        HydrateKeepsSound(was);
        SoundAt(View(), ns);
        if legacy.Number? && 1 <= legacy.n < StateOf(store, ns).next {
          ResolveThenRemember(StateOf(store, ns), legacy.n);
        }
      }
    }
  }
}
