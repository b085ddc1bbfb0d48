/** Migration 0019: the global tag registry becomes one registry per user.

    Two memo tables remember which row was made for which user. `Key` names such a row, and a `Memo` is the
    pair of memo tables seen as one map from keys to the ids of the rows made for them. */
module TagRewrite {
  import opened Wrappers
  import opened Sequences
  import opened TagSchema

  datatype Key = SystemOf(user: string) | CopyOf(tag: string, user: string)

  type Memo = map<Key, string>
  type Registry = map<string, TagRow>

  /** The row an old tag turns into for an owner; nothing when the owner or the tag is unknown. */
  function KeyFor(registry: Registry, tag: string, owner: Option<string>): Option<Key> {
    if !Truthy(owner) || tag !in registry then None
    else if registry[tag].isSystem then Some(SystemOf(owner.value))
    else Some(CopyOf(tag, owner.value))
  }

  function Translate(registry: Registry, memo: Memo, tag: string, owner: Option<string>): Option<string> {
    var key := KeyFor(registry, tag, owner);
    if key.Some? && key.value in memo then Some(memo[key.value]) else None
  }

  function MetaOf(row: TagRow): Meta {
    if row.meta.Some? then row.meta.value else map[]
  }

  /** The contents of the row a key names. */
  function RowFor(registry: Registry, source: Option<string>, key: Key): TagRow
    requires source.Some? ==> source.value in registry
    requires key.CopyOf? ==> key.tag in registry
  {
    match key
    case SystemOf(user) =>
      (match source
       case None => TagRow(Some(user), "default", DEFAULT_BRIEF, "private", true, true, true,
                           Some(map["system" := True]), None, None)
       case Some(id) =>
         var s := registry[id];
         TagRow(Some(user), "default", s.brief, "private", true, true, true,
                Some(MetaOf(s)["system" := True]), s.createdAt, s.updatedAt))
    case CopyOf(tag, user) =>
      var s := registry[tag];
      TagRow(Some(user), s.tagId, s.brief, "private", true, false, false, Some(MetaOf(s)), s.createdAt, s.updatedAt)
  }

  /** The known tags of a list, translated; unknown ones are dropped. */
  function Translated(registry: Registry, memo: Memo, items: seq<string>, owner: Option<string>): seq<string> {
    if items == [] then []
    else
      var last := Translate(registry, memo, items[|items| - 1], owner);
      Translated(registry, memo, items[..|items| - 1], owner) + (if last.Some? then [last.value] else [])
  }

  /** Puts an element in front unless it is already there. */
  function WithFirst<T(==)>(x: T, s: seq<T>): seq<T> {
    if x in s then s else [x] + s
  }

  predicate Covered(registry: Registry, memo: Memo, tag: string, owner: Option<string>) {
    var key := KeyFor(registry, tag, owner);
    key.Some? ==> key.value in memo
  }

  ghost predicate AllCovered(registry: Registry, memo: Memo, items: seq<string>, owner: Option<string>) {
    forall t | t in items :: Covered(registry, memo, t, owner)
  }

  function RewrittenLink(registry: Registry, memo: Memo, owner: Option<string>, row: Link): Link {
    var next := Translate(registry, memo, row.tag, owner);
    if next.Some? then row.(tag := next.value) else row
  }

  function RewrittenRefs(registry: Registry, memo: Memo, items: seq<string>, owner: Option<string>): seq<string> {
    Dedupe(Translated(registry, memo, items, owner))
  }

  ghost predicate LinkRewritten(before: Database, memo: Memo, owner: Option<string>, row: Link, row': Link) {
    Covered(before.registry, memo, row.tag, owner) && row' == RewrittenLink(before.registry, memo, owner, row)
  }

  ghost predicate LinksRewritten(before: Database, memo: Memo, owners: map<string, Option<string>>,
                                 rows: map<string, Link>, rows': map<string, Link>)
  {
    && rows'.Keys == rows.Keys
    && forall id | id in rows :: LinkRewritten(before, memo, LinkOwner(before, owners, rows[id]), rows[id], rows'[id])
  }

  ghost predicate SessionRewritten(before: Database, memo: Memo, row: Scoped, row': Scoped) {
    var owner := ScopedOwner(before, row);
    var refs := RewrittenRefs(before.registry, memo, Items(row.tags), owner);
    && AllCovered(before.registry, memo, Items(row.tags), owner)
    && (Truthy(owner) ==> SystemOf(owner.value) in memo)
    && row' == row.(tags := List(if Truthy(owner) then WithFirst(memo[SystemOf(owner.value)], refs) else refs))
  }

  ghost predicate MessageRewritten(before: Database, memo: Memo, row: Scoped, row': Scoped) {
    var owner := ScopedOwner(before, row);
    && AllCovered(before.registry, memo, Items(row.tags), owner)
    && row' == row.(tags := List(RewrittenRefs(before.registry, memo, Items(row.tags), owner)))
  }

  ghost predicate MemoryRewritten(before: Database, memo: Memo, row: Memory, row': Memory) {
    var owner := MemoryOwner(before, row);
    && AllCovered(before.registry, memo, Items(row.tags), owner)
    && row' == row.(tags := List(RewrittenRefs(before.registry, memo, Items(row.tags), owner)))
  }

  ghost predicate SessionsRewritten(before: Database, memo: Memo, rows': map<string, Scoped>) {
    && rows'.Keys == before.sessions.Keys
    && forall id | id in before.sessions :: SessionRewritten(before, memo, before.sessions[id], rows'[id])
  }

  ghost predicate MessagesRewritten(before: Database, memo: Memo, rows': map<string, Scoped>) {
    && rows'.Keys == before.messages.Keys
    && forall id | id in before.messages :: MessageRewritten(before, memo, before.messages[id], rows'[id])
  }

  ghost predicate MemoriesRewritten(before: Database, memo: Memo, rows': map<string, Memory>) {
    && rows'.Keys == before.memories.Keys
    && forall id | id in before.memories :: MemoryRewritten(before, memo, before.memories[id], rows'[id])
  }

  /** The rows the migration is meant to make: one system row per user (and per session owner), one for every
      reference, and one copy of every ordinary tag for the fallback user. */
  ghost predicate Wanted(before: Database, key: Key) {
    || (key.SystemOf? && exists i :: 0 <= i < |before.users| && before.users[i].id == key.user)
    || (key.SystemOf? && exists id :: id in before.sessions && ScopedOwner(before, before.sessions[id]) == Some(key.user))
    || (exists p, t :: Carries(before, p, t) && KeyFor(before.registry, t, OwnerAt(before, p)) == Some(key))
    || (key.CopyOf? && Fallback(before) == Some(key.user) && key.tag in before.registry && !before.registry[key.tag].isSystem)
  }

  ghost predicate Injective(memo: Memo) {
    forall j, k | j in memo && k in memo && memo[j] == memo[k] :: j == k
  }

  ghost predicate IsSource(registry: Registry, source: Option<string>) {
    match source
    case None => forall id | id in registry :: !registry[id].isSystem
    case Some(id) => id in registry && registry[id].isSystem
  }

  /** A key stands for a row that is new and filled in as `RowFor` says. */
  ghost predicate EntrySound(before: Database, source: Option<string>, key: Key, id: string, registry: Registry) {
    && (key.CopyOf? ==> key.tag in before.registry && !before.registry[key.tag].isSystem)
    && Fresh(before, id)
    && IsSource(before.registry, source)
    && id in registry && registry[id] == RowFor(before.registry, source, key)
  }

  ghost predicate MemoSound(before: Database, source: Option<string>, memo: Memo, registry: Registry) {
    && Injective(memo)
    && forall k | k in memo :: EntrySound(before, source, k, memo[k], registry)
  }

  /** The registry holds the old rows, untouched, and the rows of the memo tables. */
  ghost predicate RegistryIs(before: Database, memo: Memo, registry: Registry) {
    && registry.Keys == before.registry.Keys + memo.Values
    && (forall id | id in before.registry :: registry[id] == before.registry[id])
  }

  /** What the two memo tables of the migration hold for a key. */
  function Remembered(system: map<string, string>, copies: map<(string, string), string>, key: Key): Option<string> {
    match key
    case SystemOf(user) => Lookup(system, user)
    case CopyOf(tag, user) => Lookup(copies, (tag, user))
  }

  ghost predicate TablesAgree(system: map<string, string>, copies: map<(string, string), string>, memo: Memo) {
    forall k :: Remembered(system, copies, k) == Lookup(memo, k)
  }

  /** What the whole migration does to a database. */
  ghost predicate Migrated(before: Database, source: Option<string>, memo: Memo, after: Database) {
    && IsSource(before.registry, source)
    && MemoSound(before, source, memo, after.registry)
    && after.registry.Keys == memo.Values
    && (forall k :: k in memo <==> Wanted(before, k))
    && after.users == before.users && after.cocoonOwner == before.cocoonOwner && after.groupOwner == before.groupOwner
    && TablesRewritten(before, memo, after)
    && after.visibility == {}
  }

  /** The memo tables only grow. */
  ghost predicate Grown(memo: Memo, memo': Memo) {
    forall k | k in memo :: k in memo' && memo'[k] == memo[k]
  }

  lemma {:induction false} TranslatedStable(registry: Registry, memo: Memo, memo': Memo, items: seq<string>, owner: Option<string>)
    requires Grown(memo, memo') && AllCovered(registry, memo, items, owner)
    ensures Translated(registry, memo', items, owner) == Translated(registry, memo, items, owner)
    ensures AllCovered(registry, memo', items, owner)
  {
    if items != [] {
      TranslatedStable(registry, memo, memo', items[..|items| - 1], owner);
      assert Covered(registry, memo, items[|items| - 1], owner);
    }
  }

  lemma TranslatedSnoc(registry: Registry, memo: Memo, items: seq<string>, t: string, owner: Option<string>)
    ensures RewrittenRefs(registry, memo, items + [t], owner) ==
      var refs, next := RewrittenRefs(registry, memo, items, owner), Translate(registry, memo, t, owner);
      if next.Some? && next.value !in refs then refs + [next.value] else refs
  {
    assert (items + [t])[..|items|] == items;
    var done, next := Translated(registry, memo, items, owner), Translate(registry, memo, t, owner);
    if next.Some? {
      assert (done + [next.value])[..|done|] == done;
    } else {
      assert done + [] == done;
    }
  }

  lemma LinkStable(before: Database, memo: Memo, memo': Memo, owner: Option<string>, row: Link, row': Link)
    requires Grown(memo, memo') && LinkRewritten(before, memo, owner, row, row')
    ensures LinkRewritten(before, memo', owner, row, row')
  {
  }

  lemma LinksStable(before: Database, memo: Memo, memo': Memo, owners: map<string, Option<string>>,
                    rows: map<string, Link>, rows': map<string, Link>)
    requires Grown(memo, memo') && LinksRewritten(before, memo, owners, rows, rows')
    ensures LinksRewritten(before, memo', owners, rows, rows')
  {
    forall id | id in rows {
      LinkStable(before, memo, memo', LinkOwner(before, owners, rows[id]), rows[id], rows'[id]);
    }
  }

  lemma SessionStable(before: Database, memo: Memo, memo': Memo, row: Scoped, row': Scoped)
    requires Grown(memo, memo') && SessionRewritten(before, memo, row, row')
    ensures SessionRewritten(before, memo', row, row')
  {
    TranslatedStable(before.registry, memo, memo', Items(row.tags), ScopedOwner(before, row));
  }

  lemma MessageStable(before: Database, memo: Memo, memo': Memo, row: Scoped, row': Scoped)
    requires Grown(memo, memo') && MessageRewritten(before, memo, row, row')
    ensures MessageRewritten(before, memo', row, row')
  {
    TranslatedStable(before.registry, memo, memo', Items(row.tags), ScopedOwner(before, row));
  }

  lemma MemoryStable(before: Database, memo: Memo, memo': Memo, row: Memory, row': Memory)
    requires Grown(memo, memo') && MemoryRewritten(before, memo, row, row')
    ensures MemoryRewritten(before, memo', row, row')
  {
    TranslatedStable(before.registry, memo, memo', Items(row.tags), MemoryOwner(before, row));
  }

  lemma ListsStable(before: Database, memo: Memo, memo': Memo, sessions': map<string, Scoped>,
                    messages': map<string, Scoped>, memories': map<string, Memory>)
    requires Grown(memo, memo')
    ensures SessionsRewritten(before, memo, sessions') ==> SessionsRewritten(before, memo', sessions')
    ensures MessagesRewritten(before, memo, messages') ==> MessagesRewritten(before, memo', messages')
    ensures MemoriesRewritten(before, memo, memories') ==> MemoriesRewritten(before, memo', memories')
  {
    if SessionsRewritten(before, memo, sessions') {
      forall id | id in before.sessions { SessionStable(before, memo, memo', before.sessions[id], sessions'[id]); }
    }
    if MessagesRewritten(before, memo, messages') {
      forall id | id in before.messages { MessageStable(before, memo, memo', before.messages[id], messages'[id]); }
    }
    if MemoriesRewritten(before, memo, memories') {
      forall id | id in before.memories { MemoryStable(before, memo, memo', before.memories[id], memories'[id]); }
    }
  }

  ghost predicate AllWanted(before: Database, memo: Memo) {
    forall k | k in memo :: Wanted(before, k)
  }

  ghost predicate FirstUsersCovered(before: Database, memo: Memo, n: nat)
    requires n <= |before.users|
  {
    forall i | 0 <= i < n :: SystemOf(before.users[i].id) in memo
  }

  ghost predicate UsersCovered(before: Database, memo: Memo) {
    FirstUsersCovered(before, memo, |before.users|)
  }

  lemma OneMoreUserCovered(before: Database, memo: Memo, memo': Memo, n: nat)
    requires n < |before.users| && FirstUsersCovered(before, memo, n) && Grown(memo, memo')
    requires SystemOf(before.users[n].id) in memo'
    ensures FirstUsersCovered(before, memo', n + 1)
  {
  }

  ghost predicate FallbackCovered(before: Database, memo: Memo) {
    var fallback := Fallback(before);
    Truthy(fallback) ==>
      forall t | t in before.registry && !before.registry[t].isSystem :: CopyOf(t, fallback.value) in memo
  }

  ghost predicate WantedRef(before: Database, t: string, owner: Option<string>) {
    var key := KeyFor(before.registry, t, owner);
    key.Some? ==> Wanted(before, key.value)
  }

  ghost predicate UnusedFrom(newId: nat -> string, n: nat, memo: Memo) {
    forall k, m: nat | k in memo && n <= m :: memo[k] != newId(m)
  }

  /** Inserting the row of a new key under the next generated id keeps the memo tables sound. */
  lemma MemoSoundStep(before: Database, source: Option<string>, memo: Memo, registry: Registry,
                      newId: nat -> string, n: nat, key: Key)
    requires FreshSupply(newId, before)
    requires IsSource(before.registry, source)
    requires MemoSound(before, source, memo, registry) && UnusedFrom(newId, n, memo) && RegistryIs(before, memo, registry)
    requires key !in memo && (key.CopyOf? ==> key.tag in before.registry && !before.registry[key.tag].isSystem)
    ensures var memo', registry' := memo[key := newId(n)], registry[newId(n) := RowFor(before.registry, source, key)];
      MemoSound(before, source, memo', registry') && UnusedFrom(newId, n + 1, memo') && RegistryIs(before, memo', registry')
  {
    var id := newId(n);
    var memo', registry' := memo[key := id], registry[id := RowFor(before.registry, source, key)];
    assert Fresh(before, id);
    assert UnusedFrom(newId, n + 1, memo');
    forall k | k in memo' ensures EntrySound(before, source, k, memo'[k], registry') {
      if k != key {
        assert EntrySound(before, source, k, memo[k], registry);
        assert memo[k] != id;
      }
    }
    ValuesGrow(memo, key, id);
  }

  lemma ValuesGrow(memo: Memo, key: Key, id: string)
    requires key !in memo
    ensures memo[key := id].Values == memo.Values + {id}
  {
    var memo' := memo[key := id];
    assert key in memo' && memo'[key] == id;
    forall v | v in memo.Values ensures v in memo'.Values {
      var k :| k in memo && memo[k] == v;
      assert k in memo' && memo'[k] == v;
    }
  }

  lemma TablesAgreeStep(system: map<string, string>, copies: map<(string, string), string>, memo: Memo, key: Key, id: string)
    requires TablesAgree(system, copies, memo)
    ensures match key
      case SystemOf(user) => TablesAgree(system[user := id], copies, memo[key := id])
      case CopyOf(tag, user) => TablesAgree(system, copies[(tag, user) := id], memo[key := id])
  {
    var system' := if key.SystemOf? then system[key.user := id] else system;
    var copies' := if key.CopyOf? then copies[(key.tag, key.user) := id] else copies;
    forall k ensures Remembered(system', copies', k) == Lookup(memo[key := id], k) {
      assert Remembered(system, copies, k) == Lookup(memo, k);
    }
  }

  ghost predicate WantedRefs(before: Database, items: seq<string>, owner: Option<string>) {
    forall t | t in items :: WantedRef(before, t, owner)
  }

  ghost predicate WantedLinks(before: Database, rows: map<string, Link>, owners: map<string, Option<string>>) {
    forall id | id in rows :: WantedRef(before, rows[id].tag, LinkOwner(before, owners, rows[id]))
  }

  /** Every known tag written at a place is wanted for the owner of that place. */
  lemma PlaceIsWanted(before: Database, p: Place)
    requires Exists(before, p)
    ensures WantedRefs(before, TagsAt(before, p), OwnerAt(before, p))
  {
    forall t | t in TagsAt(before, p) ensures WantedRef(before, t, OwnerAt(before, p)) {
      assert Carries(before, p, t);
    }
  }

  ghost predicate BindingsRewritten(before: Database, memo: Memo, cocoons: map<string, Link>, groups: map<string, Link>) {
    && LinksRewritten(before, memo, Owned(before.cocoonOwner), before.cocoonBindings, cocoons)
    && LinksRewritten(before, memo, Owned(before.groupOwner), before.groupBindings, groups)
  }

  ghost predicate TagLinksRewritten(before: Database, memo: Memo, messages: map<string, Link>, memories: map<string, Link>) {
    && LinksRewritten(before, memo, MessageOwners(before), before.messageTags, messages)
    && LinksRewritten(before, memo, MemoryOwners(before), before.memoryTags, memories)
  }

  ghost predicate ListsRewritten(before: Database, memo: Memo, sessions: map<string, Scoped>,
                                 messages: map<string, Scoped>, memories: map<string, Memory>)
  {
    && SessionsRewritten(before, memo, sessions)
    && MessagesRewritten(before, memo, messages)
    && MemoriesRewritten(before, memo, memories)
  }

  /** All seven kinds of reference are rewritten. */
  ghost predicate TablesRewritten(before: Database, memo: Memo, after: Database) {
    && BindingsRewritten(before, memo, after.cocoonBindings, after.groupBindings)
    && TagLinksRewritten(before, memo, after.messageTags, after.memoryTags)
    && ListsRewritten(before, memo, after.sessions, after.messages, after.memories)
  }

  lemma BindingsStable(before: Database, memo: Memo, memo': Memo, cocoons: map<string, Link>, groups: map<string, Link>)
    requires Grown(memo, memo') && BindingsRewritten(before, memo, cocoons, groups)
    ensures BindingsRewritten(before, memo', cocoons, groups)
  {
    LinksStable(before, memo, memo', Owned(before.cocoonOwner), before.cocoonBindings, cocoons);
    LinksStable(before, memo, memo', Owned(before.groupOwner), before.groupBindings, groups);
  }

  lemma TagLinksStable(before: Database, memo: Memo, memo': Memo, messages: map<string, Link>, memories: map<string, Link>)
    requires Grown(memo, memo') && TagLinksRewritten(before, memo, messages, memories)
    ensures TagLinksRewritten(before, memo', messages, memories)
  {
    LinksStable(before, memo, memo', MessageOwners(before), before.messageTags, messages);
    LinksStable(before, memo, memo', MemoryOwners(before), before.memoryTags, memories);
  }

  /** The four link tables only hold wanted references. */
  lemma OwnedLinksAreWanted(before: Database)
    ensures WantedLinks(before, before.cocoonBindings, Owned(before.cocoonOwner))
    ensures WantedLinks(before, before.groupBindings, Owned(before.groupOwner))
    ensures WantedLinks(before, before.messageTags, MessageOwners(before))
    ensures WantedLinks(before, before.memoryTags, MemoryOwners(before))
  {
    forall id | id in before.cocoonBindings { LinkIsWanted(before, CocoonLink(id)); }
    forall id | id in before.groupBindings { LinkIsWanted(before, GroupLink(id)); }
    forall id | id in before.messageTags { LinkIsWanted(before, MessageLink(id)); }
    forall id | id in before.memoryTags { LinkIsWanted(before, MemoryLink(id)); }
  }

  lemma LinkIsWanted(before: Database, p: Place)
    requires Exists(before, p) && |TagsAt(before, p)| > 0
    ensures WantedRef(before, TagsAt(before, p)[0], OwnerAt(before, p))
  {
    assert Carries(before, p, TagsAt(before, p)[0]);
  }

  /** Once every table is rewritten, every wanted row has been made. */
  lemma WantedIsMade(before: Database, memo: Memo, after: Database)
    requires TablesRewritten(before, memo, after)
    requires UsersCovered(before, memo) && FallbackCovered(before, memo)
    ensures forall key :: Wanted(before, key) ==> key in memo
  {
    forall key | Wanted(before, key) ensures key in memo {
      if p, t :| Carries(before, p, t) && KeyFor(before.registry, t, OwnerAt(before, p)) == Some(key) {
        ReferenceIsMade(before, memo, after, p, t);
      } else if id :| id in before.sessions && key.SystemOf? && ScopedOwner(before, before.sessions[id]) == Some(key.user) {
        assert SessionRewritten(before, memo, before.sessions[id], after.sessions[id]);
      }
    }
  }

  lemma ReferenceIsMade(before: Database, memo: Memo, after: Database, p: Place, t: string)
    requires TablesRewritten(before, memo, after)
    requires Carries(before, p, t)
    ensures Covered(before.registry, memo, t, OwnerAt(before, p))
  {
    match p {
      case CocoonLink(id) =>
        assert LinkRewritten(before, memo, OwnerAt(before, p), before.cocoonBindings[id], after.cocoonBindings[id]);
      case GroupLink(id) =>
        assert LinkRewritten(before, memo, OwnerAt(before, p), before.groupBindings[id], after.groupBindings[id]);
      case MessageLink(id) =>
        assert LinkRewritten(before, memo, OwnerAt(before, p), before.messageTags[id], after.messageTags[id]);
      case MemoryLink(id) =>
        assert LinkRewritten(before, memo, OwnerAt(before, p), before.memoryTags[id], after.memoryTags[id]);
      case SessionList(id) => assert SessionRewritten(before, memo, before.sessions[id], after.sessions[id]);
      case MessageList(id) => assert MessageRewritten(before, memo, before.messages[id], after.messages[id]);
      case MemoryList(id) => assert MemoryRewritten(before, memo, before.memories[id], after.memories[id]);
    }
  }

  /** Deleting the old rows leaves exactly the rows of the memo tables. */
  lemma OldTagsDeleted(before: Database, source: Option<string>, memo: Memo, registry: Registry)
    requires MemoSound(before, source, memo, registry) && RegistryIs(before, memo, registry)
    ensures MemoSound(before, source, memo, registry - before.registry.Keys)
    ensures (registry - before.registry.Keys).Keys == memo.Values
  {
    var left := registry - before.registry.Keys;
    forall k | k in memo ensures EntrySound(before, source, k, memo[k], left) {
      assert EntrySound(before, source, k, memo[k], registry);
    }
    forall id | id in memo.Values ensures id in left {
      var k :| k in memo && memo[k] == id;
      assert EntrySound(before, source, k, memo[k], registry);
    }
  }

  /** From the end of the last loop, deleting the old rows completes the migration. */
  lemma MigrationComplete(before: Database, source: Option<string>, memo: Memo, memo': Memo, registry: Registry, after: Database)
    requires IsSource(before.registry, source) && Grown(memo, memo')
    requires MemoSound(before, source, memo', registry) && RegistryIs(before, memo', registry)
    requires after.registry == registry - before.registry.Keys
    requires AllWanted(before, memo') && UsersCovered(before, memo) && FallbackCovered(before, memo')
    requires TablesRewritten(before, memo, after)
    requires after.users == before.users && after.visibility == {}
    requires after.cocoonOwner == before.cocoonOwner && after.groupOwner == before.groupOwner
    ensures Migrated(before, source, memo', after)
  {
    BindingsStable(before, memo, memo', after.cocoonBindings, after.groupBindings);
    TagLinksStable(before, memo, memo', after.messageTags, after.memoryTags);
    ListsStable(before, memo, memo', after.sessions, after.messages, after.memories);
    WantedIsMade(before, memo', after);
    OldTagsDeleted(before, source, memo', registry);
  }

  lemma VisitOne<V>(m: map<string, V>, todo: set<string>, id: string)
    requires id in todo && id in m
    ensures (m - todo)[id := m[id]] == m - (todo - {id})
  {
  }

  /** The state of the loop over the messages while `todo` is still to be visited. */
  ghost predicate MessagesDone(before: Database, memo: Memo, todo: set<string>, rows': map<string, Scoped>)
  {
    && todo <= before.messages.Keys == rows'.Keys
    && forall id | id in before.messages.Keys - todo :: MessageRewritten(before, memo, before.messages[id], rows'[id])
  }

  lemma MessagesStep(before: Database, memo: Memo, memo': Memo, todo: set<string>, id: string, row': Scoped,
                    rows': map<string, Scoped>)
    requires MessagesDone(before, memo, todo, rows') && id in todo && Grown(memo, memo')
    requires MessageRewritten(before, memo', before.messages[id], row')
    ensures MessagesDone(before, memo', todo - {id}, rows'[id := row'])
  {
    var rows'' := rows'[id := row'];
    forall j | j in before.messages.Keys - (todo - {id}) ensures MessageRewritten(before, memo', before.messages[j], rows''[j]) {
      if j != id {
        MessageStable(before, memo, memo', before.messages[j], rows'[j]);
      }
    }
  }

  /** The state of the loop over the memories while `todo` is still to be visited. */
  ghost predicate MemoriesDone(before: Database, memo: Memo, todo: set<string>, rows': map<string, Memory>)
  {
    && todo <= before.memories.Keys == rows'.Keys
    && forall id | id in before.memories.Keys - todo :: MemoryRewritten(before, memo, before.memories[id], rows'[id])
  }

  lemma MemoriesStep(before: Database, memo: Memo, memo': Memo, todo: set<string>, id: string, row': Memory,
                    rows': map<string, Memory>)
    requires MemoriesDone(before, memo, todo, rows') && id in todo && Grown(memo, memo')
    requires MemoryRewritten(before, memo', before.memories[id], row')
    ensures MemoriesDone(before, memo', todo - {id}, rows'[id := row'])
  {
    var rows'' := rows'[id := row'];
    forall j | j in before.memories.Keys - (todo - {id}) ensures MemoryRewritten(before, memo', before.memories[j], rows''[j]) {
      if j != id {
        MemoryStable(before, memo, memo', before.memories[j], rows'[j]);
      }
    }
  }

  lemma NothingMadeYet(db: Database, source: Option<string>, newId: nat -> string)
    requires IsSource(db.registry, source)
    ensures MemoSound(db, source, map[], db.registry) && RegistryIs(db, map[], db.registry)
    ensures TablesAgree(map[], map[], map[]) && UnusedFrom(newId, 0, map[])
  {
    forall k ensures Remembered(map[], map[], k) == Lookup(map[], k) {}
  }
}
