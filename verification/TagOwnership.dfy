/** Migration 0019 as it runs: one pass over every table, growing the two memo tables. */
module TagOwnership {
  import opened Wrappers
  import opened TagSchema
  import opened TagRewrite

  /** `next((row for row in old_tags if row["is_system"]), None)`, for any order the rows come in. */
  method FirstSystemRow(registry: Registry) returns (source: Option<string>)
    ensures IsSource(registry, source)
  {
    if id :| id in registry && registry[id].isSystem {
      source := Some(id);
    } else {
      source := None;
    }
  }

  /** The migration in progress. `before` is what its SELECTs return, `source` the first system row they return. */
  class Upgrade {
    const before: Database
    const source: Option<string>
    const newId: nat -> string
    var drawn: nat

    var registry: Registry
    var cocoonBindings: map<string, Link>
    var groupBindings: map<string, Link>
    var sessions: map<string, Scoped>
    var messages: map<string, Scoped>
    var memories: map<string, Memory>
    var messageTags: map<string, Link>
    var memoryTags: map<string, Link>
    var visibility: set<string>

    var systemTagByUser: map<string, string>
    var migratedTagByOldOwner: map<(string, string), string>
    ghost var memo: Memo  // the two memo tables as one map

    ghost predicate Valid()
      reads this
    {
      && FreshSupply(newId, before)
      && IsSource(before.registry, source)
      && MemoSound(before, source, memo, registry)
      && RegistryIs(before, memo, registry)
      && TablesAgree(systemTagByUser, migratedTagByOldOwner, memo)
      && UnusedFrom(newId, drawn, memo)
    }

    /** Everything made so far was wanted. */
    ghost predicate Thrifty()
      reads this
    {
      AllWanted(before, memo)
    }

    /** Every table that holds tags is rewritten by this memo. */
    ghost predicate Rewritten(memo: Memo)
      reads `cocoonBindings, `groupBindings, `sessions, `messages, `memories, `messageTags, `memoryTags
    {
      && BindingsRewritten(before, memo, cocoonBindings, groupBindings)
      && TagLinksRewritten(before, memo, messageTags, memoryTags)
      && ListsRewritten(before, memo, sessions, messages, memories)
    }

    ghost function Snapshot(): Database
      reads this
    {
      Database(before.users, before.cocoonOwner, before.groupOwner, registry, cocoonBindings, groupBindings,
               sessions, messages, memories, messageTags, memoryTags, visibility)
    }

    constructor (db: Database, newId: nat -> string)
      requires FreshSupply(newId, db)
      ensures Valid() && Thrifty() && before == db && Snapshot() == db && memo == map[]
    {
      before := db;
      this.newId := newId;
      drawn := 0;
      registry, visibility := db.registry, db.visibility;
      cocoonBindings, groupBindings := db.cocoonBindings, db.groupBindings;
      sessions, messages, memories := db.sessions, db.messages, db.memories;
      messageTags, memoryTags := db.messageTags, db.memoryTags;
      systemTagByUser, migratedTagByOldOwner := map[], map[];
      memo := map[];
      var first := FirstSystemRow(db.registry);
      source := first;
      NothingMadeYet(db, first, newId);
    }

    /** Inserts the row of a key under the next generated id and remembers it. */
    method InsertRow(key: Key) returns (id: string)
      requires Valid() && key !in memo
      requires key.CopyOf? ==> key.tag in before.registry && !before.registry[key.tag].isSystem
      modifies `registry, `drawn, `systemTagByUser, `migratedTagByOldOwner, `memo
      ensures Valid() && memo == old(memo)[key := id]
    {
      id := newId(drawn);
      MemoSoundStep(before, source, memo, registry, newId, drawn, key);
      TablesAgreeStep(systemTagByUser, migratedTagByOldOwner, memo, key, id);
      drawn := drawn + 1;
      registry := registry[id := RowFor(before.registry, source, key)];
      match key {
        case SystemOf(user) => systemTagByUser := systemTagByUser[user := id];
        case CopyOf(tag, user) => migratedTagByOldOwner := migratedTagByOldOwner[(tag, user) := id];
      }
      memo := memo[key := id];
    }

    method EnsureSystemTag(user: string) returns (id: string)
      requires Valid()
      modifies `registry, `drawn, `systemTagByUser, `migratedTagByOldOwner, `memo
      ensures Valid()
      ensures SystemOf(user) in memo && id == memo[SystemOf(user)]
      ensures Grown(old(memo), memo) && memo.Keys == old(memo).Keys + {SystemOf(user)}
    {
      assert Remembered(systemTagByUser, migratedTagByOldOwner, SystemOf(user)) == Lookup(memo, SystemOf(user));
      if user in systemTagByUser && systemTagByUser[user] != "" {
        return systemTagByUser[user];
      }
      id := InsertRow(SystemOf(user));
    }

    method EnsureOwnedCopy(oldTagId: string, owner: Option<string>) returns (id: Option<string>)
      requires Valid()
      modifies `registry, `drawn, `systemTagByUser, `migratedTagByOldOwner, `memo
      ensures Valid()
      ensures Covered(before.registry, memo, oldTagId, owner)
      ensures id == Translate(before.registry, memo, oldTagId, owner)
      ensures Grown(old(memo), memo)
      ensures forall k | k in memo :: k in old(memo) || KeyFor(before.registry, oldTagId, owner) == Some(k)
    {
      if !Truthy(owner) || oldTagId !in before.registry {
        return None;
      }
      var tag := before.registry[oldTagId];
      if tag.isSystem {
        var s := EnsureSystemTag(owner.value);
        return Some(s);
      }
      var key := (oldTagId, owner.value);
      assert Remembered(systemTagByUser, migratedTagByOldOwner, CopyOf(oldTagId, owner.value)) == Lookup(memo, CopyOf(oldTagId, owner.value));
      if key in migratedTagByOldOwner && migratedTagByOldOwner[key] != "" {
        return Some(migratedTagByOldOwner[key]);
      }
      var nextId := InsertRow(CopyOf(oldTagId, owner.value));
      return Some(nextId);
    }

    /** One row of a binding or tag link table. */
    method RewriteLink(row: Link, owner: Option<string>) returns (row': Link)
      requires Valid() && Thrifty() && WantedRef(before, row.tag, owner)
      modifies `registry, `drawn, `systemTagByUser, `migratedTagByOldOwner, `memo
      ensures Valid() && Thrifty() && Grown(old(memo), memo)
      ensures LinkRewritten(before, memo, owner, row, row')
    {
      var next := EnsureOwnedCopy(row.tag, owner);
      row' := if next.Some? then row.(tag := next.value) else row;
    }

    /** The loop over a table of links. `owners` is the owner map the loop reads; `rows` is what its SELECT
        returned, in any order. */
    method RewriteLinks(rows: map<string, Link>, owners: map<string, Option<string>>) returns (rows': map<string, Link>)
      requires Valid() && Thrifty()
      requires WantedLinks(before, rows, owners)
      modifies `registry, `drawn, `systemTagByUser, `migratedTagByOldOwner, `memo
      ensures Valid() && Thrifty() && Grown(old(memo), memo)
      ensures LinksRewritten(before, memo, owners, rows, rows')
    {
      rows' := rows;
      var todo := rows.Keys;
      while todo != {}
        invariant Valid() && Thrifty() && Grown(old(memo), memo)
        invariant todo <= rows.Keys == rows'.Keys
        invariant forall id | id in rows.Keys - todo ::
          LinkRewritten(before, memo, LinkOwner(before, owners, rows[id]), rows[id], rows'[id])
      {
        var id :| id in todo;
        ghost var was := memo;
        assert WantedRef(before, rows[id].tag, LinkOwner(before, owners, rows[id]));
        var row' := RewriteLink(rows[id], LinkOwner(before, owners, rows[id]));
        forall j | j in rows.Keys - todo {
          LinkStable(before, was, memo, LinkOwner(before, owners, rows[j]), rows[j], rows'[j]);
        }
        rows' := rows'[id := row'];
        todo := todo - {id};
      }
    }

    /** The inner loop of the three JSON columns. */
    method RewriteRefs(items: seq<string>, owner: Option<string>) returns (refs: seq<string>)
      requires Valid() && Thrifty()
      requires WantedRefs(before, items, owner)
      modifies `registry, `drawn, `systemTagByUser, `migratedTagByOldOwner, `memo
      ensures Valid() && Thrifty() && Grown(old(memo), memo)
      ensures AllCovered(before.registry, memo, items, owner)
      ensures refs == RewrittenRefs(before.registry, memo, items, owner)
    {
      refs := [];
      for i := 0 to |items|
        invariant Valid() && Thrifty() && Grown(old(memo), memo)
        invariant AllCovered(before.registry, memo, items[..i], owner)
        invariant refs == RewrittenRefs(before.registry, memo, items[..i], owner)
      {
        ghost var was := memo;
        assert WantedRef(before, items[i], owner);
        var next := EnsureOwnedCopy(items[i], owner);
        TranslatedStable(before.registry, was, memo, items[..i], owner);
        TranslatedSnoc(before.registry, memo, items[..i], items[i], owner);
        assert items[..i] + [items[i]] == items[..i + 1];
        if next.Some? && next.value !in refs {
          refs := refs + [next.value];
        }
      }
      assert items[..|items|] == items;
    }

    /** The loop over the session states: the owner's system tag goes in front when it is missing. */
    method RewriteSessions()
      requires Valid() && Thrifty() && sessions == before.sessions
      modifies `registry, `drawn, `systemTagByUser, `migratedTagByOldOwner, `memo, `sessions
      ensures Valid() && Thrifty() && Grown(old(memo), memo)
      ensures SessionsRewritten(before, memo, sessions)
    {
      var todo := before.sessions.Keys;
      while todo != {}
        invariant Valid() && Thrifty() && Grown(old(memo), memo)
        invariant todo <= before.sessions.Keys == sessions.Keys
        invariant forall id | id in before.sessions.Keys - todo :: SessionRewritten(before, memo, before.sessions[id], sessions[id])
      {
        var id :| id in todo;
        ghost var was := memo;
        var row' := RewriteSession(id);
        forall j | j in before.sessions.Keys - todo {
          SessionStable(before, was, memo, before.sessions[j], sessions[j]);
        }
        sessions := sessions[id := row'];
        todo := todo - {id};
      }
    }

    method RewriteSession(id: string) returns (row': Scoped)
      requires Valid() && Thrifty() && id in before.sessions
      modifies `registry, `drawn, `systemTagByUser, `migratedTagByOldOwner, `memo
      ensures Valid() && Thrifty() && Grown(old(memo), memo)
      ensures SessionRewritten(before, memo, before.sessions[id], row')
    {
      var row := before.sessions[id];
      var owner := ScopedOwner(before, row);
      assert WantedRefs(before, Items(row.tags), owner) by { PlaceIsWanted(before, SessionList(id)); }
      var refs := RewriteRefs(Items(row.tags), owner);
      if Truthy(owner) {
        ghost var was := memo;
        assert Wanted(before, SystemOf(owner.value));
        var system := EnsureSystemTag(owner.value);
        TranslatedStable(before.registry, was, memo, Items(row.tags), owner);
        if system !in refs {
          refs := [system] + refs;
        }
      }
      row' := row.(tags := List(refs));
    }

    method RewriteMessage(id: string) returns (row': Scoped)
      requires Valid() && Thrifty() && id in before.messages
      modifies `registry, `drawn, `systemTagByUser, `migratedTagByOldOwner, `memo
      ensures Valid() && Thrifty() && Grown(old(memo), memo)
      ensures MessageRewritten(before, memo, before.messages[id], row')
    {
      var row := before.messages[id];
      var owner := ScopedOwner(before, row);
      assert WantedRefs(before, Items(row.tags), owner) by { PlaceIsWanted(before, MessageList(id)); }
      var refs := RewriteRefs(Items(row.tags), owner);
      row' := row.(tags := List(refs));
    }

    /** The loop over the messages; it also remembers who owns each message. */
    method RewriteMessages() returns (messageOwners: map<string, Option<string>>)
      requires Valid() && Thrifty() && messages == before.messages
      modifies `registry, `drawn, `systemTagByUser, `migratedTagByOldOwner, `memo, `messages
      ensures Valid() && Thrifty() && Grown(old(memo), memo)
      ensures MessagesRewritten(before, memo, messages)
      ensures messageOwners == MessageOwners(before)
    {
      messageOwners := map[];
      var todo := before.messages.Keys;
      while todo != {}
        invariant Valid() && Thrifty() && Grown(old(memo), memo)
        invariant MessagesDone(before, memo, todo, messages)
        invariant messageOwners == MessageOwners(before) - todo
      {
        var id :| id in todo;
        ghost var was := memo;
        var row' := RewriteMessage(id);
        MessagesStep(before, was, memo, todo, id, row', messages);
        VisitOne(MessageOwners(before), todo, id);
        messageOwners := messageOwners[id := ScopedOwner(before, before.messages[id])];
        messages := messages[id := row'];
        todo := todo - {id};
      }
    }

    method RewriteMemory(id: string) returns (row': Memory)
      requires Valid() && Thrifty() && id in before.memories
      modifies `registry, `drawn, `systemTagByUser, `migratedTagByOldOwner, `memo
      ensures Valid() && Thrifty() && Grown(old(memo), memo)
      ensures MemoryRewritten(before, memo, before.memories[id], row')
    {
      var row := before.memories[id];
      var owner := MemoryOwner(before, row);
      assert WantedRefs(before, Items(row.tags), owner) by { PlaceIsWanted(before, MemoryList(id)); }
      var refs := RewriteRefs(Items(row.tags), owner);
      row' := row.(tags := List(refs));
    }

    /** The loop over the memory chunks; it also remembers who owns each chunk. */
    method RewriteMemories() returns (memoryOwners: map<string, Option<string>>)
      requires Valid() && Thrifty() && memories == before.memories
      modifies `registry, `drawn, `systemTagByUser, `migratedTagByOldOwner, `memo, `memories
      ensures Valid() && Thrifty() && Grown(old(memo), memo)
      ensures MemoriesRewritten(before, memo, memories)
      ensures memoryOwners == MemoryOwners(before)
    {
      memoryOwners := map[];
      var todo := before.memories.Keys;
      while todo != {}
        invariant Valid() && Thrifty() && Grown(old(memo), memo)
        invariant MemoriesDone(before, memo, todo, memories)
        invariant memoryOwners == MemoryOwners(before) - todo
      {
        var id :| id in todo;
        ghost var was := memo;
        var row' := RewriteMemory(id);
        MemoriesStep(before, was, memo, todo, id, row', memories);
        VisitOne(MemoryOwners(before), todo, id);
        memoryOwners := memoryOwners[id := MemoryOwner(before, before.memories[id])];
        memories := memories[id := row'];
        todo := todo - {id};
      }
    }

    /** `for user_id in user_ids: ensure_system_tag(user_id)` */
    method MakeSystemTags()
      requires Valid() && Thrifty()
      modifies `registry, `drawn, `systemTagByUser, `migratedTagByOldOwner, `memo
      ensures Valid() && Thrifty() && Grown(old(memo), memo)
      ensures UsersCovered(before, memo)
    {
      for i := 0 to |before.users|
        invariant Valid() && Thrifty() && Grown(old(memo), memo)
        invariant FirstUsersCovered(before, memo, i)
      {
        ghost var was := memo;
        MakeSystemTag(i);
        OneMoreUserCovered(before, was, memo, i);
      }
    }

    method MakeSystemTag(i: nat)
      requires Valid() && Thrifty() && i < |before.users|
      modifies `registry, `drawn, `systemTagByUser, `migratedTagByOldOwner, `memo
      ensures Valid() && Thrifty() && Grown(old(memo), memo)
      ensures SystemOf(before.users[i].id) in memo
    {
      assert Wanted(before, SystemOf(before.users[i].id));
      var _ := EnsureSystemTag(before.users[i].id);
    }

    /** The last loop: no ordinary tag is lost, whoever used it. */
    method CopyForFallback()
      requires Valid() && Thrifty()
      modifies `registry, `drawn, `systemTagByUser, `migratedTagByOldOwner, `memo
      ensures Valid() && Thrifty() && Grown(old(memo), memo)
      ensures FallbackCovered(before, memo)
    {
      var fallback := Fallback(before);
      if Truthy(fallback) {
        var todo := before.registry.Keys;
        while todo != {}
          invariant Valid() && Thrifty() && Grown(old(memo), memo) && todo <= before.registry.Keys
          invariant forall t | t in before.registry.Keys - todo :: !before.registry[t].isSystem ==> CopyOf(t, fallback.value) in memo
        {
          var t :| t in todo;
          if !before.registry[t].isSystem {
            assert Wanted(before, CopyOf(t, fallback.value));
            var _ := EnsureOwnedCopy(t, fallback);
          }
          todo := todo - {t};
        }
      }
    }

    method RewriteBindings()
      requires Valid() && Thrifty()
      requires cocoonBindings == before.cocoonBindings && groupBindings == before.groupBindings
      modifies `registry, `drawn, `systemTagByUser, `migratedTagByOldOwner, `memo, `cocoonBindings, `groupBindings
      ensures Valid() && Thrifty() && Grown(old(memo), memo)
      ensures BindingsRewritten(before, memo, cocoonBindings, groupBindings)
    {
      OwnedLinksAreWanted(before);
      cocoonBindings := RewriteLinks(cocoonBindings, Owned(before.cocoonOwner));
      ghost var was := memo;
      groupBindings := RewriteLinks(groupBindings, Owned(before.groupOwner));
      LinksStable(before, was, memo, Owned(before.cocoonOwner), before.cocoonBindings, cocoonBindings);
    }

    method RewriteTagLinks(messageOwners: map<string, Option<string>>, memoryOwners: map<string, Option<string>>)
      requires Valid() && Thrifty()
      requires messageTags == before.messageTags && memoryTags == before.memoryTags
      requires messageOwners == MessageOwners(before) && memoryOwners == MemoryOwners(before)
      modifies `registry, `drawn, `systemTagByUser, `migratedTagByOldOwner, `memo, `messageTags, `memoryTags
      ensures Valid() && Thrifty() && Grown(old(memo), memo)
      ensures TagLinksRewritten(before, memo, messageTags, memoryTags)
    {
      OwnedLinksAreWanted(before);
      messageTags := RewriteLinks(messageTags, messageOwners);
      ghost var was := memo;
      memoryTags := RewriteLinks(memoryTags, memoryOwners);
      LinksStable(before, was, memo, MessageOwners(before), before.messageTags, messageTags);
    }

    /** The three JSON columns. */
    method RewriteLists() returns (messageOwners: map<string, Option<string>>, memoryOwners: map<string, Option<string>>)
      requires Valid() && Thrifty()
      requires sessions == before.sessions && messages == before.messages && memories == before.memories
      modifies `registry, `drawn, `systemTagByUser, `migratedTagByOldOwner, `memo, `sessions, `messages, `memories
      ensures Valid() && Thrifty() && Grown(old(memo), memo)
      ensures messageOwners == MessageOwners(before) && memoryOwners == MemoryOwners(before)
      ensures ListsRewritten(before, memo, sessions, messages, memories)
    {
      RewriteSessions();
      ghost var memo1 := memo;
      messageOwners := RewriteMessages();
      ghost var memo2 := memo;
      memoryOwners := RewriteMemories();
      ListsStable(before, memo1, memo, sessions, messages, memories);
      ListsStable(before, memo2, memo, sessions, messages, memories);
    }

    /** The seven rewriting loops, in the migration's order. */
    method RewriteTables()
      requires Valid() && Thrifty()
      requires cocoonBindings == before.cocoonBindings && groupBindings == before.groupBindings
      requires sessions == before.sessions && messages == before.messages && memories == before.memories
      requires messageTags == before.messageTags && memoryTags == before.memoryTags
      modifies this
      ensures Valid() && Thrifty() && Grown(old(memo), memo)
      ensures Rewritten(memo)
    {
      RewriteBindings();
      ghost var memo1 := memo;
      var messageOwners, memoryOwners := RewriteLists();
      ghost var memo2 := memo;
      RewriteTagLinks(messageOwners, memoryOwners);
      BindingsStable(before, memo1, memo, cocoonBindings, groupBindings);
      ListsStable(before, memo2, memo, sessions, messages, memories);
    }

    /** Deletes every old tag. `rewritten` is what the memo tables held when the last table was rewritten. */
    method DeleteOldTags(ghost rewritten: Memo)
      requires Valid() && Thrifty() && Grown(rewritten, memo) && visibility == {}
      requires UsersCovered(before, rewritten) && FallbackCovered(before, memo)
      requires Rewritten(rewritten)
      modifies `registry
      ensures Migrated(before, source, memo, Snapshot())
    {
      ghost var full := registry;
      registry := registry - before.registry.Keys;
      MigrationComplete(before, source, rewritten, memo, full, Snapshot());
    }

    /** Drops the visibility rows, copies what nobody used, and deletes every old tag. */
    method RetireOldTags()
      requires Valid() && Thrifty() && UsersCovered(before, memo)
      requires Rewritten(memo)
      modifies `registry, `drawn, `systemTagByUser, `migratedTagByOldOwner, `memo, `visibility
      ensures Migrated(before, source, memo, Snapshot())
    {
      ghost var rewritten := memo;
      visibility := {};
      CopyForFallback();
      DeleteOldTags(rewritten);
    }

    /** The data steps of the whole migration. */
    method Run()
      requires Valid() && Thrifty() && Snapshot() == before
      modifies this
      ensures Migrated(before, source, memo, Snapshot())
    {
      MakeSystemTags();
      RewriteTables();
      RetireOldTags();
    }
  }
}
