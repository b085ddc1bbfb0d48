/** The registry that migration 0019 leaves, and what 0016 followed by 0019 guarantees. */
module TagOutcome {
  import opened Wrappers
  import opened TagSchema
  import opened TagBackfill
  import opened TagRewrite
  import opened TagTheorems

  // ----- The registry -----

  ghost predicate IsUser(db: Database, user: string) {
    exists i :: 0 <= i < |db.users| && db.users[i].id == user
  }

  /** The owner columns point at users, and user ids are not empty. */
  ghost predicate ForeignKeysHold(db: Database) {
    && !IsUser(db, "")
    && (forall c | c in db.cocoonOwner :: IsUser(db, db.cocoonOwner[c]))
    && (forall g | g in db.groupOwner :: IsUser(db, db.groupOwner[g]))
    && (forall m | m in db.memories && db.memories[m].owner.Some? :: IsUser(db, db.memories[m].owner.value))
  }

  /** Somebody's resource mentions the tag. */
  ghost predicate Referenced(db: Database, t: string, user: string) {
    exists p :: Carries(db, p, t) && OwnerAt(db, p) == Some(user)
  }

  lemma {:induction false} UsernameIsUser(users: seq<User>, name: string)
    ensures var found := IdOfUsername(users, name);
      found.Some? ==> exists i :: 0 <= i < |users| && users[i].id == found.value
  {
    if users != [] {
      UsernameIsUser(users[..|users| - 1], name);
      var last := |users| - 1;
      assert users[last].id == users[|users| - 1].id;
      var found := IdOfUsername(users[..last], name);
      if found.Some? {
        var i :| 0 <= i < last && users[..last][i].id == found.value;
        assert users[i].id == found.value;
      }
    }
  }

  lemma FallbackIsUser(db: Database)
    ensures Fallback(db).Some? ==> IsUser(db, Fallback(db).value)
  {
    UsernameIsUser(db.users, "user1");
    UsernameIsUser(db.users, "admin");
    if db.users != [] {
      assert IsUser(db, db.users[0].id);
    }
  }

  lemma OwnersAreUsers(db: Database, p: Place)
    requires ForeignKeysHold(db) && Exists(db, p) && OwnerAt(db, p).Some?
    ensures IsUser(db, OwnerAt(db, p).value)
  {
    FallbackIsUser(db);
    match p {
      case CocoonLink(id) =>
      case GroupLink(id) =>
      case MessageLink(id) => if db.messageTags[id].holder in db.messages { ScopedOwnerIsUser(db, db.messages[db.messageTags[id].holder]); }
      case MemoryLink(id) => if db.memoryTags[id].holder in db.memories { MemoryOwnerIsUser(db, db.memoryTags[id].holder); }
      case SessionList(id) => ScopedOwnerIsUser(db, db.sessions[id]);
      case MessageList(id) => ScopedOwnerIsUser(db, db.messages[id]);
      case MemoryList(id) => MemoryOwnerIsUser(db, id);
    }
  }

  lemma ScopedOwnerIsUser(db: Database, row: Scoped)
    requires ForeignKeysHold(db) && ScopedOwner(db, row).Some?
    ensures IsUser(db, ScopedOwner(db, row).value)
  {
    FallbackIsUser(db);
  }

  lemma MemoryOwnerIsUser(db: Database, id: string)
    requires ForeignKeysHold(db) && id in db.memories && MemoryOwner(db, db.memories[id]).Some?
    ensures IsUser(db, MemoryOwner(db, db.memories[id]).value)
  {
    FallbackIsUser(db);
  }

  /** The new registry has one row per key, the key being a user's system tag or a wanted copy and nothing else. */
  lemma RegistryIsExactly(before: Database, source: Option<string>, memo: Memo, after: Database)
    requires Migrated(before, source, memo, after) && ForeignKeysHold(before)
    ensures forall n :: n in after.registry <==> exists k :: k in memo && memo[k] == n
    ensures forall j, k | j in memo && k in memo && memo[j] == memo[k] :: j == k
    ensures forall u :: SystemOf(u) in memo <==> IsUser(before, u)
    ensures forall t, u :: CopyOf(t, u) in memo <==>
      && t in before.registry && !before.registry[t].isSystem
      && (Referenced(before, t, u) || Fallback(before) == Some(u))
  {
    forall u ensures SystemOf(u) in memo <==> IsUser(before, u) {
      SystemRowsAreUsers(before, source, memo, after, u);
    }
    forall t, u ensures CopyOf(t, u) in memo <==>
      && t in before.registry && !before.registry[t].isSystem
      && (Referenced(before, t, u) || Fallback(before) == Some(u))
    {
      CopiesAreReferenced(before, source, memo, after, t, u);
    }
  }

  lemma SystemRowsAreUsers(before: Database, source: Option<string>, memo: Memo, after: Database, u: string)
    requires Migrated(before, source, memo, after) && ForeignKeysHold(before)
    ensures SystemOf(u) in memo <==> IsUser(before, u)
  {
    if SystemOf(u) in memo {
      WantedByUser(before, SystemOf(u));
    }
    if IsUser(before, u) {
      assert Wanted(before, SystemOf(u));
    }
  }

  /** A wanted row is wanted by a user. */
  lemma WantedByUser(before: Database, key: Key)
    requires ForeignKeysHold(before) && Wanted(before, key)
    ensures IsUser(before, key.user)
  {
    if p, t :| Carries(before, p, t) && KeyFor(before.registry, t, OwnerAt(before, p)) == Some(key) {
      KeyOfOwner(before.registry, t, OwnerAt(before, p), key);
      OwnersAreUsers(before, p);
    } else if key.CopyOf? {
      FallbackIsUser(before);
    } else if id :| id in before.sessions && ScopedOwner(before, before.sessions[id]) == Some(key.user) {
      ScopedOwnerIsUser(before, before.sessions[id]);
    }
  }

  lemma KeyOfOwner(registry: Registry, t: string, owner: Option<string>, key: Key)
    requires KeyFor(registry, t, owner) == Some(key)
    ensures owner == Some(key.user) && t in registry
    ensures key.CopyOf? ==> key.tag == t && !registry[t].isSystem
  {
  }

  lemma CopiesAreReferenced(before: Database, source: Option<string>, memo: Memo, after: Database, t: string, u: string)
    requires Migrated(before, source, memo, after) && ForeignKeysHold(before)
    ensures CopyOf(t, u) in memo <==>
      && t in before.registry && !before.registry[t].isSystem
      && (Referenced(before, t, u) || Fallback(before) == Some(u))
  {
    assert CopyOf(t, u) in memo <==> Wanted(before, CopyOf(t, u));
    if Wanted(before, CopyOf(t, u)) {
      WantedCopyIsReferenced(before, t, u);
    }
    if t in before.registry && !before.registry[t].isSystem && Referenced(before, t, u) {
      ReferencedIsWanted(before, t, u);
    }
  }

  lemma WantedCopyIsReferenced(before: Database, t: string, u: string)
    requires Wanted(before, CopyOf(t, u))
    ensures t in before.registry && !before.registry[t].isSystem
    ensures Referenced(before, t, u) || Fallback(before) == Some(u)
  {
    if p, s :| Carries(before, p, s) && KeyFor(before.registry, s, OwnerAt(before, p)) == Some(CopyOf(t, u)) {
      KeyOfOwner(before.registry, s, OwnerAt(before, p), CopyOf(t, u));
    }
  }

  lemma ReferencedIsWanted(before: Database, t: string, u: string)
    requires ForeignKeysHold(before) && Referenced(before, t, u)
    requires t in before.registry && !before.registry[t].isSystem
    ensures Wanted(before, CopyOf(t, u))
  {
    var p :| Carries(before, p, t) && OwnerAt(before, p) == Some(u);
    OwnersAreUsers(before, p);
    assert KeyFor(before.registry, t, OwnerAt(before, p)) == Some(CopyOf(t, u));
  }

  /** Every user owns exactly one system row, and it is the hidden "default" tag. */
  lemma OneSystemRowPerUser(before: Database, source: Option<string>, memo: Memo, after: Database, u: string, n: string)
    requires Migrated(before, source, memo, after) && SystemOf(u) in memo && n in after.registry
    ensures after.registry[n].owner == Some(u) && after.registry[n].isSystem <==> n == memo[SystemOf(u)]
    ensures n == memo[SystemOf(u)] ==> after.registry[n].tagId == "default" && after.registry[n].isHidden
  {
    var k :| k in memo && memo[k] == n;
    assert EntrySound(before, source, k, memo[k], after.registry);
    assert EntrySound(before, source, SystemOf(u), memo[SystemOf(u)], after.registry);
  }

  predicate IsCopy(row: TagRow, copy: TagRow, owner: Option<string>) {
    copy.owner == owner && copy.tagId == row.tagId && copy.brief == row.brief && copy.meta == Some(MetaOf(row)) && !copy.isSystem
  }

  /** No ordinary tag is lost: the fallback user has a copy of every one. */
  lemma NoTagIsLost(before: Database, source: Option<string>, memo: Memo, after: Database, t: string)
    requires Migrated(before, source, memo, after) && Truthy(Fallback(before))
    requires t in before.registry && !before.registry[t].isSystem
    ensures exists n :: n in after.registry && IsCopy(before.registry[t], after.registry[n], Fallback(before))
  {
    var k := CopyOf(t, Fallback(before).value);
    assert Wanted(before, k);
    assert EntrySound(before, source, k, memo[k], after.registry);
  }

  // ----- The unique constraint created at the end -----

  ghost predicate UniquePerOwner(registry: Registry) {
    forall m, n | m in registry && n in registry
      && registry[m].owner == registry[n].owner && registry[m].tagId == registry[n].tagId :: m == n
  }

  /** Ordinary tags have distinct tag ids, none of them "default". */
  ghost predicate CleanTagIds(registry: Registry) {
    && (forall s, t | s in registry && t in registry && !registry[s].isSystem && !registry[t].isSystem
          && registry[s].tagId == registry[t].tagId :: s == t)
    && (forall t | t in registry && !registry[t].isSystem :: registry[t].tagId != "default")
  }

  /** The constraint can be created exactly when the old tag ids were clean. */
  lemma ConstraintHoldsIffClean(before: Database, source: Option<string>, memo: Memo, after: Database)
    requires Migrated(before, source, memo, after) && Truthy(Fallback(before))
    ensures UniquePerOwner(after.registry) <==> CleanTagIds(before.registry)
  {
    if CleanTagIds(before.registry) {
      CleanGivesUnique(before, source, memo, after);
    }
    if UniquePerOwner(after.registry) {
      UniqueGivesClean(before, source, memo, after);
    }
  }

  lemma CleanGivesUnique(before: Database, source: Option<string>, memo: Memo, after: Database)
    requires Migrated(before, source, memo, after) && CleanTagIds(before.registry)
    ensures UniquePerOwner(after.registry)
  {
    var reg := after.registry;
    forall m, n | m in reg && n in reg && reg[m].owner == reg[n].owner && reg[m].tagId == reg[n].tagId ensures m == n {
      var j :| j in memo && memo[j] == m;
      var k :| k in memo && memo[k] == n;
      assert EntrySound(before, source, j, m, reg) && EntrySound(before, source, k, n, reg);
      assert j.user == k.user;
      if j.SystemOf? != k.SystemOf? {
        assert false;
      }
    }
  }

  lemma UniqueGivesClean(before: Database, source: Option<string>, memo: Memo, after: Database)
    requires Migrated(before, source, memo, after) && Truthy(Fallback(before)) && UniquePerOwner(after.registry)
    ensures CleanTagIds(before.registry)
  {
    var f, reg := Fallback(before).value, before.registry;
    FallbackIsUser(before);
    assert Wanted(before, SystemOf(f));
    assert EntrySound(before, source, SystemOf(f), memo[SystemOf(f)], after.registry);
    forall t | t in reg && !reg[t].isSystem
      ensures CopyOf(t, f) in memo && EntrySound(before, source, CopyOf(t, f), memo[CopyOf(t, f)], after.registry)
    {
      assert Wanted(before, CopyOf(t, f));
    }
    forall s, t | s in reg && t in reg && !reg[s].isSystem && !reg[t].isSystem && reg[s].tagId == reg[t].tagId ensures s == t {
      assert memo[CopyOf(s, f)] == memo[CopyOf(t, f)];
    }
    forall t | t in reg && !reg[t].isSystem ensures reg[t].tagId != "default" {
      assert memo[CopyOf(t, f)] != memo[SystemOf(f)];
    }
  }

  /** What 0016 leaves is what 0019 needs: one system tag, and clean tag ids. */
  lemma BackfillPrepares(was: Registry, now: Registry, tag: string)
    requires RegistryBackfilled(was, now, tag) && UniqueTagIds(now)
    requires forall id | id in now :: now[id].isSystem <==> id == tag
    ensures OneSystemTag(now) && CleanTagIds(now)
  {
  }

  // ----- Bindings to the system tag -----

  /** After 0016 and 0019 every cocoon and every chat group has exactly one binding to its own owner's hidden
      system tag. */
  lemma BoundToOwnSystemTag(before: Database, source: Option<string>, memo: Memo, after: Database, tag: string,
                            oldCocoons: map<string, Link>, oldGroups: map<string, Link>)
    requires Migrated(before, source, memo, after) && ForeignKeysHold(before)
    requires tag in before.registry && before.registry[tag].isSystem && OneSystemTag(before.registry)
    requires Backfilled(oldCocoons, before.cocoonBindings, before.cocoonOwner.Keys, tag)
    requires Backfilled(oldGroups, before.groupBindings, before.groupOwner.Keys, tag)
    ensures forall c | c in before.cocoonOwner :: BoundOnce(after, after.cocoonBindings, c, before.cocoonOwner[c])
    ensures forall g | g in before.groupOwner :: BoundOnce(after, after.groupBindings, g, before.groupOwner[g])
  {
    forall c | c in before.cocoonOwner ensures BoundOnce(after, after.cocoonBindings, c, before.cocoonOwner[c]) {
      CocoonBinding(before, source, memo, after, tag, c);
    }
    forall g | g in before.groupOwner ensures BoundOnce(after, after.groupBindings, g, before.groupOwner[g]) {
      GroupBinding(before, source, memo, after, tag, g);
    }
  }

  /** A holder has exactly one binding to a hidden system row owned by a user. */
  ghost predicate BoundOnce(after: Database, rows: map<string, Link>, holder: string, user: string) {
    exists n :: n in after.registry && after.registry[n].owner == Some(user)
      && after.registry[n].isSystem && after.registry[n].isHidden && |BindingsTo(rows, holder, n)| == 1
  }

  lemma CocoonBinding(before: Database, source: Option<string>, memo: Memo, after: Database, tag: string, c: string)
    requires Migrated(before, source, memo, after) && ForeignKeysHold(before)
    requires tag in before.registry && before.registry[tag].isSystem && OneSystemTag(before.registry)
    requires c in before.cocoonOwner && |BindingsTo(before.cocoonBindings, c, tag)| == 1
    ensures BoundOnce(after, after.cocoonBindings, c, before.cocoonOwner[c])
  {
    var n := UserSystemTag(before, source, memo, after, before.cocoonOwner[c]);
    forall id | id in before.cocoonBindings ensures before.cocoonBindings[id].tag != n {
      assert TagsAt(before, CocoonLink(id))[0] == before.cocoonBindings[id].tag;
      assert !Carries(before, CocoonLink(id), n);
    }
    SystemBindingsKept(before, memo, tag, Owned(before.cocoonOwner), before.cocoonBindings, after.cocoonBindings, c, before.cocoonOwner[c]);
  }

  lemma GroupBinding(before: Database, source: Option<string>, memo: Memo, after: Database, tag: string, g: string)
    requires Migrated(before, source, memo, after) && ForeignKeysHold(before)
    requires tag in before.registry && before.registry[tag].isSystem && OneSystemTag(before.registry)
    requires g in before.groupOwner && |BindingsTo(before.groupBindings, g, tag)| == 1
    ensures BoundOnce(after, after.groupBindings, g, before.groupOwner[g])
  {
    var n := UserSystemTag(before, source, memo, after, before.groupOwner[g]);
    forall id | id in before.groupBindings ensures before.groupBindings[id].tag != n {
      assert TagsAt(before, GroupLink(id))[0] == before.groupBindings[id].tag;
      assert !Carries(before, GroupLink(id), n);
    }
    SystemBindingsKept(before, memo, tag, Owned(before.groupOwner), before.groupBindings, after.groupBindings, g, before.groupOwner[g]);
  }

  lemma UserSystemTag(before: Database, source: Option<string>, memo: Memo, after: Database, user: string) returns (n: string)
    requires Migrated(before, source, memo, after) && IsUser(before, user)
    ensures SystemOf(user) in memo && n == memo[SystemOf(user)] && Fresh(before, n) && n in after.registry
    ensures after.registry[n].owner == Some(user) && after.registry[n].isSystem && after.registry[n].isHidden
  {
    assert Wanted(before, SystemOf(user));
    n := memo[SystemOf(user)];
    assert EntrySound(before, source, SystemOf(user), n, after.registry);
  }

  /** The rows that bound a holder to the old system tag are the rows that bind it to its owner's. */
  lemma SystemBindingsKept(before: Database, memo: Memo, tag: string, owners: map<string, Option<string>>,
                           rows: map<string, Link>, rows': map<string, Link>, h: string, user: string)
    requires Injective(memo) && LinksRewritten(before, memo, owners, rows, rows')
    requires tag in before.registry && before.registry[tag].isSystem && OneSystemTag(before.registry)
    requires h in owners && owners[h] == Some(user) && user != "" && SystemOf(user) in memo
    requires forall id | id in rows :: rows[id].tag != memo[SystemOf(user)]
    ensures BindingsTo(rows', h, memo[SystemOf(user)]) == BindingsTo(rows, h, tag)
  {
    var n := memo[SystemOf(user)];
    forall id | id in rows ensures rows'[id] == Link(h, n) <==> rows[id] == Link(h, tag) {
      assert LinkRewritten(before, memo, LinkOwner(before, owners, rows[id]), rows[id], rows'[id]);
    }
  }

  // ----- 0016, then 0019 -----

  /** What running 0016 and then 0019 guarantees, from any registry with unique tag ids and no system tag: every
      cocoon and chat group is bound once to its own owner's hidden system tag, the new unique constraint holds, and
      no id of a deleted tag is left. */
  lemma BackfillThenOwnership(was: Registry, oldCocoons: map<string, Link>, tag: string,
                              before: Database, source: Option<string>, memo: Memo, after: Database)
    requires UniqueTagIds(was) && RegistryBackfilled(was, before.registry, tag) && UniqueTagIds(before.registry)
    requires forall id | id in before.registry :: before.registry[id].isSystem <==> id == tag
    requires Backfilled(oldCocoons, before.cocoonBindings, before.cocoonOwner.Keys, tag)
    requires Backfilled(map[], before.groupBindings, before.groupOwner.Keys, tag)
    requires ForeignKeysHold(before) && Migrated(before, source, memo, after)
    ensures forall c | c in before.cocoonOwner :: BoundOnce(after, after.cocoonBindings, c, before.cocoonOwner[c])
    ensures forall g | g in before.groupOwner :: BoundOnce(after, after.groupBindings, g, before.groupOwner[g])
    ensures UniquePerOwner(after.registry)
    ensures before.users != [] ==> forall p, n | Carries(after, p, n) && Exists(before, p) :: n !in before.registry
  {
    BackfillPrepares(was, before.registry, tag);
    BoundToOwnSystemTag(before, source, memo, after, tag, oldCocoons, map[]);
    CleanGivesUnique(before, source, memo, after);
    if before.users != [] {
      SomebodyIsFallback(before);
      FallbackOwnsTheRest(before, source, memo, after);
    }
  }

  lemma SomebodyIsFallback(db: Database)
    requires ForeignKeysHold(db) && db.users != []
    ensures Truthy(Fallback(db))
  {
    assert IsUser(db, db.users[0].id);
  }
}
