/** Whose tags a resource ends with, told from the tables of the owners alone. */
module TagOwners {
  import opened Wrappers
  import opened Sequences
  import opened Strings
  import opened TagSchema
  import opened TagRewrite
  import opened TagMeaning
  import opened TagTheorems
  import opened TagOutcome

  // ----- The fallback user -----

  /** The last user of this name. */
  ghost predicate LastNamed(users: seq<User>, i: int, name: string) {
    0 <= i < |users| && users[i].username == name && forall j | i < j < |users| :: users[j].username != name
  }

  ghost predicate NobodyNamed(users: seq<User>, name: string) {
    forall j | 0 <= j < |users| :: users[j].username != name
  }

  lemma {:induction false} NameIsFound(users: seq<User>, i: nat, name: string)
    requires LastNamed(users, i, name)
    ensures IdOfUsername(users, name) == Some(users[i].id)
  {
    var init := users[..|users| - 1];
    if i < |init| {
      assert users[|init|].username != name;
      NameIsFound(init, i, name);
    }
  }

  lemma {:induction false} NobodyIsFound(users: seq<User>, name: string)
    requires NobodyNamed(users, name)
    ensures IdOfUsername(users, name) == None
  {
    if users != [] {
      NobodyIsFound(users[..|users| - 1], name);
    }
  }

  /** The last user called "user1", else the last one called "admin", else the first user. */
  ghost predicate IsFallback(users: seq<User>, i: int) {
    || LastNamed(users, i, "user1")
    || (NobodyNamed(users, "user1") && LastNamed(users, i, "admin"))
    || (NobodyNamed(users, "user1") && NobodyNamed(users, "admin") && i == 0 < |users|)
  }

  /** The last position with this name, if there is one. */
  lemma LastOfName(users: seq<User>, name: string) returns (i: int)
    ensures LastNamed(users, i, name) || NobodyNamed(users, name)
  {
    i := |users|;
    while i > 0 && users[i - 1].username != name
      invariant 0 <= i <= |users| && forall j | i <= j < |users| :: users[j].username != name
    {
      i := i - 1;
    }
    i := i - 1;
  }

  lemma SomebodyIsFallback(users: seq<User>) returns (i: int)
    requires users != []
    ensures IsFallback(users, i)
  {
    i := LastOfName(users, "user1");
    if NobodyNamed(users, "user1") {
      i := LastOfName(users, "admin");
      if NobodyNamed(users, "admin") {
        i := 0;
      }
    }
  }

  lemma FallbackIs(db: Database)
    requires forall i | 0 <= i < |db.users| :: db.users[i].id != ""
    ensures forall i | IsFallback(db.users, i) :: Fallback(db) == Some(db.users[i].id)
    ensures db.users == [] ==> Fallback(db) == None
  {
    forall i | IsFallback(db.users, i) ensures Fallback(db) == Some(db.users[i].id) {
      if LastNamed(db.users, i, "user1") {
        NameIsFound(db.users, i, "user1");
      } else {
        NobodyIsFound(db.users, "user1");
        if LastNamed(db.users, i, "admin") {
          NameIsFound(db.users, i, "admin");
        } else {
          NobodyIsFound(db.users, "admin");
        }
      }
    }
  }

  // ----- The owner of a resource -----

  predicate HasOwner(owners: map<string, string>, id: string, user: string) {
    id in owners && owners[id] == user && user != ""
  }

  /** The reference names a resource with an owner. */
  predicate PointsTo(owners: map<string, string>, ref: Option<string>, user: string) {
    ref.Some? && ref.value != "" && HasOwner(owners, ref.value, user)
  }

  predicate PointsNowhere(owners: map<string, string>, ref: Option<string>) {
    ref.Some? && ref.value != "" && ref.value in owners ==> owners[ref.value] == ""
  }

  /** A session or message of a cocoon belongs to the cocoon's owner; of a group and no cocoon, to the group's. */
  predicate ScopeOf(db: Database, cocoon: Option<string>, group: Option<string>, user: string) {
    || PointsTo(db.cocoonOwner, cocoon, user)
    || (PointsNowhere(db.cocoonOwner, cocoon) && PointsTo(db.groupOwner, group, user))
  }

  /** A memory belongs to its owner, and without one to the owner of what it is about. */
  predicate MemoryOf(db: Database, m: Memory, user: string) {
    || (m.owner == Some(user) && user != "")
    || ((m.owner == None || m.owner == Some("")) && ScopeOf(db, m.cocoon, m.group, user))
  }

  /** The resource at a place belongs to the user. */
  predicate BelongsTo(db: Database, p: Place, user: string)
    requires Exists(db, p)
  {
    match p
    case CocoonLink(id) => HasOwner(db.cocoonOwner, db.cocoonBindings[id].holder, user)
    case GroupLink(id) => HasOwner(db.groupOwner, db.groupBindings[id].holder, user)
    case MessageLink(id) =>
      var m := db.messageTags[id].holder;
      m in db.messages && ScopeOf(db, db.messages[m].cocoon, db.messages[m].group, user)
    case MemoryLink(id) =>
      var m := db.memoryTags[id].holder;
      m in db.memories && MemoryOf(db, db.memories[m], user)
    case SessionList(id) => ScopeOf(db, db.sessions[id].cocoon, db.sessions[id].group, user)
    case MessageList(id) => ScopeOf(db, db.messages[id].cocoon, db.messages[id].group, user)
    case MemoryList(id) => MemoryOf(db, db.memories[id], user)
  }

  lemma ScopeResolves(db: Database, row: Scoped, user: string)
    requires ScopeOf(db, row.cocoon, row.group, user)
    ensures ScopedOwner(db, row) == Some(user)
  {
  }

  lemma MemoryResolves(db: Database, m: Memory, user: string)
    requires MemoryOf(db, m, user)
    ensures MemoryOwner(db, m) == Some(user)
  {
  }

  /** The migration resolves a place to the user its resource belongs to. */
  lemma PlaceResolves(db: Database, p: Place, user: string)
    requires Exists(db, p) && BelongsTo(db, p, user)
    ensures OwnerAt(db, p) == Some(user) && user != ""
  {
    match p {
      case CocoonLink(_) =>
      case GroupLink(_) =>
      case MessageLink(id) => ScopeResolves(db, db.messages[db.messageTags[id].holder], user);
      case MemoryLink(id) => MemoryResolves(db, db.memories[db.memoryTags[id].holder], user);
      case SessionList(id) => ScopeResolves(db, db.sessions[id], user);
      case MessageList(id) => ScopeResolves(db, db.messages[id], user);
      case MemoryList(id) => MemoryResolves(db, db.memories[id], user);
    }
  }

  /** A place whose resource belongs to nobody is resolved to the fallback user. */
  lemma OwnerlessResolves(db: Database, p: Place)
    requires Exists(db, p) && forall user :: !BelongsTo(db, p, user)
    ensures OwnerAt(db, p) == Fallback(db)
  {
    var owner := OwnerAt(db, p);
    if owner.Some? {
      assert !BelongsTo(db, p, owner.value);
    }
  }

  // ----- What a place ends with -----

  /** The row says for the user what the old one said for everybody. */
  predicate SaysTheSame(old': TagRow, new': TagRow, user: string) {
    && new'.owner == Some(user)
    && new'.isSystem == old'.isSystem && new'.isHidden == old'.isSystem && new'.visibility == "private" && new'.isIsolated
    && (old'.isSystem ==> new'.tagId == "default")
    && (!old'.isSystem ==> new'.tagId == old'.tagId && new'.brief == old'.brief && new'.meta == Some(MetaOf(old'))
                           && new'.createdAt == old'.createdAt && new'.updatedAt == old'.updatedAt)
  }

  /** Every known tag that a resource of the user held is there afterwards, as a row of the user that says the same. */
  lemma KnownTagsGoToTheOwner(before: Database, source: Option<string>, memo: Memo, after: Database,
                              p: Place, user: string, t: string) returns (n: string)
    requires Migrated(before, source, memo, after) && Exists(before, p) && BelongsTo(before, p, user)
    requires t in TagsAt(before, p) && t in before.registry
    ensures Exists(after, p) && n in TagsAt(after, p) && n in after.registry
    ensures SaysTheSame(before.registry[t], after.registry[n], user)
  {
    PlaceResolves(before, p, user);
    KnownTagMoves(before, source, memo, after, p, t);
    n := Translate(before.registry, memo, t, Some(user)).value;
    var key := KeyFor(before.registry, t, Some(user)).value;
    assert EntrySound(before, source, key, n, after.registry);
  }

  /** And every registry row it holds afterwards is one of the user's. */
  lemma OnlyTheOwnersTags(before: Database, source: Option<string>, memo: Memo, after: Database, p: Place, user: string, n: string)
    requires Migrated(before, source, memo, after) && Exists(before, p) && BelongsTo(before, p, user)
    requires Exists(after, p) && n in TagsAt(after, p) && n in after.registry
    ensures after.registry[n].owner == Some(user)
  {
    PlaceResolves(before, p, user);
    EntriesBelongToTheirOwner(before, source, memo, after, p, n);
  }

  /** What belongs to nobody ends with tags of the fallback user. */
  lemma OwnerlessGoToTheFallback(before: Database, source: Option<string>, memo: Memo, after: Database, p: Place, i: int, n: string)
    requires Migrated(before, source, memo, after) && Exists(before, p) && forall user :: !BelongsTo(before, p, user)
    requires (forall j | 0 <= j < |before.users| :: before.users[j].id != "") && IsFallback(before.users, i)
    requires Exists(after, p) && n in TagsAt(after, p) && n in after.registry
    ensures after.registry[n].owner == Some(before.users[i].id)
  {
    FallbackIs(before);
    OwnerlessResolves(before, p);
    EntriesBelongToTheirOwner(before, source, memo, after, p, n);
  }

  /** The fallback user gets a copy of every ordinary tag, used or not. */
  lemma FallbackHasEveryTag(before: Database, source: Option<string>, memo: Memo, after: Database, i: int, t: string) returns (n: string)
    requires Migrated(before, source, memo, after)
    requires (forall j | 0 <= j < |before.users| :: before.users[j].id != "") && IsFallback(before.users, i)
    requires t in before.registry && !before.registry[t].isSystem
    ensures n in after.registry && SaysTheSame(before.registry[t], after.registry[n], before.users[i].id)
  {
    FallbackIs(before);
    var key := CopyOf(t, before.users[i].id);
    assert Wanted(before, key);
    n := memo[key];
    assert EntrySound(before, source, key, n, after.registry);
  }

  /** A session of the user's lists the user's hidden system tag. */
  lemma SessionsGetTheOwnersSystemTag(before: Database, source: Option<string>, memo: Memo, after: Database, id: string, user: string)
    returns (n: string)
    requires Migrated(before, source, memo, after) && id in before.sessions
    requires ScopeOf(before, before.sessions[id].cocoon, before.sessions[id].group, user)
    ensures id in after.sessions && n in Items(after.sessions[id].tags) && n in after.registry
    ensures after.registry[n].owner == Some(user) && after.registry[n].isSystem && after.registry[n].isHidden
  {
    ScopeResolves(before, before.sessions[id], user);
    SessionsHoldTheirSystemTag(before, source, memo, after, id);
    n := memo[SystemOf(user)];
    assert EntrySound(before, source, SystemOf(user), n, after.registry);
  }

  /** What the users' system rows say: what the one old system tag said, or the default brief. */
  lemma SystemRowsSay(before: Database, source: Option<string>, memo: Memo, after: Database, user: string)
    requires Migrated(before, source, memo, after) && SystemOf(user) in memo
    ensures memo[SystemOf(user)] in after.registry
    ensures var row := after.registry[memo[SystemOf(user)]];
      && row.owner == Some(user) && row.tagId == "default" && row.isSystem && row.isHidden
      && (forall t | t in before.registry && before.registry[t].isSystem && OneSystemTag(before.registry) ::
            row.brief == before.registry[t].brief && row.meta == Some(MetaOf(before.registry[t])["system" := True])
            && row.createdAt == before.registry[t].createdAt && row.updatedAt == before.registry[t].updatedAt)
      && ((forall t | t in before.registry :: !before.registry[t].isSystem) ==>
            row.brief == "Default memory boundary automatically applied to every target." && row.meta == Some(map["system" := True]))
  {
    assert EntrySound(before, source, SystemOf(user), memo[SystemOf(user)], after.registry);
  }

  // ----- Reading a JSON list -----

  /** A list column is read item by item: an item with something else than white space stays, in its place. */
  lemma {:induction false} ListsAreReadItemByItem(a: seq<string>, b: seq<string>)
    ensures Items(List(a + b)) == Items(List(a)) + Items(List(b))
    ensures Items(Text(Some(a))) == Items(List(a))
    ensures Items(Null) == Items(Text(None)) == Items(NotAList) == []
  {
    DropBlankAppend(a, b);
  }

  lemma OneItemIsRead(x: string)
    ensures Items(List([])) == []
    ensures Items(List([x])) == if exists i :: 0 <= i < |x| && !IsSpace(x[i]) then [x] else []
  {
    assert [x][1..] == [];
    assert IsBlank(x) <==> !exists i :: 0 <= i < |x| && !IsSpace(x[i]);
  }

  lemma {:induction false} DropBlankAppend(a: seq<string>, b: seq<string>)
    ensures DropBlank(a + b) == DropBlank(a) + DropBlank(b)
  {
    if a == [] {
      assert a + b == b;
    } else {
      DropBlankAppend(a[1..], b);
      assert (a + b)[1..] == a[1..] + b;
    }
  }
}
