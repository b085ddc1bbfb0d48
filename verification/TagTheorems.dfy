/** The promises of migration 0019, for every database it can run on. */
module TagTheorems {
  import opened Wrappers
  import opened Sequences
  import opened TagSchema
  import opened TagRewrite
  import opened TagMeaning

  ghost predicate OneSystemTag(registry: Registry) {
    forall s, t | s in registry && t in registry && registry[s].isSystem && registry[t].isSystem :: s == t
  }

  // ----- The translation -----

  /** The row a translated tag names: it belongs to the owner and, for an ordinary tag, keeps what the tag said. */
  lemma TranslationKeepsMeaning(before: Database, source: Option<string>, memo: Memo, after: Database,
                                t: string, owner: Option<string>, n: string)
    requires Migrated(before, source, memo, after)
    requires Translate(before.registry, memo, t, owner) == Some(n)
    ensures t in before.registry && n in after.registry && n !in before.registry && Truthy(owner)
    ensures var old', new' := before.registry[t], after.registry[n];
      && new'.owner == owner && new'.isSystem == old'.isSystem == new'.isHidden
      && new'.visibility == "private" && new'.isIsolated
      && (!old'.isSystem ==> new'.tagId == old'.tagId && new'.brief == old'.brief && new'.meta == Some(MetaOf(old')))
      && (old'.isSystem ==> new'.tagId == "default")
  {
    var k := KeyFor(before.registry, t, owner).value;
    assert EntrySound(before, source, k, memo[k], after.registry);
  }

  /** One new tag comes from one owner, and from one old tag unless both are system tags. */
  lemma TranslationIsInjective(before: Database, source: Option<string>, memo: Memo, after: Database,
                               s: string, u: Option<string>, t: string, v: Option<string>, n: string)
    requires Migrated(before, source, memo, after)
    requires Translate(before.registry, memo, s, u) == Some(n) == Translate(before.registry, memo, t, v)
    ensures u == v
    ensures s == t || (before.registry[s].isSystem && before.registry[t].isSystem)
  {
    assert KeyFor(before.registry, s, u) == KeyFor(before.registry, t, v);
  }

  /** Telling tags of one owner apart survives the migration exactly when there is at most one system tag. */
  lemma InjectiveIffOneSystemTag(before: Database, source: Option<string>, memo: Memo, after: Database, user: string)
    requires Migrated(before, source, memo, after) && user != ""
    requires SystemOf(user) in memo
    ensures OneSystemTag(before.registry) <==>
      forall s, t, n | Translate(before.registry, memo, s, Some(user)) == Some(n) == Translate(before.registry, memo, t, Some(user)) :: s == t
  {
    var reg := before.registry;
    if OneSystemTag(reg) {
      forall s, t, n | Translate(reg, memo, s, Some(user)) == Some(n) == Translate(reg, memo, t, Some(user)) ensures s == t {
        TranslationIsInjective(before, source, memo, after, s, Some(user), t, Some(user), n);
      }
    } else {
      var s, t :| s in reg && t in reg && reg[s].isSystem && reg[t].isSystem && s != t;
      assert Translate(reg, memo, s, Some(user)) == Some(memo[SystemOf(user)]) == Translate(reg, memo, t, Some(user));
    }
  }

  // ----- What the places hold -----

  /** An id of a deleted tag survives exactly at a link whose resource has no owner and no fallback user. */
  lemma NoDeletedTagLeft(before: Database, source: Option<string>, memo: Memo, after: Database, p: Place, n: string)
    requires Migrated(before, source, memo, after) && Exists(before, p) && n in before.registry
    ensures Carries(after, p, n) <==> IsLink(p) && Carries(before, p, n) && !Truthy(OwnerAt(before, p))
  {
    CarriedAfter(before, source, memo, after, p, n);
    if TranslatedAt(before, memo, p, n) || OwnSystemTag(memo, p, OwnerAt(before, p)) == Some(n) {
      GeneratedIsNew(before, source, memo, after, p, n);
    }
    assert LeftAlone(before, p, n) <==> IsLink(p) && Carries(before, p, n) && !Truthy(OwnerAt(before, p));
  }

  /** What the migration writes is neither an old id nor anything a place held before. */
  lemma GeneratedIsNew(before: Database, source: Option<string>, memo: Memo, after: Database, p: Place, n: string)
    requires Migrated(before, source, memo, after) && Exists(before, p)
    requires TranslatedAt(before, memo, p, n) || OwnSystemTag(memo, p, OwnerAt(before, p)) == Some(n)
    ensures Fresh(before, n)
  {
    MemoIsFresh(before, source, memo, after);
  }

  /** With a fallback user every place has an owner, so no id of a deleted tag survives anywhere. */
  lemma FallbackOwnsTheRest(before: Database, source: Option<string>, memo: Memo, after: Database)
    requires Migrated(before, source, memo, after) && Truthy(Fallback(before))
    ensures forall p, n | Carries(after, p, n) && Exists(before, p) :: n !in before.registry
  {
    forall p, n | Carries(after, p, n) && Exists(before, p) ensures n !in before.registry {
      SomebodyOwns(before, p);
      if n in before.registry {
        NoDeletedTagLeft(before, source, memo, after, p, n);
      }
    }
  }

  lemma SomebodyOwns(before: Database, p: Place)
    requires Exists(before, p) && Truthy(Fallback(before))
    ensures Truthy(OwnerAt(before, p))
  {
  }

  /** An entry that names a registry row names a row of the owner of its place. */
  lemma EntriesBelongToTheirOwner(before: Database, source: Option<string>, memo: Memo, after: Database, p: Place, n: string)
    requires Migrated(before, source, memo, after) && Exists(before, p)
    requires Carries(after, p, n) && n in after.registry
    ensures Truthy(OwnerAt(before, p)) && after.registry[n].owner == OwnerAt(before, p)
  {
    var key := HeldTagCameFrom(before, source, memo, after, p, n);
    assert EntrySound(before, source, key, n, after.registry);
  }

  /** Every row of the new registry is fresh and named by a key. */
  lemma MemoValue(before: Database, source: Option<string>, memo: Memo, after: Database, n: string)
    requires Migrated(before, source, memo, after) && n in after.registry
    ensures Fresh(before, n)
    ensures exists k :: k in memo && memo[k] == n
  {
    var k :| k in memo && memo[k] == n;
    assert EntrySound(before, source, k, memo[k], after.registry);
  }

  /** Two places carry a common tag that the registry knows. */
  ghost predicate Share(db: Database, p: Place, q: Place) {
    exists t :: Carries(db, p, t) && Carries(db, q, t) && t in db.registry
  }

  /** Two places carry a common tag that the registry knows and that is not a system tag. */
  ghost predicate ShareOrdinary(db: Database, p: Place, q: Place) {
    exists t :: Carries(db, p, t) && Carries(db, q, t) && t in db.registry && !db.registry[t].isSystem
  }

  ghost predicate CarriesSystem(db: Database, p: Place) {
    exists t :: Carries(db, p, t) && t in db.registry && db.registry[t].isSystem
  }

  /** The migration writes the owner's system tag here: a session is given it, other places must have had one. */
  ghost predicate GetsSystem(db: Database, p: Place) {
    p.SessionList? || CarriesSystem(db, p)
  }

  /** What two places of one owner share afterwards, for every kind of place and any number of system tags: the
      ordinary tags they shared, and the owner's system tag when both are given it. */
  lemma SharingIsExactly(before: Database, source: Option<string>, memo: Memo, after: Database, p: Place, q: Place)
    requires Migrated(before, source, memo, after) && Exists(before, p) && Exists(before, q)
    requires Truthy(OwnerAt(before, p)) && OwnerAt(before, p) == OwnerAt(before, q)
    ensures Share(after, p, q) <==> ShareOrdinary(before, p, q) || (GetsSystem(before, p) && GetsSystem(before, q))
  {
    if ShareOrdinary(before, p, q) {
      OrdinarySharingMoves(before, source, memo, after, p, q);
    } else if GetsSystem(before, p) && GetsSystem(before, q) {
      SystemSharingArises(before, source, memo, after, p, q);
    } else {
      SharingWasThere(before, source, memo, after, p, q);
    }
  }

  /** Places that are not sessions, with one system tag, share a tag afterwards exactly when they did before. */
  lemma SharingIsKept(before: Database, source: Option<string>, memo: Memo, after: Database, p: Place, q: Place)
    requires Migrated(before, source, memo, after) && OneSystemTag(before.registry)
    requires Exists(before, p) && Exists(before, q) && !p.SessionList? && !q.SessionList?
    requires Truthy(OwnerAt(before, p)) && OwnerAt(before, p) == OwnerAt(before, q)
    ensures Share(after, p, q) <==> Share(before, p, q)
  {
    SharingIsExactly(before, source, memo, after, p, q);
    SharedTagsAreOfTwoKinds(before, p, q);
  }

  lemma SharedTagsAreOfTwoKinds(db: Database, p: Place, q: Place)
    requires OneSystemTag(db.registry)
    ensures Share(db, p, q) <==> ShareOrdinary(db, p, q) || (CarriesSystem(db, p) && CarriesSystem(db, q))
  {
    if Share(db, p, q) {
      var t :| Carries(db, p, t) && Carries(db, q, t) && t in db.registry;
      SharedTagIsOfAKind(db, p, q, t);
    }
    if CarriesSystem(db, p) && CarriesSystem(db, q) {
      SystemTagIsShared(db, p, q);
    }
  }

  lemma SystemTagIsShared(db: Database, p: Place, q: Place)
    requires OneSystemTag(db.registry) && CarriesSystem(db, p) && CarriesSystem(db, q)
    ensures Share(db, p, q)
  {
    var s :| Carries(db, p, s) && s in db.registry && db.registry[s].isSystem;
    var t :| Carries(db, q, t) && t in db.registry && db.registry[t].isSystem;
    assert s == t;
  }

  lemma SharedTagIsOfAKind(db: Database, p: Place, q: Place, t: string)
    requires Carries(db, p, t) && Carries(db, q, t) && t in db.registry
    ensures ShareOrdinary(db, p, q) || (CarriesSystem(db, p) && CarriesSystem(db, q))
  {
  }

  lemma SystemSharingArises(before: Database, source: Option<string>, memo: Memo, after: Database, p: Place, q: Place)
    requires Migrated(before, source, memo, after) && GetsSystem(before, p) && GetsSystem(before, q)
    requires Exists(before, p) && Exists(before, q)
    requires Truthy(OwnerAt(before, p)) && OwnerAt(before, p) == OwnerAt(before, q)
    ensures Share(after, p, q)
  {
    var n := SystemIsGiven(before, source, memo, after, p);
    var m := SystemIsGiven(before, source, memo, after, q);
    assert Carries(after, p, n) && Carries(after, q, n);
  }

  lemma SharingWasThere(before: Database, source: Option<string>, memo: Memo, after: Database, p: Place, q: Place)
    requires Migrated(before, source, memo, after) && Exists(before, p) && Exists(before, q)
    ensures Share(after, p, q) ==> ShareOrdinary(before, p, q) || (GetsSystem(before, p) && GetsSystem(before, q))
  {
    if n :| Carries(after, p, n) && Carries(after, q, n) && n in after.registry {
      SharedTagWasThere(before, source, memo, after, p, q, n);
    }
  }

  lemma OrdinarySharingMoves(before: Database, source: Option<string>, memo: Memo, after: Database, p: Place, q: Place)
    requires Migrated(before, source, memo, after) && ShareOrdinary(before, p, q)
    requires Exists(before, p) && Exists(before, q)
    requires Truthy(OwnerAt(before, p)) && OwnerAt(before, p) == OwnerAt(before, q)
    ensures Share(after, p, q)
  {
    var t :| Carries(before, p, t) && Carries(before, q, t) && t in before.registry && !before.registry[t].isSystem;
    KnownTagMoves(before, source, memo, after, p, t);
    KnownTagMoves(before, source, memo, after, q, t);
    var next := Translate(before.registry, memo, t, OwnerAt(before, p));
    assert Carries(after, p, next.value) && Carries(after, q, next.value);
  }

  /** A place that gets the system tag holds its owner's. */
  lemma SystemIsGiven(before: Database, source: Option<string>, memo: Memo, after: Database, p: Place) returns (n: string)
    requires Migrated(before, source, memo, after) && Exists(before, p) && GetsSystem(before, p)
    requires Truthy(OwnerAt(before, p))
    ensures Lookup(memo, SystemOf(OwnerAt(before, p).value)) == Some(n)
    ensures Carries(after, p, n) && n in after.registry
  {
    if t :| Carries(before, p, t) && t in before.registry && before.registry[t].isSystem {
      KnownTagMoves(before, source, memo, after, p, t);
      n := Translate(before.registry, memo, t, OwnerAt(before, p)).value;
    } else {
      ListAfter(before, source, memo, after, p);
      n := memo[SystemOf(OwnerAt(before, p).value)];
      CarriedAfter(before, source, memo, after, p, n);
    }
  }

  /** The key of a row that the migration writes at a place tells what the place held. */
  lemma KeyWritten(before: Database, memo: Memo, p: Place, n: string) returns (key: Key)
    requires Exists(before, p)
    requires TranslatedAt(before, memo, p, n) || OwnSystemTag(memo, p, OwnerAt(before, p)) == Some(n)
    ensures key in memo && memo[key] == n && ExplainedBy(before, p, key)
    ensures OwnerAt(before, p) == Some(key.user) && key.user != ""
  {
    var owner := OwnerAt(before, p);
    if TranslatedAt(before, memo, p, n) {
      var t :| t in TagsAt(before, p) && Translate(before.registry, memo, t, owner) == Some(n);
      assert Carries(before, p, t);
      key := KeyFor(before.registry, t, owner).value;
    } else {
      key := SystemOf(owner.value);
    }
  }

  ghost predicate ExplainedBy(db: Database, p: Place, key: Key) {
    match key
    case SystemOf(_) => GetsSystem(db, p)
    case CopyOf(t, _) => Carries(db, p, t) && t in db.registry && !db.registry[t].isSystem
  }

  /** Where a registry row that a place holds came from. */
  lemma HeldTagCameFrom(before: Database, source: Option<string>, memo: Memo, after: Database, p: Place, n: string) returns (key: Key)
    requires Migrated(before, source, memo, after) && Exists(before, p) && Carries(after, p, n) && n in after.registry
    ensures key in memo && memo[key] == n && ExplainedBy(before, p, key)
    ensures OwnerAt(before, p) == Some(key.user) && key.user != ""
  {
    CarriedAfter(before, source, memo, after, p, n);
    NotLeftAlone(before, source, memo, after, p, n);
    key := KeyWritten(before, memo, p, n);
  }

  lemma SharedTagWasThere(before: Database, source: Option<string>, memo: Memo, after: Database, p: Place, q: Place, n: string)
    requires Migrated(before, source, memo, after) && Exists(before, p) && Exists(before, q)
    requires Carries(after, p, n) && Carries(after, q, n) && n in after.registry
    ensures ShareOrdinary(before, p, q) || (GetsSystem(before, p) && GetsSystem(before, q))
  {
    var j := HeldTagCameFrom(before, source, memo, after, p, n);
    var k := HeldTagCameFrom(before, source, memo, after, q, n);
    assert j == k;
    assert j.CopyOf? ==> Carries(before, p, j.tag) && Carries(before, q, j.tag);
  }

  /** Places of different owners never share a tag afterwards. */
  lemma OwnersAreSeparated(before: Database, source: Option<string>, memo: Memo, after: Database, p: Place, q: Place)
    requires Migrated(before, source, memo, after) && Exists(before, p) && Exists(before, q)
    requires OwnerAt(before, p) != OwnerAt(before, q)
    ensures !Share(after, p, q)
  {
    if n :| Carries(after, p, n) && Carries(after, q, n) && n in after.registry {
      SharedTagHasOneOwner(before, source, memo, after, p, q, n);
    }
  }

  lemma SharedTagHasOneOwner(before: Database, source: Option<string>, memo: Memo, after: Database, p: Place, q: Place, n: string)
    requires Migrated(before, source, memo, after) && Exists(before, p) && Exists(before, q)
    requires Carries(after, p, n) && Carries(after, q, n) && n in after.registry
    ensures OwnerAt(before, p) == OwnerAt(before, q)
  {
    EntriesBelongToTheirOwner(before, source, memo, after, p, n);
    EntriesBelongToTheirOwner(before, source, memo, after, q, n);
  }

  lemma KnownTagMoves(before: Database, source: Option<string>, memo: Memo, after: Database, p: Place, t: string)
    requires Migrated(before, source, memo, after)
    requires Carries(before, p, t) && t in before.registry && Truthy(OwnerAt(before, p))
    ensures var next := Translate(before.registry, memo, t, OwnerAt(before, p));
      next.Some? && next.value in after.registry && Carries(after, p, next.value)
  {
    ReferenceIsMade(before, memo, after, p, t);
    var n := Translate(before.registry, memo, t, OwnerAt(before, p)).value;
    TranslationKeepsMeaning(before, source, memo, after, t, OwnerAt(before, p), n);
    CarriedAfter(before, source, memo, after, p, n);
    assert TranslatedAt(before, memo, p, n);
  }

  lemma NotLeftAlone(before: Database, source: Option<string>, memo: Memo, after: Database, p: Place, n: string)
    requires Migrated(before, source, memo, after) && Exists(before, p) && n in after.registry
    ensures !LeftAlone(before, p, n)
  {
    MemoValue(before, source, memo, after, n);
    assert !Carries(before, p, n);
  }

  // ----- Sessions -----

  ghost predicate NamesSystemTag(registry: Registry, items: seq<string>) {
    exists t :: t in items && t in registry && registry[t].isSystem
  }

  /** A session with an owner lists its owner's system tag exactly once: where the old system tag put it, or in
      front of everything else. */
  lemma SessionsHoldTheirSystemTag(before: Database, source: Option<string>, memo: Memo, after: Database, id: string)
    requires Migrated(before, source, memo, after) && id in before.sessions
    requires Truthy(ScopedOwner(before, before.sessions[id]))
    ensures id in after.sessions && SystemOf(ScopedOwner(before, before.sessions[id]).value) in memo
    ensures var owner := ScopedOwner(before, before.sessions[id]);
      var system := memo[SystemOf(owner.value)];
      var items, tags := Items(before.sessions[id].tags), Items(after.sessions[id].tags);
      var refs := RewrittenRefs(before.registry, memo, items, owner);
      && NoRepeats(tags) && system in tags
      && tags == if NamesSystemTag(before.registry, items) then refs else [system] + refs
  {
    MemoIsFresh(before, source, memo, after);
    assert SessionRewritten(before, memo, before.sessions[id], after.sessions[id]);
    SystemTagOnce(before, memo, before.sessions[id], after.sessions[id]);
  }

  lemma SystemTagOnce(before: Database, memo: Memo, row: Scoped, row': Scoped)
    requires FreshValues(before, memo) && Injective(memo) && SessionRewritten(before, memo, row, row')
    requires Truthy(ScopedOwner(before, row))
    ensures var owner := ScopedOwner(before, row);
      var system := memo[SystemOf(owner.value)];
      var refs := RewrittenRefs(before.registry, memo, Items(row.tags), owner);
      && NoRepeats(Items(row'.tags)) && system in Items(row'.tags)
      && Items(row'.tags) == if NamesSystemTag(before.registry, Items(row.tags)) then refs else [system] + refs
  {
    var owner := ScopedOwner(before, row);
    SessionAfter(before, memo, row, row');
    RefsElements(before, memo, Items(row.tags), owner);
    SystemTagInRefs(before.registry, memo, Items(row.tags), owner);
  }

  lemma SystemTagInRefs(registry: Registry, memo: Memo, items: seq<string>, owner: Option<string>)
    requires Truthy(owner) && SystemOf(owner.value) in memo && Injective(memo)
    ensures TranslatedIn(registry, memo, items, owner, memo[SystemOf(owner.value)]) <==> NamesSystemTag(registry, items)
  {
    if t :| t in items && t in registry && registry[t].isSystem {
      assert Translate(registry, memo, t, owner) == Some(memo[SystemOf(owner.value)]);
    }
  }

  // ----- The two ways a message or a memory carries its tags -----

  /** A link row of the table gives the tag to the holder. */
  ghost predicate Linked(rows: map<string, Link>, holder: string, tag: string) {
    exists id :: id in rows && rows[id] == Link(holder, tag)
  }

  /** The link rows of a holder and its JSON list name the same known tags. */
  ghost predicate ViewsAgree(registry: Registry, rows: map<string, Link>, holder: string, list: seq<string>) {
    forall t | t in registry :: Linked(rows, holder, t) <==> t in list
  }

  /** If the links of a message and its list named the same known tags before, they do afterwards. */
  lemma MessageViewsKeepAgreeing(before: Database, source: Option<string>, memo: Memo, after: Database, m: string)
    requires Migrated(before, source, memo, after) && m in before.messages
    requires ViewsAgree(before.registry, before.messageTags, m, Items(before.messages[m].tags))
    ensures m in after.messages
    ensures ViewsAgree(after.registry, after.messageTags, m, Items(after.messages[m].tags))
  {
    var owner := ScopedOwner(before, before.messages[m]);
    MemoIsFresh(before, source, memo, after);
    assert MessageRewritten(before, memo, before.messages[m], after.messages[m]);
    MessageAfter(before, memo, before.messages[m], after.messages[m]);
    RefsElements(before, memo, Items(before.messages[m].tags), owner);
    forall id | id in before.messageTags ensures !Fresh(before, before.messageTags[id].tag) {
      assert before.messageTags[id].tag in TagsAt(before, MessageLink(id));
      assert Carries(before, MessageLink(id), before.messageTags[id].tag);
    }
    forall n | n in after.registry ensures Fresh(before, n) { MemoValue(before, source, memo, after, n); }
    LinksFollow(before, memo, after.registry, MessageOwners(before), before.messageTags, after.messageTags, m, owner,
                Items(before.messages[m].tags));
  }

  /** If the links of a memory chunk and its list named the same known tags before, they do afterwards. */
  lemma MemoryViewsKeepAgreeing(before: Database, source: Option<string>, memo: Memo, after: Database, m: string)
    requires Migrated(before, source, memo, after) && m in before.memories
    requires ViewsAgree(before.registry, before.memoryTags, m, Items(before.memories[m].tags))
    ensures m in after.memories
    ensures ViewsAgree(after.registry, after.memoryTags, m, Items(after.memories[m].tags))
  {
    var owner := MemoryOwner(before, before.memories[m]);
    MemoIsFresh(before, source, memo, after);
    assert MemoryRewritten(before, memo, before.memories[m], after.memories[m]);
    MemoryAfter(before, memo, before.memories[m], after.memories[m]);
    RefsElements(before, memo, Items(before.memories[m].tags), owner);
    forall id | id in before.memoryTags ensures !Fresh(before, before.memoryTags[id].tag) {
      assert before.memoryTags[id].tag in TagsAt(before, MemoryLink(id));
      assert Carries(before, MemoryLink(id), before.memoryTags[id].tag);
    }
    forall n | n in after.registry ensures Fresh(before, n) { MemoValue(before, source, memo, after, n); }
    LinksFollow(before, memo, after.registry, MemoryOwners(before), before.memoryTags, after.memoryTags, m, owner,
                Items(before.memories[m].tags));
  }

  /** The new tags linked to a holder are the translations of the known tags linked to it before. */
  lemma LinksFollow(before: Database, memo: Memo, registry': Registry, owners: map<string, Option<string>>,
                    rows: map<string, Link>, rows': map<string, Link>, m: string, owner: Option<string>, items: seq<string>)
    requires LinksRewritten(before, memo, owners, rows, rows')
    requires m in owners && Or(owners[m], Fallback(before)) == owner
    requires forall id | id in rows :: !Fresh(before, rows[id].tag)
    requires forall n | n in registry' :: Fresh(before, n)
    requires ViewsAgree(before.registry, rows, m, items)
    ensures forall n | n in registry' :: Linked(rows', m, n) <==> TranslatedIn(before.registry, memo, items, owner, n)
  {
    forall n | n in registry' ensures Linked(rows', m, n) <==> TranslatedIn(before.registry, memo, items, owner, n) {
      if id :| id in rows' && rows'[id] == Link(m, n) {
        assert LinkRewritten(before, memo, LinkOwner(before, owners, rows[id]), rows[id], rows'[id]);
        assert rows[id] == Link(m, rows[id].tag);
        assert Translate(before.registry, memo, rows[id].tag, owner) == Some(n);
      }
      if t :| t in items && Translate(before.registry, memo, t, owner) == Some(n) {
        var id :| id in rows && rows[id] == Link(m, t);
        assert LinkRewritten(before, memo, LinkOwner(before, owners, rows[id]), rows[id], rows'[id]);
      }
    }
  }
}
