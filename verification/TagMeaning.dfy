/** What migration 0019 means: theorems about every pair of databases related by `Migrated`. */
module TagMeaning {
  import opened Wrappers
  import opened Sequences
  import opened TagSchema
  import opened TagRewrite

  ghost predicate TranslatedIn(registry: Registry, memo: Memo, items: seq<string>, owner: Option<string>, n: string) {
    exists t :: t in items && Translate(registry, memo, t, owner) == Some(n)
  }

  lemma {:induction false} TranslatedElements(registry: Registry, memo: Memo, items: seq<string>, owner: Option<string>, n: string)
    ensures n in Translated(registry, memo, items, owner) <==> TranslatedIn(registry, memo, items, owner, n)
  {
    if items != [] {
      var init, last := items[..|items| - 1], items[|items| - 1];
      TranslatedElements(registry, memo, init, owner, n);
      assert items == init + [last];
    }
  }

  lemma {:induction false} NothingBlank(items: seq<string>)
    requires forall x | x in items :: !IsBlank(x)
    ensures DropBlank(items) == items
  {
    if items != [] {
      assert items[0] in items;
      NothingBlank(items[1..]);
    }
  }

  // ----- Rewritten lists -----

  /** Every id a known tag translates to is a generated one. */
  ghost predicate FreshValues(before: Database, memo: Memo) {
    forall k | k in memo :: Fresh(before, memo[k])
  }

  lemma {:induction false} RefsElements(before: Database, memo: Memo, items: seq<string>, owner: Option<string>)
    requires FreshValues(before, memo)
    ensures var refs := RewrittenRefs(before.registry, memo, items, owner);
      && NoRepeats(refs)
      && (forall n :: n in refs <==> TranslatedIn(before.registry, memo, items, owner, n))
      && (forall n | n in refs :: Fresh(before, n))
      && DropBlank(refs) == refs
  {
    var refs := RewrittenRefs(before.registry, memo, items, owner);
    DedupeIsFirstOccurrence(Translated(before.registry, memo, items, owner));
    forall n ensures n in refs <==> TranslatedIn(before.registry, memo, items, owner, n) {
      TranslatedElements(before.registry, memo, items, owner, n);
    }
    NothingBlank(refs);
  }

  lemma MemoIsFresh(before: Database, source: Option<string>, memo: Memo, after: Database)
    requires Migrated(before, source, memo, after)
    ensures FreshValues(before, memo)
  {
    forall k | k in memo ensures Fresh(before, memo[k]) {
      assert EntrySound(before, source, k, memo[k], after.registry);
    }
  }

  predicate IsLink(p: Place) {
    p.CocoonLink? || p.GroupLink? || p.MessageLink? || p.MemoryLink?
  }

  /** Some tag at the place translates to `n`. */
  ghost predicate TranslatedAt(before: Database, memo: Memo, p: Place, n: string)
    requires Exists(before, p)
  {
    TranslatedIn(before.registry, memo, TagsAt(before, p), OwnerAt(before, p), n)
  }

  /** What a place holds afterwards: the translations; at a link, also what could not be translated; in a
      session, also its owner's system tag. */
  lemma CarriedAfter(before: Database, source: Option<string>, memo: Memo, after: Database, p: Place, n: string)
    requires Migrated(before, source, memo, after) && Exists(before, p)
    ensures Exists(after, p)
    ensures Carries(after, p, n) <==>
      || TranslatedAt(before, memo, p, n)
      || LeftAlone(before, p, n)
      || OwnSystemTag(memo, p, OwnerAt(before, p)) == Some(n)
  {
    if IsLink(p) {
      CarriedByLink(before, source, memo, after, p, n);
    } else {
      CarriedByList(before, source, memo, after, p, n);
    }
  }

  /** A link that cannot be translated is left alone. */
  ghost predicate LeftAlone(before: Database, p: Place, n: string)
    requires Exists(before, p)
  {
    IsLink(p) && n in TagsAt(before, p) && KeyFor(before.registry, n, OwnerAt(before, p)) == None
  }

  /** The system tag a session is given. */
  function OwnSystemTag(memo: Memo, p: Place, owner: Option<string>): Option<string> {
    if p.SessionList? && Truthy(owner) then Lookup(memo, SystemOf(owner.value)) else None
  }

  function WithSystemTag(system: Option<string>, refs: seq<string>): seq<string> {
    if system.Some? then WithFirst(system.value, refs) else refs
  }

  lemma CarriedByLink(before: Database, source: Option<string>, memo: Memo, after: Database, p: Place, n: string)
    requires Migrated(before, source, memo, after) && Exists(before, p) && IsLink(p)
    ensures Exists(after, p)
    ensures Carries(after, p, n) <==> TranslatedAt(before, memo, p, n) || LeftAlone(before, p, n)
  {
    LinkAfter(before, source, memo, after, p);
    LinkElements(before.registry, memo, TagsAt(before, p), OwnerAt(before, p), TagsAt(after, p), n);
  }

  lemma LinkElements(registry: Registry, memo: Memo, tags: seq<string>, owner: Option<string>, tags': seq<string>, n: string)
    requires |tags| == |tags'| == 1 && Covered(registry, memo, tags[0], owner)
    requires var next := Translate(registry, memo, tags[0], owner);
      tags'[0] == if next.Some? then next.value else tags[0]
    ensures n in tags' <==>
      TranslatedIn(registry, memo, tags, owner, n) || (n in tags && KeyFor(registry, n, owner) == None)
  {
    assert tags[0] in tags;
  }

  lemma CarriedByList(before: Database, source: Option<string>, memo: Memo, after: Database, p: Place, n: string)
    requires Migrated(before, source, memo, after) && Exists(before, p) && !IsLink(p)
    ensures Exists(after, p)
    ensures Carries(after, p, n) <==> TranslatedAt(before, memo, p, n) || OwnSystemTag(memo, p, OwnerAt(before, p)) == Some(n)
  {
    MemoIsFresh(before, source, memo, after);
    ListAfter(before, source, memo, after, p);
    RefsElements(before, memo, TagsAt(before, p), OwnerAt(before, p));
  }

  lemma LinkAfter(before: Database, source: Option<string>, memo: Memo, after: Database, p: Place)
    requires Migrated(before, source, memo, after) && Exists(before, p) && IsLink(p)
    ensures Exists(after, p) && |TagsAt(before, p)| == |TagsAt(after, p)| == 1
    ensures var t, owner := TagsAt(before, p)[0], OwnerAt(before, p);
      && Covered(before.registry, memo, t, owner)
      && var next := Translate(before.registry, memo, t, owner);
         TagsAt(after, p)[0] == if next.Some? then next.value else t
  {
    var owner := OwnerAt(before, p);
    match p {
      case CocoonLink(id) => assert LinkRewritten(before, memo, owner, before.cocoonBindings[id], after.cocoonBindings[id]);
      case GroupLink(id) => assert LinkRewritten(before, memo, owner, before.groupBindings[id], after.groupBindings[id]);
      case MessageLink(id) => assert LinkRewritten(before, memo, owner, before.messageTags[id], after.messageTags[id]);
      case MemoryLink(id) => assert LinkRewritten(before, memo, owner, before.memoryTags[id], after.memoryTags[id]);
    }
  }

  /** A JSON column afterwards: the first occurrences of the translated known tags, in order, with the owner's
      system tag in front of a session that lacked it. */
  lemma ListAfter(before: Database, source: Option<string>, memo: Memo, after: Database, p: Place)
    requires Migrated(before, source, memo, after) && Exists(before, p) && !IsLink(p)
    ensures Exists(after, p) && AllCovered(before.registry, memo, TagsAt(before, p), OwnerAt(before, p))
    ensures var owner := OwnerAt(before, p);
      && (p.SessionList? && Truthy(owner) ==> SystemOf(owner.value) in memo)
      && TagsAt(after, p) == WithSystemTag(OwnSystemTag(memo, p, owner),
                                           RewrittenRefs(before.registry, memo, TagsAt(before, p), owner))
  {
    MemoIsFresh(before, source, memo, after);
    match p {
      case SessionList(id) => SessionAfter(before, memo, before.sessions[id], after.sessions[id]);
      case MessageList(id) => MessageAfter(before, memo, before.messages[id], after.messages[id]);
      case MemoryList(id) => MemoryAfter(before, memo, before.memories[id], after.memories[id]);
    }
  }

  lemma SessionAfter(before: Database, memo: Memo, row: Scoped, row': Scoped)
    requires FreshValues(before, memo) && SessionRewritten(before, memo, row, row')
    ensures var owner := ScopedOwner(before, row);
      var refs := RewrittenRefs(before.registry, memo, Items(row.tags), owner);
      Items(row'.tags) == if Truthy(owner) then WithFirst(memo[SystemOf(owner.value)], refs) else refs
  {
    var owner := ScopedOwner(before, row);
    var refs := RewrittenRefs(before.registry, memo, Items(row.tags), owner);
    RefsElements(before, memo, Items(row.tags), owner);
    if Truthy(owner) {
      assert Fresh(before, memo[SystemOf(owner.value)]);
      NothingBlank(WithFirst(memo[SystemOf(owner.value)], refs));
    }
  }

  lemma MessageAfter(before: Database, memo: Memo, row: Scoped, row': Scoped)
    requires FreshValues(before, memo) && MessageRewritten(before, memo, row, row')
    ensures Items(row'.tags) == RewrittenRefs(before.registry, memo, Items(row.tags), ScopedOwner(before, row))
  {
    RefsElements(before, memo, Items(row.tags), ScopedOwner(before, row));
  }

  lemma MemoryAfter(before: Database, memo: Memo, row: Memory, row': Memory)
    requires FreshValues(before, memo) && MemoryRewritten(before, memo, row, row')
    ensures Items(row'.tags) == RewrittenRefs(before.registry, memo, Items(row.tags), MemoryOwner(before, row))
  {
    RefsElements(before, memo, Items(row.tags), MemoryOwner(before, row));
  }
}
