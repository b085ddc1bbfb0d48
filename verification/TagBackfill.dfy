/** Migration 0016: one registry row becomes the system tag, and every cocoon and chat group is bound to it. */
module TagBackfill {
  import opened Wrappers
  import opened FreshIds
  import opened TagSchema

  ghost predicate UniqueTagIds(registry: map<string, TagRow>) {
    forall s, t | s in registry && t in registry && registry[s].tagId == registry[t].tagId :: s == t
  }

  /** The rows binding a holder to a tag. */
  function BindingsTo(rows: map<string, Link>, holder: string, tag: string): set<string> {
    set id | id in rows && rows[id] == Link(holder, tag)
  }

  /** `SELECT id FROM tag_registry WHERE tag_id = 'default'` finds at most one row. */
  ghost predicate AtMostOneDefault(registry: map<string, TagRow>) {
    forall s, t | s in registry && t in registry && registry[s].tagId == registry[t].tagId == "default" :: s == t
  }

  /** The row that becomes the system tag: the one called "default", or else the one that is inserted. */
  ghost predicate IsDefaultTag(registry: map<string, TagRow>, defaultTagId: string, tag: string) {
    if tag in registry then registry[tag].tagId == "default"
    else tag == defaultTagId && forall id | id in registry :: registry[id].tagId != "default"
  }

  /** Which row that is can be told before the migration. */
  lemma DefaultTagIsDetermined(registry: map<string, TagRow>, defaultTagId: string, s: string, t: string)
    requires AtMostOneDefault(registry) && IsDefaultTag(registry, defaultTagId, s) && IsDefaultTag(registry, defaultTagId, t)
    ensures s == t
  {
  }

  /** No cocoon is bound twice to what becomes the system tag. */
  ghost predicate BoundOnceAtMost(registry: map<string, TagRow>, defaultTagId: string, rows: map<string, Link>, holders: set<string>) {
    forall tag, h | IsDefaultTag(registry, defaultTagId, tag) && h in holders :: |BindingsTo(rows, h, tag)| <= 1
  }

  /** The system row is the only new or changed registry row, and the only system row. */
  ghost predicate RegistryBackfilled(was: map<string, TagRow>, now: map<string, TagRow>, tag: string) {
    && now.Keys == was.Keys + {tag}
    && now[tag].tagId == "default" && now[tag].isSystem && now[tag].visibility == "public" && !now[tag].isIsolated
    && (tag in was ==> now[tag].brief == was[tag].brief && now[tag].meta == was[tag].meta)
    && (forall id | id in was && id != tag :: now[id] == was[id])
  }

  /** A row called "default" keeps every field but its three flags and its update time; an inserted one is dated now. */
  ghost predicate DefaultRowIs(was: map<string, TagRow>, tag: string, now: int, row: TagRow) {
    row == if tag in was then was[tag].(isSystem := true, visibility := "public", isIsolated := false, updatedAt := Some(now))
           else TagRow(None, "default", "Default memory boundary automatically applied to every target.", "public",
                       false, true, false, Some(map[]), Some(now), Some(now))
  }

  /** Old bindings stay, every listed holder has exactly one binding to the tag, and only holders that had
      none got a new one. */
  ghost predicate Backfilled(was: map<string, Link>, now: map<string, Link>, holders: set<string>, tag: string) {
    && was.Keys <= now.Keys
    && (forall id | id in was :: now[id] == was[id])
    && (forall h | h in holders :: |BindingsTo(now, h, tag)| == 1)
    && (forall id | id in now && id !in was :: now[id].tag == tag && now[id].holder in holders
                                              && BindingsTo(was, now[id].holder, tag) == {})
  }

  class Upgrade {
    const newId: nat -> string
    const now: int
    var drawn: nat
    var registry: map<string, TagRow>
    var cocoonBindings: map<string, Link>
    var groupBindings: map<string, Link>

    constructor (registry: map<string, TagRow>, cocoonBindings: map<string, Link>, newId: nat -> string, now: int)
      ensures this.registry == registry && this.cocoonBindings == cocoonBindings && this.groupBindings == map[]
      ensures this.newId == newId && this.now == now && drawn == 0
    {
      this.registry, this.cocoonBindings, this.groupBindings := registry, cocoonBindings, map[];
      this.newId, this.now := newId, now;
      drawn := 0;
    }

    /** Finds or inserts the default tag and makes it the system tag. `scalar_one_or_none` raises when there are two. */
    method EnsureDefaultTag(defaultTagId: string) returns (ok: bool, tag: string)
      requires defaultTagId !in registry
      requires forall id | id in registry :: !registry[id].isSystem
      modifies `registry
      ensures ok <==> AtMostOneDefault(old(registry))
      ensures IsDefaultTag(old(registry), defaultTagId, tag)
      ensures !ok ==> registry == old(registry)
      ensures ok ==> RegistryBackfilled(old(registry), registry, tag) && DefaultRowIs(old(registry), tag, now, registry[tag])
      ensures ok ==> forall id | id in registry :: registry[id].isSystem <==> id == tag
      ensures UniqueTagIds(old(registry)) ==> UniqueTagIds(registry)
    {
      if id :| id in registry && registry[id].tagId == "default" {
        tag := id;
        if other :| other in registry && registry[other].tagId == "default" && other != id {
          return false, tag;
        }
        registry := registry[id := registry[id].(isSystem := true, visibility := "public", isIsolated := false, updatedAt := Some(now))];
      } else {
        tag := defaultTagId;
        registry := registry[tag := TagRow(None, "default", DEFAULT_BRIEF, "public", false, true, false,
                                           Some(map[]), Some(now), Some(now))];
      }
      ok := true;
    }

    /** A binding loop. `scalar_one_or_none` raises when a holder is bound to the tag more than once; the
        migration then fails, and its transaction is rolled back by the caller. */
    method BindAll(rows: map<string, Link>, holders: set<string>, tag: string) returns (ok: bool, rows': map<string, Link>)
      requires Unused(newId, drawn, rows)
      modifies `drawn
      ensures ok <==> forall h | h in holders :: |BindingsTo(rows, h, tag)| <= 1
      ensures ok ==> Backfilled(rows, rows', holders, tag)
      ensures drawn >= old(drawn) && Unused(newId, drawn, rows')
    {
      rows' := rows;
      var todo := holders;
      while todo != {}
        invariant todo <= holders && drawn >= old(drawn) && Unused(newId, drawn, rows')
        invariant Backfilled(rows, rows', holders - todo, tag)
        invariant forall h | h in holders - todo :: |BindingsTo(rows, h, tag)| <= 1
      {
        var h :| h in todo;
        NotYetBound(rows, rows', holders - todo, tag, h);
        var found := BindingsTo(rows', h, tag);
        if |found| > 1 {
          return false, rows';
        }
        BindOne(rows, rows', holders - todo, tag, h, newId(drawn));
        assert holders - (todo - {h}) == holders - todo + {h};
        if found == {} {
          rows' := rows'[newId(drawn) := Link(h, tag)];
          drawn := drawn + 1;
        }
        todo := todo - {h};
      }
      assert holders - todo == holders;
      return true, rows';
    }

    /** The data steps of the migration. The chat group table has just been created, so it starts empty. It fails if
        and only if two tags are called "default", or a cocoon is bound twice to the one that is. */
    method Run(cocoons: set<string>, groups: set<string>, defaultTagId: string) returns (ok: bool, tag: string)
      requires defaultTagId !in registry && groupBindings == map[]
      requires forall id | id in registry :: !registry[id].isSystem
      requires Unused(newId, drawn, cocoonBindings)
      modifies this
      ensures ok <==> AtMostOneDefault(old(registry)) && BoundOnceAtMost(old(registry), defaultTagId, old(cocoonBindings), cocoons)
      ensures IsDefaultTag(old(registry), defaultTagId, tag)
      ensures ok ==> RegistryBackfilled(old(registry), registry, tag) && DefaultRowIs(old(registry), tag, now, registry[tag])
      ensures ok ==> forall id | id in registry :: registry[id].isSystem <==> id == tag
      ensures UniqueTagIds(old(registry)) ==> UniqueTagIds(registry)
      ensures ok ==> Backfilled(old(cocoonBindings), cocoonBindings, cocoons, tag)
      ensures ok ==> Backfilled(map[], groupBindings, groups, tag)
    {
      ghost var was := registry;
      ok, tag := EnsureDefaultTag(defaultTagId);
      if !ok {
        return;
      }
      forall t | IsDefaultTag(was, defaultTagId, t) ensures t == tag {
        DefaultTagIsDetermined(was, defaultTagId, t, tag);
      }
      ok, cocoonBindings := BindAll(cocoonBindings, cocoons, tag);
      if ok {
        ok, groupBindings := BindAll(groupBindings, groups, tag);
        assert forall h :: BindingsTo(map[], h, tag) == {};
      }
    }
  }

  lemma BindingAdded(rows: map<string, Link>, id: string, row: Link, h: string, tag: string)
    requires id !in rows
    ensures BindingsTo(rows[id := row], h, tag) == BindingsTo(rows, h, tag) + if row == Link(h, tag) then {id} else {}
  {
  }

  /** A holder the loop has not reached still has the bindings it started with. */
  lemma NotYetBound(was: map<string, Link>, now: map<string, Link>, done: set<string>, tag: string, h: string)
    requires Backfilled(was, now, done, tag) && h !in done
    ensures BindingsTo(now, h, tag) == BindingsTo(was, h, tag)
  {
  }

  /** A round of the loop that inserts a binding. */
  lemma BindNew(was: map<string, Link>, now: map<string, Link>, done: set<string>, tag: string, h: string, id: string)
    requires Backfilled(was, now, done, tag) && h !in done && id !in now
    requires BindingsTo(was, h, tag) == {}
    ensures Backfilled(was, now[id := Link(h, tag)], done + {h}, tag)
  {
    NotYetBound(was, now, done, tag, h);
    var next := now[id := Link(h, tag)];
    forall g | g in done + {h} ensures |BindingsTo(next, g, tag)| == 1 {
      BindingAdded(now, id, Link(h, tag), g, tag);
      assert g in done ==> BindingsTo(next, g, tag) == BindingsTo(now, g, tag);
      assert g == h ==> BindingsTo(next, g, tag) == {id};
    }
  }

  /** One round of the loop. */
  lemma BindOne(was: map<string, Link>, now: map<string, Link>, done: set<string>, tag: string, h: string, id: string)
    requires Backfilled(was, now, done, tag) && h !in done && id !in now
    requires |BindingsTo(was, h, tag)| <= 1
    ensures Backfilled(was, if BindingsTo(now, h, tag) == {} then now[id := Link(h, tag)] else now, done + {h}, tag)
  {
    NotYetBound(was, now, done, tag, h);
    if BindingsTo(now, h, tag) == {} {
      BindNew(was, now, done, tag, h, id);
    } else {
      assert |BindingsTo(now, h, tag)| == 1;
    }
  }
}
