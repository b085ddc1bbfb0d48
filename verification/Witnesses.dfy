/** Concrete inputs on which the modelled code does not do what one would hope for. */
module Witnesses {
  import opened Wrappers
  import TagSchema
  import TagBackfill
  import TagRewrite
  import TagTheorems
  import TagOutcome
  import ChatDispatch
  import ChatDispatchTheorems
  import ChatDispatchWorker
  import ChatDispatchDrain
  import KeywordMigration
  import MessageStore
  import TagReconcile
  import InviteQuota
  import PluginSchedules
  import CocoonTree
  import CocoonPage

  // ----- Tags -----

  /** A cocoon with two bindings to the default tag, on which 0016 fails. */
  lemma BoundTwice()
    ensures var rows := map["b1" := TagSchema.Link("cocoon", "tag"), "b2" := TagSchema.Link("cocoon", "tag")];
      |TagBackfill.BindingsTo(rows, "cocoon", "tag")| == 2
  {
    var rows := map["b1" := TagSchema.Link("cocoon", "tag"), "b2" := TagSchema.Link("cocoon", "tag")];
    assert TagBackfill.BindingsTo(rows, "cocoon", "tag") == {"b1", "b2"};
  }

  function Tag(tagId: string, isSystem: bool): TagSchema.TagRow {
    TagSchema.TagRow(None, tagId, "", "public", false, isSystem, false, None, None, None)
  }

  /** Two system tags, which 0019 turns into one for every user. */
  lemma TwoSystemTags(memo: TagRewrite.Memo)
    requires TagRewrite.SystemOf("user") in memo
    ensures var registry := map["t1" := Tag("default", true), "t2" := Tag("other", true)];
      && !TagTheorems.OneSystemTag(registry)
      && TagRewrite.Translate(registry, memo, "t1", Some("user")) == TagRewrite.Translate(registry, memo, "t2", Some("user"))
      && TagRewrite.Translate(registry, memo, "t1", Some("user")).Some?
  {
    var registry := map["t1" := Tag("default", true), "t2" := Tag("other", true)];
    assert registry["t1"].isSystem && registry["t2"].isSystem;
  }

  /** An ordinary tag called "default", for which 0019 cannot create its constraint. */
  lemma OrdinaryDefault()
    ensures !TagOutcome.CleanTagIds(map["t" := Tag("default", false)])
  {
    assert map["t" := Tag("default", false)]["t"].tagId == "default";
  }

  /** A database without users: 0019 deletes the tag and leaves its id in the link of a memory chunk that belongs to
      nobody. */
  lemma NobodyOwnsTheLink()
    ensures var after := Ownerless().(registry := map[], memories := map["m" := Orphan([])]);
      && TagRewrite.Migrated(Ownerless(), None, map[], after)
      && "t" in Ownerless().registry && TagSchema.Carries(after, TagSchema.MemoryLink("l"), "t")
  {
    var before := Ownerless();
    assert TagSchema.MemoryOwner(before, Orphan([])) == None;
    assert TagSchema.LinkOwner(before, TagSchema.MemoryOwners(before), before.memoryTags["l"]) == None;
    forall p, t | TagSchema.Carries(before, p, t)
      ensures TagRewrite.KeyFor(before.registry, t, TagSchema.OwnerAt(before, p)) == None
    {
    }
  }

  function Orphan(tags: seq<string>): TagSchema.Memory {
    TagSchema.Memory(None, None, None, TagSchema.List(tags))
  }

  function Ownerless(): TagSchema.Database {
    TagSchema.Database([], map[], map[], map["t" := Tag("work", false)], map[], map[], map[], map[], map["m" := Orphan([])],
                       map[], map["l" := TagSchema.Link("m", "t")], {})
  }

  /** A room member who is not the owner is not shown the owner's system tag, so the client asks to unbind it; the
      server refuses, and the call shows nothing. */
  method AnotherOwnersSystemTag() returns (refused: bool, writes: seq<TagReconcile.Write>)
    ensures refused && TagReconcile.Unbind("default") in writes
  {
    var server := new TagReconcile.Server({"default"}, {"default"});
    var shown, issued := TagReconcile.ReconcileTargetTags(server, [], []);
    refused, writes := shown.None?, server.writes;
    assert TagReconcile.SystemIds([]) == {};
    assert !TagReconcile.SystemTagsAgree({"default"}, {"default"}, {}, []) by {
      assert "default" in {"default"};
    }
    ghost var w :| w in issued && w.tag in {"default"};
    assert w == TagReconcile.Unbind("default");
  }

  // ----- Chat dispatch -----

  function QueuedChat(target: string, at: int): ChatDispatch.Action {
    ChatDispatch.Action(ChatDispatch.Cocoon(target), "chat", ChatDispatch.Queued, map[], None, at, None, None, None)
  }

  /** A message merged into a queued retry: the rest of its payload is not that of its parent any more. */
  lemma MergeReplacesThePayload(parent: nat)
    ensures var a := QueuedChat("c", 0).(payload := map["locale" := ChatDispatch.Other("en")]);
      var retry := ChatDispatch.Retry(parent, a, 1);
      var payload := map[ChatDispatch.ATTEMPT := ChatDispatch.Num(2), "locale" := ChatDispatch.Other("de")];
      && ChatDispatch.CanMerge(retry, payload)
      && !ChatDispatchTheorems.SameButRetryKeys(payload, a.payload)
      && ChatDispatchTheorems.SameButRetryKeys(retry.payload, a.payload)
  {
    var payload := map[ChatDispatch.ATTEMPT := ChatDispatch.Num(2), "locale" := ChatDispatch.Other("de")];
    assert Lookup(payload, "locale") != Some(ChatDispatch.Other("en"));
  }

  /** One running action and fifty queued ones of a busy cocoon, then one queued action of another. */
  function Crowded(): (actions: seq<ChatDispatch.Action>)
    ensures |actions| == 52 && forall i | 0 <= i < 52 :: actions[i] == CrowdedRow(i)
  {
    seq(52, i requires 0 <= i < 52 => CrowdedRow(i))
  }

  function CrowdedRow(i: nat): ChatDispatch.Action {
    if i == 0 then QueuedChat("busy", 0).(status := ChatDispatch.Running, startedAt := Some(0))
    else if i == 51 then QueuedChat("idle", 51)
    else QueuedChat("busy", i)
  }

  function FirstFifty(): (candidates: seq<nat>)
    ensures |candidates| == 50 && forall i | 0 <= i < 50 :: candidates[i] == i + 1
  {
    seq(50, i requires 0 <= i < 50 => i + 1)
  }

  lemma LastIsFree(j: nat)
    requires j < 51
    ensures !ChatDispatch.BlockedBy(CrowdedRow(51), CrowdedRow(j))
  {
    assert CrowdedRow(j).target == ChatDispatch.Cocoon("busy");
    assert "busy"[0] == 'b' && "idle"[0] == 'i';
  }

  /** The worker finds nothing, although the last action could be claimed. */
  lemma IdleCocoonStarves(s: ChatDispatch.State)
    requires s.actions == Crowded()
    ensures ChatDispatchWorker.IsCandidateQuery(s.actions, FirstFifty(), 60)
    ensures ChatDispatchWorker.FirstUnblocked(s.actions, FirstFifty()).None?
    ensures ChatDispatch.Enabled(s, ChatDispatch.Claim(51, 60))
  {
    forall k | 1 <= k <= 50 ensures k in FirstFifty() {
      assert FirstFifty()[k - 1] == k;
    }
    ChatDispatchDrain.BusyTargetStarves(s.actions, FirstFifty(), 60, 0);
    forall j | 0 <= j < 51 ensures !ChatDispatch.BlockedBy(s.actions[51], s.actions[j]) {
      LastIsFree(j);
    }
  }

  // ----- The other migrations -----

  /** An embedding row without provider, model, dimensions and vector is lost by upgrading and downgrading 0028. */
  lemma BlankRowIsLost(row: KeywordMigration.Embedding)
    requires KeywordMigration.IsBlankRow(row)
    ensures var before, after := map["e" := row], map["e" := KeywordMigration.Cached(row, [])];
      && KeywordMigration.Visited(before, [], [], after) && KeywordMigration.Downgrade(after) == map[]
  {
  }

  /** A schedule that 0026 forgets: an interval kept with the manual mode. */
  lemma ManualIntervalIsForgotten(owners: PluginSchedules.Owners, rows: map<string, PluginSchedules.UserConfig>,
                                  c: PluginSchedules.EventConfig)
    requires var configs := map["e" := ManualInterval()]; PluginSchedules.Moved(owners, configs, configs.Keys, rows)
    requires PluginSchedules.SameEvent(c, ManualInterval()) && PluginSchedules.Restored(owners, rows, rows.Keys, c)
    ensures c != ManualInterval()
  {
    var configs := map["e" := ManualInterval()];
    PluginSchedules.RoundTripIffMovedOrManual(owners, configs, rows, "e", c);
  }

  function ManualInterval(): PluginSchedules.EventConfig {
    PluginSchedules.EventConfig("p", "e", PluginSchedules.Schedule("manual", Some(60), None))
  }

  /** An invite for two on a grant of one: what remains is not what was granted less what was drawn. */
  lemma OverdrawnTarget()
    ensures var t := InviteQuota.Target("USER", "u");
      InviteQuota.Balance([InviteQuota.Grant(t, Some(1), false, false)], [InviteQuota.Invite("USER", Some("u"), Some(2), false)], t) == -1
  {
    var t := InviteQuota.Target("USER", "u");
    var grants, invites := [InviteQuota.Grant(t, Some(1), false, false)], [InviteQuota.Invite("USER", Some("u"), Some(2), false)];
    InviteQuota.OneMoreGrant(grants, 0);
    InviteQuota.OneMoreInvite(invites, 0);
    assert grants[..1] == grants && invites[..1] == invites;
  }

  // ----- The client -----

  /** Two versions of one message, both of which `setMessages` keeps. */
  lemma RepeatedMessage()
    ensures var batch := [MessageStore.Message(1, 0, "draft"), MessageStore.Message(1, 0, "final")];
      !MessageStore.Lists(MessageStore.LastWrites(batch), MessageStore.SortMessages(batch))
  {
    var batch := [MessageStore.Message(1, 0, "draft"), MessageStore.Message(1, 0, "final")];
    assert batch[0].id == batch[1].id;
    MessageStore.SetListsIffDistinct(batch);
  }

  /** A root, its child and its grandchild. */
  function Lineage(): CocoonTree.Node {
    CocoonTree.Node(1, "root", [Child()])
  }

  function Child(): CocoonTree.Node {
    CocoonTree.Node(2, "child", [CocoonTree.Node(3, "grandchild", [])])
  }

  /** Reloading the child, as the page does after a cocoon was created under it, empties its list. */
  lemma ReloadedChildIsEmpty(v: CocoonPage.View)
    requires 2 in v.nodes && v.nodes[2] == CocoonTree.Entry(Child())
    ensures v.nodes[2].childIds == [3]
    ensures CocoonPage.Received(v, Some(2), 1, CocoonPage.GetTree([Lineage()], Some(2), 1)).nodes[2].childIds == []
  {
    assert CocoonPage.ChildrenOfRoot([Lineage()], 2) == [];
    assert v.nodes[2].childIds == [3];
  }

  /** A failed load of the child's children leaves it shown as loading. */
  lemma FailedChildIsLoading(v: CocoonPage.View)
    requires 2 in v.nodes && v.nodes[2] == CocoonTree.Entry(Child())
    ensures CocoonPage.IsLoading(CocoonPage.Failed(CocoonPage.Begun(v, Some(2)), Some(2)), 2) && !CocoonPage.IsLoading(v, 2)
  {
  }

  /** Two different nodes with one id cannot be read back. */
  lemma SharedIdIsLost(patch: CocoonTree.Table)
    ensures var items := [CocoonTree.Node(1, "a", []), CocoonTree.Node(1, "b", [])];
      !CocoonTree.Represents(CocoonTree.Flatten(items, patch), CocoonTree.Ids(items), items)
  {
    var items := [CocoonTree.Node(1, "a", []), CocoonTree.Node(1, "b", [])];
    assert items[0] != items[1];
    assert CocoonTree.InForest(items[0], items) && CocoonTree.InForest(items[1], items);
    CocoonTree.FlattenIsFaithfulIffConsistent(items, patch);
  }
}
