/** The Cocoons page: pages of the tree are loaded one after another and merged into its state. */
module CocoonPage {
  import opened Wrappers
  import opened Sequences
  import opened CocoonTree

  /** `ROOT_PAGE_SIZE` and `CHILD_PAGE_SIZE` */
  const PAGE_SIZE: nat := 20

  datatype Meta = Meta(page: int, hasMore: bool, isLoading: bool)

  datatype View = View(nodes: Table, rootIds: seq<int>, rootMeta: Meta)

  /** `roots.find((item) => item.id === id)?.children || []` */
  function ChildrenOfRoot(roots: seq<Node>, id: int): seq<Node> {
    if roots == [] then [] else if roots[0].id == id then roots[0].children else ChildrenOfRoot(roots[1..], id)
  }

  /** `getCocoonTree`, for the forest that the server returns; a parent 0 is no parent. */
  function GetTree(roots: seq<Node>, parent: Option<int>, page: int): Page<Node> {
    MakePage(if parent.Some? && parent.value != 0 then ChildrenOfRoot(roots, parent.value) else roots, page, PAGE_SIZE)
  }

  /** `mergeIds` */
  function MergeIds(existing: seq<int>, incoming: seq<int>): seq<int> {
    Dedupe(existing + incoming)
  }

  function Merged(existing: seq<int>, incoming: seq<int>, page: int): seq<int> {
    if page == 1 then incoming else MergeIds(existing, incoming)
  }

  /** The view after the answer to a request for a page has been merged in. */
  function Received(v: View, parent: Option<int>, page: int, answer: Page<Node>): View {
    var fetched := Ids(answer.items);
    var more := answer.page < answer.totalPages;
    var nodes := v.nodes + Flatten(answer.items, map[]);
    if parent.None? then View(nodes, Merged(v.rootIds, fetched, page), Meta(answer.page, more, false))
    else if parent.value !in nodes then v.(nodes := nodes)
    else
      var row := nodes[parent.value];
      var childIds := Merged(row.childIds, fetched, page);
      v.(nodes := nodes[parent.value := row.(childIds := childIds, page := answer.page, hasMore := more, isLoading := false)])
  }

  /** The view while a request for a page is under way. */
  function Begun(v: View, parent: Option<int>): View {
    if parent.None? then v.(rootMeta := v.rootMeta.(isLoading := true))
    else if parent.value in v.nodes then v.(nodes := v.nodes[parent.value := v.nodes[parent.value].(isLoading := true)])
    else v
  }

  /** The view after the request has failed: the flag of a parent stays set. */
  function Failed(v: View, parent: Option<int>): View {
    if parent.None? then v.(rootMeta := v.rootMeta.(isLoading := false)) else v
  }

  /** The loop over the entries of a patch, in any order. */
  method MergePatch<K(==)>(nodes: map<K, TreeNode>, patch: map<K, TreeNode>) returns (next: map<K, TreeNode>)
    requires forall id | id in patch :: !patch[id].isLoading
    ensures next == nodes + patch
  {
    next := nodes;
    var todo := patch.Keys;
    while todo != {}
      invariant todo <= patch.Keys && next.Keys == nodes.Keys + (patch.Keys - todo)
      invariant forall id | id in next :: next[id] == if id in patch && id !in todo then patch[id] else nodes[id]
    {
      var id :| id in todo;
      next := next[id := patch[id].(isLoading := false)];
      todo := todo - {id};
    }
  }

  class Cocoons {
    var nodes: Table
    var rootIds: seq<int>
    var rootMeta: Meta

    constructor ()
      ensures Value() == View(map[], [], Meta(1, false, false))
    {
      nodes, rootIds, rootMeta := map[], [], Meta(1, false, false);
    }

    function Value(): View
      reads this
    {
      View(nodes, rootIds, rootMeta)
    }

    /** `loadTree` until its request is sent. */
    method BeginLoad(parent: Option<int>)
      modifies this
      ensures Value() == Begun(old(Value()), parent)
    {
      if parent.None? {
        rootMeta := rootMeta.(isLoading := true);
      } else if parent.value in nodes {
        nodes := nodes[parent.value := nodes[parent.value].(isLoading := true)];
      }
    }

    /** `loadTree` from the answer on; other loads may have changed the state in between. */
    method FinishLoad(parent: Option<int>, page: int, answer: Page<Node>) returns (fetched: seq<int>)
      modifies this
      ensures Value() == Received(old(Value()), parent, page, answer)
      ensures fetched == Ids(answer.items)
    {
      var patch := new Patch();
      fetched := patch.NormalizeTree(answer.items);
      forall id | id in patch.entries ensures !patch.entries[id].isLoading {
        FlattenRows(answer.items, map[], id);
      }
      var next := MergePatch(nodes, patch.entries);
      var more := answer.page < answer.totalPages;
      if parent.Some? && parent.value in next {
        var row := next[parent.value];
        var childIds := if page == 1 then fetched else MergeIds(row.childIds, fetched);
        next := next[parent.value := row.(childIds := childIds, page := answer.page, hasMore := more, isLoading := false)];
      }
      nodes := next;
      if parent.None? {
        rootIds := if page == 1 then fetched else MergeIds(rootIds, fetched);
        rootMeta := Meta(answer.page, more, false);
      }
    }

    /** `loadTree` when its request fails. */
    method FailLoad(parent: Option<int>)
      modifies this
      ensures Value() == Failed(old(Value()), parent)
    {
      if parent.None? {
        rootMeta := rootMeta.(isLoading := false);
      }
    }
  }

  // ----- Loading flags -----

  /** A request that fails leaves no trace if and only if, for the roots, they were not loading already, and for a
      node, it has no row or was loading already. */
  lemma FailureRestoresIff(v: View, parent: Option<int>)
    ensures Failed(Begun(v, parent), parent) == v <==>
      match parent
      case None => !v.rootMeta.isLoading
      case Some(id) => id !in v.nodes || v.nodes[id].isLoading
  {
    if parent.Some? && parent.value in v.nodes {
      var row := v.nodes[parent.value];
      if row.isLoading {
        assert v.nodes[parent.value := row] == v.nodes;
      } else {
        assert Begun(v, parent).nodes[parent.value] != row;
      }
    }
  }

  datatype Event = Begins(parent: Option<int>) | Fails(parent: Option<int>) | Answers(parent: Option<int>, page: int, answer: Page<Node>)

  function Step(v: View, e: Event): View {
    match e
    case Begins(parent) => Begun(v, parent)
    case Fails(parent) => Failed(v, parent)
    case Answers(parent, page, answer) => Received(v, parent, page, answer)
  }

  predicate IsLoading(v: View, id: int) {
    id in v.nodes && v.nodes[id].isLoading
  }

  ghost predicate Mentions(items: seq<Node>, id: int) {
    exists n :: InForest(n, items) && n.id == id
  }

  /** A node's flag is reset by an answer to a request for its own children, or by one that contains the node, and by
      nothing else: not by a failure, whoever asked. */
  lemma FlagIsResetIff(v: View, e: Event, id: int)
    requires IsLoading(v, id)
    ensures !IsLoading(Step(v, e), id) <==> e.Answers? && (e.parent == Some(id) || Mentions(e.answer.items, id))
  {
    if e.Answers? {
      FlattenRows(e.answer.items, map[], id);
    }
  }

  ghost predicate Untouched(events: seq<Event>, id: int) {
    forall i | 0 <= i < |events| && events[i].Answers? ::
      events[i].parent != Some(id) && !Mentions(events[i].answer.items, id)
  }

  function AfterAll(v: View, events: seq<Event>): View
    decreases |events|
  {
    if events == [] then v else AfterAll(Step(v, events[0]), events[1..])
  }

  /** So after a failed load of its children a node is shown as loading until one of those answers arrives. */
  lemma {:induction false} StaysLoadingAfterFailure(v: View, id: int, events: seq<Event>)
    requires id in v.nodes && Untouched(events, id)
    ensures IsLoading(AfterAll(Failed(Begun(v, Some(id)), Some(id)), events), id)
  {
    StaysLoading(Failed(Begun(v, Some(id)), Some(id)), id, events);
  }

  lemma {:induction false} StaysLoading(v: View, id: int, events: seq<Event>)
    requires IsLoading(v, id) && Untouched(events, id)
    ensures IsLoading(AfterAll(v, events), id)
    decreases |events|
  {
    if events != [] {
      FlagIsResetIff(v, events[0], id);
      StaysLoading(Step(v, events[0]), id, events[1..]);
    }
  }

  // ----- Loading page after page -----

  /** The view after pages 1 to `count` of an unchanging forest. */
  function LoadRoots(v: View, roots: seq<Node>, count: nat): View {
    if count == 0 then v else Received(LoadRoots(v, roots, count - 1), None, count, GetTree(roots, None, count))
  }

  /** The roots of the first `count` pages. */
  function FirstPages(roots: seq<Node>, count: nat): seq<Node> {
    Slice(roots, 0, count * PAGE_SIZE)
  }

  lemma NextPage(roots: seq<Node>, count: nat)
    requires count >= 1
    ensures var page := GetTree(roots, None, count);
            && FirstPages(roots, count) == FirstPages(roots, count - 1) + page.items <= roots
            && (page.page < page.totalPages <==> count * PAGE_SIZE < |roots|)
  {
    PagesAreAPrefix(roots, PAGE_SIZE, count);
    PagesAreAPrefix(roots, PAGE_SIZE, count - 1);
  }

  /** After `count` pages the roots are the first `20 * count`, each once and in order, and `hasMore` says
      whether there are others. */
  lemma {:induction false} RootsArriveInOrder(v: View, roots: seq<Node>, count: nat)
    requires NoRepeats(Ids(roots)) && count >= 1
    ensures LoadRoots(v, roots, count).rootIds == Ids(FirstPages(roots, count))
    ensures LoadRoots(v, roots, count).rootMeta.hasMore <==> count * PAGE_SIZE < |roots|
  {
    NextPage(roots, count);
    if count > 1 {
      RootsArriveInOrder(v, roots, count - 1);
    }
    MergingAppends(roots, FirstPages(roots, count - 1), GetTree(roots, None, count).items);
  }

  lemma MergingAppends(roots: seq<Node>, have: seq<Node>, page: seq<Node>)
    requires NoRepeats(Ids(roots)) && have + page <= roots
    ensures MergeIds(Ids(have), Ids(page)) == Ids(have + page)
    ensures have == [] ==> Ids(page) == Ids(have + page)
  {
    assert Ids(have) + Ids(page) == Ids(have + page);
    forall i, j | 0 <= i < j < |have + page| ensures Ids(have + page)[i] != Ids(have + page)[j] {
      assert Ids(roots)[i] == Ids(have + page)[i] && Ids(roots)[j] == Ids(have + page)[j];
    }
    DedupeOfDistinct(Ids(have + page));
  }

  lemma {:induction false} DedupeOfDistinct<T>(q: seq<T>)
    requires NoRepeats(q)
    ensures Dedupe(q) == q
  {
    if q != [] {
      DedupeOfDistinct(q[..|q| - 1]);
      assert q == q[..|q| - 1] + [q[|q| - 1]];
    }
  }

  lemma OneMorePage(v: View, roots: seq<Node>, count: nat)
    requires count >= 1
    ensures LoadRoots(v, roots, count).nodes
         == LoadRoots(v, roots, count - 1).nodes + Flatten(GetTree(roots, None, count).items, map[])
  {
  }

  ghost predicate HasRows(v: View, roots: seq<Node>, count: nat) {
    AllEntries(FirstPages(roots, count), LoadRoots(v, roots, count).nodes)
  }

  lemma NextPageHasRows(v: View, roots: seq<Node>, count: nat)
    requires Consistent(roots) && count > 0 && HasRows(v, roots, count - 1)
    ensures HasRows(v, roots, count)
  {
    NextPage(roots, count);
    OneMorePage(v, roots, count);
    PartsAreWithin(roots, FirstPages(roots, count - 1), GetTree(roots, None, count).items);
    PatchKeepsEntries(roots, FirstPages(roots, count - 1), GetTree(roots, None, count).items, FirstPages(roots, count),
      LoadRoots(v, roots, count - 1).nodes, LoadRoots(v, roots, count).nodes);
  }

  /** Every node below a loaded root has its row. */
  lemma LoadedNodesHaveRows(v: View, roots: seq<Node>, count: nat)
    requires Consistent(roots)
    ensures HasRows(v, roots, count)
  {
    NothingHasRows(v, roots);
    for n := 0 to count
      invariant HasRows(v, roots, n)
    {
      NextPageHasRows(v, roots, n + 1);
    }
  }

  lemma NothingHasRows(v: View, roots: seq<Node>)
    ensures HasRows(v, roots, 0)
  {
    assert FirstPages(roots, 0) == [];
  }

  /** Merging a page into a table that holds the entries of earlier ones. */
  lemma PatchKeepsEntries(all: seq<Node>, have: seq<Node>, page: seq<Node>, both: seq<Node>, nodes: Table, nodes': Table)
    requires Consistent(all) && AllEntries(have, nodes) && both == have + page && Within(have, all) && Within(page, all)
    requires nodes' == nodes + Flatten(page, map[])
    ensures AllEntries(both, nodes')
  {
    forall n | InForest(n, both) ensures n.id in nodes' && nodes'[n.id] == Entry(n) {
      InForestOfBoth(n, have, page);
      PatchKeepsEntry(all, have, page, nodes, n);
    }
  }

  lemma PatchKeepsEntry(all: seq<Node>, have: seq<Node>, page: seq<Node>, nodes: Table, n: Node)
    requires Consistent(all) && AllEntries(have, nodes) && Within(have, all) && Within(page, all)
    requires InForest(n, have) || InForest(n, page)
    ensures Lookup(nodes + Flatten(page, map[]), n.id) == Some(Entry(n))
  {
    var m := NodeBehind(page, n.id);
    if m.Some? {
      SameNode(all, m.value, n);
    }
  }

  lemma SameNode(all: seq<Node>, m: Node, n: Node)
    requires Consistent(all) && InForest(m, all) && InForest(n, all) && m.id == n.id
    ensures m == n
  {
  }

  /** The node whose entry a page leaves under this id, if the page has any. */
  lemma NodeBehind(page: seq<Node>, id: int) returns (m: Option<Node>)
    ensures m.Some? ==> InForest(m.value, page) && m.value.id == id && Lookup(Flatten(page, map[]), id) == Some(Entry(m.value))
    ensures m.None? ==> !Mentions(page, id) && Lookup(Flatten(page, map[]), id) == None
  {
    FlattenRows(page, map[], id);
    if n :| InForest(n, page) && n.id == id && Lookup(Flatten(page, map[]), id) == Some(Entry(n)) {
      m := Some(n);
    } else {
      m := None;
    }
  }

  lemma FlattenLeavesOthers(items: seq<Node>, nodes: Table, id: int)
    requires !Mentions(items, id)
    ensures Lookup(nodes + Flatten(items, map[]), id) == Lookup(nodes, id)
  {
    FlattenRows(items, map[], id);
  }

  ghost predicate Within(part: seq<Node>, all: seq<Node>) {
    forall n | InForest(n, part) :: InForest(n, all)
  }

  lemma PartsAreWithin(all: seq<Node>, have: seq<Node>, page: seq<Node>)
    requires have + page <= all
    ensures Within(have, all) && Within(page, all) && Within(have + page, all)
  {
    forall n ensures InForest(n, have) ==> InForest(n, all) ensures InForest(n, page) ==> InForest(n, all)
      ensures InForest(n, have + page) ==> InForest(n, all)
    {
      InForestPart(n, all, have, 0);
      InForestPart(n, all, page, |have|);
      InForestPart(n, all, have + page, 0);
    }
  }

  lemma InForestPart(n: Node, all: seq<Node>, part: seq<Node>, start: nat)
    requires forall i | 0 <= i < |part| :: start + i < |all| && part[i] == all[start + i]
    ensures InForest(n, part) ==> InForest(n, all)
  {
    if InForest(n, part) {
      var i :| 0 <= i < |part| && (n == part[i] || InForest(n, part[i].children));
      assert all[start + i] == part[i];
    }
  }

  lemma InForestOfBoth(n: Node, a: seq<Node>, b: seq<Node>)
    ensures InForest(n, a + b) ==> InForest(n, a) || InForest(n, b)
  {
    if InForest(n, a + b) {
      var i :| 0 <= i < |a + b| && (n == (a + b)[i] || InForest(n, (a + b)[i].children));
      if i < |a| {
        assert a[i] == (a + b)[i];
      } else {
        assert b[i - |a|] == (a + b)[i];
      }
    }
  }

  /** Loading pages until none is left shows the whole forest, from any earlier view. */
  lemma AllPagesShowTheForest(v: View, roots: seq<Node>, count: nat)
    requires NoRepeats(Ids(roots)) && Consistent(roots) && count >= 1
    requires !LoadRoots(v, roots, count).rootMeta.hasMore
    ensures var after := LoadRoots(v, roots, count);
            after.rootIds == Ids(roots) && Represents(after.nodes, after.rootIds, roots)
  {
    RootsArriveInOrder(v, roots, count);
    LoadedNodesHaveRows(v, roots, count);
    assert FirstPages(roots, count) == roots;
    EntriesRepresent(roots, roots, LoadRoots(v, roots, count).nodes);
  }

  // ----- Loading the children of one node -----

  /** Reloading a node from page 1 keeps its list of children if and only if it has none, or it is a root
      with no more children than fit on a page: the children of a deeper node are not found. */
  lemma ReloadKeepsChildrenIffRoot(v: View, roots: seq<Node>, n: Node)
    requires Consistent(roots) && AllEntries(roots, v.nodes) && InForest(n, roots) && n.id != 0
    ensures var after := Received(v, Some(n.id), 1, GetTree(roots, Some(n.id), 1));
            && n.id in after.nodes
            && (after.nodes[n.id].childIds == v.nodes[n.id].childIds
                <==> n.children == [] || (n in roots && |n.children| <= PAGE_SIZE))
  {
    var answer := GetTree(roots, Some(n.id), 1);
    ChildrenAreFound(roots, n.id);
    forall r | r in roots && r.id == n.id ensures r == n {
      assert InForest(r, roots);
    }
    if n in roots {
      assert ChildrenOfRoot(roots, n.id) == n.children;
      assert answer.items == Slice(n.children, 0, PAGE_SIZE);
    } else {
      assert answer.items == [];
    }
  }

  /** The view after pages 1 to `count` of a node's children. */
  function LoadChildren(v: View, roots: seq<Node>, id: int, count: nat): View {
    if count == 0 then v
    else Received(LoadChildren(v, roots, id, count - 1), Some(id), count, GetTree(roots, Some(id), count))
  }

  function Height(items: seq<Node>): nat
    decreases items
  {
    if items == [] then 0
    else
      var rest, last := Height(items[..|items| - 1]), 1 + Height(items[|items| - 1].children);
      if rest < last then last else rest
  }

  lemma {:induction false} HigherThanItsNodes(n: Node, items: seq<Node>)
    requires InForest(n, items)
    ensures Height(n.children) < Height(items)
    decreases items
  {
    var init, last := items[..|items| - 1], items[|items| - 1];
    InForestSplit(n, items);
    if InForest(n, init) {
      HigherThanItsNodes(n, init);
    } else if n != last {
      HigherThanItsNodes(n, last.children);
    }
  }

  /** A root of a consistent forest, which the table shows, with children of distinct ids. */
  ghost predicate IsShownRoot(v: View, roots: seq<Node>, n: Node) {
    && Consistent(roots) && n in roots && n.id != 0 && n.id in v.nodes && v.nodes[n.id].name == n.name
    && NoRepeats(Ids(n.children))
  }

  lemma BelowARoot(roots: seq<Node>, n: Node, part: seq<Node>)
    requires Consistent(roots) && n in roots && Within(part, n.children)
    ensures !Mentions(part, n.id) && Consistent(n.children)
  {
    var i :| 0 <= i < |roots| && roots[i] == n;
    forall m | InForest(m, n.children) ensures InForest(m, roots) {
    }
    assert InForest(n, roots);
    forall m | InForest(m, part) ensures m.id != n.id {
      if m == n {
        HigherThanItsNodes(n, n.children);
      }
    }
  }

  lemma PagesOfARoot(roots: seq<Node>, n: Node, count: nat)
    requires Consistent(roots) && n in roots && n.id != 0
    ensures GetTree(roots, Some(n.id), count) == GetTree(n.children, None, count)
  {
    ChildrenAreFound(roots, n.id);
    forall r | r in roots && r.id == n.id ensures r == n {
      assert InForest(r, roots) && InForest(n, roots);
    }
  }

  /** The view shows this node with the first `count` pages of its children and all that is below them. */
  ghost predicate ShowsPages(v: View, n: Node, count: nat) {
    && n.id in v.nodes && v.nodes[n.id].name == n.name
    && AllEntries(FirstPages(n.children, count), v.nodes)
    && (count > 0 ==> v.nodes[n.id] == TreeNode(n.name, Ids(FirstPages(n.children, count)), count, count * PAGE_SIZE < |n.children|, false))
  }

  lemma ParentUpdateKeepsEntries(items: seq<Node>, nodes: Table, id: int, row: TreeNode)
    requires AllEntries(items, nodes) && !Mentions(items, id)
    ensures AllEntries(items, nodes[id := row])
  {
  }

  /** Merging a page into the row of a node that the page does not mention. */
  lemma ReceivedByParent(v: View, n: Node, have: seq<Node>, answer: Page<Node>, count: nat)
    requires count > 0 && !Mentions(have + answer.items, n.id) && !Mentions(answer.items, n.id) && n.id in v.nodes
    requires AllEntries(have + answer.items, v.nodes + Flatten(answer.items, map[]))
    ensures var after := Received(v, Some(n.id), count, answer).nodes;
      && AllEntries(have + answer.items, after)
      && Lookup(after, n.id) == Some(TreeNode(v.nodes[n.id].name, Merged(v.nodes[n.id].childIds, Ids(answer.items), count), answer.page,
                                              answer.page < answer.totalPages, false))
  {
    FlattenLeavesOthers(answer.items, v.nodes, n.id);
    var nodes := v.nodes + Flatten(answer.items, map[]);
    assert nodes[n.id] == v.nodes[n.id];
    ParentUpdateKeepsEntries(have + answer.items, nodes, n.id, Received(v, Some(n.id), count, answer).nodes[n.id]);
  }

  lemma OneMorePageOfChildren(v: View, roots: seq<Node>, n: Node, count: nat)
    requires Consistent(roots) && n in roots && n.id != 0 && NoRepeats(Ids(n.children))
    requires count > 0 && ShowsPages(v, n, count - 1)
    ensures ShowsPages(Received(v, Some(n.id), count, GetTree(roots, Some(n.id), count)), n, count)
  {
    var have, answer := FirstPages(n.children, count - 1), GetTree(n.children, None, count);
    PagesOfARoot(roots, n, count);
    NextPage(n.children, count);
    MergingAppends(n.children, have, answer.items);
    PartsAreWithin(n.children, have, answer.items);
    BelowARoot(roots, n, have + answer.items);
    BelowARoot(roots, n, answer.items);
    PatchKeepsEntries(n.children, have, answer.items, have + answer.items, v.nodes, v.nodes + Flatten(answer.items, map[]));
    ReceivedByParent(v, n, have, answer, count);
  }

  /** After `count` pages a root's children are its first `20 * count`, each once and in order, and `hasMore` says
      whether there are others. When there are none, the whole subtree is shown. */
  lemma ChildrenArriveInOrder(v: View, roots: seq<Node>, n: Node, count: nat)
    requires IsShownRoot(v, roots, n) && count >= 1
    ensures var after := LoadChildren(v, roots, n.id, count).nodes;
      && n.id in after && after[n.id].childIds == Ids(FirstPages(n.children, count))
      && (after[n.id].hasMore <==> count * PAGE_SIZE < |n.children|)
      && (!after[n.id].hasMore ==> RepresentsNode(after, n.id, n))
  {
    assert FirstPages(n.children, 0) == [];
    for k := 0 to count
      invariant ShowsPages(LoadChildren(v, roots, n.id, k), n, k)
    {
      OneMorePageOfChildren(LoadChildren(v, roots, n.id, k), roots, n, k + 1);
    }
    if count * PAGE_SIZE >= |n.children| {
      assert FirstPages(n.children, count) == n.children;
      EntriesRepresent(n.children, n.children, LoadChildren(v, roots, n.id, count).nodes);
    }
  }

  lemma {:induction false} ChildrenAreFound(roots: seq<Node>, id: int)
    ensures (exists r :: r in roots && r.id == id && ChildrenOfRoot(roots, id) == r.children)
            || ((forall r | r in roots :: r.id != id) && ChildrenOfRoot(roots, id) == [])
  {
    if roots != [] && roots[0].id != id {
      ChildrenAreFound(roots[1..], id);
      assert forall r :: r in roots <==> r == roots[0] || r in roots[1..];
    } else if roots != [] {
      assert roots[0] in roots;
    }
  }
}
