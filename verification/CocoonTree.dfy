/** The cocoon tree of the Cocoons page: pages of a forest, flattened into a table by id. */
module CocoonTree {
  import opened Wrappers

  /** A cocoon as the server nests it; `name` stands for every field but the id and the children. */
  datatype Node = Node(id: int, name: string, children: seq<Node>)

  datatype TreeNode = TreeNode(name: string, childIds: seq<int>, page: int, hasMore: bool, isLoading: bool)

  type Table = map<int, TreeNode>

  function Ids(items: seq<Node>): (ids: seq<int>)
    ensures |ids| == |items| && forall i | 0 <= i < |ids| :: ids[i] == items[i].id
  {
    seq(|items|, i requires 0 <= i < |items| => items[i].id)
  }

  function Entry(n: Node): TreeNode {
    TreeNode(n.name, Ids(n.children), 1, false, false)
  }

  /** What `normalizeTree` leaves in the table: children are written before their parent, and a later
      node replaces an earlier one with the same id. */
  function Flatten(items: seq<Node>, patch: Table): Table
    decreases items
  {
    if items == [] then patch
    else
      var n := items[|items| - 1];
      Flatten(n.children, Flatten(items[..|items| - 1], patch))[n.id := Entry(n)]
  }

  /** Following the child ids from `ids` through the table visits exactly this forest. */
  ghost predicate Represents(table: Table, ids: seq<int>, items: seq<Node>)
    decreases items
  {
    |ids| == |items| && forall i | 0 <= i < |items| :: RepresentsNode(table, ids[i], items[i])
  }

  ghost predicate RepresentsNode(table: Table, id: int, n: Node)
    decreases n
  {
    id == n.id && id in table && table[id].name == n.name && Represents(table, table[id].childIds, n.children)
  }

  ghost predicate InForest(n: Node, items: seq<Node>)
    decreases items
  {
    exists i :: 0 <= i < |items| && (n == items[i] || InForest(n, items[i].children))
  }

  /** Nodes of the forest with the same id are the same node. */
  ghost predicate Consistent(items: seq<Node>) {
    forall m, n | InForest(m, items) && InForest(n, items) && m.id == n.id :: m == n
  }

  ghost predicate AllEntries(items: seq<Node>, table: Table) {
    forall n | InForest(n, items) :: n.id in table && table[n.id] == Entry(n)
  }

  /** The object that `normalizeTree` fills. */
  class Patch {
    var entries: Table

    constructor ()
      ensures entries == map[]
    {
      entries := map[];
    }

    method NormalizeTree(items: seq<Node>) returns (ids: seq<int>)
      modifies this
      ensures entries == Flatten(items, old(entries))
      ensures ids == Ids(items)
      decreases items
    {
      ids := [];
      for i := 0 to |items|
        invariant entries == Flatten(items[..i], old(entries))
        invariant ids == Ids(items[..i])
      {
        var item := items[i];
        assert items[..i + 1][..i] == items[..i];
        var childIds := NormalizeTree(item.children);
        entries := entries[item.id := TreeNode(item.name, childIds, 1, false, false)];
        ids := ids + [item.id];
      }
      assert items[..|items|] == items;
    }
  }

  // ----- Flattening loses nothing -----

  /** The table's row is that of a node of the forest, or is untouched. */
  ghost predicate RowFrom(items: seq<Node>, patch: Table, table: Table, id: int) {
    (exists n :: InForest(n, items) && n.id == id && id in table && table[id] == Entry(n))
    || ((forall n | InForest(n, items) :: n.id != id) && Lookup(table, id) == Lookup(patch, id))
  }

  lemma {:induction false} InForestSplit(n: Node, items: seq<Node>)
    requires items != []
    ensures var last := items[|items| - 1];
            InForest(n, items) <==> InForest(n, items[..|items| - 1]) || n == last || InForest(n, last.children)
  {
    var init, last := items[..|items| - 1], items[|items| - 1];
    if InForest(n, init) {
      var i :| 0 <= i < |init| && (n == init[i] || InForest(n, init[i].children));
      assert items[i] == init[i];
    }
    if InForest(n, items) {
      var i :| 0 <= i < |items| && (n == items[i] || InForest(n, items[i].children));
      if i < |init| {
        assert items[i] == init[i];
      }
    }
  }

  lemma {:induction false} FlattenRows(items: seq<Node>, patch: Table, id: int)
    ensures RowFrom(items, patch, Flatten(items, patch), id)
    decreases items
  {
    if items != [] {
      var init, last := items[..|items| - 1], items[|items| - 1];
      var before := Flatten(init, patch);
      FlattenRows(init, patch, id);
      FlattenRows(last.children, before, id);
      forall n {
        InForestSplit(n, items);
      }
      if id == last.id {
        assert InForest(last, items);
      }
    }
  }

  lemma {:induction false} EntriesRepresent(all: seq<Node>, items: seq<Node>, table: Table)
    requires AllEntries(all, table) && forall n | InForest(n, items) :: InForest(n, all)
    ensures Represents(table, Ids(items), items)
    decreases items
  {
    forall i | 0 <= i < |items| ensures RepresentsNode(table, Ids(items)[i], items[i]) {
      assert InForest(items[i], items);
      EntriesRepresent(all, items[i].children, table);
    }
  }

  /** A table represents at most one forest under given ids. */
  lemma {:induction false} RepresentsOnlyOne(table: Table, ids: seq<int>, a: seq<Node>, b: seq<Node>)
    requires Represents(table, ids, a) && Represents(table, ids, b)
    ensures a == b
    decreases a
  {
    forall i | 0 <= i < |a| ensures a[i] == b[i] {
      assert RepresentsNode(table, ids[i], a[i]) && RepresentsNode(table, ids[i], b[i]);
      RepresentsOnlyOne(table, table[ids[i]].childIds, a[i].children, b[i].children);
    }
  }

  lemma {:induction false} RepresentsEveryNode(table: Table, ids: seq<int>, items: seq<Node>, n: Node)
    requires Represents(table, ids, items) && InForest(n, items)
    ensures RepresentsNode(table, n.id, n)
    decreases items
  {
    var i :| 0 <= i < |items| && (n == items[i] || InForest(n, items[i].children));
    assert RepresentsNode(table, ids[i], items[i]);
    if n != items[i] {
      RepresentsEveryNode(table, table[ids[i]].childIds, items[i].children, n);
    }
  }

  /** Flattening a forest keeps it whole, whatever the table held before, if and only if no two different
      nodes share an id. */
  lemma FlattenIsFaithfulIffConsistent(items: seq<Node>, patch: Table)
    ensures Represents(Flatten(items, patch), Ids(items), items) <==> Consistent(items)
  {
    var table := Flatten(items, patch);
    if Consistent(items) {
      FlattenHoldsEntries(items, patch);
      EntriesRepresent(items, items, table);
    }
    if Represents(table, Ids(items), items) {
      forall m, n | InForest(m, items) && InForest(n, items) && m.id == n.id ensures m == n {
        RepresentsEveryNode(table, Ids(items), items, m);
        RepresentsEveryNode(table, Ids(items), items, n);
        RepresentsOnlyOne(table, table[m.id].childIds, m.children, n.children);
      }
    }
  }

  lemma FlattenHoldsEntries(items: seq<Node>, patch: Table)
    requires Consistent(items)
    ensures AllEntries(items, Flatten(items, patch))
  {
    forall n | InForest(n, items) ensures n.id in Flatten(items, patch) && Flatten(items, patch)[n.id] == Entry(n) {
      FlattenRows(items, patch, n.id);
    }
  }

  // ----- Pages -----

  datatype Page<T> = Page(items: seq<T>, total: nat, page: int, totalPages: int)

  /** `items.slice(start, end)` for bounds that are not negative. */
  function Slice<T>(items: seq<T>, start: nat, end: nat): seq<T>
    requires start <= end
  {
    if end <= |items| then items[start..end] else if start <= |items| then items[start..] else []
  }

  function MakePage<T>(items: seq<T>, page: int, size: nat): Page<T>
    requires size > 0
  {
    var pages := (|items| + size - 1) / size;
    var start := if page < 1 then 0 else (page - 1) * size;
    Page(Slice(items, start, start + size), |items|, page, if pages < 1 then 1 else pages)
  }

  function Pages<T>(items: seq<T>, size: nat, count: nat): seq<T>
    requires size > 0
  {
    if count == 0 then [] else Pages(items, size, count - 1) + MakePage(items, count, size).items
  }

  lemma NextSlice<T>(items: seq<T>, start: nat, end: nat)
    requires start <= end
    ensures Slice(items, 0, start) + Slice(items, start, end) == Slice(items, 0, end)
  {
  }

  /** Reading pages in turn reads the items in order, each once, and the last page ends them. */
  lemma {:induction false} PagesAreAPrefix<T>(items: seq<T>, size: nat, count: nat)
    requires size > 0
    ensures Pages(items, size, count) == Slice(items, 0, count * size)
    ensures count >= 1 ==> (count < MakePage(items, count, size).totalPages <==> count * size < |items|)
  {
    if count > 0 {
      PagesAreAPrefix(items, size, count - 1);
      var start := (count - 1) * size;
      assert count * size == start + size;
      NextSlice(items, start, start + size);
      LastPage(|items|, size, count);
    }
  }

  lemma LastPage(total: nat, size: nat, count: nat)
    requires size > 0 && count >= 1
    ensures count < (total + size - 1) / size <==> count * size < total
  {
    var pages := (total + size - 1) / size;
    assert total + size - 1 == pages * size + (total + size - 1) % size;
    if count < pages {
      assert (pages - count - 1) * size >= 0;
      assert pages * size == (pages - count - 1) * size + count * size + size;
    } else {
      assert (count - pages) * size >= 0;
      assert count * size == (count - pages) * size + pages * size;
    }
  }
}
