/** Migration 0028 over the tables: every memory gets exactly one embedding row, and the downgrade takes the new
    ones away again. */
module KeywordMigration {
  import opened Wrappers
  import opened FreshIds
  import opened KeywordCache

  datatype Memory = Memory(id: string, summary: Option<string>, content: Option<string>)

  /** An embedding row without the column that the migration adds. */
  datatype Embedding = Embedding(
    chunk: string, provider: Option<string>, model: Option<string>, dimensions: Option<int>,
    embedding: Option<seq<real>>, usage: string, meta: string, createdAt: int, updatedAt: int)

  datatype Cached = Cached(row: Embedding, keywords: seq<Weighted>)

  /** A row as the migration inserts it: no provider, model, dimensions or vector. */
  predicate IsBlankRow(e: Embedding) {
    e.provider.None? && e.model.None? && e.dimensions.None? && e.embedding.None?
  }

  ghost predicate UniqueChunks(rows: map<string, Embedding>) {
    forall i, j | i in rows && j in rows && rows[i].chunk == rows[j].chunk :: i == j
  }

  ghost predicate DistinctIds(memories: seq<Memory>) {
    forall i, j | 0 <= i < j < |memories| :: memories[i].id != memories[j].id
  }

  ghost predicate HasRow(rows: map<string, Embedding>, chunk: string) {
    exists id :: id in rows && rows[id].chunk == chunk
  }

  /** Old rows differ only in their keywords. */
  ghost predicate OldRowsKept(before: map<string, Embedding>, after: map<string, Cached>) {
    forall id | id in before :: id in after && after[id].row == before[id]
  }

  /** A new row is blank and belongs to a visited memory that had none. */
  ghost predicate NewRowsBlank(before: map<string, Embedding>, memories: seq<Memory>, n: nat, after: map<string, Cached>)
    requires n <= |memories|
  {
    forall id | id in after && id !in before ::
      IsBlankRow(after[id].row) && after[id].row.usage == after[id].row.meta == "{}" && !HasRow(before, after[id].row.chunk) && Names(memories[..n], after[id].row.chunk)
  }

  ghost predicate Names(memories: seq<Memory>, chunk: string) {
    exists i :: 0 <= i < |memories| && memories[i].id == chunk
  }

  /** A memory has a row holding this cache. */
  ghost predicate HasCache(after: map<string, Cached>, chunk: string, cache: seq<Weighted>) {
    exists id :: id in after && after[id].row.chunk == chunk && after[id].keywords == cache
  }

  ghost predicate OneRowPerChunk(after: map<string, Cached>) {
    forall i, j | i in after && j in after && after[i].row.chunk == after[j].row.chunk :: i == j
  }

  /** The table after as many memories as there are caches. */
  ghost predicate Visited(before: map<string, Embedding>, memories: seq<Memory>, caches: seq<seq<Weighted>>, after: map<string, Cached>) {
    && |caches| <= |memories|
    && OldRowsKept(before, after) && NewRowsBlank(before, memories, |caches|, after) && OneRowPerChunk(after)
    && forall i | 0 <= i < |caches| :: HasCache(after, memories[i].id, caches[i])
  }

  /** The caches are what `_build_keyword_cache` makes for the memories. */
  ghost predicate AreCaches(extract: string -> seq<Weighted>, round: real -> real, memories: seq<Memory>, caches: seq<seq<Weighted>>) {
    && |caches| <= |memories|
    && forall i | 0 <= i < |caches| :: IsCache(extract, round, memories[i].summary, memories[i].content, caches[i])
  }

  /** `downgrade`: delete the blank rows and drop the column. */
  function Downgrade(after: map<string, Cached>): map<string, Embedding> {
    map id | id in after && !IsBlankRow(after[id].row) :: after[id].row
  }

  /** Downgrading gives back the original rows exactly when none of them was blank; the old schema's non-null
      provider column made sure of that. */
  lemma RoundTripIffNothingWasBlank(before: map<string, Embedding>, memories: seq<Memory>,
                                    caches: seq<seq<Weighted>>, after: map<string, Cached>)
    requires Visited(before, memories, caches, after)
    ensures Downgrade(after) == before <==> forall id | id in before :: !IsBlankRow(before[id])
  {
    if forall id | id in before :: !IsBlankRow(before[id]) {
      forall id ensures id in Downgrade(after) <==> id in before {}
      assert Downgrade(after) == before;
    }
    if Downgrade(after) == before {
      forall id | id in before ensures !IsBlankRow(before[id]) {
        assert id in Downgrade(after);
      }
    }
  }

  /** Afterwards every memory has exactly one row, which holds its cache. */
  lemma OneRowPerMemory(before: map<string, Embedding>, memories: seq<Memory>, caches: seq<seq<Weighted>>,
                        after: map<string, Cached>, i: nat)
    requires Visited(before, memories, caches, after) && i < |caches|
    ensures exists id :: id in after && after[id].row.chunk == memories[i].id && after[id].keywords == caches[i]
    ensures forall id, other | id in after && other in after
      && after[id].row.chunk == memories[i].id == after[other].row.chunk :: id == other
  {
    assert HasCache(after, memories[i].id, caches[i]);
  }

  class Upgrade {
    const newId: nat -> string
    const now: int
    var drawn: nat
    var rows: map<string, Cached>

    /** The column has just been added, with an empty list as its default. */
    constructor (before: map<string, Embedding>, newId: nat -> string, now: int)
      ensures this.newId == newId && this.now == now && drawn == 0
      ensures rows == map id | id in before :: Cached(before[id], [])
    {
      this.newId, this.now, drawn := newId, now, 0;
      rows := map id | id in before :: Cached(before[id], []);
    }

    /** `existing_embedding_ids`: the row of every chunk that has one. */
    method ExistingIds(before: map<string, Embedding>) returns (existing: map<string, string>)
      requires UniqueChunks(before)
      ensures forall c :: c in existing <==> HasRow(before, c)
      ensures forall c | c in existing :: existing[c] in before && before[existing[c]].chunk == c
    {
      existing := map[];
      var todo := before.Keys;
      while todo != {}
        invariant todo <= before.Keys
        invariant forall c | c in existing :: existing[c] in before && existing[c] !in todo && before[existing[c]].chunk == c
        invariant forall id | id in before && id !in todo :: before[id].chunk in existing
      {
        var id :| id in todo;
        existing := existing[before[id].chunk := id];
        todo := todo - {id};
      }
    }

    /** The loop over the memories: update the keywords of a row, or insert a blank row. */
    method Run(before: map<string, Embedding>, memories: seq<Memory>, extract: string -> seq<Weighted>, round: real -> real)
      returns (ghost caches: seq<seq<Weighted>>)
      requires rows == map id | id in before :: Cached(before[id], [])
      requires UniqueChunks(before) && DistinctIds(memories) && "" !in before
      requires Unused(newId, drawn, rows)
      modifies `rows, `drawn
      ensures Visited(before, memories, caches, rows)
      ensures |caches| == |memories| && AreCaches(extract, round, memories, caches)
    {
      var existing := ExistingIds(before);
      caches := [];
      NothingVisited(before, memories);
      for n := 0 to |memories|
        invariant |caches| == n && AreCaches(extract, round, memories, caches)
        invariant Visited(before, memories, caches, rows) && Unused(newId, drawn, rows)
      {
        var m := memories[n];
        var keywords := BuildKeywordCache(m.summary, m.content, extract, round);
        StoreKeywords(before, memories, caches, Lookup(existing, m.id), m.id, keywords);
        OneMoreCache(extract, round, memories, caches, keywords);
        caches := caches + [keywords];
      }
    }

    /** Updates the keywords of the row found for the memory, or inserts a blank row. */
    method StoreKeywords(ghost before: map<string, Embedding>, ghost memories: seq<Memory>, ghost caches: seq<seq<Weighted>>,
                         found: Option<string>, chunk: string, keywords: seq<Weighted>)
      requires Visited(before, memories, caches, rows) && Unused(newId, drawn, rows)
      requires |caches| < |memories| && DistinctIds(memories) && memories[|caches|].id == chunk
      requires found.None? ==> !HasRow(before, chunk)
      requires found.Some? ==> found.value != "" && found.value in before && before[found.value].chunk == chunk
      modifies `rows, `drawn
      ensures Visited(before, memories, caches + [keywords], rows) && Unused(newId, drawn, rows)
    {
      if found.Some? && found.value != "" {
        UpdateKeepsVisited(before, memories, caches, rows, found.value, keywords);
        rows := rows[found.value := Cached(rows[found.value].row, keywords)];
      } else {
        InsertKeepsVisited(before, memories, caches, rows, newId(drawn), keywords, now);
        rows := rows[newId(drawn) := Cached(NewRow(chunk, now), keywords)];
        drawn := drawn + 1;
      }
    }
  }

  function NewRow(chunk: string, now: int): Embedding {
    Embedding(chunk, None, None, None, None, "{}", "{}", now, now)
  }

  lemma NothingVisited(before: map<string, Embedding>, memories: seq<Memory>)
    requires UniqueChunks(before)
    ensures Visited(before, memories, [], map id | id in before :: Cached(before[id], []))
  {
  }

  lemma OneMoreCache(extract: string -> seq<Weighted>, round: real -> real, memories: seq<Memory>,
                     caches: seq<seq<Weighted>>, cache: seq<Weighted>)
    requires |caches| < |memories| && AreCaches(extract, round, memories, caches)
    requires IsCache(extract, round, memories[|caches|].summary, memories[|caches|].content, cache)
    ensures AreCaches(extract, round, memories, caches + [cache])
  {
  }

  lemma UpdateKeepsVisited(before: map<string, Embedding>, memories: seq<Memory>, caches: seq<seq<Weighted>>,
                           was: map<string, Cached>, id: string, cache: seq<Weighted>)
    requires |caches| < |memories| && Visited(before, memories, caches, was) && DistinctIds(memories)
    requires id in before && before[id].chunk == memories[|caches|].id
    ensures Visited(before, memories, caches + [cache], was[id := Cached(was[id].row, cache)])
  {
    var after := was[id := Cached(was[id].row, cache)];
    assert after[id].row.chunk == memories[|caches|].id;
    OthersKeepTheirCache(memories, caches, was, after, cache);
    NamedBefore(memories, |caches|);
  }

  lemma InsertKeepsVisited(before: map<string, Embedding>, memories: seq<Memory>, caches: seq<seq<Weighted>>,
                           was: map<string, Cached>, id: string, cache: seq<Weighted>, now: int)
    requires |caches| < |memories| && Visited(before, memories, caches, was) && DistinctIds(memories)
    requires !HasRow(before, memories[|caches|].id) && id !in was
    ensures Visited(before, memories, caches + [cache], was[id := Cached(NewRow(memories[|caches|].id, now), cache)])
  {
    var n := |caches|;
    var after := was[id := Cached(NewRow(memories[n].id, now), cache)];
    assert after[id].row.chunk == memories[n].id;
    OthersKeepTheirCache(memories, caches, was, after, cache);
    NamedBefore(memories, n);
    forall j | j in was ensures was[j].row.chunk != memories[n].id {
      if j in before {
        assert before[j].chunk == was[j].row.chunk;
      } else {
        var i :| 0 <= i < n && memories[..n][i].id == was[j].row.chunk;
      }
    }
  }

  /** The rows of the memories visited before are untouched. */
  lemma OthersKeepTheirCache(memories: seq<Memory>, caches: seq<seq<Weighted>>, was: map<string, Cached>,
                             after: map<string, Cached>, cache: seq<Weighted>)
    requires |caches| < |memories| && DistinctIds(memories)
    requires forall id | id in was && was[id].row.chunk != memories[|caches|].id :: id in after && after[id] == was[id]
    requires forall i | 0 <= i < |caches| :: HasCache(was, memories[i].id, caches[i])
    requires HasCache(after, memories[|caches|].id, cache)
    ensures forall i | 0 <= i <= |caches| :: HasCache(after, memories[i].id, (caches + [cache])[i])
  {
    forall i | 0 <= i <= |caches| ensures HasCache(after, memories[i].id, (caches + [cache])[i]) {
      if i < |caches| {
        assert HasCache(was, memories[i].id, caches[i]);
        var id :| id in was && was[id].row.chunk == memories[i].id && was[id].keywords == caches[i];
        assert after[id] == was[id];
      }
    }
  }

  lemma NamedBefore(memories: seq<Memory>, n: nat)
    requires n < |memories|
    ensures forall c | Names(memories[..n], c) :: Names(memories[..n + 1], c)
    ensures Names(memories[..n + 1], memories[n].id)
  {
    forall c | Names(memories[..n], c) ensures Names(memories[..n + 1], c) {
      var i :| 0 <= i < n && memories[..n][i].id == c;
      assert memories[..n + 1][i].id == c;
    }
    assert memories[..n + 1][n].id == memories[n].id;
  }
}
