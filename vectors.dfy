/**
 * The vector store (`VectorStore`): one table from chunk ids `"file_path:chunk_index"` to
 * the JSON of a `VectorEntry`. The table is a `map` the store updates in place; a stored
 * value that does not decode is `Undecodable`. Similarities are real numbers computed by
 * `Cosine`, whose two guard cases are modelled and whose arithmetic is a parameter.
 *
 * Table iteration visits the keys in an order the model leaves open (each loop takes any
 * remaining key); every contract holds whatever that order is.
 */
module Vectors {
  import opened Wrappers
  import opened Text
  import opened TopK

  /** `VectorEntry`. */
  datatype VectorEntry = VectorEntry(
    filePath: string,
    chunkIndex: nat,
    embedding: seq<real>,
    text: string,
    context: string,
    startLine: nat,
    endLine: nat)

  /** A stored value: an entry, or JSON that does not decode as one. */
  datatype Slot = Entry(entry: VectorEntry) | Undecodable

  /** `chunk_id`: the file path, a colon and the chunk index in decimal. */
  function ChunkId(e: VectorEntry): string {
    e.filePath + ":" + NatToString(e.chunkIndex)
  }

  /** The file an id belongs to, as scoped search and the file count read it: the text before the first colon. */
  function FilePart(key: string): string {
    BeforeFirst(key, ':')
  }

  // ----------------------------------------------------------------- similarity

  /** The squared norm, whose square root `cosine_similarity` compares with zero. */
  function SumSquares(a: seq<real>): real {
    if a == [] then 0.0 else a[0] * a[0] + SumSquares(a[1..])
  }

  /**
   * `cosine_similarity`: 0 for vectors of different lengths or a zero vector; otherwise
   * `ratio`, the dot product over the product of the norms, which the model leaves abstract.
   */
  function Cosine(a: seq<real>, b: seq<real>, ratio: (seq<real>, seq<real>) -> real): real {
    if |a| != |b| then 0.0
    else if SumSquares(a) == 0.0 || SumSquares(b) == 0.0 then 0.0
    else ratio(a, b)
  }

  /** The zero vector has a zero norm. */
  lemma {:induction false} ZeroVectorNorm(a: seq<real>)
    requires forall i :: 0 <= i < |a| ==> a[i] == 0.0
    ensures SumSquares(a) == 0.0
    decreases |a|
  {
    if a != [] {
      assert forall i :: 0 <= i < |a[1..]| ==> a[1..][i] == a[i + 1];
      ZeroVectorNorm(a[1..]);
    }
  }

  /** The guard cases: a length mismatch or a zero vector scores 0, whatever the arithmetic. */
  lemma CosineGuards(a: seq<real>, b: seq<real>, ratio: (seq<real>, seq<real>) -> real)
    ensures |a| != |b| ==> Cosine(a, b, ratio) == 0.0
    ensures (forall i :: 0 <= i < |a| ==> a[i] == 0.0) ==> Cosine(a, b, ratio) == 0.0
    ensures (forall i :: 0 <= i < |b| ==> b[i] == 0.0) ==> Cosine(a, b, ratio) == 0.0
    ensures |a| == |b| && SumSquares(a) != 0.0 && SumSquares(b) != 0.0 ==> Cosine(a, b, ratio) == ratio(a, b)
  {
    if forall i :: 0 <= i < |a| ==> a[i] == 0.0 {
      ZeroVectorNorm(a);
    }
    if forall i :: 0 <= i < |b| ==> b[i] == 0.0 {
      ZeroVectorNorm(b);
    }
  }

  // -------------------------------------------------------- specification of the table

  /** `get`: absent is `None`, an entry decodes, anything else is a database error. */
  function EntryIn(table: map<string, Slot>, id: string): (r: Result<Option<VectorEntry>>)
    ensures r == Ok(None) <==> id !in table
    ensures r.Err? <==> id in table && table[id].Undecodable?
  {
    if id !in table then Ok(None)
    else match table[id]
      case Entry(e) => Ok(Some(e))
      case Undecodable => Err(Database)
  }

  /** The keys `remove_file` deletes: those starting with the prefix. */
  ghost function Matching(table: map<string, Slot>, prefix: string): set<string> {
    set k | k in table && StartsWith(k, prefix)
  }

  /** The table once the keys starting with the prefix are gone. */
  ghost function Without(table: map<string, Slot>, prefix: string): map<string, Slot> {
    map k | k in table && !StartsWith(k, prefix) :: table[k]
  }

  /** The files `get_file_count` sees: the parts before the first colon of every key. */
  ghost function FileParts(table: map<string, Slot>): set<string> {
    set k | k in table :: FilePart(k)
  }

  /** Every decodable entry as a search candidate, with its similarity to the query. */
  ghost function Pool(table: map<string, Slot>, query: seq<real>, ratio: (seq<real>, seq<real>) -> real)
    : (r: map<string, Scored<VectorEntry>>)
    ensures Keyed(r)
  {
    map k | k in table && table[k].Entry? :: Scored(k, table[k].entry, Cosine(query, table[k].entry.embedding, ratio))
  }

  /** The candidates of a scoped search: those whose key's file part is allowed. */
  ghost function ScopedPool(table: map<string, Slot>, query: seq<real>, ratio: (seq<real>, seq<real>) -> real,
                            allowed: set<string>): (r: map<string, Scored<VectorEntry>>)
    ensures Keyed(r)
  {
    map k | k in table && table[k].Entry? && FilePart(k) in allowed ::
      Scored(k, table[k].entry, Cosine(query, table[k].entry.embedding, ratio))
  }

  /** The entries under the prefix, ordered by ascending chunk index through a negated score. */
  ghost function FilePool(table: map<string, Slot>, prefix: string): (r: map<string, Scored<VectorEntry>>)
    ensures Keyed(r)
  {
    map k | k in table && table[k].Entry? && StartsWith(k, prefix) ::
      Scored(k, table[k].entry, -(table[k].entry.chunkIndex as real))
  }

  /** The `(entry, similarity)` pairs a search returns. */
  function Hits(h: seq<Scored<VectorEntry>>): (r: seq<(VectorEntry, real)>)
    ensures |r| == |h| && forall i :: 0 <= i < |h| ==> r[i] == (h[i].item, h[i].score)
  {
    seq(|h|, i requires 0 <= i < |h| => (h[i].item, h[i].score))
  }

  function Items(h: seq<Scored<VectorEntry>>): (r: seq<VectorEntry>)
    ensures |r| == |h| && forall i :: 0 <= i < |h| ==> r[i] == h[i].item
  {
    seq(|h|, i requires 0 <= i < |h| => h[i].item)
  }

  function Min(a: nat, b: nat): nat { if a <= b then a else b }

  /** The keys in `keys` that start with the prefix, in the same order. */
  function Under(keys: seq<string>, prefix: string): seq<string>
    decreases |keys|
  {
    if keys == [] then []
    else
      var init, key := keys[..|keys| - 1], keys[|keys| - 1];
      if StartsWith(key, prefix) then Under(init, prefix) + [key] else Under(init, prefix)
  }

  /** The keys collected are those of the table that start with the prefix, each once. */
  lemma {:induction false} UnderElems(keys: seq<string>, prefix: string)
    requires Once(keys)
    ensures Elems(Under(keys, prefix)) == set k | k in Elems(keys) && StartsWith(k, prefix)
    ensures Once(Under(keys, prefix))
    decreases |keys|
  {
    if keys == [] {
      assert Elems(keys) == {};
    } else {
      var init, key := keys[..|keys| - 1], keys[|keys| - 1];
      assert keys == init + [key];
      assert forall i :: 0 <= i < |init| ==> init[i] == keys[i];
      Visit(init, key);
      UnderElems(init, prefix);
      if StartsWith(key, prefix) {
        Visit(Under(init, prefix), key);
      }
    }
  }

  /** Deleting the matching keys leaves the table without them. */
  lemma WithoutIsMinus(table: map<string, Slot>, prefix: string)
    ensures Without(table, prefix) == table - Matching(table, prefix)
  {
  }

  /** The file parts of the keys in `keys`. */
  ghost function FilesOf(keys: seq<string>): set<string>
    decreases |keys|
  {
    if keys == [] then {} else FilesOf(keys[..|keys| - 1]) + {FilePart(keys[|keys| - 1])}
  }

  lemma {:induction false} FilesOfElems(keys: seq<string>)
    ensures FilesOf(keys) == set k | k in Elems(keys) :: FilePart(k)
    decreases |keys|
  {
    if keys == [] {
      assert Elems(keys) == {};
    } else {
      var init, key := keys[..|keys| - 1], keys[|keys| - 1];
      assert keys == init + [key];
      ElemsSnoc(init, key);
      FilesOfElems(init);
    }
  }

  /** With a bound above the pool's size, no offer of a scan drops anything. */
  lemma NothingDropped<T>(pool: map<string, Scored<T>>, keys: seq<string>, i: nat)
    requires Keyed(pool) && Once(keys) && i < |keys|
    ensures keys[i] in pool ==>
      Offer(Scan(pool, keys[..i], |pool| + 1), pool[keys[i]], |pool| + 1) == Push(Scan(pool, keys[..i], |pool| + 1), pool[keys[i]])
  {
    OncePrefix(keys, i);
    ScanIsTopK(pool, keys[..i], |pool| + 1);
    RestrictCard(pool, Elems(keys[..i]));
    if keys[i] in pool {
      OfferUnderLimit(Scan(pool, keys[..i], |pool| + 1), Restrict(pool, Elems(keys[..i])), pool[keys[i]], |pool| + 1);
    }
  }

  /** A full selection from the file's pool holds each of its entries once, by ascending chunk index. */
  lemma FileOrder(h: seq<Scored<VectorEntry>>, table: map<string, Slot>, prefix: string)
    requires IsTopK(h, FilePool(table, prefix), |FilePool(table, prefix)| + 1)
    ensures DistinctKeys(h)
    ensures KeySet(h) == set k | k in table && table[k].Entry? && StartsWith(k, prefix)
    ensures forall i :: 0 <= i < |h| ==> h[i].key in table && table[h[i].key] == Entry(h[i].item)
    ensures forall i, j :: 0 <= i < j < |h| ==> h[i].item.chunkIndex <= h[j].item.chunkIndex
  {
    var pool := FilePool(table, prefix);
    TopKSize(h, pool, |pool| + 1);
    assert KeySet(h) == pool.Keys;
    forall i | 0 <= i < |h|
      ensures h[i].key in table && table[h[i].key] == Entry(h[i].item)
      ensures h[i].score == -(h[i].item.chunkIndex as real)
    {
      assert h[i] == pool[h[i].key];
    }
  }

  /** One step of `search`'s scan: a decodable entry is pushed and the heap cut back to the limit. */
  method SearchVisit(heap: seq<Scored<VectorEntry>>, key: string, slot: Slot, query: seq<real>, limit: nat,
                     ratio: (seq<real>, seq<real>) -> real, ghost table: map<string, Slot>)
    returns (h: seq<Scored<VectorEntry>>)
    requires key in table && table[key] == slot
    ensures h == if key in Pool(table, query, ratio) then Offer(heap, Pool(table, query, ratio)[key], limit) else heap
  {
    h := heap;
    match slot {
      case Entry(entry) =>
        var similarity := Cosine(query, entry.embedding, ratio);
        h := Push(h, Scored(key, entry, similarity));
        if |h| > limit {
          h := h[..|h| - 1];
        }
      case Undecodable =>
    }
  }

  /** One step of `search_scoped`'s scan: the same, for keys whose file part is allowed. */
  method ScopedVisit(heap: seq<Scored<VectorEntry>>, key: string, slot: Slot, query: seq<real>, limit: nat,
                     allowed: set<string>, ratio: (seq<real>, seq<real>) -> real, ghost table: map<string, Slot>)
    returns (h: seq<Scored<VectorEntry>>)
    requires key in table && table[key] == slot
    ensures h == if key in ScopedPool(table, query, ratio, allowed)
                 then Offer(heap, ScopedPool(table, query, ratio, allowed)[key], limit) else heap
  {
    h := heap;
    var filePart := FilePart(key);
    if filePart in allowed {
      match slot {
        case Entry(entry) =>
          var similarity := Cosine(query, entry.embedding, ratio);
          h := Push(h, Scored(key, entry, similarity));
          if |h| > limit {
            h := h[..|h| - 1];
          }
        case Undecodable =>
      }
    }
  }

  /** One step of `get_file_vectors`' scan: a decodable entry under the prefix goes in at its place. */
  method FileVisit(sorted: seq<Scored<VectorEntry>>, key: string, slot: Slot, prefix: string, ghost table: map<string, Slot>)
    returns (h: seq<Scored<VectorEntry>>)
    requires key in table && table[key] == slot
    ensures h == if key in FilePool(table, prefix) then Push(sorted, FilePool(table, prefix)[key]) else sorted
  {
    h := sorted;
    if StartsWith(key, prefix) {
      match slot {
        case Entry(entry) =>
          h := Push(h, Scored(key, entry, -(entry.chunkIndex as real)));
        case Undecodable =>
      }
    }
  }

  class VectorStore {
    var table: map<string, Slot>

    /** `open` on a database holding `existing` (empty for a new database). */
    constructor(existing: map<string, Slot>)
      ensures table == existing
    {
      table := existing;
    }

    /** `insert`: an upsert under the entry's chunk id. */
    method Insert(entry: VectorEntry)
      modifies this
      ensures table == old(table)[ChunkId(entry) := Entry(entry)]
    {
      var chunkId := ChunkId(entry);
      table := table[chunkId := Entry(entry)];
    }

    method Get(chunkId: string) returns (r: Result<Option<VectorEntry>>)
      ensures r == EntryIn(table, chunkId)
    {
      if chunkId !in table {
        return Ok(None);
      }
      match table[chunkId] {
        case Entry(e) => r := Ok(Some(e));
        case Undecodable => r := Err(Database);
      }
    }

    /**
     * `remove_file`: collects the keys starting with `path + ":"`, then deletes them, and
     * returns how many there were. Nothing else in the table changes.
     */
    method RemoveFile(path: string) returns (count: nat)
      modifies this
      ensures table == Without(old(table), path + ":")
      ensures count == |Matching(old(table), path + ":")|
    {
      var prefix := path + ":";
      var keys := TableKeys(table);
      var toRemove: seq<string> := [];
      for i := 0 to |keys|
        invariant toRemove == Under(keys[..i], prefix)
      {
        if StartsWith(keys[i], prefix) {
          toRemove := toRemove + [keys[i]];
        }
        assert keys[..i + 1] == keys[..i] + [keys[i]];
      }
      assert keys[..|keys|] == keys;
      UnderElems(keys, prefix);
      assert Elems(toRemove) == Matching(table, prefix);
      OnceCard(toRemove);
      WithoutIsMinus(table, prefix);
      if |toRemove| == 0 {
        assert Matching(table, prefix) == {};
        return 0;
      }
      ghost var before := table;
      for n := 0 to |toRemove|
        invariant table == before - Elems(toRemove[..n])
      {
        ElemsSnoc(toRemove[..n], toRemove[n]);
        assert toRemove[..n + 1] == toRemove[..n] + [toRemove[n]];
        table := table - {toRemove[n]};
      }
      assert toRemove[..|toRemove|] == toRemove;
      count := |toRemove|;
    }

    /**
     * `search`: the `limit` decodable entries most similar to the query (all of them when
     * there are fewer), best first; no entry left out scores more than one returned.
     * `picked` names the keys the results came from.
     */
    method Search(query: seq<real>, limit: nat, ratio: (seq<real>, seq<real>) -> real)
      returns (results: seq<(VectorEntry, real)>, ghost picked: seq<Scored<VectorEntry>>)
      ensures IsTopK(picked, Pool(table, query, ratio), limit)
      ensures results == Hits(picked)
      ensures |results| == Min(limit, |Pool(table, query, ratio)|)
    {
      ghost var pool := Pool(table, query, ratio);
      var keys := TableKeys(table);
      var heap: seq<Scored<VectorEntry>> := [];
      for i := 0 to |keys|
        invariant heap == Scan(pool, keys[..i], limit)
      {
        var key := keys[i];
        heap := SearchVisit(heap, key, table[key], query, limit, ratio, table);
        ScanSnoc(pool, keys[..i], key, limit);
        assert keys[..i + 1] == keys[..i] + [key];
      }
      assert keys[..|keys|] == keys;
      ScanIsTopK(pool, keys, limit);
      RestrictAll(pool, Elems(keys));
      TopKSize(heap, pool, limit);
      picked := heap;
      results := Hits(heap);
    }

    /** `search_scoped`: the same selection among the entries whose key's file part is allowed. */
    method SearchScoped(query: seq<real>, limit: nat, allowed: set<string>, ratio: (seq<real>, seq<real>) -> real)
      returns (results: seq<(VectorEntry, real)>, ghost picked: seq<Scored<VectorEntry>>)
      ensures IsTopK(picked, ScopedPool(table, query, ratio, allowed), limit)
      ensures results == Hits(picked)
      ensures |results| == Min(limit, |ScopedPool(table, query, ratio, allowed)|)
    {
      ghost var pool := ScopedPool(table, query, ratio, allowed);
      var keys := TableKeys(table);
      var heap: seq<Scored<VectorEntry>> := [];
      for i := 0 to |keys|
        invariant heap == Scan(pool, keys[..i], limit)
      {
        var key := keys[i];
        heap := ScopedVisit(heap, key, table[key], query, limit, allowed, ratio, table);
        ScanSnoc(pool, keys[..i], key, limit);
        assert keys[..i + 1] == keys[..i] + [key];
      }
      assert keys[..|keys|] == keys;
      ScanIsTopK(pool, keys, limit);
      RestrictAll(pool, Elems(keys));
      TopKSize(heap, pool, limit);
      picked := heap;
      results := Hits(heap);
    }

    /**
     * `get_file_vectors`: every decodable entry whose key starts with `path + ":"`, once
     * each, in ascending chunk-index order. Each entry is inserted at its place as the scan
     * finds it, which is where a stable sort of the scan order puts it. `found` names the
     * keys the entries came from.
     */
    method GetFileVectors(path: string) returns (results: seq<VectorEntry>, ghost found: seq<Scored<VectorEntry>>)
      ensures results == Items(found)
      ensures DistinctKeys(found)
      ensures KeySet(found) == set k | k in table && table[k].Entry? && StartsWith(k, path + ":")
      ensures forall i :: 0 <= i < |found| ==> found[i].key in table && table[found[i].key] == Entry(results[i])
      ensures forall i, j :: 0 <= i < j < |results| ==> results[i].chunkIndex <= results[j].chunkIndex
    {
      var prefix := path + ":";
      ghost var pool := FilePool(table, prefix);
      ghost var bound := |pool| + 1;
      var keys := TableKeys(table);
      var sorted: seq<Scored<VectorEntry>> := [];
      for i := 0 to |keys|
        invariant sorted == Scan(pool, keys[..i], bound)
      {
        var key := keys[i];
        NothingDropped(pool, keys, i);
        sorted := FileVisit(sorted, key, table[key], prefix, table);
        ScanSnoc(pool, keys[..i], key, bound);
        assert keys[..i + 1] == keys[..i] + [key];
      }
      assert keys[..|keys|] == keys;
      ScanIsTopK(pool, keys, bound);
      RestrictAll(pool, Elems(keys));
      FileOrder(sorted, table, prefix);
      found := sorted;
      results := Items(sorted);
    }

    /** `get_file_count`: the number of distinct file parts among all keys. */
    method GetFileCount() returns (n: nat)
      ensures n == |FileParts(table)|
    {
      var keys := TableKeys(table);
      var uniqueFiles: set<string> := {};
      for i := 0 to |keys|
        invariant uniqueFiles == FilesOf(keys[..i])
      {
        uniqueFiles := uniqueFiles + {FilePart(keys[i])};
        assert keys[..i + 1] == keys[..i] + [keys[i]];
      }
      assert keys[..|keys|] == keys;
      FilesOfElems(keys);
      n := |uniqueFiles|;
    }
  }

  // ------------------------------------------------------------------ properties

  /** For a path without a colon, the id starts with `path:` and its file part is the path. */
  lemma ChunkIdParts(e: VectorEntry)
    requires ':' !in e.filePath
    ensures StartsWith(ChunkId(e), e.filePath + ":")
    ensures FilePart(ChunkId(e)) == e.filePath
  {
    assert ChunkId(e) == e.filePath + [':'] + NatToString(e.chunkIndex);
    BeforeFirstAt(e.filePath, ':', NatToString(e.chunkIndex));
  }

  /** Chunk ids of colon-free paths name one chunk: equal ids mean the same file and index. */
  lemma ChunkIdInjective(a: VectorEntry, b: VectorEntry)
    requires ':' !in a.filePath && ':' !in b.filePath
    requires ChunkId(a) == ChunkId(b)
    ensures a.filePath == b.filePath && a.chunkIndex == b.chunkIndex
  {
    ChunkIdParts(a);
    ChunkIdParts(b);
    var n := |a.filePath| + 1;
    assert ChunkId(a)[n..] == NatToString(a.chunkIndex);
    assert ChunkId(b)[n..] == NatToString(b.chunkIndex);
    NatToStringInjective(a.chunkIndex, b.chunkIndex);
  }

  /**
   * A path holding a colon: its chunks start with the prefix of the path's first segment,
   * so `remove_file` of that segment deletes them, and the file part scoped search and the
   * file count see is the segment, not the path.
   */
  lemma ColonInPath(e: VectorEntry)
    requires e.filePath == "notes:old.md"
    ensures StartsWith(ChunkId(e), "notes" + ":")
    ensures FilePart(ChunkId(e)) == "notes"
  {
    assert ChunkId(e) == "notes" + [':'] + ("old.md:" + NatToString(e.chunkIndex));
    BeforeFirstAt("notes", ':', "old.md:" + NatToString(e.chunkIndex));
  }

  /** An inserted entry reads back, and inserting touches no other id. */
  lemma InsertThenGet(table: map<string, Slot>, e: VectorEntry, other: string)
    requires other != ChunkId(e)
    ensures EntryIn(table[ChunkId(e) := Entry(e)], ChunkId(e)) == Ok(Some(e))
    ensures EntryIn(table[ChunkId(e) := Entry(e)], other) == EntryIn(table, other)
  {
  }

  /** `remove_file` of an entry's path deletes it and keeps every key outside the prefix. */
  lemma RemoveDeletesEntry(table: map<string, Slot>, e: VectorEntry, other: string)
    requires other in table && !StartsWith(other, e.filePath + ":")
    ensures EntryIn(Without(table[ChunkId(e) := Entry(e)], e.filePath + ":"), ChunkId(e)) == Ok(None)
    ensures other in Without(table, e.filePath + ":") && Without(table, e.filePath + ":")[other] == table[other]
  {
    var prefix := e.filePath + ":";
    assert ChunkId(e) == prefix + NatToString(e.chunkIndex);
    assert ChunkId(e)[..|prefix|] == prefix;
  }

  /**
   * After `remove_file` of a colon-free path that is not itself a key, the file count sees
   * every file it saw before except that one.
   */
  lemma FileCountAfterRemove(table: map<string, Slot>, p: string)
    requires ':' !in p && p !in table
    ensures FileParts(Without(table, p + ":")) == FileParts(table) - {p}
  {
    forall k | k in table && FilePart(k) == p
      ensures StartsWith(k, p + ":")
    {
      assert k != p;
      assert k[|p|] == ':';
      assert k[..|p| + 1] == p + ":";
    }
    forall k | k in table && StartsWith(k, p + ":")
      ensures FilePart(k) == p
    {
      assert k == p + [':'] + k[|p| + 1..];
      BeforeFirstAt(p, ':', k[|p| + 1..]);
    }
  }

  /** What a search returns: entries of the table scored by `Cosine`, best first. */
  lemma SearchHits(h: seq<Scored<VectorEntry>>, table: map<string, Slot>, query: seq<real>,
                   ratio: (seq<real>, seq<real>) -> real, limit: nat)
    requires IsTopK(h, Pool(table, query, ratio), limit)
    ensures forall i :: 0 <= i < |h| ==> h[i].key in table && table[h[i].key] == Entry(Hits(h)[i].0)
    ensures forall i :: 0 <= i < |h| ==> Hits(h)[i].1 == Cosine(query, Hits(h)[i].0.embedding, ratio)
    ensures forall i, j :: 0 <= i < j < |h| ==> Hits(h)[i].1 >= Hits(h)[j].1
  {
    var pool := Pool(table, query, ratio);
    assert forall i :: 0 <= i < |h| ==> h[i] == pool[h[i].key];
  }

  /** A scoped search returns only entries whose key's file part is allowed. */
  lemma ScopedHits(h: seq<Scored<VectorEntry>>, table: map<string, Slot>, query: seq<real>,
                   ratio: (seq<real>, seq<real>) -> real, allowed: set<string>, limit: nat)
    requires IsTopK(h, ScopedPool(table, query, ratio, allowed), limit)
    ensures forall i :: 0 <= i < |h| ==> FilePart(h[i].key) in allowed && h[i].key in table
    ensures forall i :: 0 <= i < |h| ==> Hits(h)[i].1 == Cosine(query, Hits(h)[i].0.embedding, ratio)
  {
    var pool := ScopedPool(table, query, ratio, allowed);
    assert forall i :: 0 <= i < |h| ==> h[i] == pool[h[i].key];
  }

  /**
   * An empty store gives no results, and so does a scoped search with nothing allowed: its
   * pool is that of the empty store.
   */
  lemma NothingToFind(h: seq<Scored<VectorEntry>>, table: map<string, Slot>, query: seq<real>,
                      ratio: (seq<real>, seq<real>) -> real, limit: nat)
    requires IsTopK(h, Pool(map[], query, ratio), limit)
    ensures h == []
    ensures ScopedPool(table, query, ratio, {}) == Pool(map[], query, ratio)
  {
    assert Pool(map[], query, ratio) == map[];
    TopKSize(h, Pool(map[], query, ratio), limit);
  }
}
