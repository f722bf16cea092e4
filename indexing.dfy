/**
 * What the two indexing loops (the watcher's batch and the TUI's pass) share: the outside
 * world they consult, the entries they build from a parsed note, and the run of inserts
 * that stores those entries.
 */
module Indexing {
  import opened Wrappers
  import opened Text
  import opened Frontmatter
  import opened Chunking
  import opened Parser
  import opened State
  import opened Vectors

  /** `strip_prefix(root)` followed by `to_str`: outside the root, not UTF-8, or a relative path. */
  datatype Rel = Outside | NotUnicode | Inside(path: string)

  /**
   * The world as the indexing loops see it, one oracle per call into code the model does
   * not contain:
   *   present     `Path::exists`
   *   relative    the path relative to the root
   *   modified    `get_file_modified_time` (seconds since the epoch, or an I/O error)
   *   hash        `calculate_file_hash`
   *   read        reading the file as UTF-8 text
   *   yaml, lex   the YAML parser and the Markdown tokenizer of `parse_markdown`
   *   embed       `embed_passages` of the embedding model
   *   insertFails whether `insert` of an entry reports a storage error (the entry is then not stored)
   *   now         the clock reading recorded as `indexed_at`
   */
  datatype Env = Env(
    present: string -> bool,
    relative: string -> Rel,
    modified: string -> Result<nat>,
    hash: string -> Result<string>,
    read: string -> Option<string>,
    yaml: string -> Option<Yaml>,
    lex: string -> seq<Event>,
    embed: seq<string> -> Result<seq<seq<real>>>,
    insertFails: VectorEntry -> bool,
    now: nat)

  /** The contents of the two stores: the file-state table and the vector table. */
  datatype Stores = Stores(state: map<string, Stored>, vectors: map<string, Slot>)

  /** The chunks `parse_markdown_file` yields for the file, or `None` when it fails. */
  function ChunksOf(env: Env, path: string): Option<seq<TextChunk>> {
    match env.read(path)
    case None => None
    case Some(content) => Some(StructureOf(env.lex(ExtractFrontmatter(content).1)).chunks)
  }

  /** `parse_markdown_file` through the parser model, read back as `ChunksOf`. */
  method ParseChunks(env: Env, path: string) returns (r: Option<seq<TextChunk>>)
    ensures r == ChunksOf(env, path)
  {
    var doc := ParseMarkdownFile(path, env.read, env.yaml, env.lex);
    if doc.Err? {
      return None;
    }
    r := Some(doc.value.chunks);
  }

  /** The chunks of a parsed note are numbered 0, 1, 2, ... in order. */
  lemma ChunksNumbered(env: Env, path: string)
    requires ChunksOf(env, path).Some?
    ensures ChunksOk(ChunksOf(env, path).value, 0)
  {
    StructureOk(env.lex(ExtractFrontmatter(env.read(path).value).1));
  }

  /** `VectorEntry::new` for a chunk of the file at `p` and its embedding. */
  function EntryOf(p: string, c: TextChunk, v: seq<real>): VectorEntry {
    VectorEntry(p, c.index, v, c.text, c.context, c.startLine, c.endLine)
  }

  /** The entries of `chunks.zip(embeddings)`: as many as the shorter of the two. */
  function Entries(p: string, chunks: seq<TextChunk>, embs: seq<seq<real>>): (r: seq<VectorEntry>)
    ensures |r| == Vectors.Min(|chunks|, |embs|)
  {
    seq(Vectors.Min(|chunks|, |embs|), i requires 0 <= i < Vectors.Min(|chunks|, |embs|) => EntryOf(p, chunks[i], embs[i]))
  }

  /** The table after inserting `es` in order, an insert that `fails` leaving the table as it was. */
  ghost function Inserted(table: map<string, Slot>, es: seq<VectorEntry>, fails: VectorEntry -> bool): map<string, Slot>
    decreases |es|
  {
    if es == [] then table
    else
      var t := Inserted(table, es[..|es| - 1], fails);
      var e := es[|es| - 1];
      if fails(e) then t else t[ChunkId(e) := Entry(e)]
  }

  /** The chunk ids of `es`. */
  ghost function Ids(es: seq<VectorEntry>): set<string> {
    set i | 0 <= i < |es| :: ChunkId(es[i])
  }

  /** No two of `es` have the same chunk id. */
  ghost predicate DistinctIds(es: seq<VectorEntry>) {
    forall i, j :: 0 <= i < j < |es| ==> ChunkId(es[i]) != ChunkId(es[j])
  }

  /** The insert loop of both indexing paths; a failed insert is reported and skipped. */
  method InsertAll(store: VectorStore, es: seq<VectorEntry>, fails: VectorEntry -> bool)
    modifies store
    ensures store.table == Inserted(old(store.table), es, fails)
  {
    for i := 0 to |es|
      invariant store.table == Inserted(old(store.table), es[..i], fails)
    {
      assert es[..i + 1][..i] == es[..i];
      if !fails(es[i]) {
        store.Insert(es[i]);
      }
    }
    assert es[..|es|] == es;
  }

  // ------------------------------------------------------------------ properties

  /** A key that none of the entries has keeps its slot, or stays absent. */
  lemma {:induction false} InsertedKeeps(table: map<string, Slot>, es: seq<VectorEntry>, fails: VectorEntry -> bool, k: string)
    requires k !in Ids(es)
    ensures k in Inserted(table, es, fails) <==> k in table
    ensures k in table ==> Inserted(table, es, fails)[k] == table[k]
    decreases |es|
  {
    if es != [] {
      var front := es[..|es| - 1];
      assert Ids(front) <= Ids(es) by {
        forall i | 0 <= i < |front| ensures ChunkId(front[i]) in Ids(es) { assert front[i] == es[i]; }
      }
      InsertedKeeps(table, front, fails, k);
      assert ChunkId(es[|es| - 1]) in Ids(es);
    }
  }

  /** With distinct ids, every entry whose insert succeeds is stored under its own id. */
  lemma {:induction false} InsertedHas(table: map<string, Slot>, es: seq<VectorEntry>, fails: VectorEntry -> bool, i: nat)
    requires DistinctIds(es) && i < |es| && !fails(es[i])
    ensures ChunkId(es[i]) in Inserted(table, es, fails)
    ensures Inserted(table, es, fails)[ChunkId(es[i])] == Entry(es[i])
    decreases |es|
  {
    var front := es[..|es| - 1];
    if i < |es| - 1 {
      assert front[i] == es[i];
      InsertedHas(table, front, fails, i);
    }
  }

  /**
   * Every key of the table after the inserts either holds an entry whose insert succeeded
   * under that id, or holds what it held before.
   */
  lemma {:induction false} InsertedFrom(table: map<string, Slot>, es: seq<VectorEntry>, fails: VectorEntry -> bool, k: string)
    requires k in Inserted(table, es, fails)
    ensures || (exists i :: 0 <= i < |es| && k == ChunkId(es[i]) && !fails(es[i]) &&
                            Inserted(table, es, fails)[k] == Entry(es[i]))
            || (k in table && Inserted(table, es, fails)[k] == table[k])
    decreases |es|
  {
    if es != [] {
      var front := es[..|es| - 1];
      var last := es[|es| - 1];
      if k == ChunkId(last) && !fails(last) {
        assert k == ChunkId(es[|es| - 1]);
      } else {
        InsertedFrom(table, front, fails, k);
        if j :| 0 <= j < |front| && k == ChunkId(front[j]) && !fails(front[j]) &&
               Inserted(table, front, fails)[k] == Entry(front[j]) {
          assert front[j] == es[j];
        }
      }
    }
  }

  /** Entries of one file built from consecutively numbered chunks have distinct ids. */
  lemma EntriesDistinct(p: string, chunks: seq<TextChunk>, embs: seq<seq<real>>)
    requires ChunksOk(chunks, 0)
    ensures DistinctIds(Entries(p, chunks, embs))
  {
    var es := Entries(p, chunks, embs);
    forall i, j | 0 <= i < j < |es| ensures ChunkId(es[i]) != ChunkId(es[j]) {
      if ChunkId(es[i]) == ChunkId(es[j]) {
        var a, b := NatToString(i), NatToString(j);
        assert es[i].chunkIndex == i && es[j].chunkIndex == j;
        assert (p + ":" + a)[|p| + 1..] == a;
        assert (p + ":" + b)[|p| + 1..] == b;
        NatToStringInjective(i, j);
      }
    }
  }

  /** Every id of an entry of file `p` starts with `p:`. */
  lemma EntriesUnder(p: string, chunks: seq<TextChunk>, embs: seq<seq<real>>)
    ensures forall k :: k in Ids(Entries(p, chunks, embs)) ==> StartsWith(k, p + ":")
  {
    var es := Entries(p, chunks, embs);
    forall k | k in Ids(es) ensures StartsWith(k, p + ":") {
      var i :| 0 <= i < |es| && k == ChunkId(es[i]);
      assert k == p + ":" + NatToString(chunks[i].index);
    }
  }
}
