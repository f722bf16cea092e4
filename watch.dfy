/**
 * The watcher's batch processing (`FileWatcher::process_events_static` and
 * `index_file_static`): for every path of every debounced event, a note that was deleted is
 * dropped from both stores, and a changed note is re-indexed. The batch is specified by a
 * fold (`Batch`) of one step per path (`PathStep`) over the contents of the two stores;
 * the methods update the stores in place and are proved to follow that fold.
 */
module Watch {
  import opened Wrappers
  import opened Text
  import opened Chunking
  import opened Discovery
  import opened State
  import opened Vectors
  import opened Indexing

  /**
   * `index_file_static` on the vector table: the file's old entries are removed first; then,
   * when parsing and embedding succeed, one entry per chunk is inserted. The flag says
   * whether it succeeded.
   */
  ghost function Indexed(env: Env, path: string, p: string, vt: map<string, Slot>): (bool, map<string, Slot>) {
    var cleared := Without(vt, p + ":");
    match ChunksOf(env, path)
    case None => (false, cleared)
    case Some(chunks) =>
      match env.embed(Texts(chunks))
      case Err(_) => (false, cleared)
      case Ok(embs) => (true, Inserted(cleared, Entries(p, chunks, embs), env.insertFails))
  }

  /** Re-indexing a changed file: its state is recorded only when indexing succeeded. */
  ghost function Reindexed(env: Env, path: string, p: string, m: nat, h: string, s: Stores): Stores {
    var (ok, vt) := Indexed(env, path, p, s.vectors);
    Stores(if ok then s.state[p := Json(FileState(m, h, env.now))] else s.state, vt)
  }

  /** What one event path does to the stores. */
  ghost function PathStep(env: Env, path: string, s: Stores): Stores {
    if !IsNotesFile(path) then s
    else if !env.present(path) then
      match env.relative(path)
      case Inside(p) => Stores(s.state - {p}, Without(s.vectors, p + ":"))
      case _ => s
    else
      match env.relative(path)
      case Inside(p) =>
        (match (env.modified(path), env.hash(path))
         case (Ok(m), Ok(h)) =>
           if ChangedIn(s.state, p, m, h) == Ok(false) then s else Reindexed(env, path, p, m, h, s)
         case _ => s)
      case _ => s
  }

  /** The paths of a batch, event after event. */
  function Flatten(events: seq<seq<string>>): seq<string>
    decreases |events|
  {
    if events == [] then [] else Flatten(events[..|events| - 1]) + events[|events| - 1]
  }

  /** The stores after the paths, one step each, in order. */
  ghost function Batch(env: Env, paths: seq<string>, s: Stores): Stores
    decreases |paths|
  {
    if paths == [] then s else PathStep(env, paths[|paths| - 1], Batch(env, paths[..|paths| - 1], s))
  }

  /** `index_file_static`: a parse failure is an I/O error, an embedding failure is passed on. */
  method IndexFile(env: Env, path: string, p: string, vectors: VectorStore) returns (r: Result<()>)
    modifies vectors
    ensures (r.Ok?, vectors.table) == Indexed(env, path, p, old(vectors.table))
  {
    var _ := vectors.RemoveFile(p);
    var chunks := ParseChunks(env, path);
    if chunks.None? {
      return Err(Io);
    }
    var embeddings := env.embed(Texts(chunks.value));
    if embeddings.Err? {
      return Err(embeddings.error);
    }
    var entries := Entries(p, chunks.value, embeddings.value);
    InsertAll(vectors, entries, env.insertFails);
    r := Ok(());
  }

  /** The body of the batch loop for one path. */
  method ProcessPath(env: Env, path: string, state: StateStore, vectors: VectorStore)
    modifies state, vectors
    ensures Stores(state.table, vectors.table) == PathStep(env, path, Stores(old(state.table), old(vectors.table)))
  {
    if !IsNotesFile(path) {
      return;
    }
    var rel := env.relative(path);
    if !env.present(path) {
      if rel.Inside? {
        var _ := vectors.RemoveFile(rel.path);
        state.RemoveFile(rel.path);
      }
      return;
    }
    if !rel.Inside? {
      return;
    }
    var p := rel.path;
    var modified, hash := env.modified(path), env.hash(path);
    if modified.Err? || hash.Err? {
      return;
    }
    var changed := state.HasFileChanged(p, modified.value, hash.value);
    if changed == Ok(false) {
      return;
    }
    var indexed := IndexFile(env, path, p, vectors);
    if indexed.Ok? {
      state.UpdateFileState(p, modified.value, hash.value, env.now);
    }
  }

  /** The inner loop of the batch: the paths of one event, in order. */
  method ProcessPaths(env: Env, paths: seq<string>, state: StateStore, vectors: VectorStore)
    modifies state, vectors
    ensures Stores(state.table, vectors.table) == Batch(env, paths, Stores(old(state.table), old(vectors.table)))
  {
    ghost var start := Stores(state.table, vectors.table);
    for j := 0 to |paths|
      invariant Stores(state.table, vectors.table) == Batch(env, paths[..j], start)
    {
      ProcessPath(env, paths[j], state, vectors);
      assert paths[..j + 1][..j] == paths[..j];
    }
    assert paths[..|paths|] == paths;
  }

  /**
   * `process_events_static`. Opening the stores (`opening`) and initialising the model
   * (`loaded`) are given outcomes: a store that cannot be opened fails the batch; a model
   * that cannot be loaded skips it, successfully.
   */
  method ProcessEvents(events: seq<seq<string>>, env: Env, opening: Result<()>, loaded: Result<()>,
                       state: StateStore, vectors: VectorStore)
    returns (r: Result<()>)
    modifies state, vectors
    ensures opening.Err? ==> r == opening
    ensures opening.Ok? ==> r == Ok(())
    ensures opening.Err? || loaded.Err? ==> state.table == old(state.table) && vectors.table == old(vectors.table)
    ensures opening.Ok? && loaded.Ok? ==>
      Stores(state.table, vectors.table) == Batch(env, Flatten(events), Stores(old(state.table), old(vectors.table)))
  {
    if opening.Err? {
      return opening;
    }
    if loaded.Err? {
      return Ok(());
    }
    ghost var start := Stores(state.table, vectors.table);
    for i := 0 to |events|
      invariant Stores(state.table, vectors.table) == Batch(env, Flatten(events[..i]), start)
    {
      ProcessPaths(env, events[i], state, vectors);
      BatchAppend(env, Flatten(events[..i]), events[i], start);
      assert events[..i + 1][..i] == events[..i];
    }
    assert events[..|events|] == events;
    r := Ok(());
  }

  /** Running two lists of paths one after the other is running their concatenation. */
  lemma {:induction false} BatchAppend(env: Env, a: seq<string>, b: seq<string>, s: Stores)
    ensures Batch(env, a + b, s) == Batch(env, b, Batch(env, a, s))
    decreases |b|
  {
    if b != [] {
      var front := b[..|b| - 1];
      assert (a + b)[..|a + b| - 1] == a + front;
      BatchAppend(env, a, front, s);
    } else {
      assert a + b == a;
    }
  }

  // ------------------------------------------------------------------ properties

  /** A path that is not a note leaves both stores as they were. */
  lemma NonNoteUntouched(env: Env, path: string, s: Stores)
    requires !IsNotesFile(path)
    ensures PathStep(env, path, s) == s
  {
  }

  /** A batch that names no note at all changes nothing. */
  lemma {:induction false} NonNoteBatch(env: Env, paths: seq<string>, s: Stores)
    requires forall i :: 0 <= i < |paths| ==> !IsNotesFile(paths[i])
    ensures Batch(env, paths, s) == s
    decreases |paths|
  {
    if paths != [] {
      NonNoteBatch(env, paths[..|paths| - 1], s);
    }
  }

  /**
   * A deleted note under the root loses its state and every vector entry of its file;
   * every other state and entry stays.
   */
  lemma DeletedForgotten(env: Env, path: string, p: string, s: Stores)
    requires IsNotesFile(path) && !env.present(path) && env.relative(path) == Inside(p)
    ensures var t := PathStep(env, path, s);
      && StateIn(t.state, p) == Ok(None)
      && (forall k :: k in t.vectors ==> !StartsWith(k, p + ":"))
      && (forall q :: q != p ==> StateIn(t.state, q) == StateIn(s.state, q))
      && (forall k :: k in s.vectors && !StartsWith(k, p + ":") ==> k in t.vectors && t.vectors[k] == s.vectors[k])
  {
  }

  /**
   * Paths outside the root or not valid UTF-8, and files whose time or hash cannot be
   * read, are skipped.
   */
  lemma SkippedPaths(env: Env, path: string, s: Stores)
    requires !env.relative(path).Inside? || (env.present(path) && (env.modified(path).Err? || env.hash(path).Err?))
    ensures PathStep(env, path, s) == s
  {
  }

  /**
   * An existing note is left alone exactly when the state store reports it unchanged; any
   * other answer, a lookup error included, re-indexes it.
   */
  lemma SkipOnlyUnchanged(env: Env, path: string, p: string, m: nat, h: string, s: Stores)
    requires IsNotesFile(path) && env.present(path) && env.relative(path) == Inside(p)
    requires env.modified(path) == Ok(m) && env.hash(path) == Ok(h)
    ensures ChangedIn(s.state, p, m, h) == Ok(false) ==> PathStep(env, path, s) == s
    ensures ChangedIn(s.state, p, m, h) != Ok(false) ==> PathStep(env, path, s) == Reindexed(env, path, p, m, h, s)
    ensures StateIn(s.state, p).Err? ==> PathStep(env, path, s) == Reindexed(env, path, p, m, h, s)
  {
  }

  /** Re-indexing never touches the entries of keys outside the file's prefix, nor other states. */
  lemma ReindexIsLocal(env: Env, path: string, p: string, m: nat, h: string, s: Stores)
    ensures var t := Reindexed(env, path, p, m, h, s);
      && (forall q :: q != p ==> StateIn(t.state, q) == StateIn(s.state, q))
      && (forall k :: k in s.vectors && !StartsWith(k, p + ":") ==> k in t.vectors && t.vectors[k] == s.vectors[k])
  {
    var t := Reindexed(env, path, p, m, h, s);
    var cleared := Without(s.vectors, p + ":");
    forall k | k in s.vectors && !StartsWith(k, p + ":")
      ensures k in t.vectors && t.vectors[k] == s.vectors[k]
    {
      match ChunksOf(env, path)
      case None =>
      case Some(chunks) =>
        match env.embed(Texts(chunks))
        case Err(_) =>
        case Ok(embs) =>
          EntriesUnder(p, chunks, embs);
          InsertedKeeps(cleared, Entries(p, chunks, embs), env.insertFails, k);
    }
  }

  /**
   * When parsing or embedding fails, the file's old entries are already gone and its state
   * is not updated.
   */
  lemma ReindexFailed(env: Env, path: string, p: string, m: nat, h: string, s: Stores)
    requires ChunksOf(env, path).None? || env.embed(Texts(ChunksOf(env, path).value)).Err?
    ensures var t := Reindexed(env, path, p, m, h, s);
      && t.state == s.state
      && (forall k :: k in t.vectors ==> !StartsWith(k, p + ":"))
  {
  }

  /**
   * When parsing and embedding succeed, the file's state becomes `(m, h)` whichever inserts
   * failed, and the file's entries are exactly those of its chunks whose insert succeeded:
   * entry `i` carries chunk `i`'s index, text, context and lines, and embedding `i`.
   */
  lemma ReindexStored(env: Env, path: string, p: string, m: nat, h: string, s: Stores,
                      chunks: seq<TextChunk>, embs: seq<seq<real>>)
    requires ChunksOf(env, path) == Some(chunks) && env.embed(Texts(chunks)) == Ok(embs)
    ensures var t := Reindexed(env, path, p, m, h, s);
      var es := Entries(p, chunks, embs);
      && t.state == s.state[p := Json(FileState(m, h, env.now))]
      && (forall i :: 0 <= i < |es| ==>
            es[i] == VectorEntry(p, i, embs[i], chunks[i].text, chunks[i].context, chunks[i].startLine, chunks[i].endLine))
      && (forall i :: 0 <= i < |es| && !env.insertFails(es[i]) ==>
            ChunkId(es[i]) in t.vectors && t.vectors[ChunkId(es[i])] == Entry(es[i]))
      && (forall k :: k in t.vectors && StartsWith(k, p + ":") ==>
            exists i :: 0 <= i < |es| && !env.insertFails(es[i]) && k == ChunkId(es[i]) && t.vectors[k] == Entry(es[i]))
  {
    var t := Reindexed(env, path, p, m, h, s);
    var es := Entries(p, chunks, embs);
    var cleared := Without(s.vectors, p + ":");
    ChunksNumbered(env, path);
    EntriesDistinct(p, chunks, embs);
    forall i | 0 <= i < |es| && !env.insertFails(es[i])
      ensures ChunkId(es[i]) in t.vectors && t.vectors[ChunkId(es[i])] == Entry(es[i])
    {
      InsertedHas(cleared, es, env.insertFails, i);
    }
    forall k | k in t.vectors && StartsWith(k, p + ":")
      ensures exists i :: 0 <= i < |es| && !env.insertFails(es[i]) && k == ChunkId(es[i]) && t.vectors[k] == Entry(es[i])
    {
      InsertedFrom(cleared, es, env.insertFails, k);
    }
  }

  lemma WithoutTwice(table: map<string, Slot>, prefix: string)
    ensures Without(Without(table, prefix), prefix) == Without(table, prefix)
  {
  }

  /**
   * A second notification for a path, with the file as it was, changes nothing more: a
   * re-indexed file is then unchanged, a deleted one is already gone, and a file that
   * failed to index fails the same way.
   */
  lemma PathStepIdempotent(env: Env, path: string, s: Stores)
    ensures PathStep(env, path, PathStep(env, path, s)) == PathStep(env, path, s)
  {
    var t := PathStep(env, path, s);
    if IsNotesFile(path) && env.relative(path).Inside? {
      var p := env.relative(path).path;
      WithoutTwice(s.vectors, p + ":");
      if env.present(path) && env.modified(path).Ok? && env.hash(path).Ok? {
        var m, h := env.modified(path).value, env.hash(path).value;
        if ChangedIn(s.state, p, m, h) != Ok(false) {
          if Indexed(env, path, p, s.vectors).0 {
            assert ChangedIn(t.state, p, m, h) == Ok(false);
          } else {
            assert t == Stores(s.state, Without(s.vectors, p + ":"));
          }
        }
      }
    }
  }
}
