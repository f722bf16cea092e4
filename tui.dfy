/**
 * The TUI's directory selection (`SearchTui::select_directory`): load the model, wipe an
 * index built by another model, scope searches to the folder's notes, index every note
 * that changed, and switch to the search screen. Every failure after the model check lands
 * back on the directory-selection screen with the error as the status message.
 */
module Tui {
  import opened Wrappers
  import opened Text
  import opened Chunking
  import opened State
  import opened Vectors
  import opened Indexing

  /** `EMBEDDING_MODEL_ID`. */
  const EmbeddingModelId: string := "BAAI/bge-small-en-v1.5"

  datatype Screen = Welcome | DirectorySelection | Search

  /** The status line: the model files are missing, the folder holds no notes, or an error. */
  datatype Status = ModelMissing | NoNotes | Failed(error: Error)

  /** `DiscoveredFile`: the full path and the relative path, `None` when it is not UTF-8. */
  datatype Found = Found(path: string, relative: Option<string>)

  /** The text embedded for a chunk: its breadcrumb and its text, or the text alone. */
  function Passage(c: TextChunk): (r: string)
    ensures AllWhitespace(c.context) ==> r == c.text
    ensures !AllWhitespace(c.context) ==> r == c.context + "\n" + c.text
  {
    if Trim(c.context) == [] then c.text else c.context + "\n" + c.text
  }

  function Passages(chunks: seq<TextChunk>): (r: seq<string>)
    ensures |r| == |chunks|
  {
    seq(|chunks|, i requires 0 <= i < |chunks| => Passage(chunks[i]))
  }

  /** The relative paths of the discovered files that are valid UTF-8. */
  ghost function ActivePaths(files: seq<Found>): set<string> {
    set i | 0 <= i < |files| && files[i].relative.Some? :: files[i].relative.value
  }

  /**
   * Which of the two best-effort file removals of a reset succeed: the vector database's and
   * the state database's. A failed removal is ignored and leaves that database as it was.
   */
  datatype Wipe = Wipe(vectorsRemoved: bool, stateRemoved: bool)

  /**
   * The stores as reopened: when the recorded model id (missing counts as the empty string)
   * is not `EMBEDDING_MODEL_ID`, each store whose file was removed comes back empty.
   */
  function Reopened(s: Stores, wipe: Wipe): Stores {
    var previous := match ModelIdIn(s.state) case Some(id) => id case None => "";
    if previous != EmbeddingModelId then
      Stores(if wipe.stateRemoved then map[] else s.state, if wipe.vectorsRemoved then map[] else s.vectors)
    else s
  }

  /**
   * One file of the pass. A lookup error of the state store and an embedding error abort
   * the pass (`Err`); an unreadable time or hash, a parse failure and an unchanged file leave
   * the stores as they were; a changed file gets one entry per chunk, inserted over the old
   * ones without removing any, and its new state.
   */
  ghost function FileStep(env: Env, f: Found, s: Stores): Result<Stores> {
    match f.relative
    case None => Ok(s)
    case Some(p) =>
      match (env.modified(f.path), env.hash(f.path))
      case (Ok(m), Ok(h)) =>
        (match ChangedIn(s.state, p, m, h)
         case Err(e) => Err(e)
         case Ok(changed) =>
           if !changed then Ok(s)
           else
             match ChunksOf(env, f.path)
             case None => Ok(s)
             case Some(chunks) =>
               match env.embed(Passages(chunks))
               case Err(e) => Err(e)
               case Ok(embs) =>
                 Ok(Stores(s.state[p := Json(FileState(m, h, env.now))],
                           Inserted(s.vectors, Entries(p, chunks, embs), env.insertFails)))
        )
      case _ => Ok(s)
  }

  /** Where a pass stands: the stores, and the error that stopped it, if any. */
  datatype Progress = Progress(stores: Stores, failure: Option<Error>)

  /** The pass over the files in order; after an error the remaining files are not visited. */
  ghost function Pass(env: Env, files: seq<Found>, s: Stores): Progress
    decreases |files|
  {
    if files == [] then Progress(s, None)
    else
      var pr := Pass(env, files[..|files| - 1], s);
      if pr.failure.Some? then pr
      else
        match FileStep(env, files[|files| - 1], pr.stores)
        case Err(e) => Progress(pr.stores, Some(e))
        case Ok(t) => Progress(t, None)
  }

  /** The body of the indexing loop for one file. */
  method IndexOne(env: Env, f: Found, state: StateStore, vectors: VectorStore) returns (r: Result<()>)
    modifies state, vectors
    ensures r.Err? ==> FileStep(env, f, Stores(old(state.table), old(vectors.table))) == Err(r.error)
    ensures r.Err? ==> state.table == old(state.table) && vectors.table == old(vectors.table)
    ensures r.Ok? ==> FileStep(env, f, Stores(old(state.table), old(vectors.table))) == Ok(Stores(state.table, vectors.table))
  {
    if f.relative.None? {
      return Ok(());
    }
    var p := f.relative.value;
    var modified, hash := env.modified(f.path), env.hash(f.path);
    if modified.Err? || hash.Err? {
      return Ok(());
    }
    var changed := state.HasFileChanged(p, modified.value, hash.value);
    if changed.Err? {
      return Err(changed.error);
    }
    if !changed.value {
      return Ok(());
    }
    var chunks := ParseChunks(env, f.path);
    if chunks.None? {
      return Ok(());
    }
    var embeddings := env.embed(Passages(chunks.value));
    if embeddings.Err? {
      return Err(embeddings.error);
    }
    InsertAll(vectors, Entries(p, chunks.value, embeddings.value), env.insertFails);
    state.UpdateFileState(p, modified.value, hash.value, env.now);
    r := Ok(());
  }

  /**
   * The model-id check: a stale or missing id removes both databases, as far as `wipe` lets
   * the removals succeed.
   */
  method ResetIfStale(state: StateStore, vectors: VectorStore, wipe: Wipe)
    modifies state, vectors
    ensures Stores(state.table, vectors.table) == Reopened(Stores(old(state.table), old(vectors.table)), wipe)
  {
    var previous := state.GetModelId();
    var previousId := match previous case Some(id) => id case None => "";
    if previousId != EmbeddingModelId {
      if wipe.vectorsRemoved {
        vectors.table := map[];
      }
      if wipe.stateRemoved {
        state.table := map[];
      }
    }
  }

  /** The indexing loop: the files in order, stopping at the first error. */
  method RunPass(env: Env, files: seq<Found>, state: StateStore, vectors: VectorStore) returns (failure: Option<Error>)
    modifies state, vectors
    ensures Pass(env, files, Stores(old(state.table), old(vectors.table))) == Progress(Stores(state.table, vectors.table), failure)
  {
    ghost var start := Stores(state.table, vectors.table);
    var i := 0;
    while i < |files|
      invariant i <= |files|
      invariant Pass(env, files[..i], start) == Progress(Stores(state.table, vectors.table), None)
    {
      assert files[..i + 1][..i] == files[..i];
      var r := IndexOne(env, files[i], state, vectors);
      if r.Err? {
        FailureSticks(env, files, start, i + 1);
        return Some(r.error);
      }
      i := i + 1;
    }
    assert files[..|files|] == files;
    failure := None;
  }

  class SearchTui {
    var currentScreen: Screen
    var statusMessage: Option<Status>
    var activeFiles: set<string>
    /** The vector store searches use, once a directory has been indexed. */
    var vectorStore: Option<VectorStore>
    /** Whether the real embedding model is loaded. */
    var modelReady: bool
    /** Whether searches have an embedding model to use. */
    var hasModel: bool

    constructor()
      ensures currentScreen == Welcome && statusMessage == None && activeFiles == {}
      ensures vectorStore == None && !modelReady && !hasModel
    {
      currentScreen := Welcome;
      statusMessage := None;
      activeFiles := {};
      vectorStore := None;
      modelReady := false;
      hasModel := false;
    }

    /** The error handler of `select_directory`: back to directory selection, with the error shown. */
    method Fail(e: Error)
      modifies this
      ensures statusMessage == Some(Failed(e)) && currentScreen == DirectorySelection
      ensures activeFiles == old(activeFiles) && vectorStore == old(vectorStore)
      ensures modelReady == old(modelReady) && hasModel == old(hasModel)
    {
      statusMessage := Some(Failed(e));
      currentScreen := DirectorySelection;
    }

    /** The scope loop: the active set becomes the UTF-8 relative paths of the files. */
    method SetScope(files: seq<Found>)
      modifies this
      ensures activeFiles == ActivePaths(files)
      ensures currentScreen == old(currentScreen) && statusMessage == old(statusMessage)
      ensures vectorStore == old(vectorStore) && modelReady == old(modelReady) && hasModel == old(hasModel)
    {
      activeFiles := {};
      for i := 0 to |files|
        invariant activeFiles == ActivePaths(files[..i])
        invariant currentScreen == old(currentScreen) && statusMessage == old(statusMessage)
        invariant vectorStore == old(vectorStore) && modelReady == old(modelReady) && hasModel == old(hasModel)
      {
        assert forall k :: 0 <= k < i ==> files[..i + 1][k] == files[..i][k];
        if files[i].relative.Some? {
          activeFiles := activeFiles + {files[i].relative.value};
        }
      }
      assert files[..|files|] == files;
    }

    /**
     * `select_directory`. The outcomes of loading the model (`init`: whether the model files
     * are present), of opening the state store for the model-id check (`opening`), of the
     * two removals of a reset (`wipe`), of reopening both stores (`reopening`) and of
     * discovering the notes (`discovered`) are given; `state` and `vectors` are the two
     * databases.
     */
    method SelectDirectory(env: Env, init: Result<bool>, opening: Result<()>, wipe: Wipe, reopening: Result<()>,
                           discovered: Result<seq<Found>>, state: StateStore, vectors: VectorStore)
      modifies this, state, vectors
      // the model fails to load, or is not there: nothing else happens
      ensures init.Err? ==> statusMessage == Some(Failed(init.error)) && currentScreen == DirectorySelection
      ensures init.Err? ==> modelReady == old(modelReady)
      ensures init == Ok(false) ==> statusMessage == Some(ModelMissing) && currentScreen == old(currentScreen)
      ensures init.Err? || init == Ok(false) || opening.Err? ==>
        && state.table == old(state.table) && vectors.table == old(vectors.table)
        && activeFiles == old(activeFiles) && vectorStore == old(vectorStore) && hasModel == old(hasModel)
      ensures init.Ok? ==> modelReady == init.value
      ensures init == Ok(true) && opening.Err? ==>
        statusMessage == Some(Failed(opening.error)) && currentScreen == DirectorySelection
      // past the model-id check the stores are as `Reopened` leaves them
      ensures init == Ok(true) && opening.Ok? && (reopening.Err? || discovered.Err? || discovered == Ok([])) ==>
        && state.table == Reopened(Stores(old(state.table), old(vectors.table)), wipe).state
        && vectors.table == Reopened(Stores(old(state.table), old(vectors.table)), wipe).vectors
        && activeFiles == old(activeFiles) && vectorStore == old(vectorStore) && hasModel == old(hasModel)
      ensures init == Ok(true) && opening.Ok? && reopening.Err? ==>
        statusMessage == Some(Failed(reopening.error)) && currentScreen == DirectorySelection
      ensures init == Ok(true) && opening.Ok? && reopening.Ok? && discovered.Err? ==>
        statusMessage == Some(Failed(discovered.error)) && currentScreen == DirectorySelection
      ensures init == Ok(true) && opening.Ok? && reopening.Ok? && discovered == Ok([]) ==>
        statusMessage == Some(NoNotes) && currentScreen == old(currentScreen)
      // the indexing pass
      ensures init == Ok(true) && opening.Ok? && reopening.Ok? && discovered.Ok? && discovered.value != [] ==>
        var pr := Pass(env, discovered.value, Reopened(Stores(old(state.table), old(vectors.table)), wipe));
        && activeFiles == ActivePaths(discovered.value)
        && (pr.failure.Some? ==>
              && state.table == pr.stores.state && vectors.table == pr.stores.vectors
              && statusMessage == Some(Failed(pr.failure.value)) && currentScreen == DirectorySelection
              && vectorStore == old(vectorStore) && hasModel == old(hasModel))
        && (pr.failure.None? ==>
              && state.table == pr.stores.state[MetaModelIdKey := Raw(EmbeddingModelId)]
              && vectors.table == pr.stores.vectors
              && statusMessage == None && currentScreen == Search
              && vectorStore == Some(vectors) && hasModel)
    {
      if init.Err? {
        Fail(init.error);
        return;
      }
      modelReady := init.value;
      if !modelReady {
        statusMessage := Some(ModelMissing);
        return;
      }
      if opening.Err? {
        Fail(opening.error);
        return;
      }
      ResetIfStale(state, vectors, wipe);
      if reopening.Err? {
        Fail(reopening.error);
        return;
      }
      if discovered.Err? {
        Fail(discovered.error);
        return;
      }
      var files := discovered.value;
      if files == [] {
        statusMessage := Some(NoNotes);
        return;
      }
      SetScope(files);
      var failure := RunPass(env, files, state, vectors);
      if failure.Some? {
        Fail(failure.value);
        return;
      }
      state.SetModelId(EmbeddingModelId);
      vectorStore := Some(vectors);
      hasModel := true;
      currentScreen := Search;
      statusMessage := None;
    }
  }

  // ------------------------------------------------------------------ properties

  /** Once a file has stopped the pass, the files after it change nothing. */
  lemma {:induction false} FailureSticks(env: Env, files: seq<Found>, s: Stores, n: nat)
    requires n <= |files| && Pass(env, files[..n], s).failure.Some?
    ensures Pass(env, files, s) == Pass(env, files[..n], s)
    decreases |files| - n
  {
    if n < |files| {
      assert files[..n + 1][..n] == files[..n];
      FailureSticks(env, files, s, n + 1);
    } else {
      assert files[..n] == files;
    }
  }

  /**
   * The current model id keeps both stores, whatever the removals would do. A different or
   * missing id empties exactly the stores whose files were removed, so both when both
   * removals succeed.
   */
  lemma ResetOnModelChange(s: Stores, wipe: Wipe)
    ensures ModelIdIn(s.state) == Some(EmbeddingModelId) ==> Reopened(s, wipe) == s
    ensures ModelIdIn(s.state) != Some(EmbeddingModelId) ==>
      && (wipe.stateRemoved ==> Reopened(s, wipe).state == map[])
      && (!wipe.stateRemoved ==> Reopened(s, wipe).state == s.state)
      && (wipe.vectorsRemoved ==> Reopened(s, wipe).vectors == map[])
      && (!wipe.vectorsRemoved ==> Reopened(s, wipe).vectors == s.vectors)
    ensures ModelIdIn(s.state) != Some(EmbeddingModelId) ==> Reopened(s, Wipe(true, true)) == Stores(map[], map[])
  {
  }

  /** After a successful pass the model id is recorded, so the next selection keeps the index. */
  lemma SuccessKeepsNextIndex(s: Stores, wipe: Wipe)
    ensures var t := Stores(s.state[MetaModelIdKey := Raw(EmbeddingModelId)], s.vectors);
      Reopened(t, wipe) == t
  {
    ModelIdRoundTrip(s.state, EmbeddingModelId);
  }

  /**
   * When a reset removes the vector database but not the state database, the file states
   * survive: a file they report unchanged is not re-indexed, and the vector store stays
   * empty after its step.
   */
  lemma StateSurvivesReset(env: Env, f: Found, p: string, m: nat, h: string, s: Stores)
    requires ModelIdIn(s.state) != Some(EmbeddingModelId)
    requires f.relative == Some(p) && env.modified(f.path) == Ok(m) && env.hash(f.path) == Ok(h)
    requires ChangedIn(s.state, p, m, h) == Ok(false)
    ensures Reopened(s, Wipe(true, false)) == Stores(s.state, map[])
    ensures FileStep(env, f, Reopened(s, Wipe(true, false))) == Ok(Stores(s.state, map[]))
  {
    UnchangedNotReembedded(env, f, p, m, h, Stores(s.state, map[]));
  }

  /** A file the state store reports unchanged is not re-embedded: both stores are left as they were. */
  lemma UnchangedNotReembedded(env: Env, f: Found, p: string, m: nat, h: string, s: Stores)
    requires f.relative == Some(p) && env.modified(f.path) == Ok(m) && env.hash(f.path) == Ok(h)
    requires ChangedIn(s.state, p, m, h) == Ok(false)
    ensures FileStep(env, f, s) == Ok(s)
  {
  }

  /**
   * A changed file is indexed with its passages embedded, and stores its chunks' own text:
   * entry `i` holds chunk `i`'s text and context and the embedding of passage `i`; the
   * file's state is recorded whichever inserts failed.
   */
  lemma ChangedFileStored(env: Env, f: Found, p: string, m: nat, h: string, s: Stores,
                          chunks: seq<TextChunk>, embs: seq<seq<real>>)
    requires f.relative == Some(p) && env.modified(f.path) == Ok(m) && env.hash(f.path) == Ok(h)
    requires ChangedIn(s.state, p, m, h) == Ok(true)
    requires ChunksOf(env, f.path) == Some(chunks) && env.embed(Passages(chunks)) == Ok(embs)
    ensures FileStep(env, f, s).Ok?
    ensures var t := FileStep(env, f, s).value;
      var es := Entries(p, chunks, embs);
      && t.state == s.state[p := Json(FileState(m, h, env.now))]
      && (forall i :: 0 <= i < |es| ==>
            es[i] == VectorEntry(p, i, embs[i], chunks[i].text, chunks[i].context, chunks[i].startLine, chunks[i].endLine))
      && (forall i :: 0 <= i < |es| && !env.insertFails(es[i]) ==>
            ChunkId(es[i]) in t.vectors && t.vectors[ChunkId(es[i])] == Entry(es[i]))
  {
    var es := Entries(p, chunks, embs);
    ChunksNumbered(env, f.path);
    EntriesDistinct(p, chunks, embs);
    forall i | 0 <= i < |es| && !env.insertFails(es[i])
      ensures ChunkId(es[i]) in FileStep(env, f, s).value.vectors
      ensures FileStep(env, f, s).value.vectors[ChunkId(es[i])] == Entry(es[i])
    {
      InsertedHas(s.vectors, es, env.insertFails, i);
    }
  }

  /**
   * Re-indexing never removes: an entry of the file numbered at or past the new chunk
   * count, left from a longer earlier version, survives unchanged, as does every other key.
   */
  lemma StaleChunksSurvive(env: Env, f: Found, s: Stores, t: Stores, k: string)
    requires FileStep(env, f, s) == Ok(t) && k in s.vectors
    requires f.relative.Some? && ChunksOf(env, f.path).Some?
    requires var p := f.relative.value;
      || !StartsWith(k, p + ":")
      || exists n :: n >= |ChunksOf(env, f.path).value| && k == p + ":" + NatToString(n)
    ensures k in t.vectors && t.vectors[k] == s.vectors[k]
  {
    var p := f.relative.value;
    var chunks := ChunksOf(env, f.path).value;
    if t != s {
      var embs := env.embed(Passages(chunks)).value;
      var es := Entries(p, chunks, embs);
      ChunksNumbered(env, f.path);
      assert k !in Ids(es) by {
        if k in Ids(es) {
          var i :| 0 <= i < |es| && k == ChunkId(es[i]);
          assert k == p + ":" + NatToString(i);
          EntriesUnder(p, chunks, embs);
          var n :| n >= |chunks| && k == p + ":" + NatToString(n);
          assert (p + ":" + NatToString(i))[|p| + 1..] == NatToString(i);
          assert (p + ":" + NatToString(n))[|p| + 1..] == NatToString(n);
          NatToStringInjective(i, n);
        }
      }
      InsertedKeeps(s.vectors, es, env.insertFails, k);
    }
  }

  /**
   * Selecting the folder again, with no file modified, changes nothing: every file indexed
   * the first time is now unchanged, and every other file takes the same path again.
   */
  lemma FileStepSettles(env: Env, f: Found, s: Stores, t: Stores)
    requires FileStep(env, f, s) == Ok(t)
    ensures FileStep(env, f, t) == Ok(t)
  {
    if f.relative.Some? && env.modified(f.path).Ok? && env.hash(f.path).Ok? {
      var p, m, h := f.relative.value, env.modified(f.path).value, env.hash(f.path).value;
      if t != s {
        assert t.state == s.state[p := Json(FileState(m, h, env.now))];
        assert ChangedIn(t.state, p, m, h) == Ok(false);
      }
    }
  }
}
