/**
 * The file-state ledger (`StateStore`): one table from keys to stored strings. Every note
 * path maps to the JSON of its `FileState`; one reserved key holds the embedding-model id as
 * a raw string. The table is a `map`, the store a class that updates it in place; the
 * queries are specified by functions of the table, and the properties of the store are
 * lemmas about those functions.
 */
module State {
  import opened Wrappers
  import opened Text

  /** The reserved key of the model id, kept in the same table as the file states. */
  const MetaModelIdKey: string := "__notes2vec_meta_model_id__"

  /** `FileState`: modification time and content hash of the indexed file, and when it was indexed. */
  datatype FileState = FileState(lastModified: nat, contentHash: string, indexedAt: nat)

  /**
   * A stored value: the JSON of a file state, or any other string (the model id). A raw
   * value is one that does not decode as a `FileState`.
   */
  datatype Stored = Json(state: FileState) | Raw(text: string)

  /** `to_json`, the serialisation the table stores for a file state. */
  function Encoded(st: FileState): (r: string)
    ensures |r| > |st.contentHash|
  {
    "{\"last_modified\":" + NatToString(st.lastModified) + ",\"content_hash\":\"" + st.contentHash +
    "\",\"indexed_at\":" + NatToString(st.indexedAt) + "}"
  }

  /** The string a slot holds. */
  function StoredText(v: Stored): string {
    match v
    case Json(st) => Encoded(st)
    case Raw(s) => s
  }

  /** `get_file_state`: absent is `None`, a file state decodes, anything else is a database error. */
  function StateIn(table: map<string, Stored>, path: string): (r: Result<Option<FileState>>)
    ensures r.Ok? && r.value.None? <==> path !in table
    ensures r.Err? <==> path in table && table[path].Raw?
  {
    if path !in table then Ok(None)
    else match table[path]
      case Json(st) => Ok(Some(st))
      case Raw(_) => Err(Database)
  }

  /**
   * `has_file_changed`: a file without a stored state has changed; one with a state has
   * changed when its modification time or its hash differs; a lookup error is passed on.
   */
  function ChangedIn(table: map<string, Stored>, path: string, modified: nat, hash: string): (r: Result<bool>)
    ensures r.Err? <==> StateIn(table, path).Err?
    ensures StateIn(table, path) == Ok(None) ==> r == Ok(true)
    ensures (StateIn(table, path).Ok? && StateIn(table, path).value.Some?) ==>
      var st := StateIn(table, path).value.value;
      r == Ok(st.lastModified != modified || st.contentHash != hash)
  {
    match StateIn(table, path)
    case Err(e) => Err(e)
    case Ok(None) => Ok(true)
    case Ok(Some(st)) => Ok(st.lastModified != modified || st.contentHash != hash)
  }

  /** `get_model_id`: the string under the reserved key, if any. */
  function ModelIdIn(table: map<string, Stored>): (r: Option<string>)
    ensures r.None? <==> MetaModelIdKey !in table
    ensures r.Some? ==> r.value == StoredText(table[MetaModelIdKey])
  {
    if MetaModelIdKey in table then Some(StoredText(table[MetaModelIdKey])) else None
  }

  class StateStore {
    var table: map<string, Stored>

    /** `open` on a database holding `existing` (empty for a new database). */
    constructor(existing: map<string, Stored>)
      ensures table == existing
    {
      table := existing;
    }

    method GetFileState(path: string) returns (r: Result<Option<FileState>>)
      ensures r == StateIn(table, path)
    {
      if path !in table {
        return Ok(None);
      }
      var stored := table[path];
      match stored {
        case Json(st) => r := Ok(Some(st));
        case Raw(_) => r := Err(Database);
      }
    }

    /** `update_file_state`: an upsert of the file's state; `now` is the clock reading of `indexed_at`. */
    method UpdateFileState(path: string, lastModified: nat, contentHash: string, now: nat)
      modifies this
      ensures table == old(table)[path := Json(FileState(lastModified, contentHash, now))]
    {
      var state := FileState(lastModified, contentHash, now);
      table := table[path := Json(state)];
    }

    /** `remove_file`: removing an absent key is not an error. */
    method RemoveFile(path: string)
      modifies this
      ensures table == old(table) - {path}
    {
      table := table - {path};
    }

    method HasFileChanged(path: string, currentModified: nat, currentHash: string) returns (r: Result<bool>)
      ensures r == ChangedIn(table, path, currentModified, currentHash)
    {
      var state := GetFileState(path);
      match state {
        case Err(e) => r := Err(e);
        case Ok(None) => r := Ok(true);
        case Ok(Some(st)) => r := Ok(st.lastModified != currentModified || st.contentHash != currentHash);
      }
    }

    method GetModelId() returns (r: Option<string>)
      ensures r == ModelIdIn(table)
    {
      if MetaModelIdKey in table {
        r := Some(StoredText(table[MetaModelIdKey]));
      } else {
        r := None;
      }
    }

    /** `set_model_id`: the id is stored raw under the reserved key. */
    method SetModelId(modelId: string)
      modifies this
      ensures table == old(table)[MetaModelIdKey := Raw(modelId)]
    {
      table := table[MetaModelIdKey := Raw(modelId)];
    }
  }

  // ------------------------------------------------------------------ properties

  /** After an update the file reads back with the new time and hash, and is unchanged for them. */
  lemma UpdateThenUnchanged(table: map<string, Stored>, path: string, m: nat, h: string, now: nat)
    ensures var t := table[path := Json(FileState(m, h, now))];
      && StateIn(t, path) == Ok(Some(FileState(m, h, now)))
      && ChangedIn(t, path, m, h) == Ok(false)
  {
  }

  /** After an update, a different time or a different hash counts as a change, and only those. */
  lemma UpdateThenChanged(table: map<string, Stored>, path: string, m: nat, h: string, now: nat, m2: nat, h2: string)
    ensures ChangedIn(table[path := Json(FileState(m, h, now))], path, m2, h2) == Ok(m2 != m || h2 != h)
  {
  }

  /** A path never stored counts as changed. */
  lemma AbsentIsChanged(table: map<string, Stored>, path: string, m: nat, h: string)
    requires path !in table
    ensures ChangedIn(table, path, m, h) == Ok(true)
  {
  }

  /** After a removal the file has no state, whether it had one or not. */
  lemma RemoveThenAbsent(table: map<string, Stored>, path: string, m: nat, h: string)
    ensures StateIn(table - {path}, path) == Ok(None)
    ensures ChangedIn(table - {path}, path, m, h) == Ok(true)
  {
  }

  /** The model id reads back as set; an unset one reads as `None`. */
  lemma ModelIdRoundTrip(table: map<string, Stored>, id: string)
    ensures ModelIdIn(table[MetaModelIdKey := Raw(id)]) == Some(id)
    ensures ModelIdIn(map[]) == None
  {
  }

  /** The model id is not a file state: reading it as one is a database error. */
  lemma ModelIdIsNotFileState(table: map<string, Stored>, id: string)
    ensures StateIn(table[MetaModelIdKey := Raw(id)], MetaModelIdKey) == Err(Database)
  {
  }

  /**
   * Updating or removing one file leaves the state of every other key, and the model id
   * unless the file's path is the reserved key itself, as it was.
   */
  lemma WritesAreLocal(table: map<string, Stored>, path: string, other: string, v: Stored)
    requires other != path
    ensures StateIn(table[path := v], other) == StateIn(table, other)
    ensures StateIn(table - {path}, other) == StateIn(table, other)
    ensures path != MetaModelIdKey ==> ModelIdIn(table[path := v]) == ModelIdIn(table)
    ensures path != MetaModelIdKey ==> ModelIdIn(table - {path}) == ModelIdIn(table)
  {
  }

  /** Setting the model id leaves every file state as it was. */
  lemma ModelIdIsLocal(table: map<string, Stored>, id: string, path: string)
    requires path != MetaModelIdKey
    ensures StateIn(table[MetaModelIdKey := Raw(id)], path) == StateIn(table, path)
  {
  }

  /** The sequence of the state-store tests: new, update, same, other time, other hash. */
  lemma ChangeDetectionScenario(table: map<string, Stored>, now: nat)
    requires "new.md" !in table
    ensures ChangedIn(table, "new.md", 12345, "hash1") == Ok(true)
    ensures var t := table["new.md" := Json(FileState(12345, "hash1", now))];
      && ChangedIn(t, "new.md", 12345, "hash1") == Ok(false)
      && ChangedIn(t, "new.md", 12346, "hash1") == Ok(true)
      && ChangedIn(t, "new.md", 12345, "hash2") == Ok(true)
  {
    UpdateThenChanged(table, "new.md", 12345, "hash1", now, 12346, "hash1");
    UpdateThenChanged(table, "new.md", 12345, "hash1", now, 12345, "hash2");
  }
}
