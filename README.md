# notes2vec core, modelled in Dafny

notes2vec indexes a folder of Markdown and plain-text notes for semantic search. This project models
and proves properties of the following parts of it:

- **Note parser.** It splits the YAML frontmatter from a note and reads the title, tags and custom
  fields. It walks the Markdown event stream with a heading stack, and cuts the body into chunks of
  at most about 500 characters at sentence boundaries. Every chunk carries its heading context
  (`A > B > C`), its lines and its index.
- **Notes-file test.** A file counts by its extension, ignoring case: `md`, `markdown`, `mdown`,
  `mkd`, `mkdn`, `txt`.
- **State store.** It records, path by path, a file's modification time, content hash and
  indexing time. It also keeps the embedding model id under a reserved key of the same table.
- **Vector store.** It keys chunk embeddings by `path:index`, and offers get, insert, removal of
  a whole file, the exact top-k cosine search (unscoped and scoped to a set of files), the vectors
  of one file in chunk order, and the number of distinct files.
- **TUI search ranking.** It parses `file:` filters out of a query, fetches candidates, filters
  them, applies a small lexical boost, keeps the best chunk per file, and shows the top 5.
- **File watcher.** Per debounced batch of events, it drops deleted notes and re-indexes changed
  ones.
- **TUI directory selection.** It checks the model, resets the index when the model id changed
  (each database file is removed best-effort), discovers the files, scopes the search and runs an
  indexing pass.

Modules follow the source files:

| module | source file |
|---|---|
| `Frontmatter`, `Chunking`, `Parser` | `parser.rs` |
| `Discovery` | `discovery.rs` |
| `State` | `state.rs` |
| `Vectors` | `vectors.rs` |
| `Ranking` | `search.rs` |
| `Watch` | `watch.rs` |
| `Tui` | `tui.rs` |

Shared helpers live in their own modules:

- `Wrappers`: `Option`, `Result`, `Error`.
- `Text`: whitespace trimming, `split_whitespace`, ASCII lower-casing, substring search, decimal
  rendering.
- `Paths`: the `file_name`, `extension` and `file_stem` of Rust's `Path`.
- `TopK`: a bounded descending heap.
- `Indexing`: what the watcher and the TUI share, namely the outside world as an `Env`, the entries
  built from a parsed note, and the run of inserts.

Both stores are classes whose one field, `table`, is the database table as a `map`. The methods
update it in place. The searches are loops over the table's keys, and each is proved against the
specification `IsTopK`: the result is sorted descending, has no duplicates, is drawn from the
scored pool, and nothing left out scores higher than anything kept.

The two indexing loops are methods that are proved equal to folds over the paths they visit:
`Watch.Batch` for the watcher and `Tui.Pass` for the TUI. The lemmas then state what such a fold
does to the stores:

- a path that is not a note is left alone;
- a deleted note is forgotten;
- an unchanged note is not re-embedded;
- a changed note's state and chunks are stored;
- entries for other files survive;
- a failure ends the TUI pass.

Calls into code this model does not contain are parameters of the operations, or fields of
`Indexing.Env`:

- reading a file, and the file's existence, modification time and hash;
- the YAML parser and the Markdown tokenizer (which yields the `Parser.Event` stream);
- the embedding model;
- the cosine ratio `dot / (|a| |b|)`;
- whether a storage write fails;
- the clock.

## Model

| member | source | states |
|---|---|---|
| Frontmatter.ExtractFrontmatter | src/indexing/parser.rs:64-74 | with no frontmatter the note is returned whole, and a note that opens `---\n` has no closing `\n---\n` after it; otherwise the note is exactly open + frontmatter + close + body, with the first closing marker taken |
| Frontmatter.ExtractComposed | src/indexing/parser.rs:64-74 | round trip: a note built as `---\n` + fm + `\n---\n` + body, where fm holds no closing marker, extracts back to (fm, body) |
| Frontmatter.NoFrontmatterWithoutOpen | src/indexing/parser.rs:66-73 | a note that does not start with `---\n` has no frontmatter and keeps its whole text |
| Frontmatter.Lookup | src/indexing/parser.rs:84 | `map.get`: finds a value exactly when some entry has that string key, and returns that entry's value |
| Frontmatter.AsStr | src/indexing/parser.rs:84-86 | `as_str`: a string exactly when the value is a YAML string, and that string |
| Frontmatter.StrItems | src/indexing/parser.rs:89-93 | every kept tag is a string item of the sequence and every string item is kept; if all items are strings, the tags are exactly their strings, in order |
| Frontmatter.StrItemsAppend | src/indexing/parser.rs:89-93 | `filter_map` keeps order: the tags of two runs of items are those of the first run followed by those of the second |
| Frontmatter.SplitTags | src/indexing/parser.rs:94-100 | comma-separated tags are non-empty and trimmed, at most one per comma piece |
| Frontmatter.SplitTagsPadded | src/indexing/parser.rs:94-100 | round trip: trimmed comma-free tags joined by `, `, with leading whitespace, split back to the same tags |
| Frontmatter.SplitTagsJoin | src/indexing/parser.rs:94-100 | round trip: `split(join(tags, ", ")) == tags` for trimmed, non-empty, comma-free tags |
| Frontmatter.SplitTagsExample | src/indexing/parser.rs:427-440 | `"rust, testing, cli"` gives the three tags |
| Frontmatter.TagsOf | src/indexing/parser.rs:88-102 | a sequence gives its string items, a string gives its comma split, any other value or no key gives no tags |
| Frontmatter.CustomFieldsKeys | src/indexing/parser.rs:105-111 | a key is a custom field exactly when some string-to-string entry has it and it is not title/tags/created/modified |
| Frontmatter.CustomFieldsLast | src/indexing/parser.rs:105-111 | a custom field holds the value of the last entry with that key |
| Frontmatter.CustomFieldsNotReserved | src/indexing/parser.rs:108 | reserved keys are never custom fields |
| Frontmatter.ParseFrontmatter | src/indexing/parser.rs:77-117 | created and modified stay empty; no frontmatter, bad YAML or a non-mapping gives the default metadata; otherwise title, tags and custom fields are as the three functions above state |
| Chunking.Texts | src/ui/watch.rs:204 | the texts of the chunks, one per chunk and in order |
| Chunking.BuildContext | src/indexing/parser.rs:360-365 | no headers give the empty context; one header gives itself |
| Chunking.BuildContextPush | src/indexing/parser.rs:360-365 | pushing a header appends ` > ` and that header |
| Chunking.BuildContextExample | src/indexing/parser.rs:660-665 | `["Document", "Section", "Subsection"]` gives `Document > Section > Subsection` |
| Chunking.Sentences | src/indexing/parser.rs:265-288 | the sentences concatenate back to the text and none is empty |
| Chunking.SentencesFromEnds | src/indexing/parser.rs:270-288 | every sentence but the last ends with `.`, `!` or `?`; every sentence after the first starts with the whitespace that followed that terminator |
| Chunking.SplitSentences | src/indexing/parser.rs:265-288 | the loop computes exactly `Sentences` |
| Chunking.ShouldFlush | src/indexing/parser.rs:300-308 | the current chunk is emitted exactly when it is non-empty, adding the sentence would pass MAX (500), and it already has MIN (50) characters |
| Chunking.PackStepSkips | src/indexing/parser.rs:295-298 | step helper, by unfolding: a blank sentence changes nothing |
| Chunking.PackStepFlushes | src/indexing/parser.rs:308-325 | step helper, by unfolding: on a flush the trimmed chunk is emitted and the sentence opens the next one |
| Chunking.PackStepExtends | src/indexing/parser.rs:321-325 | step helper, by unfolding: otherwise the sentence is appended after a space, or opens an empty chunk |
| Chunking.ChunkTextsShape | src/indexing/parser.rs:251-357 | every chunk text is non-empty and trimmed; when there are two or more, each has at least MIN characters |
| Chunking.ChunkTextsKeepContent | src/indexing/parser.rs:251-357 | chunking loses and reorders no text: the non-whitespace characters of the chunks are those of the input |
| Chunking.ChunkTextsBounded | src/indexing/parser.rs:294-354 | when every sentence fits within MAX - MIN, every chunk but the last has at most MAX characters and the last at most MAX + MIN; when no undersized remainder is merged, every chunk has at most MAX |
| Chunking.RunSentences | src/indexing/parser.rs:265-288 | a run of 19-character sentences separated by spaces is cut into the first sentence and then each further one with its leading space |
| Chunking.PackFill | src/indexing/parser.rs:294-326 | while a run holds at most 25 such sentences, adding one more never closes the chunk |
| Chunking.PackFlush | src/indexing/parser.rs:300-325 | a 26th sentence closes the 25-sentence chunk (499 characters) and opens the next |
| Chunking.PackHundred | src/indexing/parser.rs:294-326 | a hundred such sentences pack into three closed chunks of 25 sentences and an open fourth |
| Chunking.HundredChunks | src/indexing/parser.rs:251-357 | `s + " "` repeated 100 times, for any such sentence `s`, gives four chunks of 25 sentences and merges no remainder |
| Chunking.HundredBounded | src/indexing/parser.rs:251-357 | for any such sentence, its 100-fold repetition gives more than one chunk and none over MAX, by way of `ChunkTextsBounded` |
| Chunking.LargeTextChunks | src/indexing/parser.rs:503-521 | the long paragraph of the parser test, `"This is a sentence. "` repeated 100 times, gives four chunks of 499 characters |
| Chunking.LargeTextBounded | src/indexing/parser.rs:503-521 | what that test asserts: more than one chunk, and no chunk over MAX, by way of `ChunkTextsBounded` |
| Chunking.SmallRemainderMerged | src/indexing/parser.rs:338-343 | a short remainder is merged into the previous chunk even when that makes it longer than MAX |
| Chunking.NumberChunks | src/indexing/parser.rs:308-354 | one chunk per text |
| Chunking.NumberChunksSpec | src/indexing/parser.rs:308-354 | helper, by unfolding `NumberChunks`: the chunks keep the texts in order, with consecutive indices from the starting index, the context and the line range |
| Chunking.NumberedUnique | src/indexing/parser.rs:308-354 | chunks so numbered are determined by their texts |
| Chunking.SplitChunksSpec | src/indexing/parser.rs:251-357 | helper, by unfolding `SplitChunks`: the chunks of one paragraph have the chunk texts and are numbered with `BuildContext(headers)` |
| Chunking.PackSentences | src/indexing/parser.rs:294-326 | the packing loop emits the chunks and the open chunk that `PackFrom` gives, numbered consecutively |
| Chunking.FinishChunks | src/indexing/parser.rs:328-354 | the remainder step emits `Finish`'s texts, numbered consecutively, and returns the next index |
| Chunking.SplitTextIntelligently | src/indexing/parser.rs:251-357 | the method returns the specified chunks and the index after them |
| Parser.RunSnoc | src/indexing/parser.rs:140-222 | step helper, by unfolding: the scan of the events is a left fold of `Step` |
| Parser.StepOk | src/indexing/parser.rs:140-222 | every event step keeps the scan well formed and never moves the line back |
| Parser.StructureOk | src/indexing/parser.rs:125-248 | the chunks of a document are numbered 0, 1, 2, ... with well-ordered line ranges |
| Parser.StepContent | src/indexing/parser.rs:179-195 | body text outside headings is what a step adds to the content; heading text adds nothing |
| Parser.StructureKeepsBody | src/indexing/parser.rs:125-248 | the chunks hold exactly the non-whitespace characters of the body text outside headings, in order |
| Parser.NoTopHeadingNoTitle | src/indexing/parser.rs:171-173 | without a level-1 heading the scan finds no title |
| Parser.TitleSticks | src/indexing/parser.rs:171-173 | once a title is found later events never change it |
| Parser.FirstTopHeadingIsTitle | src/indexing/parser.rs:161-178 | the first level-1 heading, trimmed, is the title |
| Parser.HeadingNests | src/indexing/parser.rs:161-178 | after a heading of level L, the stack ends with that heading, has at most L entries, keeps the outer headings before it, and has exactly L entries when there were L-1 before |
| Parser.HeadingEvents | src/indexing/parser.rs:142-178 | a heading pushes its trimmed text at its level, and sets the title when it is level 1 and none is set |
| Parser.ParseStructure | src/indexing/parser.rs:125-248 | the event loop computes exactly `StructureOf` |
| Parser.ScanEvent | src/indexing/parser.rs:141-221 | one loop iteration computes exactly `Step` |
| Parser.DocumentTitle | src/indexing/parser.rs:52-57 | the heading title if any; otherwise the file stem; otherwise `Untitled` |
| Parser.ParseMarkdown | src/indexing/parser.rs:42-61 | chunks, headers and title come from the body after the frontmatter; the metadata title is the frontmatter's |
| Parser.ParseMarkdownFile | src/indexing/parser.rs:35-39 | an unreadable file is an I/O error, and only then; otherwise the chunks and title are those of its content |
| Parser.HeadingTitlesDocument | src/indexing/parser.rs:374-382 | a document with a level-1 heading is titled by it |
| Parser.StemTitlesDocument | src/indexing/parser.rs:384-392 | `test.md` without a level-1 heading is titled `test` |
| Parser.EmptyNote | src/indexing/parser.rs:394-403 | an empty note has no chunks and is titled by its stem |
| Paths.FileName | src/indexing/discovery.rs:79 | a file name is non-empty and has no `/` |
| Paths.Extension | src/indexing/discovery.rs:79 | an extension belongs to a file name and has no `.` or `/` |
| Paths.FileStem | src/indexing/parser.rs:53-55 | a stem exists exactly when a file name does, and starts that name |
| Paths.StemDotExtension | src/indexing/parser.rs:53-55 | the file name is the stem, followed by `.` and the extension when there is one |
| Paths.ExtensionLower | src/indexing/discovery.rs:79-83 | lower-casing a path lower-cases its extension and changes nothing else about it |
| Discovery.NotesFileIgnoresCase | src/indexing/discovery.rs:78-88 | whether a file is a note does not depend on the case of its path |
| Discovery.NotesFileByExtension | src/indexing/discovery.rs:78-88 | a path with an extension is a note exactly when the lower-cased extension is one of the six |
| Discovery.NotesFileByName | src/indexing/discovery.rs:78-88 | `dir/stem.ext` is a note exactly when `ext` lower-cased is one of the six |
| Discovery.BareNameIsNotNote | src/indexing/discovery.rs:78-88 | a name without an extension is not a note |
| Discovery.UpperCaseExtensionAccepted | src/indexing/discovery.rs:99 | `test.MD` is a note |
| Discovery.ScriptRejected | src/indexing/discovery.rs:106 | `test.js` is not a note |
| State.StateIn | src/storage/state.rs:99-120 | `get_file_state`: absent gives none, a stored state gives it, the raw model-id entry gives a decode error |
| State.ChangedIn | src/storage/state.rs:176-192 | an error exactly when the lookup fails; a new file has changed; otherwise changed exactly when mtime or hash differ |
| State.ModelIdIn | src/storage/state.rs:194-211 | the model id exactly when the meta key is present, as stored |
| State.StateStore.constructor | src/storage/state.rs:59-96 | the store opens over the existing table |
| State.StateStore.GetFileState | src/storage/state.rs:99-120 | returns `StateIn` for the path |
| State.StateStore.UpdateFileState | src/storage/state.rs:123-150 | the path maps to the new state and nothing else changes |
| State.StateStore.RemoveFile | src/storage/state.rs:153-173 | the path is dropped and nothing else changes |
| State.StateStore.HasFileChanged | src/storage/state.rs:176-192 | returns `ChangedIn` |
| State.StateStore.GetModelId | src/storage/state.rs:194-211 | returns `ModelIdIn` |
| State.StateStore.SetModelId | src/storage/state.rs:213-232 | the meta key holds the raw id and nothing else changes |
| State.UpdateThenUnchanged | src/storage/state.rs:123-192 | right after an update the file reads back and has not changed |
| State.UpdateThenChanged | src/storage/state.rs:123-192 | after an update the file has changed exactly when mtime or hash differ from it |
| State.AbsentIsChanged | src/storage/state.rs:185-187 | an unknown file has changed |
| State.RemoveThenAbsent | src/storage/state.rs:153-192 | a removed file is unknown again, so it has changed |
| State.ModelIdRoundTrip | src/storage/state.rs:194-232 | a set model id reads back; an empty store has none |
| State.ModelIdIsNotFileState | src/storage/state.rs:13 | the meta key does not decode as a file state |
| State.WritesAreLocal | src/storage/state.rs:123-173 | update and removal affect no other path and leave the model id alone |
| State.ModelIdIsLocal | src/storage/state.rs:213-232 | setting the model id affects no file's state |
| State.ChangeDetectionScenario | src/storage/state.rs:332-355 | new file changed, then unchanged after the update, changed by a new mtime or by a new hash |
| Vectors.CosineGuards | src/storage/vectors.rs:424-438 | length mismatch or an all-zero vector gives 0; otherwise the ratio |
| Vectors.ZeroVectorNorm | src/storage/vectors.rs:433-435 | an all-zero vector has zero norm |
| Vectors.EntryIn | src/storage/vectors.rs:144-168 | `get`: absent exactly when the id is not stored, an error exactly when its JSON does not decode |
| Vectors.VectorStore.constructor | src/storage/vectors.rs:77-116 | the store opens over the existing table |
| Vectors.VectorStore.Insert | src/storage/vectors.rs:119-141 | the entry is stored under its chunk id and nothing else changes |
| Vectors.VectorStore.Get | src/storage/vectors.rs:144-168 | returns `EntryIn` |
| Vectors.VectorStore.RemoveFile | src/storage/vectors.rs:172-232 | removes exactly the keys starting `path:` and returns how many there were |
| Vectors.VectorStore.Search | src/storage/vectors.rs:236-282 | the results are the top `limit` of all decodable entries by cosine score, `min(limit, n)` of them |
| Vectors.VectorStore.SearchScoped | src/storage/vectors.rs:286-332 | the same, over the entries whose key's part before the first `:` is an allowed file |
| Vectors.VectorStore.GetFileVectors | src/storage/vectors.rs:336-368 | exactly the decodable entries under `path:`, each once, sorted by chunk index |
| Vectors.VectorStore.GetFileCount | src/storage/vectors.rs:371-396 | the number of distinct file parts of the keys |
| Vectors.SearchHits | src/storage/vectors.rs:236-282 | each hit is a stored entry with its cosine score, in descending order |
| Vectors.ScopedHits | src/storage/vectors.rs:286-332 | each scoped hit comes from an allowed file and carries its cosine score |
| Vectors.NothingToFind | src/storage/vectors.rs:286-332 | a search over nothing finds nothing, and an empty scope is such a search |
| Vectors.FileOrder | src/storage/vectors.rs:336-368 | the file's vectors are exactly its stored entries, in chunk order |
| Vectors.ChunkIdParts | src/storage/vectors.rs:53-55 | a chunk id starts `path:`, and its file part is the path when the path has no `:` |
| Vectors.ChunkIdInjective | src/storage/vectors.rs:53-55 | for paths without `:`, distinct (path, index) pairs have distinct ids |
| Vectors.ColonInPath | src/storage/vectors.rs:184-196 | a path containing `:` is misread: its chunks also match `notes:`, and its file part is `notes` |
| Vectors.InsertThenGet | src/storage/vectors.rs:119-168 | an inserted entry reads back; other ids are unaffected |
| Vectors.RemoveDeletesEntry | src/storage/vectors.rs:595-645 | after removing its file an inserted entry is gone, and entries of other files stay |
| Vectors.FileCountAfterRemove | src/storage/vectors.rs:699-733 | removing a file lowers the file set by exactly that file |
| TopK.OfferKeepsTopK | src/storage/vectors.rs:262-268 | offering one more scored entry to the heap keeps it the top-k of the larger pool |
| TopK.TopKSize | src/storage/vectors.rs:262-276 | a top-k has `min(k, pool size)` entries |
| TopK.ScanIsTopK | src/storage/vectors.rs:249-270 | scanning every key yields the top-k of the pool |
| TopK.TableKeys | src/storage/vectors.rs:252-257 | the table is iterated as a duplicate-free key sequence covering every key |
| TopK.TruncateTopK | src/ui/tui/search.rs:84-86 | sorting descending and truncating to k yields the top-k |
| Ranking.ParseFileFilterQuery | src/ui/tui/search.rs:92-110 | the loop yields the filter of the tokens and the query of the remaining tokens joined by spaces |
| Ranking.FilterIsLast | src/ui/tui/search.rs:96-104 | the last `file:` token with a non-empty rest sets the filter, cleaned of quotes and trailing punctuation |
| Ranking.NoFilter | src/ui/tui/search.rs:96-104 | there is no filter exactly when no token is a filter token |
| Ranking.BareFilterStays | src/ui/tui/search.rs:97-106 | a bare `file:` stays in the query, and the filter found is the one found without it, unless a later token sets it |
| Ranking.QuotedFilterExample | src/ui/tui/search.rs:99-102 | `notes file:"todo.md", meeting` gives filter `todo.md` and query `notes meeting` |
| Ranking.MatchIsContains | src/ui/tui/search.rs:113-125 | a path matches exactly when the lower-cased path contains the lower-cased filter; the file-name fallback adds nothing |
| Ranking.RetainedExactly | src/ui/tui/search.rs:48-50 | retained are exactly the candidates whose path matches |
| Ranking.Bonus | src/ui/tui/search.rs:56-66 | the bonus lies between 0 and 0.05 + 0.10 + 0.15 |
| Ranking.BoostBounds | src/ui/tui/search.rs:54-69 | a boosted score is at most 1, at least the original score when that is at most 1, and at most 0.30 above it; without a match it is only capped |
| Ranking.BoostMonotone | src/ui/tui/search.rs:67 | boosting keeps the order of scores |
| Ranking.BoostIgnoresCase | src/ui/tui/search.rs:58-66 | the bonus does not depend on the case of the fields |
| Ranking.BestFiles | src/ui/tui/search.rs:73-83 | one best value per file present among the candidates |
| Ranking.BestIsCandidate | src/ui/tui/search.rs:73-83 | each file's best is a candidate of that file |
| Ranking.BestIsMaximum | src/ui/tui/search.rs:73-83 | no candidate outscores its file's best |
| Ranking.BestIsFirst | src/ui/tui/search.rs:78 | on a tie the earliest candidate stays (the strict `>`) |
| Ranking.RetainMatching | src/ui/tui/search.rs:48-50 | the loop computes `Retained` |
| Ranking.BoostScores | src/ui/tui/search.rs:54-69 | the loop computes the boosted candidates |
| Ranking.BestPerFile | src/ui/tui/search.rs:73-83 | the loop computes `BestByFile` |
| Ranking.TopResults | src/ui/tui/search.rs:84-86 | the shown results are the top 5 of the per-file bests |
| Ranking.PerformSearch | src/ui/tui/search.rs:18-89 | a blank query gives no results; an embedding error passes through; no embedding is a model error; otherwise the top 5 per-file bests of the filtered, boosted candidates from a 50-best unscoped or 200-best scoped search |
| Ranking.ShownResults | src/ui/tui/search.rs:71-88 | at most k results, descending, one per file, each a candidate, none outscored by a candidate of its own file |
| Ranking.NarrowedPassFilter | src/ui/tui/search.rs:47-69 | with a filter every result's path contains it, ignoring case, and comes from a fetched candidate |
| Indexing.ParseChunks | src/indexing/parser.rs:35-61 | the chunks of the file's body, or none when it cannot be read |
| Indexing.ChunksNumbered | src/indexing/parser.rs:125-248 | a parsed note's chunks are numbered from 0 |
| Indexing.Entries | src/ui/watch.rs:209-220 | the zip of chunks and embeddings has as many entries as the shorter of the two |
| Indexing.InsertAll | src/ui/watch.rs:223-227 | the insert loop stores the entries in order, skipping those whose insert fails |
| Indexing.InsertedKeeps | src/ui/watch.rs:223-227 | an id none of the entries has is untouched |
| Indexing.InsertedHas | src/ui/watch.rs:223-227 | with distinct ids each successful insert is stored under its id |
| Indexing.InsertedFrom | src/ui/watch.rs:223-227 | every stored id holds a successful entry with that id, or what it held before |
| Indexing.EntriesDistinct | src/ui/tui.rs:400-411 | the entries of one note have distinct ids |
| Indexing.EntriesUnder | src/ui/tui.rs:400-411 | every id of a note's entries starts with `path:` |
| Watch.IndexFile | src/ui/watch.rs:190-231 | removes the file's old chunks; a parse or embedding failure is an error; otherwise inserts the entries |
| Watch.ProcessPath | src/ui/watch.rs:102-182 | one path is handled as `PathStep` states |
| Watch.ProcessPaths | src/ui/watch.rs:100-184 | the loop over paths computes the fold `Batch` |
| Watch.ProcessEvents | src/ui/watch.rs:81-187 | a store that fails to open is an error with nothing changed; a model that fails to load skips the batch without error; otherwise the stores become `Batch` over every path of every event |
| Watch.BatchAppend | src/ui/watch.rs:100-102 | a batch of two path lists is the second run after the first |
| Watch.NonNoteUntouched | src/ui/watch.rs:104-106 | a path that is not a note changes nothing |
| Watch.NonNoteBatch | src/ui/watch.rs:100-106 | a batch of non-notes changes nothing |
| Watch.DeletedForgotten | src/ui/watch.rs:109-128 | a deleted note inside the root loses its state and all its chunks, and nothing else changes |
| Watch.SkippedPaths | src/ui/watch.rs:131-181 | outside the root, a non-UTF-8 path, or a failed mtime or hash changes nothing |
| Watch.SkipOnlyUnchanged | src/ui/watch.rs:142-168 | only `Ok(false)` from the change test skips; a change or a lookup error re-indexes |
| Watch.ReindexIsLocal | src/ui/watch.rs:154-168 | re-indexing a note touches no other file's state or chunks |
| Watch.ReindexFailed | src/ui/watch.rs:154-168 | a failed parse or embedding leaves the state alone and the note without chunks |
| Watch.ReindexStored | src/ui/watch.rs:154-168 | after a successful re-index the state holds mtime, hash and time; every successful entry is stored with the chunk's fields; every chunk of the note is one of them |
| Watch.PathStepIdempotent | src/ui/watch.rs:102-182 | handling the same path twice is handling it once |
| Tui.Passage | src/ui/tui.rs:387-397 | a blank context embeds the text alone, otherwise context, newline, text |
| Tui.Passages | src/ui/tui.rs:387-397 | one passage per chunk |
| Tui.IndexOne | src/ui/tui.rs:372-419 | one file is handled as `FileStep` states; on an error nothing changes |
| Tui.ResetIfStale | src/ui/tui.rs:345-352 | the stores are as `Reopened` states, for the given outcome of each best-effort removal |
| Tui.RunPass | src/ui/tui.rs:372-420 | the loop computes the fold `Pass`, stopping at the first error |
| Tui.ResetOnModelChange | src/ui/tui.rs:345-352 | a matching model id keeps both stores; any other, or none, empties exactly the stores whose removal succeeded, both when both succeed |
| Tui.StateSurvivesReset | src/ui/tui.rs:348-351 | if only the vector database is removed, a file the surviving states report unchanged is not re-indexed and the vector store stays empty |
| Tui.SuccessKeepsNextIndex | src/ui/tui.rs:423 | once the model id is recorded, the next selection keeps both stores |
| Tui.FailureSticks | src/ui/tui.rs:382-399 | after the first error the rest of the files are not visited |
| Tui.UnchangedNotReembedded | src/ui/tui.rs:380-383 | an unchanged file leaves the stores alone |
| Tui.ChangedFileStored | src/ui/tui.rs:382-412 | a changed file's state is updated and each successful entry is stored with the chunk's fields |
| Tui.StaleChunksSurvive | src/ui/tui.rs:400-411 | the TUI does not remove old chunks: other files' chunks and chunk numbers past the new count survive |
| Tui.FileStepSettles | src/ui/tui.rs:372-420 | indexing the same file again changes nothing more |
| Tui.SearchTui.constructor | src/ui/tui.rs:69-93 | the welcome screen, no status, no scope, no store, the model not ready |
| Tui.SearchTui.Fail | src/ui/tui.rs:434-439 | an error shows as the status and returns to directory selection; nothing else changes |
| Tui.SearchTui.SetScope | src/ui/tui.rs:365-370 | the scope becomes exactly the relative paths of the discovered files |
| Tui.SearchTui.SelectDirectory | src/ui/tui.rs:320-442 | every branch: model error, missing model, store errors, no files, a pass error, each leaving `hasModel` as it was (and a model error also `modelReady`); and on success the model id is recorded, the scope set, the stores as `Pass` leaves them after the reset, and the search screen shown |

## Left out

- Storage faults other than a failing insert and a failing reset removal are not modelled.
  Opening a store is a `Result` parameter (`opening`, `reopening`), and whether each of the two
  best-effort file removals of a model-id reset succeeds is a `Tui.Wipe` parameter. Transaction, table and commit errors of `update`, `remove`,
  `set_model_id` and `remove_file` are not modelled, because both loops ignore them or only log
  them.
- `get_model_id` read errors in `select_directory` are not modelled; the model reads the store as
  total.
- JSON serialisation is abstract. A file state is stored as a `Json` value, and an entry that fails
  to decode is `Undecodable`. serde's escaping and byte format are not modelled.
- The iteration order of the redb table is left abstract: any duplicate-free order of the keys is
  allowed, which is why the searches are specified by `IsTopK` and not by a tie order.
- Scores are `real`, not `f32`. Rounding, NaN and the `partial_cmp` fallback to `Equal` are not
  modelled.
- The cosine ratio `dot / (|a| |b|)` is a parameter (`ratio`). Only the guard cases are computed.
- Vectors.CosineGuards: does not state the converse (a zero norm means an all-zero vector), because
  that needs real square roots.
- Embedding inference (`embed_passages`, `embed_queries`, with its `passage:`/`query:` prefixes)
  is an oracle in `Env` or a parameter.
- Lengths and slices count characters, not UTF-8 bytes. Most notes are ASCII, where the two agree.
- Lower-casing is ASCII-only.
- Whitespace is the ASCII set: space and 9 to 13.
- The clock is one reading `now` per batch or pass, not a reading per file.
- The Markdown tokenizer (pulldown-cmark) is an oracle producing `Parser.Event`s, and the YAML
  parser an oracle producing `Yaml` values.
- Chunking.ChunkTextsBounded: a merged remainder can exceed MAX by up to MIN characters, as
  `Chunking.SmallRemainderMerged` shows. The model follows the code, not the promise that no chunk
  exceeds MAX unless a single sentence does. The MAX bound is proved for every chunk only when no
  remainder is merged.
- The long-paragraph parser test is stated for the paragraph alone (`Chunking.LargeTextChunks`),
  not for the whole note with its `# Title` heading, because the Markdown tokenizer is an oracle.
- Parser.ParseMarkdown: states the metadata through its title only.
  `Frontmatter.ParseFrontmatter` states tags and custom fields.
- The document title never comes from the frontmatter, because the code takes it from the first
  level-1 heading or the file stem, and the model does the same.
- A heading flushes any open text as a chunk before it, as the code does.
- `remove_file` and `search_scoped` disagree on paths that contain `:`. The first matches the
  `path:` prefix; the second takes the part before the first `:`. `Vectors.ColonInPath` exhibits
  this, and the lemmas about file parts assume paths without `:`.
- The watcher takes the relative path from an oracle (`relative` in `Env`). The TUI pass takes
  it from `Found.relative` in the `discover_files` result. Both stand for `strip_prefix`, which is
  not modelled.
- The debouncer and the watch loop around `process_events_static` are not modelled (threads and
  channels).
- `discover_files` is a `Result` parameter of `SelectDirectory`, a directory walk this model does
  not contain. Only `is_notes_file` from that file is modelled.
- The rest of the TUI is not modelled: key handling, rendering, directory listing and the search
  input loop outside `select_directory`.
- The CLI, configuration, and the legacy top-level `parser.rs`, `state.rs`, `vectors.rs` and
  `discovery.rs` files are not modelled; they are not the live code path.
- The embedding model object is not recorded on `SearchTui`; `hasModel` stands for
  `self.model = Some(model)`.
- The claim that an unchanged file is skipped without calling the model is stated as "the stores
  are unchanged" (`Tui.UnchangedNotReembedded`, `Watch.SkipOnlyUnchanged`), because calls to an
  oracle are not observable.
