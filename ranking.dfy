/**
 * The search pipeline behind the interactive search screen: a raw query splits into an
 * optional `file:` filter and a semantic query; the semantic query is embedded and sent to
 * the vector store; the candidates are narrowed by the filter, boosted for literal matches,
 * reduced to the best candidate per file, and the best few are shown, best first.
 *
 * The embedding model is a parameter (`embed`), as is the similarity arithmetic (`ratio`).
 * Scores are real numbers; the single-precision rounding of the original is not modelled.
 */
module Ranking {
  import opened Wrappers
  import opened Text
  import opened Paths
  import opened TopK
  import opened Vectors

  /** How many candidates an unscoped search fetches. */
  const SearchCandidatesLimit: nat := 50
  /** How many candidates a search scoped to the active files fetches. */
  const ScopedSearchCandidatesLimit: nat := 200
  /** How many results the screen shows. */
  const MaxResultsDisplayed: nat := 5

  /** Lexical boosts for a literal match of the query in the path, the context and the text. */
  const LexicalBoostPath: real := 0.05
  const LexicalBoostContext: real := 0.10
  const LexicalBoostText: real := 0.15

  // ------------------------------------------------------------------ the query

  const FilterPrefix: string := "file:"
  /** The characters trimmed from both ends of a filter: quotes, comma, semicolon, period. */
  const FilterPunctuation: set<char> := {'"', '\'', ',', ';', '.'}

  /** A token `file:X` with a non-empty `X` sets the filter; a bare `file:` does not. */
  predicate IsFilterToken(t: string) {
    StartsWith(t, FilterPrefix) && |t| > |FilterPrefix|
  }

  /** The filter a filter token sets. */
  function Cleaned(t: string): string
    requires IsFilterToken(t)
  {
    TrimBy(t[|FilterPrefix|..], FilterPunctuation)
  }

  /** The filter of a token list: the cleaned text of its last filter token, if any. */
  function FilterOf(tokens: seq<string>): Option<string>
    decreases |tokens|
  {
    if tokens == [] then None
    else if IsFilterToken(tokens[|tokens| - 1]) then Some(Cleaned(tokens[|tokens| - 1]))
    else FilterOf(tokens[..|tokens| - 1])
  }

  /** The tokens of the semantic query: every token that is not a filter token, in order. */
  function QueryTokens(tokens: seq<string>): seq<string>
    decreases |tokens|
  {
    if tokens == [] then []
    else
      var init, t := tokens[..|tokens| - 1], tokens[|tokens| - 1];
      if IsFilterToken(t) then QueryTokens(init) else QueryTokens(init) + [t]
  }

  /** The semantic query of a raw query: its non-filter tokens joined by single spaces. */
  function SemanticQuery(raw: string): string {
    Join(QueryTokens(Words(raw)), " ")
  }

  /** `parse_file_filter_query`: one pass over the whitespace-separated tokens. */
  method ParseFileFilterQuery(raw: string) returns (filter: Option<string>, query: string)
    ensures filter == FilterOf(Words(raw))
    ensures query == SemanticQuery(raw)
  {
    var tokens := Words(raw);
    filter := None;
    var parts: seq<string> := [];
    for i := 0 to |tokens|
      invariant filter == FilterOf(tokens[..i]) && parts == QueryTokens(tokens[..i])
    {
      var token := tokens[i];
      assert tokens[..i + 1][..i] == tokens[..i];
      if StartsWith(token, FilterPrefix) {
        var rest := token[|FilterPrefix|..];
        if rest != [] {
          filter := Some(TrimBy(rest, FilterPunctuation));
          continue;
        }
      }
      parts := parts + [token];
    }
    assert tokens[..|tokens|] == tokens;
    query := Join(parts, " ");
  }

  /** The filter is that of the last filter token, whatever comes after it. */
  lemma {:induction false} FilterIsLast(tokens: seq<string>, i: nat)
    requires i < |tokens| && IsFilterToken(tokens[i])
    requires forall j :: i < j < |tokens| ==> !IsFilterToken(tokens[j])
    ensures FilterOf(tokens) == Some(Cleaned(tokens[i]))
    decreases |tokens|
  {
    if i < |tokens| - 1 {
      var init := tokens[..|tokens| - 1];
      assert forall j :: 0 <= j < |init| ==> init[j] == tokens[j];
      FilterIsLast(init, i);
    }
  }

  /** No filter exactly when no token is a filter token. */
  lemma {:induction false} NoFilter(tokens: seq<string>)
    ensures FilterOf(tokens) == None <==> forall i :: 0 <= i < |tokens| ==> !IsFilterToken(tokens[i])
    decreases |tokens|
  {
    if tokens != [] {
      var init := tokens[..|tokens| - 1];
      assert forall j :: 0 <= j < |init| ==> init[j] == tokens[j];
      NoFilter(init);
    }
  }

  /** The query tokens of two token lists in a row are those of each, in a row. */
  lemma {:induction false} QueryTokensAppend(a: seq<string>, b: seq<string>)
    ensures QueryTokens(a + b) == QueryTokens(a) + QueryTokens(b)
    decreases |b|
  {
    if b != [] {
      var init := b[..|b| - 1];
      assert (a + b)[..|a + b| - 1] == a + init;
      QueryTokensAppend(a, init);
    } else {
      assert a + b == a;
    }
  }

  /** A bare `file:` stays in the semantic query and sets no filter. */
  lemma BareFilterStays(a: seq<string>, b: seq<string>)
    ensures QueryTokens(a + ["file:"] + b) == QueryTokens(a) + ["file:"] + QueryTokens(b)
    ensures FilterOf(a + ["file:"] + b) == FilterOf(a + b) || FilterOf(b).Some?
  {
    QueryTokensAppend(a + ["file:"], b);
    QueryTokensAppend(a, ["file:"]);
    assert QueryTokens(["file:"]) == ["file:"] by {
      assert ["file:"][..0] == [];
    }
    if FilterOf(b).None? {
      NoFilter(b);
      BareFilterTail(a, b);
    }
  }

  /** With no filter token after it, a bare `file:` leaves the filter to the tokens before it. */
  lemma BareFilterTail(a: seq<string>, b: seq<string>)
    requires forall i :: 0 <= i < |b| ==> !IsFilterToken(b[i])
    ensures FilterOf(a + ["file:"] + b) == FilterOf(a + b)
  {
    FilterSkipsTail(a + ["file:"], b);
    FilterSkipsTail(a, b);
    assert (a + ["file:"])[..|a|] == a;
  }

  lemma {:induction false} FilterSkipsTail(a: seq<string>, b: seq<string>)
    requires forall i :: 0 <= i < |b| ==> !IsFilterToken(b[i])
    ensures FilterOf(a + b) == FilterOf(a)
    decreases |b|
  {
    if b == [] {
      assert a + b == a;
    } else {
      var init := b[..|b| - 1];
      assert (a + b)[..|a + b| - 1] == a + init;
      assert (a + b)[|a + b| - 1] == b[|b| - 1];
      FilterSkipsTail(a, init);
    }
  }

  /** `file:"todo.md",` sets the filter `todo.md`. */
  lemma CleanedExample()
    ensures IsFilterToken("file:\"todo.md\",") && Cleaned("file:\"todo.md\",") == "todo.md"
  {
    var t := "file:\"todo.md\",";
    assert t[..5] == FilterPrefix;
    var rest := t[5..];
    assert rest == "\"todo.md\",";
    assert rest[0] in FilterPunctuation && rest[1..] == "todo.md\",";
    var inner := rest[1..];
    assert inner[0] !in FilterPunctuation;
    assert inner[|inner| - 1] in FilterPunctuation && inner[..|inner| - 1] == "todo.md\"";
    var inner2 := inner[..|inner| - 1];
    assert inner2[|inner2| - 1] in FilterPunctuation && inner2[..|inner2| - 1] == "todo.md";
    var core := inner2[..|inner2| - 1];
    assert core[|core| - 1] !in FilterPunctuation;
    assert TrimEndBy(core, FilterPunctuation) == core;
    assert TrimEndBy(inner, FilterPunctuation) == core;
    assert TrimBy(rest, FilterPunctuation) == TrimBy(inner, FilterPunctuation);
  }

  /** `notes file:"todo.md", meeting`: the filter is `todo.md`, the query `notes meeting`. */
  lemma QuotedFilterExample()
    ensures FilterOf(["notes", "file:\"todo.md\",", "meeting"]) == Some("todo.md")
    ensures QueryTokens(["notes", "file:\"todo.md\",", "meeting"]) == ["notes", "meeting"]
  {
    var tokens := ["notes", "file:\"todo.md\",", "meeting"];
    CleanedExample();
    assert tokens[0][..5] != FilterPrefix by { assert tokens[0][0] == 'n'; }
    assert tokens[2][..5] != FilterPrefix by { assert tokens[2][0] == 'm'; }
    FilterIsLast(tokens, 1);
    assert tokens == [tokens[0]] + [tokens[1]] + [tokens[2]];
    QueryTokensAppend([tokens[0]] + [tokens[1]], [tokens[2]]);
    QueryTokensAppend([tokens[0]], [tokens[1]]);
    assert [tokens[0]][..0] == [] && [tokens[1]][..0] == [] && [tokens[2]][..0] == [];
  }

  // ---------------------------------------------------------------- the filter

  /**
   * `path_matches_filter`: the lower-cased filter occurs in the lower-cased path, or in the
   * lower-cased file name.
   */
  function PathMatchesFilter(filePath: string, filter: string): bool {
    var f := ToLower(filter);
    Contains(ToLower(filePath), f) ||
    match FileName(filePath)
    case Some(name) => Contains(ToLower(name), f)
    case None => false
  }

  /** What occurs in a prefix occurs in the whole text. */
  lemma {:induction false} ContainsInPrefix(s: string, j: nat, needle: string)
    requires j <= |s| && Contains(s[..j], needle)
    ensures Contains(s, needle)
    decreases j
  {
    if !StartsWith(s[..j], needle) {
      assert s[..j][1..] == s[1..][..j - 1];
      ContainsInPrefix(s[1..], j - 1, needle);
    }
  }

  /**
   * The file name is part of the path, so the second test never adds a match: the filter
   * matches exactly when it occurs in the path, ignoring case.
   */
  lemma MatchIsContains(filePath: string, filter: string)
    ensures PathMatchesFilter(filePath, filter) == Contains(ToLower(filePath), ToLower(filter))
  {
    if FileName(filePath).Some? {
      var name := FileName(filePath).value;
      var i := FileNameSlice(filePath);
      var lower := ToLower(filePath);
      if Contains(ToLower(name), ToLower(filter)) {
        ToLowerSuffix(filePath, i);
        assert ToLower(name) == lower[i..][..|name|];
        ContainsInPrefix(lower[i..], |name|, ToLower(filter));
        ContainsInSuffix(lower, i, ToLower(filter));
      }
    }
  }

  /** `retain`: the candidates that pass the filter, in their order. */
  function Retained(rs: seq<(VectorEntry, real)>, filter: string): (r: seq<(VectorEntry, real)>)
    decreases |rs|
  {
    if rs == [] then []
    else
      var init, last := rs[..|rs| - 1], rs[|rs| - 1];
      if PathMatchesFilter(last.0.filePath, filter) then Retained(init, filter) + [last] else Retained(init, filter)
  }

  /** The retained candidates are the candidates that pass the filter, each kept in place. */
  lemma {:induction false} RetainedExactly(rs: seq<(VectorEntry, real)>, filter: string)
    ensures forall x :: x in Retained(rs, filter) <==> x in rs && PathMatchesFilter(x.0.filePath, filter)
    ensures |Retained(rs, filter)| <= |rs|
    decreases |rs|
  {
    if rs != [] {
      var init := rs[..|rs| - 1];
      assert rs == init + [rs[|rs| - 1]];
      RetainedExactly(init, filter);
    }
  }

  // ----------------------------------------------------------------- the boost

  /** The bonus for literal matches of the lower-cased query in the path, the context and the text. */
  function Bonus(e: VectorEntry, q: string): (b: real)
    ensures 0.0 <= b <= LexicalBoostPath + LexicalBoostContext + LexicalBoostText
  {
    (if Contains(ToLower(e.filePath), q) then LexicalBoostPath else 0.0) +
    (if Contains(ToLower(e.context), q) then LexicalBoostContext else 0.0) +
    (if Contains(ToLower(e.text), q) then LexicalBoostText else 0.0)
  }

  /** A boosted score: the similarity plus the bonus, capped at 1; no boost for an empty query. */
  function Boost(e: VectorEntry, sim: real, q: string): real {
    if q == [] then sim
    else if sim + Bonus(e, q) < 1.0 then sim + Bonus(e, q) else 1.0
  }

  /** The boost never lowers a score of at most 1, adds at most 0.30, and caps at 1. */
  lemma BoostBounds(e: VectorEntry, sim: real, q: string)
    requires q != []
    ensures Boost(e, sim, q) <= 1.0
    ensures sim <= 1.0 ==> sim <= Boost(e, sim, q)
    ensures Boost(e, sim, q) <= sim + 0.30
    ensures !Contains(ToLower(e.filePath), q) && !Contains(ToLower(e.context), q) && !Contains(ToLower(e.text), q)
            ==> Boost(e, sim, q) == if sim < 1.0 then sim else 1.0
  {
  }

  /** Entries that differ only in letter case get the same bonus. */
  lemma BoostIgnoresCase(a: VectorEntry, b: VectorEntry, q: string)
    requires ToLower(a.filePath) == ToLower(b.filePath) && ToLower(a.context) == ToLower(b.context)
    requires ToLower(a.text) == ToLower(b.text)
    ensures Bonus(a, q) == Bonus(b, q)
  {
  }

  /** A higher similarity never gets a lower boosted score. */
  lemma BoostMonotone(e: VectorEntry, s1: real, s2: real, q: string)
    requires s1 <= s2
    ensures Boost(e, s1, q) <= Boost(e, s2, q)
  {
  }

  /** The candidates with boosted scores. */
  function BoostedAll(rs: seq<(VectorEntry, real)>, q: string): (r: seq<(VectorEntry, real)>)
    ensures |r| == |rs|
  {
    seq(|rs|, i requires 0 <= i < |rs| => (rs[i].0, Boost(rs[i].0, rs[i].1, q)))
  }

  // ------------------------------------------------------------ best per file

  /**
   * `best_by_file`: for each file among the candidates, the first candidate with its highest
   * score; a later candidate replaces the kept one only with a strictly greater score.
   */
  function BestByFile(rs: seq<(VectorEntry, real)>): map<string, (VectorEntry, real)>
    decreases |rs|
  {
    if rs == [] then map[]
    else
      var m := BestByFile(rs[..|rs| - 1]);
      var last := rs[|rs| - 1];
      var p := last.0.filePath;
      if p in m && !(last.1 > m[p].1) then m else m[p := last]
  }

  /** The files of the candidates. */
  function FilesIn(rs: seq<(VectorEntry, real)>): set<string> {
    set i | 0 <= i < |rs| :: rs[i].0.filePath
  }

  /** One kept candidate per file of the candidates, and no other file. */
  lemma {:induction false} BestFiles(rs: seq<(VectorEntry, real)>)
    ensures BestByFile(rs).Keys == FilesIn(rs)
    decreases |rs|
  {
    if rs != [] {
      var init, last := rs[..|rs| - 1], rs[|rs| - 1];
      BestFiles(init);
      assert FilesIn(rs) == FilesIn(init) + {last.0.filePath} by {
        forall f | f in FilesIn(rs) ensures f in FilesIn(init) + {last.0.filePath} {
          var i :| 0 <= i < |rs| && rs[i].0.filePath == f;
          if i < |init| { assert init[i] == rs[i]; }
        }
        forall f | f in FilesIn(init) ensures f in FilesIn(rs) {
          var i :| 0 <= i < |init| && init[i].0.filePath == f;
          assert rs[i] == init[i];
        }
      }
    }
  }

  /** The kept candidate of a file is one of that file's candidates. */
  lemma {:induction false} BestIsCandidate(rs: seq<(VectorEntry, real)>)
    ensures forall p :: p in BestByFile(rs) ==> BestByFile(rs)[p] in rs && BestByFile(rs)[p].0.filePath == p
    decreases |rs|
  {
    if rs != [] {
      var init := rs[..|rs| - 1];
      BestIsCandidate(init);
      assert forall x :: x in init ==> x in rs;
    }
  }

  /** No candidate of a file scores more than the kept one. */
  lemma {:induction false} BestIsMaximum(rs: seq<(VectorEntry, real)>)
    ensures forall j :: 0 <= j < |rs| ==>
      rs[j].0.filePath in BestByFile(rs) && rs[j].1 <= BestByFile(rs)[rs[j].0.filePath].1
    decreases |rs|
  {
    if rs != [] {
      var init := rs[..|rs| - 1];
      BestIsMaximum(init);
      assert forall j :: 0 <= j < |init| ==> init[j] == rs[j];
    }
  }

  /** A candidate tying with the kept one of its file does not come before the kept one. */
  lemma {:induction false} BestIsFirst(rs: seq<(VectorEntry, real)>, j: nat)
    requires j < |rs| && rs[j].0.filePath in BestByFile(rs)
    requires rs[j].1 == BestByFile(rs)[rs[j].0.filePath].1
    ensures BestByFile(rs)[rs[j].0.filePath] in rs[..j + 1]
    decreases |rs|
  {
    var init, last := rs[..|rs| - 1], rs[|rs| - 1];
    var p := rs[j].0.filePath;
    if j == |init| {
      BestIsCandidate(rs);
      assert rs[..j + 1] == rs;
    } else {
      BestIsMaximum(init);
      var m := BestByFile(init);
      assert rs[j] == init[j] && rs[..j + 1] == init[..j + 1];
      BestIsFirst(init, j);
    }
  }

  // --------------------------------------------------------------- the ranking

  /** The per-file bests as candidates for the final selection, keyed by file. */
  function Finalists(best: map<string, (VectorEntry, real)>): (r: map<string, Scored<VectorEntry>>)
    ensures Keyed(r) && r.Keys == best.Keys
  {
    map p | p in best :: Scored(p, best[p].0, best[p].1)
  }

  /**
   * The candidate list `perform_search` ranks, after the filter and the boost, for the
   * candidates the store returned.
   */
  function Narrowed(candidates: seq<(VectorEntry, real)>, filter: Option<string>, q: string): seq<(VectorEntry, real)> {
    var kept := if filter.Some? then Retained(candidates, filter.value) else candidates;
    BoostedAll(kept, ToLower(q))
  }

  /** `results.retain(..)`: keeps, in order, the candidates whose path matches the filter. */
  method RetainMatching(results: seq<(VectorEntry, real)>, filter: string) returns (kept: seq<(VectorEntry, real)>)
    ensures kept == Retained(results, filter)
  {
    kept := [];
    for i := 0 to |results|
      invariant kept == Retained(results[..i], filter)
    {
      assert results[..i + 1][..i] == results[..i];
      if PathMatchesFilter(results[i].0.filePath, filter) {
        kept := kept + [results[i]];
      }
    }
    assert results[..|results|] == results;
  }

  /** The boosting loop: each score in place, for a non-empty lower-cased query. */
  method BoostScores(results: seq<(VectorEntry, real)>, qLower: string) returns (boosted: seq<(VectorEntry, real)>)
    ensures boosted == BoostedAll(results, qLower)
  {
    boosted := results;
    if qLower != [] {
      for i := 0 to |boosted|
        invariant |boosted| == |results|
        invariant forall j :: 0 <= j < i ==> boosted[j] == (results[j].0, Boost(results[j].0, results[j].1, qLower))
        invariant forall j :: i <= j < |results| ==> boosted[j] == results[j]
      {
        var (entry, sim) := boosted[i];
        var bonus := 0.0;
        if Contains(ToLower(entry.filePath), qLower) {
          bonus := bonus + LexicalBoostPath;
        }
        if Contains(ToLower(entry.context), qLower) {
          bonus := bonus + LexicalBoostContext;
        }
        if Contains(ToLower(entry.text), qLower) {
          bonus := bonus + LexicalBoostText;
        }
        var boostedSim := if sim + bonus < 1.0 then sim + bonus else 1.0;
        boosted := boosted[i := (entry, boostedSim)];
      }
    }
  }

  /** The `best_by_file` loop: `entry(..).and_modify(..).or_insert_with(..)` per candidate. */
  method BestPerFile(results: seq<(VectorEntry, real)>) returns (best: map<string, (VectorEntry, real)>)
    ensures best == BestByFile(results)
  {
    best := map[];
    for i := 0 to |results|
      invariant best == BestByFile(results[..i])
    {
      assert results[..i + 1][..i] == results[..i];
      var (entry, sim) := results[i];
      var path := entry.filePath;
      if path in best {
        if sim > best[path].1 {
          best := best[path := (entry, sim)];
        }
      } else {
        best := best[path := (entry, sim)];
      }
    }
    assert results[..|results|] == results;
  }

  /** A full descending insertion of every candidate, cut to `k`, selects the top `k`. */
  lemma SortedThenCut<T>(pool: map<string, Scored<T>>, keys: seq<string>, h: seq<Scored<T>>, k: nat)
    requires Keyed(pool) && Once(keys) && Elems(keys) == pool.Keys && h == Scan(pool, keys, |pool| + 1)
    ensures |h| > k ==> IsTopK(h[..k], pool, k)
    ensures |h| <= k ==> IsTopK(h, pool, k)
  {
    ScanIsTopK(pool, keys, |pool| + 1);
    RestrictAll(pool, Elems(keys));
    TruncateTopK(h, pool, |pool| + 1, k);
    assert h[..|h|] == h;
  }

  /** One value of the map goes in at its place in the descending list. */
  method InsertValue(sorted: seq<Scored<VectorEntry>>, key: string, best: map<string, (VectorEntry, real)>)
    returns (h: seq<Scored<VectorEntry>>)
    requires key in best
    ensures h == Push(sorted, Finalists(best)[key])
  {
    var (entry, score) := best[key];
    h := Push(sorted, Scored(key, entry, score));
  }

  /**
   * `into_values`, a descending sort and `truncate`: the values come out in an order the
   * model leaves open, each is inserted at its place, and the first few are kept.
   */
  method TopResults(best: map<string, (VectorEntry, real)>)
    returns (shown: seq<(VectorEntry, real)>, ghost order: seq<Scored<VectorEntry>>)
    ensures IsTopK(order, Finalists(best), MaxResultsDisplayed)
    ensures shown == Hits(order)
  {
    ghost var pool := Finalists(best);
    var keys := TableKeys(best);
    var deduped: seq<Scored<VectorEntry>> := [];
    for i := 0 to |keys|
      invariant deduped == Scan(pool, keys[..i], |pool| + 1)
    {
      var key := keys[i];
      PrefixSnoc(keys, i);
      NothingDropped(pool, keys, i);
      deduped := InsertValue(deduped, key, best);
      ScanSnoc(pool, keys[..i], key, |pool| + 1);
    }
    assert keys[..|keys|] == keys;
    SortedThenCut(pool, keys, deduped, MaxResultsDisplayed);
    if |deduped| > MaxResultsDisplayed {
      deduped := deduped[..MaxResultsDisplayed];
    }
    order := deduped;
    shown := Hits(deduped);
  }

  /** The candidates a store search returns for the embedded query: scoped when files are active. */
  ghost predicate Fetched(table: map<string, Slot>, v: seq<real>, active: set<string>,
                          ratio: (seq<real>, seq<real>) -> real, picked: seq<Scored<VectorEntry>>)
  {
    if active == {} then IsTopK(picked, Pool(table, v, ratio), SearchCandidatesLimit)
    else IsTopK(picked, ScopedPool(table, v, ratio, active), ScopedSearchCandidatesLimit)
  }

  /**
   * `perform_search`. A blank semantic query gives no results, before the embedding model is
   * asked; a failed or empty embedding is an error. Otherwise the store is searched with the
   * first embedding (`candidates`, from the store's keys `picked`), and the results are the
   * best five per-file bests of the filtered and boosted candidates (`order`).
   */
  method PerformSearch(query: string, embed: string -> Result<seq<seq<real>>>, store: VectorStore,
                       active: set<string>, ratio: (seq<real>, seq<real>) -> real)
    returns (r: Result<seq<(VectorEntry, real)>>, ghost picked: seq<Scored<VectorEntry>>,
             ghost order: seq<Scored<VectorEntry>>)
    ensures var q := SemanticQuery(query);
      && (Trim(q) == [] ==> r == Ok([]))
      && (Trim(q) != [] && embed(q).Err? ==> r == Err(embed(q).error))
      && (Trim(q) != [] && embed(q) == Ok([]) ==> r == Err(Model))
    ensures var q := SemanticQuery(query);
      Trim(q) != [] && embed(q).Ok? && embed(q).value != [] ==>
        && Fetched(store.table, embed(q).value[0], active, ratio, picked)
        && IsTopK(order, Finalists(BestByFile(Narrowed(Hits(picked), FilterOf(Words(query)), q))), MaxResultsDisplayed)
        && r == Ok(Hits(order))
  {
    var fileFilter, semanticQuery := ParseFileFilterQuery(query);
    picked, order := [], [];
    if Trim(semanticQuery) == [] {
      return Ok([]), picked, order;
    }
    var qLower := ToLower(semanticQuery);
    var queryEmbeddings := embed(semanticQuery);
    if queryEmbeddings.Err? {
      return Err(queryEmbeddings.error), picked, order;
    }
    if queryEmbeddings.value == [] {
      return Err(Model), picked, order;
    }
    var queryEmbedding := queryEmbeddings.value[0];
    var results;
    if active == {} {
      results, picked := store.Search(queryEmbedding, SearchCandidatesLimit, ratio);
    } else {
      results, picked := store.SearchScoped(queryEmbedding, ScopedSearchCandidatesLimit, active, ratio);
    }
    if fileFilter.Some? {
      results := RetainMatching(results, fileFilter.value);
    }
    results := BoostScores(results, qLower);
    var bestByFile := BestPerFile(results);
    var deduped;
    deduped, order := TopResults(bestByFile);
    r := Ok(deduped);
  }

  /**
   * What the screen shows: at most five results, best first, one per file, each the best
   * candidate of its file.
   */
  lemma ShownResults(order: seq<Scored<VectorEntry>>, rs: seq<(VectorEntry, real)>, k: nat)
    requires IsTopK(order, Finalists(BestByFile(rs)), k)
    ensures |Hits(order)| <= k
    ensures forall i, j :: 0 <= i < j < |order| ==> Hits(order)[i].1 >= Hits(order)[j].1
    ensures forall i, j :: 0 <= i < j < |order| ==> Hits(order)[i].0.filePath != Hits(order)[j].0.filePath
    ensures forall i :: 0 <= i < |order| ==> Hits(order)[i] in rs
    ensures forall i, x :: 0 <= i < |order| && x in rs && x.0.filePath == Hits(order)[i].0.filePath ==>
      x.1 <= Hits(order)[i].1
  {
    var best := BestByFile(rs);
    var pool := Finalists(best);
    BestIsCandidate(rs);
    BestIsMaximum(rs);
    forall i | 0 <= i < |order|
      ensures Hits(order)[i] == best[order[i].key] && Hits(order)[i].0.filePath == order[i].key
    {
      assert order[i] == pool[order[i].key];
    }
  }

  /** With a filter, every candidate that reaches the ranking has a path the filter matches. */
  lemma NarrowedPassFilter(candidates: seq<(VectorEntry, real)>, f: string, q: string)
    ensures forall x :: x in Narrowed(candidates, Some(f), q) ==>
      Contains(ToLower(x.0.filePath), ToLower(f)) && exists y :: y in candidates && y.0 == x.0
  {
    var kept := Retained(candidates, f);
    RetainedExactly(candidates, f);
    forall x | x in Narrowed(candidates, Some(f), q)
      ensures Contains(ToLower(x.0.filePath), ToLower(f)) && exists y :: y in candidates && y.0 == x.0
    {
      var i :| 0 <= i < |kept| && Narrowed(candidates, Some(f), q)[i] == x;
      assert kept[i] in kept;
      MatchIsContains(x.0.filePath, f);
    }
  }
}
