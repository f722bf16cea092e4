/**
 * The sentence-boundary splitter of the Markdown parser (`split_text_intelligently`) and
 * the breadcrumb text of a chunk (`build_context`).
 *
 * A long paragraph is cut into sentences; sentences are packed greedily into chunks of at
 * most `MaxChunkSize` characters, a chunk being closed only once it holds `MinChunkSize`
 * characters; an undersized remainder is merged into the previous chunk.
 */
module Chunking {
  import opened Wrappers
  import opened Text

  const MinChunkSize: nat := 50
  const MaxChunkSize: nat := 500
  const TargetChunkSize: nat := 300

  /** `TextChunk`: a piece of a note with its breadcrumb, position and line span. */
  datatype TextChunk = TextChunk(text: string, context: string, index: nat, startLine: nat, endLine: nat)

  /** The texts of a list of chunks. */
  function Texts(chunks: seq<TextChunk>): (r: seq<string>)
    ensures |r| == |chunks| && forall k :: 0 <= k < |chunks| ==> r[k] == chunks[k].text
  {
    seq(|chunks|, k requires 0 <= k < |chunks| => chunks[k].text)
  }

  lemma TextsAppend(a: seq<TextChunk>, b: seq<TextChunk>)
    ensures Texts(a + b) == Texts(a) + Texts(b)
  {
  }

  // --------------------------------------------------------------- breadcrumbs

  /** `build_context`: the heading stack joined with " > "; empty for an empty stack. */
  function BuildContext(headers: seq<string>): (r: string)
    ensures headers == [] ==> r == ""
    ensures |headers| == 1 ==> r == headers[0]
  {
    if headers == [] then "" else Join(headers, " > ")
  }

  /** Pushing a heading extends the breadcrumb by " > " and the heading. */
  lemma BuildContextPush(headers: seq<string>, h: string)
    ensures BuildContext(headers + [h]) == if headers == [] then h else BuildContext(headers) + " > " + h
  {
    JoinAppend(headers, h, " > ");
  }

  /** Three headings give the breadcrumb `a > b > c`. */
  lemma BuildContextThree(a: string, b: string, c: string)
    ensures BuildContext([a, b, c]) == a + " > " + b + " > " + c
  {
    assert [a, b, c][1..] == [b, c] && [b, c][1..] == [c];
    assert Join([b, c], " > ") == b + " > " + c;
    assert Join([a, b, c], " > ") == a + " > " + (b + " > " + c);
  }

  /** The example of the parser tests. */
  lemma BuildContextExample()
    ensures BuildContext(["Document", "Section", "Subsection"]) == "Document > Section > Subsection"
  {
    BuildContextThree("Document", "Section", "Subsection");
  }

  // ----------------------------------------------------------------- sentences

  predicate IsTerminator(c: char) {
    c == '.' || c == '!' || c == '?'
  }

  /** Position `i` ends a sentence: a terminator followed by whitespace or by the end of the text. */
  predicate EndsSentence(t: string, i: nat)
    requires i < |t|
  {
    IsTerminator(t[i]) && (i + 1 == |t| || IsWhitespace(t[i + 1]))
  }

  /**
   * The sentences of `t[start..]`, scanning from position `i`: a sentence runs from `start`
   * up to and including the next sentence end; what follows the last sentence end is the
   * final piece.
   */
  function SentencesFrom(t: string, start: nat, i: nat): (r: seq<string>)
    requires start <= i <= |t|
    ensures Concat(r) == t[start..]
    ensures forall k :: 0 <= k < |r| ==> r[k] != []
    decreases |t| - i
  {
    if i == |t| then
      if start < |t| then
        assert Concat([t[start..]]) == t[start..] + Concat([]);
        [t[start..]]
      else []
    else if EndsSentence(t, i) then
      var rest := SentencesFrom(t, i + 1, i + 1);
      var r := [t[start..i + 1]] + rest;
      assert r[1..] == rest;
      assert t[start..] == t[start..i + 1] + t[i + 1..];
      r
    else SentencesFrom(t, start, i + 1)
  }

  /** The sentences of a text: consecutive, non-empty slices that concatenate to it. */
  function Sentences(t: string): (r: seq<string>)
    ensures Concat(r) == t
    ensures forall k :: 0 <= k < |r| ==> r[k] != []
  {
    SentencesFrom(t, 0, 0)
  }

  /**
   * Every sentence but the last ends with a terminator, and the next one starts with the
   * whitespace that made it a sentence end.
   */
  lemma {:induction false} SentencesFromEnds(t: string, start: nat, i: nat)
    requires start <= i <= |t|
    ensures forall k :: 0 <= k < |SentencesFrom(t, start, i)| - 1 ==>
      IsTerminator(SentencesFrom(t, start, i)[k][|SentencesFrom(t, start, i)[k]| - 1])
    ensures forall k :: 1 <= k < |SentencesFrom(t, start, i)| ==> IsWhitespace(SentencesFrom(t, start, i)[k][0])
    decreases |t| - i
  {
    if i < |t| {
      if EndsSentence(t, i) {
        var rest := SentencesFrom(t, i + 1, i + 1);
        SentencesFromEnds(t, i + 1, i + 1);
        var r := [t[start..i + 1]] + rest;
        assert SentencesFrom(t, start, i) == r;
        if rest != [] {
          assert Concat(rest) == rest[0] + Concat(rest[1..]);
          assert rest[0][0] == t[i + 1];
        }
        assert i + 1 == |t| ==> rest == [];
        forall k | 0 <= k < |r| - 1 ensures IsTerminator(r[k][|r[k]| - 1]) {
          if k == 0 {
            assert r[0][|r[0]| - 1] == t[i];
          } else {
            assert r[k] == rest[k - 1];
            assert IsTerminator(rest[k - 1][|rest[k - 1]| - 1]);
          }
        }
        forall k | 1 <= k < |r| ensures IsWhitespace(r[k][0]) {
          assert r[k] == rest[k - 1];
          if k > 1 { assert IsWhitespace(rest[k - 1][0]); }
        }
      } else {
        SentencesFromEnds(t, start, i + 1);
        assert SentencesFrom(t, start, i) == SentencesFrom(t, start, i + 1);
      }
    }
  }

  /** Scanning over positions that end no sentence does not change the result. */
  lemma {:induction false} SentencesSkip(t: string, start: nat, i: nat, j: nat)
    requires start <= i <= j <= |t|
    requires forall m :: i <= m < j ==> !EndsSentence(t, m)
    ensures SentencesFrom(t, start, i) == SentencesFrom(t, start, j)
    decreases j - i
  {
    if i < j {
      SentencesSkip(t, start, i + 1, j);
    }
  }

  /** A slice of `n` characters ending at the first sentence end after `start` is the next sentence. */
  lemma SentenceAhead(t: string, start: nat, n: nat)
    requires 0 < n && start + n <= |t|
    requires forall m :: start <= m < start + n - 1 ==> !IsTerminator(t[m])
    requires IsTerminator(t[start + n - 1]) && (start + n == |t| || IsWhitespace(t[start + n]))
    ensures SentencesFrom(t, start, start) == [t[start..start + n]] + SentencesFrom(t, start + n, start + n)
  {
    SentencesSkip(t, start, start, start + n - 1);
    assert EndsSentence(t, start + n - 1);
  }

  /** A non-empty rest without terminators is the last sentence. */
  lemma SentenceTail(t: string, start: nat)
    requires start < |t|
    requires forall m :: start <= m < |t| ==> !IsTerminator(t[m])
    ensures SentencesFrom(t, start, start) == [t[start..]]
  {
    SentencesSkip(t, start, start, |t|);
  }

  /** The sentence scan of `split_text_intelligently`. */
  method SplitSentences(t: string) returns (sentences: seq<string>)
    ensures sentences == Sentences(t)
  {
    sentences := [];
    var start := 0;
    for i := 0 to |t|
      invariant start <= i
      invariant sentences + SentencesFrom(t, start, i) == Sentences(t)
    {
      if IsTerminator(t[i]) && (i + 1 == |t| || IsWhitespace(t[i + 1])) {
        var sentence, rest := t[start..i + 1], SentencesFrom(t, i + 1, i + 1);
        assert SentencesFrom(t, start, i) == [sentence] + rest;
        assert sentences + ([sentence] + rest) == (sentences + [sentence]) + rest;
        sentences := sentences + [sentence];
        start := i + 1;
      } else {
        assert SentencesFrom(t, start, i) == SentencesFrom(t, start, i + 1);
      }
    }
    if start < |t| {
      assert SentencesFrom(t, start, |t|) == [t[start..]];
      sentences := sentences + [t[start..]];
    } else {
      assert SentencesFrom(t, start, |t|) == [];
    }
  }

  // ------------------------------------------------------------------- packing

  /**
   * The flush test of `split_text_intelligently`, with its `TargetChunkSize` clause. Its
   * contract shows that clause to be redundant: a chunk is closed exactly when adding the
   * sentence would overflow `MaxChunkSize` and the chunk already holds `MinChunkSize`.
   */
  function ShouldFlush(cur: string, sentence: string): (r: bool)
    ensures r <==> cur != [] && |cur| + |sentence| + 1 > MaxChunkSize && |cur| >= MinChunkSize
  {
    var wouldExceedMax := cur != [] && |cur| + |sentence| + 1 > MaxChunkSize;
    var reachedTarget := cur != [] && |cur| >= TargetChunkSize && |cur| + |sentence| + 1 > MaxChunkSize;
    (wouldExceedMax || reachedTarget) && |cur| >= MinChunkSize
  }

  /**
   * One sentence of the packing loop: the sentence is trimmed (and skipped when empty); the
   * open chunk `cur` is closed into `done` before it when `ShouldFlush` says so; the sentence
   * is then appended, after a space unless the open chunk is empty.
   */
  function PackStep(done: seq<string>, cur: string, sentence: string): (seq<string>, string) {
    var s := Trim(sentence);
    if s == [] then (done, cur)
    else if ShouldFlush(cur, s) then (done + [Trim(cur)], s)
    else (done, if cur == [] then s else cur + " " + s)
  }

  /** Greedy packing of the remaining sentences `rest` into closed chunks `done` and the open chunk `cur`. */
  function PackFrom(done: seq<string>, cur: string, rest: seq<string>): (seq<string>, string)
    decreases |rest|
  {
    if rest == [] then (done, cur)
    else
      var next := PackStep(done, cur, rest[0]);
      PackFrom(next.0, next.1, rest[1..])
  }

  /** One step of the packing, spelled out. */
  lemma PackFromStep(done: seq<string>, cur: string, rest: seq<string>)
    requires rest != []
    ensures PackFrom(done, cur, rest) ==
      var s := Trim(rest[0]);
      if s == [] then PackFrom(done, cur, rest[1..])
      else if ShouldFlush(cur, s) then PackFrom(done + [Trim(cur)], s, rest[1..])
      else PackFrom(done, if cur == [] then s else cur + " " + s, rest[1..])
  {
  }

  lemma PackFromNext(done: seq<string>, cur: string, rest: seq<string>)
    requires rest != []
    ensures PackFrom(done, cur, rest) == PackFrom(PackStep(done, cur, rest[0]).0, PackStep(done, cur, rest[0]).1, rest[1..])
  {
  }

  lemma PackStepSkips(done: seq<string>, cur: string, sentence: string)
    requires Trim(sentence) == []
    ensures PackStep(done, cur, sentence) == (done, cur)
  {
  }

  lemma PackStepFlushes(done: seq<string>, cur: string, sentence: string)
    requires Trim(sentence) != [] && ShouldFlush(cur, Trim(sentence))
    ensures PackStep(done, cur, sentence) == (done + [Trim(cur)], Trim(sentence))
  {
  }

  lemma PackStepExtends(done: seq<string>, cur: string, sentence: string)
    requires Trim(sentence) != [] && !ShouldFlush(cur, Trim(sentence))
    ensures PackStep(done, cur, sentence) ==
      (done, if cur == [] then Trim(sentence) else cur + " " + Trim(sentence))
  {
  }

  /**
   * The end of the packing: an open chunk of at least `MinChunkSize` is closed; a smaller,
   * non-blank one is merged into the last closed chunk, or closed alone when there is none.
   */
  function Finish(done: seq<string>, cur: string): seq<string> {
    var t := Trim(cur);
    if t != [] && |cur| >= MinChunkSize then done + [t]
    else if t != [] then
      if done != [] then done[..|done| - 1] + [done[|done| - 1] + " " + t] else [t]
    else done
  }

  /** The chunk texts `split_text_intelligently` produces for a text. */
  function ChunkTexts(text: string): seq<string> {
    var t := Trim(text);
    if t == [] then []
    else
      var (done, cur) := PackFrom([], "", Sentences(t));
      Finish(done, cur)
  }

  // ------------------------------------------------------ properties of packing

  /** What packing keeps of closed and open chunks: non-empty and trimmed, closed ones at least `MinChunkSize`. */
  predicate PackInv(done: seq<string>, cur: string) {
    && (forall k :: 0 <= k < |done| ==> done[k] != [] && IsTrimmed(done[k]) && |done[k]| >= MinChunkSize)
    && IsTrimmed(cur)
  }

  lemma {:induction false} PackKeepsInv(done: seq<string>, cur: string, rest: seq<string>)
    requires PackInv(done, cur)
    ensures PackInv(PackFrom(done, cur, rest).0, PackFrom(done, cur, rest).1)
    decreases |rest|
  {
    if rest != [] {
      PackFromStep(done, cur, rest);
      var s := Trim(rest[0]);
      if s == [] {
        PackKeepsInv(done, cur, rest[1..]);
      } else if ShouldFlush(cur, s) {
        TrimOfTrimmed(cur);
        PackKeepsInv(done + [Trim(cur)], s, rest[1..]);
      } else if cur == [] {
        PackKeepsInv(done, s, rest[1..]);
      } else {
        TrimmedSpaced(cur, s);
        PackKeepsInv(done, cur + " " + s, rest[1..]);
      }
    }
  }

  lemma FinishShape(done: seq<string>, cur: string)
    requires PackInv(done, cur)
    ensures var r := Finish(done, cur);
      && (forall k :: 0 <= k < |r| ==> r[k] != [] && IsTrimmed(r[k]))
      && (|r| <= 1 || forall k :: 0 <= k < |r| ==> |r[k]| >= MinChunkSize)
  {
    var t := Trim(cur);
    if t != [] && |cur| < MinChunkSize && done != [] {
      TrimmedSpaced(done[|done| - 1], t);
    }
  }

  /**
   * The chunk texts are non-empty and trimmed, and unless there is only one, each holds at
   * least `MinChunkSize` characters.
   */
  lemma ChunkTextsShape(text: string)
    ensures var r := ChunkTexts(text);
      && (forall k :: 0 <= k < |r| ==> r[k] != [] && IsTrimmed(r[k]))
      && (|r| <= 1 || forall k :: 0 <= k < |r| ==> |r[k]| >= MinChunkSize)
  {
    var t := Trim(text);
    if t != [] {
      PackKeepsInv([], "", Sentences(t));
      var (done, cur) := PackFrom([], "", Sentences(t));
      FinishShape(done, cur);
    }
  }

  lemma {:induction false} PackCompact(done: seq<string>, cur: string, rest: seq<string>)
    ensures Compact(Concat(PackFrom(done, cur, rest).0)) + Compact(PackFrom(done, cur, rest).1) ==
      Compact(Concat(done)) + Compact(cur) + Compact(Concat(rest))
    decreases |rest|
  {
    if rest != [] {
      var next := PackStep(done, cur, rest[0]);
      PackFromNext(done, cur, rest);
      PackCompact(next.0, next.1, rest[1..]);
      StepCompact(done, cur, rest[0]);
      assert Concat(rest) == rest[0] + Concat(rest[1..]);
      CompactConcat(rest[0], Concat(rest[1..]));
      SeqAssoc(Compact(Concat(done)) + Compact(cur), Compact(rest[0]), Compact(Concat(rest[1..])), []);
    }
  }

  lemma SeqAssoc(a: string, b: string, c: string, d: string)
    ensures a + (b + c) + d == a + b + (c + d)
  {
  }

  /** One packing step moves the content of the sentence into the chunks, losing nothing. */
  lemma StepCompact(done: seq<string>, cur: string, sentence: string)
    ensures Compact(Concat(PackStep(done, cur, sentence).0)) + Compact(PackStep(done, cur, sentence).1) ==
      Compact(Concat(done)) + Compact(cur) + Compact(sentence)
  {
    var s := Trim(sentence);
    CompactTrim(sentence);
    if s == [] {
      PackStepSkips(done, cur, sentence);
      CompactAllWhitespace(sentence);
    } else if ShouldFlush(cur, s) {
      PackStepFlushes(done, cur, sentence);
      AppendCompact(done, Trim(cur));
      CompactTrim(cur);
    } else if cur == [] {
      PackStepExtends(done, cur, sentence);
    } else {
      PackStepExtends(done, cur, sentence);
      CompactSpace(cur, s);
    }
  }

  lemma FinishCompact(done: seq<string>, cur: string)
    ensures Compact(Concat(Finish(done, cur))) == Compact(Concat(done)) + Compact(cur)
  {
    var t := Trim(cur);
    CompactTrim(cur);
    if t != [] && |cur| >= MinChunkSize {
      FinishPushCompact(done, cur, t);
    } else if t != [] && done != [] {
      FinishMergeCompact(done, cur, t);
    } else if t != [] {
      FinishAloneCompact(cur, t);
    } else {
      CompactAllWhitespace(cur);
    }
  }

  lemma FinishPushCompact(done: seq<string>, cur: string, t: string)
    requires t == Trim(cur) && t != [] && |cur| >= MinChunkSize && Compact(t) == Compact(cur)
    ensures Compact(Concat(Finish(done, cur))) == Compact(Concat(done)) + Compact(cur)
  {
    assert Finish(done, cur) == done + [t];
    AppendCompact(done, t);
  }

  lemma FinishMergeCompact(done: seq<string>, cur: string, t: string)
    requires t == Trim(cur) && t != [] && |cur| < MinChunkSize && done != [] && Compact(t) == Compact(cur)
    ensures Compact(Concat(Finish(done, cur))) == Compact(Concat(done)) + Compact(cur)
  {
    var init, last := done[..|done| - 1], done[|done| - 1];
    assert done == init + [last];
    assert Finish(done, cur) == init + [last + " " + t];
    MergeCompact(init, last, t);
  }

  lemma FinishAloneCompact(cur: string, t: string)
    requires t == Trim(cur) && t != [] && |cur| < MinChunkSize && Compact(t) == Compact(cur)
    ensures Compact(Concat(Finish([], cur))) == Compact(cur)
  {
    assert Finish([], cur) == [t];
    ConcatAppend([], t);
    assert [] + [t] == [t];
    assert Concat([t]) == t;
  }

  lemma AppendCompact(done: seq<string>, t: string)
    ensures Compact(Concat(done + [t])) == Compact(Concat(done)) + Compact(t)
  {
    ConcatAppend(done, t);
    CompactConcat(Concat(done), t);
  }

  lemma MergeCompact(init: seq<string>, last: string, t: string)
    ensures Compact(Concat(init + [last + " " + t])) == Compact(Concat(init + [last])) + Compact(t)
  {
    AppendCompact(init, last + " " + t);
    AppendCompact(init, last);
    CompactSpace(last, t);
  }

  /** Nothing is lost: the chunk texts hold exactly the non-whitespace content of the text. */
  lemma ChunkTextsKeepContent(text: string)
    ensures Compact(Concat(ChunkTexts(text))) == Compact(text)
  {
    var t := Trim(text);
    CompactTrim(text);
    if t == [] {
      CompactAllWhitespace(text);
    } else {
      PackCompact([], "", Sentences(t));
      var (done, cur) := PackFrom([], "", Sentences(t));
      FinishCompact(done, cur);
    }
  }

  predicate PackBounded(done: seq<string>, cur: string) {
    (forall k :: 0 <= k < |done| ==> |done[k]| <= MaxChunkSize) && |cur| <= MaxChunkSize
  }

  lemma {:induction false} PackKeepsBound(done: seq<string>, cur: string, rest: seq<string>)
    requires PackBounded(done, cur)
    requires forall k :: 0 <= k < |rest| ==> |rest[k]| <= MaxChunkSize - MinChunkSize
    ensures PackBounded(PackFrom(done, cur, rest).0, PackFrom(done, cur, rest).1)
    decreases |rest|
  {
    if rest != [] {
      PackFromStep(done, cur, rest);
      var s := Trim(rest[0]);
      if s == [] {
        PackKeepsBound(done, cur, rest[1..]);
      } else if ShouldFlush(cur, s) {
        PackKeepsBound(done + [Trim(cur)], s, rest[1..]);
      } else if cur == [] {
        PackKeepsBound(done, s, rest[1..]);
      } else {
        PackKeepsBound(done, cur + " " + s, rest[1..]);
      }
    }
  }

  /** The open chunk at the end is too short to stand alone and is merged into the chunk before it. */
  predicate MergesRemainder(done: seq<string>, cur: string) {
    Trim(cur) != [] && |cur| < MinChunkSize && done != []
  }

  /** Chunking `text` ends by merging an undersized remainder into the previous chunk. */
  predicate RemainderMerged(text: string) {
    var t := Trim(text);
    t != [] && MergesRemainder(PackFrom([], "", Sentences(t)).0, PackFrom([], "", Sentences(t)).1)
  }

  /**
   * When no sentence is longer than `MaxChunkSize - MinChunkSize`, every chunk but the last
   * stays within `MaxChunkSize`; the last (which may have absorbed an undersized remainder)
   * stays within `MaxChunkSize + MinChunkSize`, and within `MaxChunkSize` when no remainder
   * was merged.
   */
  lemma ChunkTextsBounded(text: string)
    requires forall k :: 0 <= k < |Sentences(Trim(text))| ==> |Sentences(Trim(text))[k]| <= MaxChunkSize - MinChunkSize
    ensures var r := ChunkTexts(text);
      && (forall k :: 0 <= k < |r| - 1 ==> |r[k]| <= MaxChunkSize)
      && (r != [] ==> |r[|r| - 1]| <= MaxChunkSize + MinChunkSize)
    ensures !RemainderMerged(text) ==> forall k :: 0 <= k < |ChunkTexts(text)| ==> |ChunkTexts(text)[k]| <= MaxChunkSize
  {
    var t := Trim(text);
    if t != [] {
      PackKeepsBound([], "", Sentences(t));
      var (done, cur) := PackFrom([], "", Sentences(t));
      FinishBounded(done, cur);
    }
  }

  lemma FinishBounded(done: seq<string>, cur: string)
    requires PackBounded(done, cur)
    ensures var r := Finish(done, cur);
      && (forall k :: 0 <= k < |r| - 1 ==> |r[k]| <= MaxChunkSize)
      && (r != [] ==> |r[|r| - 1]| <= MaxChunkSize + MinChunkSize)
    ensures !MergesRemainder(done, cur) ==> forall k :: 0 <= k < |Finish(done, cur)| ==> |Finish(done, cur)[k]| <= MaxChunkSize
  {
    var t := Trim(cur);
    if t != [] && |cur| >= MinChunkSize {
      assert Finish(done, cur) == done + [t];
    } else if t != [] && done != [] {
      var r := done[..|done| - 1] + [done[|done| - 1] + " " + t];
      assert Finish(done, cur) == r;
      assert forall k :: 0 <= k < |r| - 1 ==> r[k] == done[k];
    } else if t != [] {
      assert Finish(done, cur) == [t];
    } else {
      assert Finish(done, cur) == done;
    }
  }

  /**
   * The remainder merge can push a chunk past `MaxChunkSize`: a sentence that fills a chunk,
   * followed by a short one, becomes a single chunk longer than `MaxChunkSize` (for example a
   * 495-character sentence and a 10-character one give one 506-character chunk).
   */
  lemma SmallRemainderMerged(a: string, b: string)
    requires a != [] && IsTrimmed(a) && b != [] && IsTrimmed(b)
    requires IsTerminator(a[|a| - 1]) && forall m :: 0 <= m < |a| - 1 ==> !IsTerminator(a[m])
    requires forall m :: 0 <= m < |b| ==> !IsTerminator(b[m])
    requires |a| >= MinChunkSize && |b| < MinChunkSize && |a| + |b| + 1 > MaxChunkSize
    ensures ChunkTexts(a + " " + b) == [a + " " + b]
    ensures |ChunkTexts(a + " " + b)[0]| > MaxChunkSize
  {
    var t := a + " " + b;
    TrimmedSpaced(a, b);
    TrimOfTrimmed(t);
    TwoSentences(a, b);
    PackTwo(a, b);
    TrimOfTrimmed(b);
    assert Finish([a], b) == [a + " " + b];
  }

  /** A text of one terminated sentence, a space and an unterminated tail splits in two. */
  lemma TwoSentences(a: string, b: string)
    requires a != [] && b != []
    requires IsTerminator(a[|a| - 1]) && forall m :: 0 <= m < |a| - 1 ==> !IsTerminator(a[m])
    requires forall m :: 0 <= m < |b| ==> !IsTerminator(b[m])
    ensures Sentences(a + " " + b) == [a, " " + b]
  {
    var t := a + " " + b;
    assert t[..|a|] == a && t[|a|..] == " " + b;
    assert forall m :: 0 <= m < |a| ==> t[m] == a[m];
    SentenceAhead(t, 0, |a|);
    assert forall m :: |a| < m < |t| ==> t[m] == b[m - |a| - 1];
    SentenceTail(t, |a|);
  }

  /** Packing those two sentences closes the first before the second. */
  lemma PackTwo(a: string, b: string)
    requires a != [] && IsTrimmed(a) && b != [] && IsTrimmed(b)
    requires |a| >= MinChunkSize && |a| + |b| + 1 > MaxChunkSize
    ensures PackFrom([], "", [a, " " + b]) == ([a], b)
  {
    PackOpens(a, " " + b);
    PackCloses(a, b);
  }

  /** A first trimmed sentence opens the first chunk. */
  lemma PackOpens(a: string, rest: string)
    requires a != [] && IsTrimmed(a)
    ensures PackFrom([], "", [a, rest]) == PackFrom([], a, [rest])
  {
    TrimOfTrimmed(a);
    PackFromStep([], "", [a, rest]);
    assert [a, rest][1..] == [rest];
    assert !ShouldFlush("", a);
  }

  /** A sentence that does not fit closes a chunk of at least `MinChunkSize`. */
  lemma PackCloses(a: string, b: string)
    requires a != [] && IsTrimmed(a) && b != [] && IsTrimmed(b)
    requires |a| >= MinChunkSize && |a| + |b| + 1 > MaxChunkSize
    ensures PackFrom([], a, [" " + b]) == ([a], b)
  {
    PackFromLast([], a, " " + b);
    PackStepCloses(a, b);
  }

  lemma PackStepCloses(a: string, b: string)
    requires a != [] && IsTrimmed(a) && b != [] && IsTrimmed(b)
    requires |a| >= MinChunkSize && |a| + |b| + 1 > MaxChunkSize
    ensures PackStep([], a, " " + b) == ([a], b)
  {
    TrimOfTrimmed(a);
    TrimPadded(" ", b);
    assert ShouldFlush(a, b);
    assert [] + [a] == [a];
  }

  /** Packing a single sentence is one step. */
  lemma PackFromLast(done: seq<string>, cur: string, sentence: string)
    ensures PackFrom(done, cur, [sentence]) == PackStep(done, cur, sentence)
  {
    assert [sentence][1..] == [];
  }

  // ------------------------------------------------------------ a long paragraph

  /** The sentence the long-paragraph test of the parser repeats. */
  const TestSentence: string := "This is a sentence."

  /** `str::repeat`: `n` copies of `u`, one after another. */
  function Repeat(u: string, n: nat): string {
    if n == 0 then "" else Repeat(u, n - 1) + u
  }

  /**
   * A sentence shaped like the test sentence: 19 characters, a non-blank start, a full stop
   * at the end and no terminator before it.
   */
  predicate Shaped(s: string) {
    |s| == 19 && !IsWhitespace(s[0]) && s[18] == '.' && forall j :: 0 <= j < 18 ==> !IsTerminator(s[j])
  }

  /** `n + 1` copies of `s`, separated by single spaces. */
  function Run(s: string, n: nat): (r: string)
    requires Shaped(s)
    ensures |r| == 19 + 20 * n
    ensures r[0] == s[0] && r[|r| - 1] == '.'
    ensures IsTrimmed(r)
  {
    if n == 0 then s else Run(s, n - 1) + " " + s
  }

  /** `n` copies of `s`, each after a space: the pieces the sentence scan cuts off a run. */
  function Spaced(s: string, n: nat): (r: seq<string>)
    ensures |r| == n && forall k :: 0 <= k < n ==> r[k] == " " + s
  {
    if n == 0 then [] else [" " + s] + Spaced(s, n - 1)
  }

  lemma {:induction false} SpacedAppend(s: string, a: nat, b: nat)
    ensures Spaced(s, a + b) == Spaced(s, a) + Spaced(s, b)
    decreases a
  {
    if a > 0 {
      SpacedAppend(s, a - 1, b);
      assert Spaced(s, a + b) == [" " + s] + Spaced(s, a - 1 + b);
    }
  }

  /** Repeating a sentence and a space is a run of that sentence with one trailing space. */
  lemma {:induction false} RepeatIsRun(s: string, n: nat)
    requires Shaped(s)
    ensures Repeat(s + " ", n + 1) == Run(s, n) + " "
    decreases n
  {
    if n > 0 {
      RepeatIsRun(s, n - 1);
      assert Repeat(s + " ", n + 1) == Run(s, n - 1) + " " + (s + " ");
    } else {
      assert Repeat(s + " ", 1) == "" + (s + " ");
    }
  }

  /** A run starts with the shorter runs. */
  lemma {:induction false} RunPrefix(s: string, n: nat, k: nat)
    requires Shaped(s) && k <= n
    ensures Run(s, n)[..19 + 20 * k] == Run(s, k)
    decreases n
  {
    if k < n {
      RunPrefix(s, n - 1, k);
      assert Run(s, n)[..19 + 20 * k] == Run(s, n - 1)[..19 + 20 * k];
    }
  }

  /** After the `k + 1`-th sentence of a run come a space and the next sentence. */
  lemma RunAt(s: string, n: nat, k: nat)
    requires Shaped(s) && k < n
    ensures Run(s, n)[19 + 20 * k..39 + 20 * k] == " " + s
  {
    RunPrefix(s, n, k + 1);
    assert Run(s, k + 1) == Run(s, k) + " " + s;
    assert Run(s, n)[19 + 20 * k..39 + 20 * k] == Run(s, n)[..39 + 20 * k][19 + 20 * k..];
  }

  /** The sentence scan of a run, from the start of its `k + 1`-th spaced sentence. */
  lemma {:induction false} RunScan(s: string, n: nat, k: nat)
    requires Shaped(s) && k <= n
    ensures SentencesFrom(Run(s, n), 19 + 20 * k, 19 + 20 * k) == Spaced(s, n - k)
    decreases n - k
  {
    var t, p := Run(s, n), 19 + 20 * k;
    if k < n {
      RunSentenceAt(s, n, k);
      SentenceAhead(t, p, 20);
      RunScan(s, n, k + 1);
      assert Spaced(s, n - k) == [" " + s] + Spaced(s, n - (k + 1));
    }
  }

  /** The `k + 2`-th sentence of a run, with its leading space, ends where the next space starts. */
  lemma RunSentenceAt(s: string, n: nat, k: nat)
    requires Shaped(s) && k < n
    ensures var t, p := Run(s, n), 19 + 20 * k;
      && p + 20 <= |t| && t[p..p + 20] == " " + s
      && (forall m :: p <= m < p + 19 ==> !IsTerminator(t[m]))
      && IsTerminator(t[p + 19]) && (p + 20 == |t| || IsWhitespace(t[p + 20]))
  {
    var t, p, x := Run(s, n), 19 + 20 * k, " " + s;
    RunAt(s, n, k);
    assert forall j :: 0 <= j < 20 ==> t[p + j] == x[j];
    forall m | p <= m < p + 19 ensures !IsTerminator(t[m]) {
      if m > p { assert t[m] == s[m - p - 1]; }
    }
    assert t[p + 19] == s[18];
    if k + 1 < n {
      RunAt(s, n, k + 1);
      assert t[p + 20] == ' ';
    }
  }

  /** The sentences of a run: the first sentence, then each further one after its space. */
  lemma RunSentences(s: string, n: nat)
    requires Shaped(s)
    ensures Sentences(Run(s, n)) == [s] + Spaced(s, n)
  {
    var t := Run(s, n);
    RunPrefix(s, n, 0);
    assert forall j :: 0 <= j < 19 ==> t[j] == s[j];
    if n > 0 {
      RunAt(s, n, 0);
      assert t[19] == ' ';
    }
    SentenceAhead(t, 0, 19);
    RunScan(s, n, 0);
  }

  /** No chunk closes while a run of up to 25 sentences is being filled. */
  lemma {:induction false} PackFill(s: string, done: seq<string>, m: nat, j: nat, rest: seq<string>)
    requires Shaped(s) && m + j <= 24
    ensures PackFrom(done, Run(s, m), Spaced(s, j) + rest) == PackFrom(done, Run(s, m + j), rest)
    decreases j
  {
    if j > 0 {
      var after := Spaced(s, j - 1) + rest;
      assert Spaced(s, j) == [" " + s] + Spaced(s, j - 1);
      assert ([" " + s] + Spaced(s, j - 1)) + rest == [" " + s] + after;
      PackExtend(s, done, m, after);
      PackFill(s, done, m + 1, j - 1, rest);
    } else {
      assert Spaced(s, 0) + rest == rest;
    }
  }

  /** A sentence joins a run of fewer than 25. */
  lemma PackExtend(s: string, done: seq<string>, m: nat, rest: seq<string>)
    requires Shaped(s) && m < 24
    ensures PackFrom(done, Run(s, m), [" " + s] + rest) == PackFrom(done, Run(s, m + 1), rest)
  {
    var x := " " + s;
    assert ([x] + rest)[0] == x && ([x] + rest)[1..] == rest;
    TrimPadded(" ", s);
    PackFromNext(done, Run(s, m), [x] + rest);
    assert !ShouldFlush(Run(s, m), s);
    assert PackStep(done, Run(s, m), x) == (done, Run(s, m + 1));
  }

  /** A 26th sentence closes the run of 25 (499 characters) and opens the next chunk. */
  lemma PackFlush(s: string, done: seq<string>, rest: seq<string>)
    requires Shaped(s)
    ensures PackFrom(done, Run(s, 24), [" " + s] + rest) == PackFrom(done + [Run(s, 24)], Run(s, 0), rest)
  {
    var x := " " + s;
    assert ([x] + rest)[0] == x && ([x] + rest)[1..] == rest;
    TrimPadded(" ", s);
    TrimOfTrimmed(Run(s, 24));
    PackFromStep(done, Run(s, 24), [x] + rest);
    assert ShouldFlush(Run(s, 24), s);
  }

  /** Twenty-five more sentences close one chunk of 25 and fill the next. */
  lemma PackCycle(s: string, done: seq<string>, rest: seq<string>)
    requires Shaped(s)
    ensures PackFrom(done, Run(s, 24), Spaced(s, 25) + rest) == PackFrom(done + [Run(s, 24)], Run(s, 24), rest)
  {
    assert Spaced(s, 25) + rest == [" " + s] + (Spaced(s, 24) + rest);
    PackFlush(s, done, Spaced(s, 24) + rest);
    PackFill(s, done + [Run(s, 24)], 0, 24, rest);
  }

  /** The packing of a run of 100 sentences: three closed chunks of 25 and a fourth left open. */
  lemma PackHundred(s: string)
    requires Shaped(s)
    ensures PackFrom([], "", Sentences(Run(s, 99))) == ([Run(s, 24), Run(s, 24), Run(s, 24)], Run(s, 24))
  {
    PackRuns(s, 24, 75);
  }

  /** `PackHundred`, with the run lengths as variables. */
  lemma PackRuns(s: string, a: nat, b: nat)
    requires Shaped(s) && a == 24 && b == 75
    ensures PackFrom([], "", Sentences(Run(s, a + b))) == ([Run(s, a), Run(s, a), Run(s, a)], Run(s, a))
  {
    var all := Spaced(s, a + b);
    RunSentences(s, a + b);
    PackFirst(s, all);
    SpacedAppend(s, a, b);
    PackFill(s, [], 0, a, Spaced(s, b));
    assert PackFrom([], Run(s, 0), all) == PackFrom([], Run(s, a), Spaced(s, b));
    PackThreeCycles(s);
  }

  /** The first sentence opens the first chunk. */
  lemma PackFirst(s: string, rest: seq<string>)
    requires Shaped(s)
    ensures PackFrom([], "", [s] + rest) == PackFrom([], Run(s, 0), rest)
  {
    assert ([s] + rest)[0] == s && ([s] + rest)[1..] == rest;
    TrimOfTrimmed(s);
    PackFromStep([], "", [s] + rest);
  }

  lemma PackThreeCycles(s: string)
    requires Shaped(s)
    ensures PackFrom([], Run(s, 24), Spaced(s, 75)) == ([Run(s, 24), Run(s, 24), Run(s, 24)], Run(s, 24))
  {
    var c := Run(s, 24);
    SpacedAppend(s, 25, 50);
    SpacedAppend(s, 25, 25);
    assert Spaced(s, 25) == Spaced(s, 25) + [];
    PackCycle(s, [], Spaced(s, 50));
    PackCycle(s, [c], Spaced(s, 25));
    PackCycle(s, [c, c], []);
    assert [] + [c] == [c] && [c] + [c] == [c, c] && [c, c] + [c] == [c, c, c];
  }

  /** A hundred copies of a shaped sentence, each followed by a space, become four chunks of 25 sentences. */
  lemma HundredChunks(s: string)
    requires Shaped(s)
    ensures ChunkTexts(Repeat(s + " ", 100)) == [Run(s, 24), Run(s, 24), Run(s, 24), Run(s, 24)]
    ensures !RemainderMerged(Repeat(s + " ", 100))
  {
    var c := Run(s, 24);
    RepeatIsRun(s, 99);
    TrimPaddedEnd(Run(s, 99), " ");
    PackHundred(s);
    TrimOfTrimmed(c);
    assert Finish([c, c, c], c) == [c, c, c, c];
  }

  /**
   * The long-paragraph test of the parser: `"This is a sentence. "` repeated a hundred times
   * gives four chunks of 25 sentences (499 characters each), no remainder being merged.
   */
  lemma LargeTextChunks()
    ensures ChunkTexts(Repeat(TestSentence + " ", 100)) == [Run(TestSentence, 24), Run(TestSentence, 24), Run(TestSentence, 24), Run(TestSentence, 24)]
    ensures !RemainderMerged(Repeat(TestSentence + " ", 100))
  {
    assert Shaped(TestSentence);
    HundredChunks(TestSentence);
  }

  /**
   * What the long-paragraph test checks: more than one chunk, and none over `MaxChunkSize`,
   * as `ChunkTextsBounded` promises for a text whose remainder is not merged.
   */
  lemma LargeTextBounded()
    ensures var r := ChunkTexts(Repeat(TestSentence + " ", 100));
      |r| > 1 && forall k :: 0 <= k < |r| ==> |r[k]| <= MaxChunkSize
  {
    assert Shaped(TestSentence);
    HundredBounded(TestSentence);
  }

  /** For any sentence shaped like the test's, the test's claims hold through `ChunkTextsBounded`. */
  lemma HundredBounded(s: string)
    requires Shaped(s)
    ensures var r := ChunkTexts(Repeat(s + " ", 100));
      |r| > 1 && forall k :: 0 <= k < |r| ==> |r[k]| <= MaxChunkSize
  {
    HundredChunks(s);
    HundredSentencesShort(s);
    ChunkTextsBounded(Repeat(s + " ", 100));
  }

  /** The sentences of the repeated text are at most 20 characters long. */
  lemma HundredSentencesShort(s: string)
    requires Shaped(s)
    ensures var ss := Sentences(Trim(Repeat(s + " ", 100)));
      forall k :: 0 <= k < |ss| ==> |ss[k]| <= 20
  {
    RepeatIsRun(s, 99);
    TrimPaddedEnd(Run(s, 99), " ");
    RunSentences(s, 99);
  }

  /**
   * The chunks of one `split_text_intelligently` call are numbered from `index`, carry the
   * call's breadcrumb, end at `endLine`, and start at `startLine` (the first) or `endLine`.
   */
  predicate Numbered(chunks: seq<TextChunk>, context: string, index: nat, startLine: nat, endLine: nat) {
    forall k :: 0 <= k < |chunks| ==> NumberedAt(chunks[k], k, context, index, startLine, endLine)
  }

  predicate NumberedAt(chunk: TextChunk, k: nat, context: string, index: nat, startLine: nat, endLine: nat) {
    && chunk.context == context
    && chunk.index == index + k
    && chunk.startLine == (if k == 0 then startLine else endLine)
    && chunk.endLine == endLine
  }

  lemma NumberedAppend(chunks: seq<TextChunk>, chunk: TextChunk, context: string, index: nat, startLine: nat, endLine: nat)
    requires Numbered(chunks, context, index, startLine, endLine)
    requires NumberedAt(chunk, |chunks|, context, index, startLine, endLine)
    ensures Numbered(chunks + [chunk], context, index, startLine, endLine)
  {
    assert forall k :: 0 <= k < |chunks| ==> (chunks + [chunk])[k] == chunks[k];
  }

  /** The chunks numbered as `split_text_intelligently` numbers them. */
  function NumberChunks(texts: seq<string>, context: string, index: nat, startLine: nat, endLine: nat): (r: seq<TextChunk>)
    ensures |r| == |texts|
  {
    seq(|texts|, k requires 0 <= k < |texts| =>
      TextChunk(texts[k], context, index + k, if k == 0 then startLine else endLine, endLine))
  }

  /** The numbered chunks carry the given texts, in order, numbered from `index`. */
  lemma NumberChunksSpec(texts: seq<string>, context: string, index: nat, startLine: nat, endLine: nat)
    ensures Texts(NumberChunks(texts, context, index, startLine, endLine)) == texts
    ensures Numbered(NumberChunks(texts, context, index, startLine, endLine), context, index, startLine, endLine)
  {
  }

  /** The texts and the numbering determine the chunks. */
  lemma NumberedUnique(chunks: seq<TextChunk>, context: string, index: nat, startLine: nat, endLine: nat)
    requires Numbered(chunks, context, index, startLine, endLine)
    ensures chunks == NumberChunks(Texts(chunks), context, index, startLine, endLine)
  {
    var r := NumberChunks(Texts(chunks), context, index, startLine, endLine);
    assert forall k :: 0 <= k < |chunks| ==> NumberedAt(chunks[k], k, context, index, startLine, endLine);
    assert forall k :: 0 <= k < |chunks| ==> chunks[k] == r[k];
  }

  /** The chunks of one `split_text_intelligently` call, as a value. */
  function SplitChunks(text: string, headers: seq<string>, startLine: nat, endLine: nat, index: nat): seq<TextChunk> {
    NumberChunks(ChunkTexts(text), BuildContext(headers), index, startLine, endLine)
  }

  /**
   * The chunks of a call carry the chunk texts of `text`, all with the breadcrumb of
   * `headers`, numbered from `index`; the first starts at `startLine`, the others at
   * `endLine`, and all end at `endLine`.
   */
  lemma SplitChunksSpec(text: string, headers: seq<string>, startLine: nat, endLine: nat, index: nat)
    ensures Texts(SplitChunks(text, headers, startLine, endLine, index)) == ChunkTexts(text)
    ensures Numbered(SplitChunks(text, headers, startLine, endLine, index), BuildContext(headers), index, startLine, endLine)
  {
    NumberChunksSpec(ChunkTexts(text), BuildContext(headers), index, startLine, endLine);
  }

  /** The packing loop of `split_text_intelligently`. */
  method PackSentences(sentences: seq<string>, context: string, startLine: nat, endLine: nat, index: nat)
    returns (chunks: seq<TextChunk>, cur: string, next: nat)
    ensures (Texts(chunks), cur) == PackFrom([], "", sentences)
    ensures next == index + |chunks|
    ensures Numbered(chunks, context, index, startLine, endLine)
  {
    chunks := [];
    next := index;
    cur := "";
    var currentStart := startLine;
    for n := 0 to |sentences|
      invariant PackFrom(Texts(chunks), cur, sentences[n..]) == PackFrom([], "", sentences)
      invariant next == index + |chunks|
      invariant currentStart == if chunks == [] then startLine else endLine
      invariant Numbered(chunks, context, index, startLine, endLine)
    {
      ghost var stepped := PackStep(Texts(chunks), cur, sentences[n]);
      assert sentences[n..][0] == sentences[n] && sentences[n..][1..] == sentences[n + 1..];
      PackFromNext(Texts(chunks), cur, sentences[n..]);
      var sentence := Trim(sentences[n]);
      if sentence == [] {
        PackStepSkips(Texts(chunks), cur, sentences[n]);
        continue;
      }
      var wouldExceedMax := cur != [] && |cur| + |sentence| + 1 > MaxChunkSize;
      var reachedTarget := cur != [] && |cur| >= TargetChunkSize && |cur| + |sentence| + 1 > MaxChunkSize;
      if (wouldExceedMax || reachedTarget) && |cur| >= MinChunkSize {
        PackStepFlushes(Texts(chunks), cur, sentences[n]);
        var chunk := TextChunk(Trim(cur), context, next, currentStart, endLine);
        TextsAppend(chunks, [chunk]);
        NumberedAppend(chunks, chunk, context, index, startLine, endLine);
        assert Texts([chunk]) == [Trim(cur)];
        chunks := chunks + [chunk];
        next := next + 1;
        cur := "";
        currentStart := endLine;
      } else {
        PackStepExtends(Texts(chunks), cur, sentences[n]);
      }
      if cur != [] {
        cur := cur + " ";
      }
      cur := cur + sentence;
      assert Texts(chunks) == stepped.0 && cur == stepped.1;
    }
    assert sentences[|sentences|..] == [];
  }

  /** The end of `split_text_intelligently`: the open chunk is closed, merged or dropped. */
  method FinishChunks(chunks: seq<TextChunk>, cur: string, context: string, startLine: nat, endLine: nat, index: nat, next: nat)
    returns (result: seq<TextChunk>, after: nat)
    requires next == index + |chunks| && Numbered(chunks, context, index, startLine, endLine)
    ensures Texts(result) == Finish(Texts(chunks), cur)
    ensures after == index + |result|
    ensures Numbered(result, context, index, startLine, endLine)
  {
    result, after := chunks, next;
    var currentStart := if chunks == [] then startLine else endLine;
    var t := Trim(cur);
    if t != [] && |cur| >= MinChunkSize {
      var chunk := TextChunk(t, context, next, currentStart, endLine);
      TextsAppend(chunks, [chunk]);
      NumberedAppend(chunks, chunk, context, index, startLine, endLine);
      assert Texts([chunk]) == [t];
      result, after := chunks + [chunk], next + 1;
    } else if t != [] {
      if chunks != [] {
        var last := chunks[|chunks| - 1];
        var merged := last.(text := last.text + " " + t, endLine := endLine);
        TextsAppend(chunks[..|chunks| - 1], [merged]);
        assert Texts(chunks[..|chunks| - 1]) == Texts(chunks)[..|chunks| - 1];
        assert Numbered(chunks[..|chunks| - 1], context, index, startLine, endLine) by {
          assert forall k :: 0 <= k < |chunks| - 1 ==> chunks[..|chunks| - 1][k] == chunks[k];
        }
        assert NumberedAt(last, |chunks| - 1, context, index, startLine, endLine);
        NumberedAppend(chunks[..|chunks| - 1], merged, context, index, startLine, endLine);
        assert Texts([merged]) == [Texts(chunks)[|chunks| - 1] + " " + t];
        result := chunks[..|chunks| - 1] + [merged];
      } else {
        var chunk := TextChunk(t, context, next, currentStart, endLine);
        assert Texts([chunk]) == [t];
        result, after := [chunk], next + 1;
      }
    }
  }

  /**
   * `split_text_intelligently`: the chunks `SplitChunks` describes; `next` is the index after
   * the last chunk.
   */
  method SplitTextIntelligently(text: string, headers: seq<string>, startLine: nat, endLine: nat, index: nat)
    returns (chunks: seq<TextChunk>, next: nat)
    ensures chunks == SplitChunks(text, headers, startLine, endLine, index)
    ensures next == index + |chunks|
  {
    var trimmed := Trim(text);
    if trimmed == [] {
      return [], index;
    }
    var sentences := SplitSentences(trimmed);
    var context := BuildContext(headers);
    var packed, cur, n := PackSentences(sentences, context, startLine, endLine, index);
    chunks, next := FinishChunks(packed, cur, context, startLine, endLine, index, n);
    NumberedUnique(chunks, context, index, startLine, endLine);
  }
}
