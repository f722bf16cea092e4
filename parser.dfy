/**
 * The structural pass of the Markdown parser (`parse_structure`) and the document
 * assembly around it (`parse_markdown`, `parse_markdown_file`).
 *
 * The Markdown tokenizer is not modelled: the pass runs over a sequence of `Event`s, the
 * events the tokenizer would report for the note body. The pass is specified by `Step`, one
 * event of the scan, and `Run`, the scan of a whole event sequence; the imperative
 * `ParseStructure` is proved to compute exactly `Structure`, and the properties of the
 * scan are lemmas about `Step` and `Run`.
 */
module Parser {
  import opened Wrappers
  import opened Text
  import opened Paths
  import opened Frontmatter
  import opened Chunking

  /** The tokenizer events the pass reacts to; every other event is `Other`. */
  datatype Event =
    | StartHeading(level: nat)
    | EndHeading
    | Text(text: string)
    | SoftBreak
    | HardBreak
    | EndParagraph
    | EndItem
    | EndCodeBlock
    | Other

  /** The local state of `parse_structure` (the chunk counter is always `|chunks|`). */
  datatype Scan = Scan(
    title: Option<string>,
    stack: seq<string>,
    cur: string,
    chunks: seq<TextChunk>,
    line: nat,
    start: nat,
    inHeading: bool,
    level: nat,
    heading: string)

  const Initial := Scan(None, [], "", [], 1, 1, false, 0, "")

  function Max(a: nat, b: nat): nat { if a >= b then a else b }
  function Min(a: nat, b: nat): nat { if a <= b then a else b }

  /** `usize::saturating_sub(1)`. */
  function Pred(n: nat): nat { if n == 0 then 0 else n - 1 }

  /** The number of line feeds in `t`. */
  function Newlines(t: string): (n: nat)
    ensures n <= |t|
  {
    if t == [] then 0 else (if t[0] == '\n' then 1 else 0) + Newlines(t[1..])
  }

  /** The chunk made of the whole open text, as the pass closes it at a heading or at the end. */
  function Flushed(s: Scan): TextChunk {
    TextChunk(Trim(s.cur), BuildContext(s.stack), |s.chunks|, s.start, Max(s.line, s.start))
  }

  /** The breadcrumb stack after a heading of level `level` with text `h`. */
  function PushHeading(stack: seq<string>, level: nat, h: string): seq<string> {
    stack[..Min(|stack|, Pred(level))] + [h]
  }

  /** One event of `parse_structure`. */
  function Step(s: Scan, e: Event): Scan {
    match e
    case StartHeading(level) =>
      var s1 := if Trim(s.cur) != [] then s.(chunks := s.chunks + [Flushed(s)], cur := "") else s;
      s1.(inHeading := true, level := level, heading := "", start := s.line)
    case EndHeading =>
      if !s.inHeading then s
      else
        var h := Trim(s.heading);
        s.(inHeading := false,
           stack := PushHeading(s.stack, s.level, h),
           title := if s.level == 1 && s.title.None? then Some(h) else s.title,
           line := s.line + 1,
           start := s.line + 1)
    case Text(t) =>
      if s.inHeading then s.(heading := s.heading + t, line := s.line + Newlines(t))
      else s.(cur := s.cur + t + " ", line := s.line + Newlines(t))
    case SoftBreak => if s.inHeading then s else s.(cur := s.cur + "\n", line := s.line + 1)
    case HardBreak => if s.inHeading then s else s.(cur := s.cur + "\n", line := s.line + 1)
    case EndParagraph =>
      if |s.cur| > MaxChunkSize then
        s.(chunks := s.chunks + SplitChunks(s.cur, s.stack, s.start, s.line, |s.chunks|),
           cur := "",
           line := s.line + 1,
           start := s.line + 1)
      else s.(line := s.line + 1)
    case EndItem => s.(line := s.line + 1)
    case EndCodeBlock => s.(line := s.line + 1)
    case Other => s
  }

  /** The scan of a whole event sequence. */
  function Run(es: seq<Event>): Scan
    decreases |es|
  {
    if es == [] then Initial else Step(Run(es[..|es| - 1]), es[|es| - 1])
  }

  lemma RunPrefix(es: seq<Event>, n: nat)
    requires n < |es|
    ensures Run(es[..n + 1]) == Step(Run(es[..n]), es[n])
  {
    assert es[..n + 1][..n] == es[..n];
  }

  /** The chunks once the remaining open text has been closed. */
  function Final(s: Scan): seq<TextChunk> {
    if Trim(s.cur) == [] then s.chunks
    else if |s.cur| > MaxChunkSize then s.chunks + SplitChunks(s.cur, s.stack, s.start, s.line, |s.chunks|)
    else s.chunks + [Flushed(s)]
  }

  /** What `parse_structure` returns: the title, the final heading stack and the chunks. */
  datatype Structure = Structure(title: Option<string>, headers: seq<string>, chunks: seq<TextChunk>)

  function StructureOf(es: seq<Event>): Structure {
    var s := Run(es);
    Structure(s.title, s.stack, Final(s))
  }

  lemma RunSnoc(es: seq<Event>, e: Event)
    ensures Run(es + [e]) == Step(Run(es), e)
  {
    assert (es + [e])[..|es|] == es;
  }

  // ------------------------------------------------------------ well-formed chunks

  /** A chunk carries trimmed, non-empty text and a valid, 1-based line range. */
  predicate ChunkShape(c: TextChunk) {
    c.text != [] && IsTrimmed(c.text) && 1 <= c.startLine <= c.endLine
  }

  /**
   * Chunks numbered consecutively from `from`, each well shaped, and in document order:
   * a chunk ends no later than any later chunk starts.
   */
  predicate ChunksOk(chunks: seq<TextChunk>, from: nat) {
    && (forall k :: 0 <= k < |chunks| ==> ChunkShape(chunks[k]) && chunks[k].index == from + k)
    && (forall i, j :: 0 <= i < j < |chunks| ==> chunks[i].endLine <= chunks[j].startLine)
  }

  predicate EndBy(chunks: seq<TextChunk>, m: nat) {
    forall k :: 0 <= k < |chunks| ==> chunks[k].endLine <= m
  }

  predicate StartFrom(chunks: seq<TextChunk>, m: nat) {
    forall k :: 0 <= k < |chunks| ==> m <= chunks[k].startLine
  }

  /** The invariant of the scan: the chunks so far are well formed and lie before `start`. */
  predicate ScanOk(s: Scan) {
    ChunksOk(s.chunks, 0) && 1 <= s.start <= s.line && EndBy(s.chunks, s.start)
  }

  lemma OkAppend(a: seq<TextChunk>, b: seq<TextChunk>, from: nat, m: nat)
    requires ChunksOk(a, from) && ChunksOk(b, from + |a|) && EndBy(a, m) && StartFrom(b, m)
    ensures ChunksOk(a + b, from)
  {
    var c := a + b;
    forall i, j | 0 <= i < j < |c| ensures c[i].endLine <= c[j].startLine {
      if j < |a| {
      } else if i >= |a| {
        assert c[i] == b[i - |a|] && c[j] == b[j - |a|];
      } else {
        assert c[i] == a[i] && c[j] == b[j - |a|];
      }
    }
  }

  /** The chunks a split produces are well formed and lie within the paragraph's lines. */
  lemma SplitOk(text: string, headers: seq<string>, startLine: nat, endLine: nat, index: nat)
    requires 1 <= startLine <= endLine
    ensures var c := SplitChunks(text, headers, startLine, endLine, index);
      ChunksOk(c, index) && StartFrom(c, startLine) && EndBy(c, endLine)
  {
    var c := SplitChunks(text, headers, startLine, endLine, index);
    SplitChunksSpec(text, headers, startLine, endLine, index);
    ChunkTextsShape(text);
    assert forall k :: 0 <= k < |c| ==> NumberedAt(c[k], k, BuildContext(headers), index, startLine, endLine);
    assert forall k :: 0 <= k < |c| ==> c[k].text == ChunkTexts(text)[k];
  }

  lemma FlushOk(s: Scan)
    requires ScanOk(s) && Trim(s.cur) != []
    ensures ChunksOk(s.chunks + [Flushed(s)], 0) && EndBy(s.chunks + [Flushed(s)], s.line)
  {
    OkAppend(s.chunks, [Flushed(s)], 0, s.start);
  }

  lemma ParagraphOk(s: Scan)
    requires ScanOk(s)
    ensures var c := s.chunks + SplitChunks(s.cur, s.stack, s.start, s.line, |s.chunks|);
      ChunksOk(c, 0) && EndBy(c, s.line)
  {
    SplitOk(s.cur, s.stack, s.start, s.line, |s.chunks|);
    OkAppend(s.chunks, SplitChunks(s.cur, s.stack, s.start, s.line, |s.chunks|), 0, s.start);
  }

  lemma StepOk(s: Scan, e: Event)
    requires ScanOk(s)
    ensures ScanOk(Step(s, e)) && Step(s, e).line >= s.line
  {
    match e
    case StartHeading(_) =>
      if Trim(s.cur) != [] { FlushOk(s); }
    case EndParagraph =>
      if |s.cur| > MaxChunkSize { ParagraphOk(s); }
    case _ =>
  }

  lemma {:induction false} RunOk(es: seq<Event>)
    ensures ScanOk(Run(es))
    decreases |es|
  {
    if es != [] {
      RunOk(es[..|es| - 1]);
      StepOk(Run(es[..|es| - 1]), es[|es| - 1]);
    }
  }

  /**
   * Whatever the events, the chunks of the pass are numbered 0, 1, 2, ..., hold trimmed
   * non-empty text, have 1-based line ranges with `startLine <= endLine`, and are in
   * document order.
   */
  lemma StructureOk(es: seq<Event>)
    ensures ChunksOk(StructureOf(es).chunks, 0)
  {
    var s := Run(es);
    RunOk(es);
    if Trim(s.cur) != [] {
      if |s.cur| > MaxChunkSize { ParagraphOk(s); } else { FlushOk(s); }
    }
  }

  // ---------------------------------------------------------------- content kept

  /** Whether the events leave a heading open: an independent reading of the event list. */
  ghost function InHeadingAfter(es: seq<Event>): bool
    decreases |es|
  {
    if es == [] then false
    else match es[|es| - 1]
      case StartHeading(_) => true
      case EndHeading => false
      case _ => InHeadingAfter(es[..|es| - 1])
  }

  /** The body text of the events: every text event outside a heading, in order. */
  ghost function BodyText(es: seq<Event>): string
    decreases |es|
  {
    if es == [] then []
    else
      var init := es[..|es| - 1];
      match es[|es| - 1]
      case Text(t) => BodyText(init) + (if InHeadingAfter(init) then [] else t)
      case _ => BodyText(init)
  }

  /** The non-whitespace content the scan holds: its chunks, then the open text. */
  ghost function Content(s: Scan): string {
    Compact(Concat(Texts(s.chunks))) + Compact(s.cur)
  }

  lemma AppendChunksContent(a: seq<TextChunk>, b: seq<TextChunk>)
    ensures Compact(Concat(Texts(a + b))) == Compact(Concat(Texts(a))) + Compact(Concat(Texts(b)))
  {
    TextsAppend(a, b);
    ConcatSplit(Texts(a), Texts(b));
    CompactConcat(Concat(Texts(a)), Concat(Texts(b)));
  }

  /** Closing the open text as one chunk keeps its content. */
  lemma FlushContent(s: Scan)
    requires Trim(s.cur) != []
    ensures Compact(Concat(Texts(s.chunks + [Flushed(s)]))) == Content(s)
  {
    AppendChunksContent(s.chunks, [Flushed(s)]);
    assert Texts([Flushed(s)]) == [Trim(s.cur)];
    assert Concat([Trim(s.cur)]) == Trim(s.cur) by {
      assert [Trim(s.cur)][1..] == [];
    }
    CompactTrim(s.cur);
  }

  /** Splitting the open text keeps its content. */
  lemma SplitContent(s: Scan)
    ensures Compact(Concat(Texts(s.chunks + SplitChunks(s.cur, s.stack, s.start, s.line, |s.chunks|)))) == Content(s)
  {
    var c := SplitChunks(s.cur, s.stack, s.start, s.line, |s.chunks|);
    AppendChunksContent(s.chunks, c);
    SplitChunksSpec(s.cur, s.stack, s.start, s.line, |s.chunks|);
    ChunkTextsKeepContent(s.cur);
  }

  lemma TextContent(cur: string, t: string)
    ensures Compact(cur + t + " ") == Compact(cur) + Compact(t)
  {
    CompactNewline(cur + t);
    CompactConcat(cur, t);
  }

  /** One event adds to the content exactly the non-whitespace text of a body text event. */
  lemma StepContent(s: Scan, e: Event)
    ensures Content(Step(s, e)) == Content(s) + (if e.Text? && !s.inHeading then Compact(e.text) else [])
  {
    match e
    case StartHeading(_) =>
      if Trim(s.cur) != [] {
        FlushContent(s);
      } else {
        CompactAllWhitespace(s.cur);
      }
    case Text(t) =>
      if !s.inHeading { TextContent(s.cur, t); }
    case SoftBreak => CompactNewline(s.cur);
    case HardBreak => CompactNewline(s.cur);
    case EndParagraph =>
      if |s.cur| > MaxChunkSize { SplitContent(s); }
    case _ =>
  }

  lemma {:induction false} RunContent(es: seq<Event>)
    ensures Run(es).inHeading == InHeadingAfter(es)
    ensures Content(Run(es)) == Compact(BodyText(es))
    decreases |es|
  {
    if es != [] {
      var init := es[..|es| - 1];
      RunContent(init);
      StepContent(Run(init), es[|es| - 1]);
      match es[|es| - 1]
      case Text(t) => CompactConcat(BodyText(init), if InHeadingAfter(init) then [] else t);
      case _ =>
    }
  }

  /**
   * Nothing of the body is lost or invented: the chunks hold, in order, exactly the
   * non-whitespace characters of the text outside headings.
   */
  lemma StructureKeepsBody(es: seq<Event>)
    ensures Compact(Concat(Texts(StructureOf(es).chunks))) == Compact(BodyText(es))
  {
    var s := Run(es);
    RunContent(es);
    if Trim(s.cur) == [] {
      CompactAllWhitespace(s.cur);
    } else if |s.cur| > MaxChunkSize {
      SplitContent(s);
    } else {
      FlushContent(s);
    }
  }

  // ----------------------------------------------------------------------- title

  predicate NoTopHeading(es: seq<Event>) {
    forall i :: 0 <= i < |es| ==> es[i] != StartHeading(1)
  }

  /** Without a level-1 heading there is no title, and no open heading is of level 1. */
  lemma {:induction false} NoTopHeadingNoTitle(es: seq<Event>)
    requires NoTopHeading(es)
    ensures Run(es).title.None?
    ensures Run(es).inHeading ==> Run(es).level != 1
    decreases |es|
  {
    if es != [] {
      var init := es[..|es| - 1];
      assert NoTopHeading(init) by {
        assert forall i :: 0 <= i < |init| ==> init[i] == es[i];
      }
      NoTopHeadingNoTitle(init);
    }
  }

  /** Once a title is found, later events never change it: the title after a prefix stays. */
  lemma {:induction false} TitleSticks(es: seq<Event>, n: nat)
    requires n <= |es| && Run(es[..n]).title.Some?
    ensures Run(es).title == Run(es[..n]).title
    decreases |es|
  {
    if n < |es| {
      var init := es[..|es| - 1];
      assert init[..n] == es[..n];
      TitleSticks(init, n);
      StepKeepsTitle(Run(init), es[|es| - 1]);
    } else {
      assert es[..n] == es;
    }
  }

  lemma StepKeepsTitle(s: Scan, e: Event)
    requires s.title.Some?
    ensures Step(s, e).title == s.title
  {
  }

  /**
   * The title is the trimmed text of the first level-1 heading: after events with no
   * level-1 heading, a heading `# h` fixes the title to `h`, whatever follows.
   */
  lemma FirstTopHeadingIsTitle(pre: seq<Event>, h: string, post: seq<Event>)
    requires NoTopHeading(pre)
    ensures StructureOf(pre + [StartHeading(1), Text(h), EndHeading] + post).title == Some(Trim(h))
  {
    var c := pre + [StartHeading(1), Text(h), EndHeading];
    NoTopHeadingNoTitle(pre);
    HeadingEvents(pre, 1, h);
    assert (c + post)[..|c|] == c;
    TitleSticks(c + post, |c|);
  }

  /** Without any level-1 heading, the pass reports no title. */
  lemma NoTopHeadingNoStructureTitle(es: seq<Event>)
    requires NoTopHeading(es)
    ensures StructureOf(es).title.None?
  {
    NoTopHeadingNoTitle(es);
  }

  // --------------------------------------------------------------- heading stack

  /**
   * A heading of level `level` closes every open section of the same or a deeper level:
   * the breadcrumb keeps at most `level - 1` of the enclosing headings, unchanged and in
   * order, exactly `level - 1` of them when that many are open, and ends with the new one.
   */
  lemma HeadingNests(pre: seq<Event>, level: nat, h: string)
    requires level >= 1
    ensures var before := Run(pre).stack;
      var after := Run(pre + [StartHeading(level), Text(h), EndHeading]).stack;
      && 1 <= |after| <= level
      && after[|after| - 1] == Trim(h)
      && |after| - 1 <= |before|
      && after[..|after| - 1] == before[..|after| - 1]
      && (|before| >= level - 1 ==> |after| == level)
  {
    HeadingEvents(pre, level, h);
  }

  /** The scan after the three events of a plain heading `h` of level `level`. */
  lemma HeadingEvents(pre: seq<Event>, level: nat, h: string)
    ensures var s := Run(pre);
      var t := Run(pre + [StartHeading(level), Text(h), EndHeading]);
      && t.stack == PushHeading(s.stack, level, Trim(h))
      && t.title == (if level == 1 && s.title.None? then Some(Trim(h)) else s.title)
  {
    var a := pre + [StartHeading(level)];
    var b := a + [Text(h)];
    RunSnoc(pre, StartHeading(level));
    RunSnoc(a, Text(h));
    RunSnoc(b, EndHeading);
    assert pre + [StartHeading(level), Text(h), EndHeading] == b + [EndHeading];
    HeadingSteps(Run(pre), level, h);
  }

  lemma HeadingSteps(s: Scan, level: nat, h: string)
    ensures var t := Step(Step(Step(s, StartHeading(level)), Text(h)), EndHeading);
      && t.stack == PushHeading(s.stack, level, Trim(h))
      && t.title == (if level == 1 && s.title.None? then Some(Trim(h)) else s.title)
  {
    var a := Step(s, StartHeading(level));
    assert a.inHeading && a.heading == [] && a.level == level && a.stack == s.stack && a.title == s.title;
    var b := Step(a, Text(h));
    assert b.inHeading && b.heading == h && b.level == level && b.stack == s.stack && b.title == s.title;
  }

  // --------------------------------------------------------- the imperative pass

  /**
   * `parse_structure`: the event loop, then the closing of the remaining open text. The
   * loop's locals are the fields of `scan`; `chunk_index` is `|scan.chunks|` throughout.
   */
  method ParseStructure(events: seq<Event>) returns (r: Structure)
    ensures r == StructureOf(events)
  {
    var scan := Initial;
    for n := 0 to |events|
      invariant scan == Run(events[..n])
    {
      RunPrefix(events, n);
      scan := ScanEvent(scan, events[n]);
    }
    assert events[..|events|] == events;
    var chunks := scan.chunks;
    if Trim(scan.cur) != [] {
      if |scan.cur| > MaxChunkSize {
        var newChunks, _ := SplitTextIntelligently(scan.cur, scan.stack, scan.start, scan.line, |chunks|);
        chunks := chunks + newChunks;
      } else {
        chunks := chunks + [TextChunk(Trim(scan.cur), BuildContext(scan.stack), |chunks|, scan.start,
          Max(scan.line, scan.start))];
      }
    }
    r := Structure(scan.title, scan.stack, chunks);
  }

  /** The body of the event loop of `parse_structure`, for one event. */
  method ScanEvent(s: Scan, e: Event) returns (r: Scan)
    ensures r == Step(s, e)
  {
    r := s;
    match e {
      case StartHeading(level) =>
        if Trim(r.cur) != [] {
          r := r.(chunks := r.chunks + [TextChunk(Trim(r.cur), BuildContext(r.stack), |r.chunks|, r.start,
            Max(r.line, r.start))]);
          r := r.(cur := "");
        }
        r := r.(inHeading := true, level := level, heading := "");
        r := r.(start := r.line);
      case EndHeading =>
        if r.inHeading {
          r := r.(inHeading := false);
          var heading := Trim(r.heading);
          var level := r.level;
          r := r.(stack := r.stack[..Min(|r.stack|, Pred(level))]);
          r := r.(stack := r.stack + [heading]);
          if level == 1 && r.title.None? {
            r := r.(title := Some(heading));
          }
          r := r.(line := r.line + 1);
          r := r.(start := r.line);
        }
      case Text(t) =>
        var newlines := Newlines(t);
        if r.inHeading {
          r := r.(heading := r.heading + t);
        } else {
          r := r.(cur := r.cur + t);
          r := r.(cur := r.cur + " ");
        }
        r := r.(line := r.line + newlines);
      case SoftBreak =>
        if !r.inHeading {
          r := r.(cur := r.cur + "\n", line := r.line + 1);
        }
      case HardBreak =>
        if !r.inHeading {
          r := r.(cur := r.cur + "\n", line := r.line + 1);
        }
      case EndParagraph =>
        r := r.(line := r.line + 1);
        if |r.cur| > MaxChunkSize {
          var newChunks, _ := SplitTextIntelligently(r.cur, r.stack, r.start, r.line - 1, |r.chunks|);
          r := r.(chunks := r.chunks + newChunks, cur := "");
          r := r.(start := r.line);
        }
      case EndItem =>
        r := r.(line := r.line + 1);
      case EndCodeBlock =>
        r := r.(line := r.line + 1);
      case Other =>
    }
  }

  // ------------------------------------------------------------ document assembly

  /** `ParsedDocument`. */
  datatype ParsedDocument = ParsedDocument(
    metadata: Metadata,
    title: string,
    chunks: seq<TextChunk>,
    headers: seq<string>)

  /**
   * The document title: the first level-1 heading, else the file stem of the path, else
   * "Untitled". The frontmatter's `title` is never consulted.
   */
  function DocumentTitle(heading: Option<string>, path: string): (r: string)
    ensures heading.Some? ==> r == heading.value
    ensures heading.None? && FileStem(path).Some? ==> r == FileStem(path).value
    ensures heading.None? && FileStem(path).None? ==> r == "Untitled"
  {
    match heading
    case Some(t) => t
    case None =>
      match FileStem(path)
      case Some(stem) => stem
      case None => "Untitled"
  }

  /**
   * `parse_markdown`: frontmatter, then the structural pass over the body's events. The
   * YAML parser and the Markdown tokenizer are parameters (`yaml`, `lex`).
   */
  method ParseMarkdown(content: string, path: string, yaml: string -> Option<Yaml>, lex: string -> seq<Event>)
    returns (doc: ParsedDocument)
    ensures var st := StructureOf(lex(ExtractFrontmatter(content).1));
      && doc.chunks == st.chunks
      && doc.headers == st.headers
      && doc.title == DocumentTitle(st.title, path)
    ensures var fm := ExtractFrontmatter(content).0;
      fm.Some? && yaml(fm.value).Some? && yaml(fm.value).value.YMap? ==>
        doc.metadata.title == AsStr(Lookup(yaml(fm.value).value.entries, "title"))
  {
    var (frontmatter, body) := ExtractFrontmatter(content);
    var metadata := ParseFrontmatter(frontmatter, yaml);
    var st := ParseStructure(lex(body));
    doc := ParsedDocument(metadata, DocumentTitle(st.title, path), st.chunks, st.headers);
  }

  /**
   * `parse_markdown_file`: `read` stands for reading the file as UTF-8 text; a failed read
   * is an I/O error, and otherwise the document is the one `ParseMarkdown` assembles.
   */
  method ParseMarkdownFile(path: string, read: string -> Option<string>, yaml: string -> Option<Yaml>,
                           lex: string -> seq<Event>)
    returns (r: Result<ParsedDocument>)
    ensures read(path).None? <==> r == Err(Io)
    ensures r.Ok? <==> read(path).Some?
    ensures r.Ok? ==> var st := StructureOf(lex(ExtractFrontmatter(read(path).value).1));
      r.value.chunks == st.chunks && r.value.title == DocumentTitle(st.title, path)
  {
    var content := read(path);
    if content.None? {
      return Err(Io);
    }
    var doc := ParseMarkdown(content.value, path, yaml, lex);
    r := Ok(doc);
  }

  /**
   * A note with a level-1 heading is titled by its first one, whatever the frontmatter
   * says and whatever the file is called.
   */
  lemma HeadingTitlesDocument(path: string, pre: seq<Event>, h: string, post: seq<Event>)
    requires NoTopHeading(pre)
    ensures DocumentTitle(StructureOf(pre + [StartHeading(1), Text(h), EndHeading] + post).title, path) == Trim(h)
  {
    FirstTopHeadingIsTitle(pre, h, post);
  }

  /** A note without a level-1 heading is titled by its file stem: `test.md` gives `test`. */
  lemma StemTitlesDocument(es: seq<Event>)
    requires NoTopHeading(es)
    ensures DocumentTitle(StructureOf(es).title, "test.md") == "test"
  {
    NoTopHeadingNoStructureTitle(es);
    StemOfPlainName("test.md", "test", "md");
  }

  /** An empty note has no chunks and takes its title from the file stem (`empty.md`). */
  lemma EmptyNote()
    ensures StructureOf([]).chunks == []
    ensures DocumentTitle(StructureOf([]).title, "empty.md") == "empty"
  {
    assert Run([]) == Initial;
    StemOfPlainName("empty.md", "empty", "md");
  }
}
