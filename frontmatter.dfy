/**
 * Frontmatter handling of the Markdown parser: splitting a leading YAML block off a
 * note, and reading title, tags and custom string fields out of the parsed YAML.
 *
 * YAML parsing itself is not modelled: the parsed value is the `Yaml` datatype below,
 * supplied by an oracle.
 */
module Frontmatter {
  import opened Wrappers
  import opened Text

  /** The line that opens a frontmatter block. */
  const Open: string := "---\n"
  /** The marker that closes it: a line holding only `---`. */
  const Close: string := "\n---\n"

  /**
   * `extract_frontmatter`: when the content starts with `Open` and a `Close` marker occurs
   * after it, the text between is the frontmatter and the rest, after the marker, is the body.
   */
  function ExtractFrontmatter(content: string): (r: (Option<string>, string))
    ensures r.0.None? ==> r.1 == content
    ensures r.0.None? && StartsWith(content, Open) ==>
      forall j :: 4 <= j <= |content| ==> !StartsWith(content[j..], Close)
    ensures r.0.Some? ==> content == Open + r.0.value + Close + r.1
    ensures r.0.Some? ==> forall j :: 4 <= j < 4 + |r.0.value| ==> !StartsWith(content[j..], Close)
  {
    if StartsWith(content, Open) then
      var rest := content[4..];
      SuffixShift(content, 4);
      match Find(rest, Close)
      case Some(e) =>
        SplitAround(content, e);
        (Some(content[4..4 + e]), content[e + 9..])
      case None => (None, content)
    else (None, content)
  }

  /** A content that opens with `Open` and has `Close` at offset `e` after it is the sum of its parts. */
  lemma SplitAround(content: string, e: nat)
    requires StartsWith(content, Open) && e + 9 <= |content| && content[4..][e..e + 5] == Close
    ensures content == Open + content[4..4 + e] + Close + content[e + 9..]
  {
    assert content[4..][e..e + 5] == content[4 + e..e + 9];
    assert content == content[..4] + content[4..4 + e] + content[4 + e..e + 9] + content[e + 9..];
  }

  /**
   * The converse: a note built as `Open + fm + Close + body`, where `fm` does not itself run
   * into a closing marker, splits back into exactly `fm` and `body`.
   */
  lemma ExtractComposed(fm: string, body: string)
    requires forall j :: 0 <= j < |fm| ==> !StartsWith((fm + Close + body)[j..], Close)
    ensures ExtractFrontmatter(Open + fm + Close + body) == (Some(fm), body)
  {
    var content := Open + fm + Close + body;
    var rest := fm + Close + body;
    assert content[4..] == rest;
    assert StartsWith(rest[|fm|..], Close) by { assert rest[|fm|..|fm| + 5] == Close; }
    var r := ExtractFrontmatter(content);
    assert content[4 + |fm|..] == rest[|fm|..];
    var f := r.0.value;
    if |f| < |fm| {
      assert StartsWith(rest[|f|..], Close) by {
        assert content[4 + |f|..] == rest[|f|..];
        assert content[4 + |f|..4 + |f| + 5] == Close;
      }
      assert false;
    } else if |f| > |fm| {
      assert false;
    }
    assert f == content[4..4 + |f|] == fm;
    assert r.1 == content[|fm| + 9..] == body;
  }

  /** A note that does not open with `Open` has no frontmatter and is returned whole. */
  lemma NoFrontmatterWithoutOpen(content: string)
    requires !StartsWith(content, Open)
    ensures ExtractFrontmatter(content) == (None, content)
  {
  }

  // -------------------------------------------------------------------- yaml

  /** A parsed YAML value, as far as the parser inspects it. */
  datatype Yaml =
    | YStr(str: string)
    | YSeq(items: seq<Yaml>)
    | YMap(entries: seq<(Yaml, Yaml)>)
    | YOther                              // numbers, booleans, null, tagged values

  /** `DocumentMetadata`. */
  datatype Metadata = Metadata(
    title: Option<string>,
    tags: seq<string>,
    created: Option<string>,
    modified: Option<string>,
    custom: map<string, string>)

  const EmptyMetadata := Metadata(None, [], None, None, map[])

  /** The keys that never land in `custom`. */
  const ReservedKeys: set<string> := {"title", "tags", "created", "modified"}

  /**
   * `map.get(key)` on a YAML mapping: the value of the first entry under the string key. A
   * YAML mapping never repeats a key (the YAML parser rejects duplicates), so "first" and
   * the "last" of `CustomFields` pick the same entry on every mapping that reaches them.
   */
  function Lookup(entries: seq<(Yaml, Yaml)>, key: string): (r: Option<Yaml>)
    ensures r.Some? <==> exists i :: 0 <= i < |entries| && entries[i].0 == YStr(key)
    ensures r.Some? ==> exists i :: 0 <= i < |entries| && entries[i] == (YStr(key), r.value)
  {
    if entries == [] then None
    else if entries[0].0 == YStr(key) then Some(entries[0].1)
    else
      var r := Lookup(entries[1..], key);
      assert forall i :: 1 <= i < |entries| ==> entries[i] == entries[1..][i - 1];
      r
  }

  /** `.and_then(|v| v.as_str())`. */
  function AsStr(v: Option<Yaml>): (r: Option<string>)
    ensures r.Some? <==> v.Some? && v.value.YStr?
    ensures r.Some? ==> v.value == YStr(r.value)
  {
    if v.Some? && v.value.YStr? then Some(v.value.str) else None
  }

  /** The string items of a YAML sequence, in order (`filter_map(as_str)`). */
  function StrItems(items: seq<Yaml>): (r: seq<string>)
    ensures |r| <= |items|
    ensures forall k :: 0 <= k < |r| ==> YStr(r[k]) in items
    ensures (forall k :: 0 <= k < |items| ==> items[k].YStr?) ==> |r| == |items|
    ensures (forall k :: 0 <= k < |items| ==> items[k].YStr?) ==> forall k :: 0 <= k < |items| ==> r[k] == items[k].str
    ensures forall k :: 0 <= k < |items| && items[k].YStr? ==> items[k].str in r
  {
    if items == [] then []
    else
      var rest := StrItems(items[1..]);
      assert forall k :: 0 <= k < |rest| ==> YStr(rest[k]) in items by {
        forall k | 0 <= k < |rest| ensures YStr(rest[k]) in items {
          assert YStr(rest[k]) in items[1..];
        }
      }
      (if items[0].YStr? then [items[0].str] else []) + rest
  }

  /** `filter_map` keeps order: the tags of two runs of items are those of each run, in turn. */
  lemma {:induction false} StrItemsAppend(a: seq<Yaml>, b: seq<Yaml>)
    ensures StrItems(a + b) == StrItems(a) + StrItems(b)
    decreases |a|
  {
    if a != [] {
      assert (a + b)[0] == a[0] && (a + b)[1..] == a[1..] + b;
      StrItemsAppend(a[1..], b);
      var head: seq<string> := if a[0].YStr? then [a[0].str] else [];
      assert StrItems(a + b) == head + (StrItems(a[1..]) + StrItems(b));
      assert StrItems(a) == head + StrItems(a[1..]);
    } else {
      assert a + b == b;
    }
  }

  /** The pieces, trimmed, without the ones that trim to nothing, in order. */
  function TrimmedPieces(pieces: seq<string>): (r: seq<string>)
    ensures |r| <= |pieces|
    ensures forall k :: 0 <= k < |r| ==> r[k] != [] && IsTrimmed(r[k])
  {
    if pieces == [] then []
    else
      var t := Trim(pieces[0]);
      (if t == [] then [] else [t]) + TrimmedPieces(pieces[1..])
  }

  /** A comma-separated `tags` string: pieces between commas, trimmed, empty ones dropped. */
  function SplitTags(s: string): (r: seq<string>)
    ensures forall k :: 0 <= k < |r| ==> r[k] != [] && IsTrimmed(r[k])
    ensures |r| <= |SplitOn(s, ',')|
  {
    TrimmedPieces(SplitOn(s, ','))
  }

  lemma WhitespaceHasNoComma(pre: string)
    requires AllWhitespace(pre)
    ensures ',' !in pre
  {
  }

  /** The first tag of a list of at least two comes off the front of the split. */
  lemma SplitTagsFirst(pre: string, tags: seq<string>)
    requires AllWhitespace(pre) && |tags| >= 2
    requires tags[0] != [] && IsTrimmed(tags[0]) && ',' !in tags[0]
    ensures SplitTags(pre + Join(tags, ", ")) == [tags[0]] + SplitTags(" " + Join(tags[1..], ", "))
  {
    var tail := Join(tags[1..], ", ");
    JoinFirst(pre, tags);
    TrimPadded(pre, tags[0]);
    var split := SplitOn(" " + tail, ',');
    assert ([pre + tags[0]] + split)[0] == pre + tags[0];
    assert ([pre + tags[0]] + split)[1..] == split;
  }

  /** Splitting at the first comma of a joined list gives the first tag, with the blanks before it. */
  lemma JoinFirst(pre: string, tags: seq<string>)
    requires AllWhitespace(pre) && |tags| >= 2 && ',' !in tags[0]
    ensures SplitOn(pre + Join(tags, ", "), ',') == [pre + tags[0]] + SplitOn(" " + Join(tags[1..], ", "), ',')
  {
    WhitespaceHasNoComma(pre);
    var tail := Join(tags[1..], ", ");
    assert Join(tags, ", ") == tags[0] + ", " + tail;
    assert pre + Join(tags, ", ") == (pre + tags[0]) + [','] + (" " + tail);
    SplitOnAt(pre + tags[0], " " + tail, ',');
  }

  /** A single tag, after blanks, splits into itself. */
  lemma SplitTagsSingle(pre: string, tag: string)
    requires AllWhitespace(pre) && tag != [] && IsTrimmed(tag) && ',' !in tag
    ensures SplitTags(pre + tag) == [tag]
  {
    WhitespaceHasNoComma(pre);
    SplitOnNoSeparator(pre + tag, ',');
    TrimPadded(pre, tag);
  }

  /** Tags written out as `a, b, c` (after any leading blanks) split back into the list. */
  lemma {:induction false} SplitTagsPadded(pre: string, tags: seq<string>)
    requires AllWhitespace(pre)
    requires forall k :: 0 <= k < |tags| ==> tags[k] != [] && IsTrimmed(tags[k]) && ',' !in tags[k]
    ensures SplitTags(pre + Join(tags, ", ")) == tags
    decreases |tags|
  {
    if tags == [] {
      WhitespaceHasNoComma(pre);
      assert pre + Join(tags, ", ") == pre;
      SplitOnNoSeparator(pre, ',');
    } else if |tags| == 1 {
      assert pre + Join(tags, ", ") == pre + tags[0];
      SplitTagsSingle(pre, tags[0]);
    } else {
      SplitTagsFirst(pre, tags);
      SplitTagsPadded(" ", tags[1..]);
      assert tags == [tags[0]] + tags[1..];
    }
  }

  /** Round trip: joining trimmed, comma-free tags with ", " and splitting gives them back. */
  lemma SplitTagsJoin(tags: seq<string>)
    requires forall k :: 0 <= k < |tags| ==> tags[k] != [] && IsTrimmed(tags[k]) && ',' !in tags[k]
    ensures SplitTags(Join(tags, ", ")) == tags
  {
    SplitTagsPadded("", tags);
    assert "" + Join(tags, ", ") == Join(tags, ", ");
  }

  /** The comma-separated example of the parser tests: three tags. */
  lemma SplitTagsExample()
    ensures SplitTags("rust, testing, cli") == ["rust", "testing", "cli"]
  {
    var tags := ["rust", "testing", "cli"];
    assert Join(tags, ", ") == "rust, testing, cli";
    SplitTagsJoin(tags);
  }

  /** The `tags` field: a sequence's string items, a split comma list, or nothing. */
  function TagsOf(v: Option<Yaml>): (r: seq<string>)
    ensures v.None? ==> r == []
    ensures v.Some? && v.value.YStr? ==> r == SplitTags(v.value.str)
    ensures v.Some? && v.value.YSeq? ==> r == StrItems(v.value.items)
    ensures v.Some? && !v.value.YStr? && !v.value.YSeq? ==> r == []
  {
    match v
    case Some(YSeq(items)) => StrItems(items)
    case Some(YStr(s)) => SplitTags(s)
    case _ => []
  }

  /** An entry that `parse_frontmatter` copies into `custom`. */
  predicate IsCustomEntry(e: (Yaml, Yaml)) {
    e.0.YStr? && e.1.YStr? && e.0.str !in ReservedKeys
  }

  /**
   * The `custom` map for a mapping's entries, entry by entry in order: each custom entry
   * inserts (or overwrites) its key.
   */
  function CustomFields(entries: seq<(Yaml, Yaml)>): map<string, string>
  {
    if entries == [] then map[]
    else
      var m := CustomFields(entries[..|entries| - 1]);
      var e := entries[|entries| - 1];
      if IsCustomEntry(e) then m[e.0.str := e.1.str] else m
  }

  /** `custom` holds exactly the keys of custom entries. */
  lemma {:induction false} CustomFieldsKeys(entries: seq<(Yaml, Yaml)>, k: string)
    ensures k in CustomFields(entries) <==>
      exists i :: 0 <= i < |entries| && entries[i].0 == YStr(k) && IsCustomEntry(entries[i])
    decreases |entries|
  {
    if entries != [] {
      var init := entries[..|entries| - 1];
      CustomFieldsKeys(init, k);
      assert forall i :: 0 <= i < |init| ==> init[i] == entries[i];
    }
  }

  /** The value under a key is the one of the last custom entry with that key. */
  lemma {:induction false} CustomFieldsLast(entries: seq<(Yaml, Yaml)>, k: string) returns (i: nat)
    requires k in CustomFields(entries)
    ensures i < |entries| && entries[i] == (YStr(k), YStr(CustomFields(entries)[k])) && IsCustomEntry(entries[i])
    ensures forall j :: i < j < |entries| ==> !(entries[j].0 == YStr(k) && IsCustomEntry(entries[j]))
    decreases |entries|
  {
    var init := entries[..|entries| - 1];
    var e := entries[|entries| - 1];
    if IsCustomEntry(e) && e.0.str == k {
      i := |entries| - 1;
    } else {
      i := CustomFieldsLast(init, k);
      assert entries[i] == init[i];
      assert forall j :: i < j < |init| ==> init[j] == entries[j];
    }
  }

  /** A reserved key (`title`, `tags`, `created`, `modified`) is never a custom field. */
  lemma CustomFieldsNotReserved(entries: seq<(Yaml, Yaml)>, k: string)
    requires k in ReservedKeys
    ensures k !in CustomFields(entries)
  {
    CustomFieldsKeys(entries, k);
  }

  /**
   * `parse_frontmatter`: metadata read from the frontmatter, when it is present and parses
   * to a YAML mapping; the default metadata otherwise. `yaml` stands for `serde_yaml`
   * (None: a parse error).
   */
  method ParseFrontmatter(frontmatter: Option<string>, yaml: string -> Option<Yaml>) returns (m: Metadata)
    ensures m.created.None? && m.modified.None?
    ensures !(frontmatter.Some? && yaml(frontmatter.value).Some? && yaml(frontmatter.value).value.YMap?) ==>
      m == EmptyMetadata
    ensures frontmatter.Some? && yaml(frontmatter.value).Some? && yaml(frontmatter.value).value.YMap? ==>
      var entries := yaml(frontmatter.value).value.entries;
      && m.title == AsStr(Lookup(entries, "title"))
      && m.tags == TagsOf(Lookup(entries, "tags"))
      && m.custom == CustomFields(entries)
  {
    m := EmptyMetadata;
    if frontmatter.None? {
      return;
    }
    var value := yaml(frontmatter.value);
    if value.None? || !value.value.YMap? {
      return;
    }
    var entries := value.value.entries;
    m := m.(title := AsStr(Lookup(entries, "title")));
    var tags := Lookup(entries, "tags");
    if tags.Some? && tags.value.YSeq? {
      m := m.(tags := StrItems(tags.value.items));
    } else if tags.Some? && tags.value.YStr? {
      m := m.(tags := SplitTags(tags.value.str));
    }
    var custom: map<string, string> := map[];
    for n := 0 to |entries|
      invariant custom == CustomFields(entries[..n])
    {
      assert entries[..n + 1][..n] == entries[..n];
      var (key, v) := entries[n];
      if key.YStr? && v.YStr? && key.str !in ReservedKeys {
        custom := custom[key.str := v.str];
      }
    }
    assert entries[..|entries|] == entries;
    m := m.(custom := custom);
  }
}
