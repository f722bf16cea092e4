/**
 * The parts of Rust's `std::path::Path` the engine relies on: `file_name`,
 * `extension` and `file_stem`, over '/'-separated path strings.
 */
module Paths {
  import opened Wrappers
  import opened Text

  /** The last position of `c` in `s`. */
  function LastIndexOf(s: string, c: char): (r: Option<nat>)
    ensures r.Some? ==> r.value < |s| && s[r.value] == c && c !in s[r.value + 1..]
    ensures r.None? ==> c !in s
    decreases |s|
  {
    if s == [] then None
    else if s[|s| - 1] == c then Some(|s| - 1)
    else
      var r := LastIndexOf(s[..|s| - 1], c);
      assert s == s[..|s| - 1] + [s[|s| - 1]];
      r
  }

  /**
   * The path with trailing separators and trailing "." components removed:
   * `a/b/`, `a/b/.` and `a/b//.` all name the component `b`.
   */
  function StripTrailing(p: string): (r: string)
    ensures |r| <= |p| && r == p[..|r|]
    decreases |p|
  {
    if p != [] && p[|p| - 1] == '/' then StripTrailing(p[..|p| - 1])
    else if |p| >= 2 && p[|p| - 2..] == "/." then StripTrailing(p[..|p| - 2])
    else p
  }

  /** What follows the last separator of `q`, or all of `q` when it has none. */
  function LastComponent(q: string): (r: string)
    ensures '/' !in r
  {
    match LastIndexOf(q, '/')
    case None => q
    case Some(i) => q[i + 1..]
  }

  /** `Path::file_name`: the last component, unless it is empty, "." or "..". */
  function FileName(p: string): (r: Option<string>)
    ensures r.Some? ==> r.value != [] && '/' !in r.value
  {
    var name := LastComponent(StripTrailing(p));
    if name == [] || name == "." || name == ".." then None else Some(name)
  }

  /** The file name is a slice of the path. */
  lemma FileNameSlice(p: string) returns (i: nat)
    requires FileName(p).Some?
    ensures i + |FileName(p).value| <= |p| && p[i..i + |FileName(p).value|] == FileName(p).value
  {
    var q := StripTrailing(p);
    match LastIndexOf(q, '/')
    case None => i := 0;
    case Some(k) => i := k + 1;
  }

  /** Rust's `rsplit_file_at_dot`: the split at the last '.', unless the name starts with its only dot. */
  function SplitAtDot(name: string): (r: Option<nat>)
    ensures r.Some? ==> 0 < r.value < |name| && name[r.value] == '.' && '.' !in name[r.value + 1..]
  {
    if name == ".." then None
    else match LastIndexOf(name, '.')
      case Some(i) => if i == 0 then None else Some(i)
      case None => None
  }

  /** `Path::extension`: what follows the final '.' of the file name. */
  function Extension(p: string): (r: Option<string>)
    ensures r.Some? ==> FileName(p).Some? && '.' !in r.value && '/' !in r.value
  {
    match FileName(p)
    case None => None
    case Some(name) =>
      match SplitAtDot(name)
      case None => None
      case Some(i) => Some(name[i + 1..])
  }

  lemma ExtensionOf(p: string, name: string, i: nat)
    requires FileName(p) == Some(name) && SplitAtDot(name) == Some(i)
    ensures Extension(p) == Some(name[i + 1..])
  {
  }

  /** `Path::file_stem`: the file name without its extension. */
  function FileStem(p: string): (r: Option<string>)
    ensures r.Some? <==> FileName(p).Some?
    ensures r.Some? ==> r.value != [] && StartsWith(FileName(p).value, r.value)
  {
    match FileName(p)
    case None => None
    case Some(name) =>
      match SplitAtDot(name)
      case None => Some(name)
      case Some(i) => Some(name[..i])
  }

  /** The file name is the stem, then (when there is one) a '.' and the extension. */
  lemma StemDotExtension(p: string)
    requires FileName(p).Some?
    ensures FileName(p).value ==
      FileStem(p).value + (if Extension(p).Some? then "." + Extension(p).value else "")
  {
    var name := FileName(p).value;
    match SplitAtDot(name)
    case None =>
    case Some(i) =>
      assert name == name[..i] + "." + name[i + 1..];
  }

  // ---------------------------------------------- paths under lower-casing

  /** Lower-casing never creates or destroys a separator or a dot. */
  lemma LowerCharKeeps(x: char, c: char)
    requires c == '/' || c == '.'
    ensures LowerChar(x) == c <==> x == c
  {
  }

  lemma {:induction false} LastIndexOfLower(s: string, c: char)
    requires c == '/' || c == '.'
    ensures LastIndexOf(ToLower(s), c) == LastIndexOf(s, c)
    decreases |s|
  {
    if s != [] {
      LowerCharKeeps(s[|s| - 1], c);
      assert ToLower(s)[..|s| - 1] == ToLower(s[..|s| - 1]);
      LastIndexOfLower(s[..|s| - 1], c);
    }
  }

  lemma {:induction false} StripTrailingLower(p: string)
    ensures StripTrailing(ToLower(p)) == ToLower(StripTrailing(p))
    decreases |p|
  {
    if p != [] {
      LowerCharKeeps(p[|p| - 1], '/');
      if |p| >= 2 {
        LowerCharKeeps(p[|p| - 2], '/');
        LowerCharKeeps(p[|p| - 1], '.');
        assert ToLower(p)[|p| - 2..] == "/." <==> p[|p| - 2..] == "/.";
        assert ToLower(p)[..|p| - 2] == ToLower(p[..|p| - 2]);
        StripTrailingLower(p[..|p| - 2]);
      }
      assert ToLower(p)[..|p| - 1] == ToLower(p[..|p| - 1]);
      StripTrailingLower(p[..|p| - 1]);
    }
  }

  lemma LowerIsDots(name: string)
    ensures (ToLower(name) == "." <==> name == ".") && (ToLower(name) == ".." <==> name == "..")
  {
    if |name| == 1 { LowerCharKeeps(name[0], '.'); }
    if |name| == 2 { LowerCharKeeps(name[0], '.'); LowerCharKeeps(name[1], '.'); }
  }

  lemma FileNameLower(p: string)
    ensures FileName(ToLower(p)) == match FileName(p) case None => None case Some(n) => Some(ToLower(n))
  {
    var q := StripTrailing(p);
    StripTrailingLower(p);
    LastComponentLower(q);
    LowerIsDots(LastComponent(q));
  }

  lemma LastComponentLower(q: string)
    ensures LastComponent(ToLower(q)) == ToLower(LastComponent(q))
  {
    LastIndexOfLower(q, '/');
  }

  lemma SplitAtDotLower(name: string)
    ensures SplitAtDot(ToLower(name)) == SplitAtDot(name)
  {
    LowerIsDots(name);
    LastIndexOfLower(name, '.');
  }

  lemma ExtensionLower(p: string)
    ensures Extension(ToLower(p)) == match Extension(p) case None => None case Some(e) => Some(ToLower(e))
  {
    FileNameLower(p);
    match FileName(p)
    case None =>
    case Some(name) =>
      SplitAtDotLower(name);
      match SplitAtDot(name)
      case None =>
      case Some(i) =>
        assert ToLower(name)[i + 1..] == ToLower(name[i + 1..]);
  }

  lemma {:induction false} LastIndexOfAppend(a: string, b: string, c: char)
    requires c !in b
    ensures LastIndexOf(a + b, c) == LastIndexOf(a, c)
    decreases |b|
  {
    if b == [] {
      assert a + b == a;
    } else {
      assert (a + b)[..|a + b| - 1] == a + b[..|b| - 1];
      LastIndexOfAppend(a, b[..|b| - 1], c);
    }
  }

  /** In `dir + name`, where `dir` is empty or ends with a separator, a plain `name` is the file name. */
  lemma FileNameOfJoin(dir: string, name: string)
    requires dir == [] || dir[|dir| - 1] == '/'
    requires name != [] && '/' !in name && name[|name| - 1] != '/' && name != "." && name != ".."
    requires |name| >= 2 ==> name[|name| - 2..] != "/."
    ensures FileName(dir + name) == Some(name)
  {
    var p := dir + name;
    assert p[|p| - 1] == name[|name| - 1];
    if |p| >= 2 {
      if |name| >= 2 { assert p[|p| - 2..] == name[|name| - 2..]; }
      else { assert p[|p| - 2..] == [dir[|dir| - 1]] + name; }
    }
    assert StripTrailing(p) == p;
    LastIndexOfAppend(dir, name, '/');
    if dir != [] {
      assert LastIndexOf(dir, '/') == Some(|dir| - 1);
      assert p[|dir|..] == name;
    } else {
      assert p == name;
    }
  }

  /** `stem.ext` splits at the dot that precedes `ext`. */
  lemma NameSplitsAtDot(stem: string, ext: string)
    requires stem != [] && '.' !in stem && '.' !in ext
    ensures SplitAtDot(stem + "." + ext) == Some(|stem|)
    ensures (stem + "." + ext)[|stem| + 1..] == ext
  {
    var name := stem + "." + ext;
    LastIndexOfAppend(stem + ".", ext, '.');
    assert LastIndexOf(stem + ".", '.') == Some(|stem|);
    assert name != ".." by { assert name[0] == stem[0]; }
  }

  /** `stem.ext` is a plain final component of a path. */
  lemma PlainName(stem: string, ext: string)
    requires stem != [] && '/' !in stem && '.' !in stem && '/' !in ext
    ensures var name := stem + "." + ext;
      '/' !in name && name[|name| - 1] != '/' && name != "." && name != ".." &&
      (|name| >= 2 ==> name[|name| - 2..] != "/.")
  {
    var name := stem + "." + ext;
    assert name[0] == stem[0];
    assert forall k :: 0 <= k < |name| ==> name[k] != '/' by {
      forall k | 0 <= k < |name| ensures name[k] != '/' {
        if k < |stem| { assert name[k] == stem[k]; }
        else if k > |stem| { assert name[k] == ext[k - |stem| - 1]; }
      }
    }
    if |name| >= 2 { assert name[|name| - 2..][0] == name[|name| - 2]; }
  }

  /** The stem of a path whose file name is `stem.ext` is `stem`. */
  lemma StemOfName(p: string, stem: string, ext: string)
    requires stem != [] && '.' !in stem && '.' !in ext
    requires FileName(p) == Some(stem + "." + ext)
    ensures FileStem(p) == Some(stem)
  {
    NameSplitsAtDot(stem, ext);
    assert (stem + "." + ext)[..|stem|] == stem;
  }

  /** A bare file name `stem.ext` has the stem `stem`. */
  lemma StemOfPlainName(name: string, stem: string, ext: string)
    requires stem != [] && '/' !in stem && '.' !in stem && '/' !in ext && '.' !in ext
    requires name == stem + "." + ext
    ensures FileStem(name) == Some(stem)
  {
    PlainName(stem, ext);
    FileNameOfJoin("", name);
    assert "" + name == name;
    StemOfName(name, stem, ext);
  }
}
