/**
 * String helpers standing in for the Rust `str` methods the engine uses
 * (`trim`, `trim_matches`, `split`, `split_whitespace`, `join`, `starts_with`,
 * `contains`, `find`, `to_lowercase`, integer formatting).
 *
 * Text is `seq<char>` under an ASCII reading: a character is one byte, so Rust's
 * byte lengths are sequence lengths, whitespace is the ASCII White_Space set
 * (tab, line feed, vertical tab, form feed, carriage return, space) and
 * lower-casing maps only 'A'..'Z'.
 */
module Text {
  import opened Wrappers

  predicate IsWhitespace(c: char) {
    c == ' ' || ('\t' <= c <= '\r')
  }

  predicate AllWhitespace(s: string) {
    forall k :: 0 <= k < |s| ==> IsWhitespace(s[k])
  }

  // ---------------------------------------------------------------- trimming

  /** `trim_end_matches`: the longest prefix of `s` that does not end with a char of `drop`. */
  function TrimEndBy(s: string, drop: set<char>): (r: string)
    ensures |r| <= |s| && r == s[..|r|]
    ensures r != [] ==> r[|r| - 1] !in drop
    ensures forall k :: |r| <= k < |s| ==> s[k] in drop
    decreases |s|
  {
    if s != [] && s[|s| - 1] in drop then TrimEndBy(s[..|s| - 1], drop) else s
  }

  /** `trim_matches`: both ends stripped of the chars of `drop`. */
  function TrimBy(s: string, drop: set<char>): (r: string)
    ensures |r| <= |s|
    ensures r != [] ==> r[0] !in drop && r[|r| - 1] !in drop
    decreases |s|
  {
    if s != [] && s[0] in drop then TrimBy(s[1..], drop) else TrimEndBy(s, drop)
  }

  /** The trimmed text is the slice `s[i..j]`, and only chars of `drop` lie outside it. */
  lemma {:induction false} TrimBySlice(s: string, drop: set<char>) returns (i: nat, j: nat)
    ensures i <= j <= |s| && TrimBy(s, drop) == s[i..j]
    ensures forall k :: 0 <= k < i ==> s[k] in drop
    ensures forall k :: j <= k < |s| ==> s[k] in drop
    decreases |s|
  {
    if s != [] && s[0] in drop {
      var i1, j1 := TrimBySlice(s[1..], drop);
      i, j := i1 + 1, j1 + 1;
      assert s[1..][i1..j1] == s[i..j];
      assert forall k :: 1 <= k < |s| ==> s[k] == s[1..][k - 1];
    } else {
      i, j := 0, |TrimEndBy(s, drop)|;
    }
  }

  /** `trim_end`: `s` without its trailing whitespace. */
  function TrimEnd(s: string): (r: string)
    ensures |r| <= |s| && r == s[..|r|]
    ensures r != [] ==> !IsWhitespace(r[|r| - 1])
    ensures forall k :: |r| <= k < |s| ==> IsWhitespace(s[k])
    decreases |s|
  {
    if s != [] && IsWhitespace(s[|s| - 1]) then TrimEnd(s[..|s| - 1]) else s
  }

  /** Rust's `str::trim`: leading whitespace is dropped one character at a time, then trailing whitespace. */
  function Trim(s: string): (r: string)
    ensures r == [] <==> AllWhitespace(s)
    ensures r != [] ==> !IsWhitespace(r[0]) && !IsWhitespace(r[|r| - 1])
    ensures |r| <= |s|
    decreases |s|
  {
    if s != [] && IsWhitespace(s[0]) then
      var r := Trim(s[1..]);
      assert AllWhitespace(s[1..]) ==> AllWhitespace(s) by {
        assert forall k :: 1 <= k < |s| ==> s[k] == s[1..][k - 1];
      }
      r
    else
      var r := TrimEnd(s);
      assert s != [] ==> r != [];
      r
  }

  /** The trimmed text is the slice `s[i..j]`, and only whitespace lies outside it. */
  lemma {:induction false} TrimSlice(s: string) returns (i: nat, j: nat)
    ensures i <= j <= |s| && Trim(s) == s[i..j]
    ensures forall k :: 0 <= k < i ==> IsWhitespace(s[k])
    ensures forall k :: j <= k < |s| ==> IsWhitespace(s[k])
    decreases |s|
  {
    if s != [] && IsWhitespace(s[0]) {
      var i1, j1 := TrimSlice(s[1..]);
      i, j := i1 + 1, j1 + 1;
      assert s[1..][i1..j1] == s[i..j];
      assert forall k :: 1 <= k < |s| ==> s[k] == s[1..][k - 1];
    } else {
      i, j := 0, |TrimEnd(s)|;
    }
  }

  /** A text is trimmed when it neither starts nor ends with whitespace. */
  predicate IsTrimmed(s: string) {
    s == [] || (!IsWhitespace(s[0]) && !IsWhitespace(s[|s| - 1]))
  }

  lemma TrimOfTrimmed(s: string)
    requires IsTrimmed(s)
    ensures Trim(s) == s
  {
    var i, j := TrimSlice(s);
    if s != [] {
      assert !IsWhitespace(s[0]) && !IsWhitespace(s[|s| - 1]);
      assert i == 0;
      assert j == |s|;
    }
  }

  /** Trimming whitespace padding off the front of an already trimmed text gives the text back. */
  lemma TrimPadded(pre: string, t: string)
    requires AllWhitespace(pre) && t != [] && IsTrimmed(t)
    ensures Trim(pre + t) == t
  {
    var s := pre + t;
    var i, j := TrimSlice(s);
    assert s[|pre|] == t[0] && s[|s| - 1] == t[|t| - 1];
    assert !AllWhitespace(s);
    assert s[i] == Trim(s)[0] && s[j - 1] == Trim(s)[|Trim(s)| - 1];
    assert i == |pre|;
    assert j == |s|;
    assert s[|pre|..] == t;
  }

  /** Trimming whitespace padding off the end of an already trimmed text gives the text back. */
  lemma TrimPaddedEnd(t: string, post: string)
    requires AllWhitespace(post) && t != [] && IsTrimmed(t)
    ensures Trim(t + post) == t
  {
    var s := t + post;
    var i, j := TrimSlice(s);
    assert s[0] == t[0] && s[|t| - 1] == t[|t| - 1];
    assert !AllWhitespace(s);
    assert s[i] == Trim(s)[0] && s[j - 1] == Trim(s)[|Trim(s)| - 1];
    assert i == 0;
    assert j == |t|;
    assert s[..|t|] == t;
  }

  /** Joining two trimmed, non-empty texts with a space gives a trimmed text. */
  lemma TrimmedSpaced(a: string, b: string)
    requires a != [] && IsTrimmed(a) && b != [] && IsTrimmed(b)
    ensures IsTrimmed(a + " " + b)
  {
    assert (a + " " + b)[0] == a[0];
    assert (a + " " + b)[|a + " " + b| - 1] == b[|b| - 1];
  }

  // ------------------------------------------------------ whitespace removal

  /** `s` with every whitespace character removed: the "content" that chunking must not lose. */
  function Compact(s: string): (r: string)
    ensures |r| <= |s|
  {
    if s == [] then []
    else if IsWhitespace(s[0]) then Compact(s[1..])
    else [s[0]] + Compact(s[1..])
  }

  lemma {:induction false} CompactConcat(a: string, b: string)
    ensures Compact(a + b) == Compact(a) + Compact(b)
    decreases |a|
  {
    if a == [] {
      assert a + b == b;
    } else {
      assert (a + b)[0] == a[0] && (a + b)[1..] == a[1..] + b;
      CompactConcat(a[1..], b);
    }
  }

  lemma {:induction false} CompactAllWhitespace(s: string)
    requires AllWhitespace(s)
    ensures Compact(s) == []
    decreases |s|
  {
    if s != [] { CompactAllWhitespace(s[1..]); }
  }

  lemma {:induction false} CompactSplit(s: string, i: nat)
    requires i <= |s|
    ensures Compact(s) == Compact(s[..i]) + Compact(s[i..])
    decreases i
  {
    if i == 0 {
      assert s[..0] == [] && s[0..] == s;
    } else {
      CompactSplit(s[1..], i - 1);
      assert s[..i][0] == s[0] && s[..i][1..] == s[1..][..i - 1];
      assert s[1..][i - 1..] == s[i..];
    }
  }

  lemma CompactSlices(s: string, i: nat, j: nat)
    requires i <= j <= |s|
    ensures Compact(s) == Compact(s[..i]) + Compact(s[i..j]) + Compact(s[j..])
  {
    CompactSplit(s, j);
    CompactSplit(s[..j], i);
    assert s[..j][..i] == s[..i] && s[..j][i..] == s[i..j];
  }

  /** Trimming never loses content. */
  lemma CompactTrim(s: string)
    ensures Compact(Trim(s)) == Compact(s)
  {
    var i, j := TrimSlice(s);
    CompactSlices(s, i, j);
    CompactAllWhitespace(s[..i]);
    CompactAllWhitespace(s[j..]);
  }

  lemma CompactSpace(a: string, b: string)
    ensures Compact(a + " " + b) == Compact(a) + Compact(b)
  {
    CompactConcat(a + " ", b);
    CompactConcat(a, " ");
  }

  lemma CompactNewline(a: string)
    ensures Compact(a + "\n") == Compact(a) && Compact(a + " ") == Compact(a)
  {
    CompactConcat(a, "\n");
    CompactConcat(a, " ");
  }

  // ------------------------------------------------------------- case folding

  function LowerChar(c: char): char {
    if 'A' <= c <= 'Z' then (c as int + 32) as char else c
  }

  /** Rust's `to_lowercase`, ASCII only. */
  function ToLower(s: string): (r: string)
    ensures |r| == |s| && forall k :: 0 <= k < |s| ==> r[k] == LowerChar(s[k])
  {
    seq(|s|, k requires 0 <= k < |s| => LowerChar(s[k]))
  }

  lemma ToLowerConcat(a: string, b: string)
    ensures ToLower(a + b) == ToLower(a) + ToLower(b)
  {
  }

  lemma ToLowerSuffix(s: string, i: nat)
    requires i <= |s|
    ensures ToLower(s[i..]) == ToLower(s)[i..]
  {
  }

  // ------------------------------------------------------------ search in text

  predicate StartsWith(s: string, p: string) {
    |p| <= |s| && s[..|p|] == p
  }

  /** `haystack.contains(needle)`: some suffix of `haystack` starts with `needle`. */
  predicate Contains(haystack: string, needle: string)
    decreases |haystack|
  {
    StartsWith(haystack, needle) || (haystack != [] && Contains(haystack[1..], needle))
  }

  lemma {:induction false} ContainsAt(haystack: string, needle: string, i: nat)
    requires i <= |haystack| && StartsWith(haystack[i..], needle)
    ensures Contains(haystack, needle)
    decreases i
  {
    if i > 0 {
      assert haystack[1..][i - 1..] == haystack[i..];
      ContainsAt(haystack[1..], needle, i - 1);
    }
  }

  /** What occurs in a suffix occurs in the whole text. */
  lemma {:induction false} ContainsInSuffix(s: string, i: nat, needle: string)
    requires i <= |s| && Contains(s[i..], needle)
    ensures Contains(s, needle)
    decreases |s| - i
  {
    if StartsWith(s[i..], needle) {
      ContainsAt(s, needle, i);
    } else {
      assert s[i..][1..] == s[i + 1..];
      ContainsInSuffix(s, i + 1, needle);
    }
  }

  /** A suffix of a suffix is a suffix. */
  lemma SuffixShift(s: string, i: nat)
    requires i <= |s|
    ensures forall j :: i <= j <= |s| ==> s[j..] == s[i..][j - i..]
  {
  }

  /** `s.find(p)`: the first position at which `p` occurs. */
  function Find(s: string, p: string): (r: Option<nat>)
    ensures r.Some? ==> r.value + |p| <= |s| && s[r.value..r.value + |p|] == p
    ensures r.Some? ==> forall j :: 0 <= j < r.value ==> !StartsWith(s[j..], p)
    ensures r.None? ==> forall j :: 0 <= j <= |s| ==> !StartsWith(s[j..], p)
    decreases |s|
  {
    if StartsWith(s, p) then Some(0)
    else if s == [] then None
    else
      var r := Find(s[1..], p);
      assert forall j :: 1 <= j <= |s| ==> s[j..] == s[1..][j - 1..];
      if r.None? then None else Some(r.value + 1)
  }

  // ----------------------------------------------------------- join and split

  /** The concatenation of all parts. */
  function Concat(parts: seq<string>): string {
    if parts == [] then [] else parts[0] + Concat(parts[1..])
  }

  lemma {:induction false} ConcatAppend(parts: seq<string>, last: string)
    ensures Concat(parts + [last]) == Concat(parts) + last
  {
    if parts != [] {
      assert (parts + [last])[1..] == parts[1..] + [last];
      ConcatAppend(parts[1..], last);
    }
  }

  lemma {:induction false} ConcatSplit(a: seq<string>, b: seq<string>)
    ensures Concat(a + b) == Concat(a) + Concat(b)
    decreases |a|
  {
    if a == [] {
      assert a + b == b;
    } else {
      assert (a + b)[0] == a[0] && (a + b)[1..] == a[1..] + b;
      ConcatSplit(a[1..], b);
    }
  }

  /** `parts.join(sep)`. */
  function Join(parts: seq<string>, sep: string): string {
    if parts == [] then []
    else if |parts| == 1 then parts[0]
    else parts[0] + sep + Join(parts[1..], sep)
  }

  lemma {:induction false} JoinAppend(parts: seq<string>, last: string, sep: string)
    ensures Join(parts + [last], sep) == if parts == [] then last else Join(parts, sep) + sep + last
  {
    if |parts| > 1 {
      assert (parts + [last])[1..] == parts[1..] + [last];
      JoinAppend(parts[1..], last, sep);
    } else if |parts| == 1 {
      assert (parts + [last])[1..] == [last];
    }
  }

  /** `s.split(c)`: the (possibly empty) pieces between occurrences of `c`; never an empty list. */
  function SplitOn(s: string, c: char): (r: seq<string>)
    ensures |r| >= 1
    ensures forall k :: 0 <= k < |r| ==> c !in r[k]
    decreases |s|
  {
    if s == [] then [[]]
    else
      var rest := SplitOn(s[1..], c);
      if s[0] == c then [[]] + rest else [[s[0]] + rest[0]] + rest[1..]
  }

  /** Splitting and re-joining with the separator gives the text back. */
  lemma {:induction false} JoinSplitOn(s: string, c: char)
    ensures Join(SplitOn(s, c), [c]) == s
    decreases |s|
  {
    if s != [] {
      JoinSplitOn(s[1..], c);
      var rest := SplitOn(s[1..], c);
      if s[0] != c && |rest| > 1 {
        assert ([[s[0]] + rest[0]] + rest[1..])[1..] == rest[1..];
      }
    }
  }

  /** A text without the separator splits into itself. */
  lemma {:induction false} SplitOnNoSeparator(s: string, c: char)
    requires c !in s
    ensures SplitOn(s, c) == [s]
    decreases |s|
  {
    if s != [] {
      SplitOnNoSeparator(s[1..], c);
      assert [s[0]] + s[1..] == s;
    }
  }

  /** The piece before the first separator comes off the front of the split. */
  lemma {:induction false} SplitOnAt(a: string, b: string, c: char)
    requires c !in a
    ensures SplitOn(a + [c] + b, c) == [a] + SplitOn(b, c)
    decreases |a|
  {
    var s := a + [c] + b;
    if a == [] {
      assert s[1..] == b;
    } else {
      assert s[1..] == a[1..] + [c] + b;
      SplitOnAt(a[1..], b, c);
      assert [a[0]] + a[1..] == a;
    }
  }

  /** The first piece of `s.split(c)`, i.e. `s.split(c).next()`: everything before the first `c`. */
  function BeforeFirst(s: string, c: char): (r: string)
    ensures r == SplitOn(s, c)[0]
    ensures StartsWith(s, r) && c !in r
    ensures |r| < |s| ==> s[|r|] == c
    decreases |s|
  {
    if s == [] || s[0] == c then [] else [s[0]] + BeforeFirst(s[1..], c)
  }

  // ------------------------------------------------------------------- words

  /** The length of the run of non-whitespace characters that `s` starts with. */
  function WordLength(s: string): (n: nat)
    ensures n <= |s|
    ensures forall k :: 0 <= k < n ==> !IsWhitespace(s[k])
    ensures n < |s| ==> IsWhitespace(s[n])
    decreases |s|
  {
    if s == [] || IsWhitespace(s[0]) then 0 else 1 + WordLength(s[1..])
  }

  /** `s.split_whitespace()`: the maximal runs of non-whitespace characters, in order. */
  function Words(s: string): (r: seq<string>)
    ensures forall k :: 0 <= k < |r| ==> r[k] != [] && forall m :: 0 <= m < |r[k]| ==> !IsWhitespace(r[k][m])
    decreases |s|
  {
    if s == [] then []
    else if IsWhitespace(s[0]) then Words(s[1..])
    else
      var n := WordLength(s);
      [s[..n]] + Words(s[n..])
  }

  /** The words hold exactly the non-whitespace content of the text. */
  lemma {:induction false} ConcatWords(s: string)
    ensures Concat(Words(s)) == Compact(s)
    decreases |s|
  {
    if s != [] && IsWhitespace(s[0]) {
      ConcatWords(s[1..]);
    } else if s != [] {
      var n := WordLength(s);
      var w, rest := s[..n], s[n..];
      assert Words(s) == [w] + Words(rest);
      assert ([w] + Words(rest))[1..] == Words(rest);
      ConcatWords(rest);
      CompactSplit(s, n);
      CompactNoWhitespace(w);
    }
  }

  lemma {:induction false} CompactNoWhitespace(s: string)
    requires forall k :: 0 <= k < |s| ==> !IsWhitespace(s[k])
    ensures Compact(s) == s
    decreases |s|
  {
    if s != [] { CompactNoWhitespace(s[1..]); }
  }

  // ------------------------------------------------------------------ numbers

  function DigitChar(d: nat): char
    requires d < 10
  {
    ['0', '1', '2', '3', '4', '5', '6', '7', '8', '9'][d]
  }

  predicate IsDigit(c: char) { '0' <= c <= '9' }

  /** Decimal formatting of a natural number (`format!("{}", n)`). */
  function NatToString(n: nat): (r: string)
    ensures r != [] && forall k :: 0 <= k < |r| ==> IsDigit(r[k])
  {
    if n < 10 then [DigitChar(n)] else NatToString(n / 10) + [DigitChar(n % 10)]
  }

  /** The value of a decimal digit string, the inverse of `NatToString`. */
  function DigitsValue(s: string): nat
    decreases |s|
  {
    if s == [] then 0
    else DigitsValue(s[..|s| - 1]) * 10 + (if IsDigit(s[|s| - 1]) then (s[|s| - 1] as int - '0' as int) else 0)
  }

  lemma {:induction false} NatToStringRoundTrip(n: nat)
    ensures DigitsValue(NatToString(n)) == n
    decreases n
  {
    var d := n % 10;
    assert DigitChar(d) as int - '0' as int == d;
    if n >= 10 {
      NatToStringRoundTrip(n / 10);
      var s := NatToString(n / 10) + [DigitChar(d)];
      assert s[..|s| - 1] == NatToString(n / 10);
    } else {
      assert [DigitChar(d)][..0] == [];
    }
  }

  /** Decimal renderings of different numbers differ. */
  lemma NatToStringInjective(m: nat, n: nat)
    requires NatToString(m) == NatToString(n)
    ensures m == n
  {
    NatToStringRoundTrip(m);
    NatToStringRoundTrip(n);
  }

  /** The part before the first `c` of `a + [c] + b`, when `a` holds no `c`, is `a`. */
  lemma {:induction false} BeforeFirstAt(a: string, c: char, b: string)
    requires c !in a
    ensures BeforeFirst(a + [c] + b, c) == a
    decreases |a|
  {
    var s := a + [c] + b;
    if a == [] {
      assert s[0] == c;
    } else {
      assert s[0] == a[0] && s[1..] == a[1..] + [c] + b;
      BeforeFirstAt(a[1..], c, b);
    }
  }
}
