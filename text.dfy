/**
 * The pieces of Python's `str` and `os.path` that the core relies on:
 * `str.isspace`, `str.lower`, `str.strip`, `str.split()` (no separator)
 * and `posixpath.basename`.
 */
module PyText {

  /** The characters `c.isspace()` holds for: those `str.split()` and `str.strip()` treat as white space. */
  const SpaceChars: set<char> := {
    ' ', '\t', '\n', '\U{0B}', '\U{0C}', '\r',                  // space, \t \n \v \f \r
    '\U{1C}', '\U{1D}', '\U{1E}', '\U{1F}',                      // file, group, record and unit separators
    '\U{85}', '\U{A0}', '\U{1680}',
    '\U{2000}', '\U{2001}', '\U{2002}', '\U{2003}', '\U{2004}', '\U{2005}',
    '\U{2006}', '\U{2007}', '\U{2008}', '\U{2009}', '\U{200A}',
    '\U{2028}', '\U{2029}', '\U{202F}', '\U{205F}', '\U{3000}'
  }

  predicate IsSpace(c: char)
  {
    c in SpaceChars
  }

  /** Lower-casing of one character; only the ASCII letters A-Z are mapped. */
  function LowerChar(c: char): (d: char)
    ensures IsSpace(d) <==> IsSpace(c)
    ensures 'A' <= c <= 'Z' ==> d != c && 'a' <= d <= 'z'
    ensures !('A' <= c <= 'Z') ==> d == c
  {
    if 'A' <= c <= 'Z' then (c as int + 32) as char else c
  }

  /** `s.lower()` */
  function Lower(s: string): (r: string)
    ensures |r| == |s|
    ensures forall k :: 0 <= k < |s| ==> r[k] == LowerChar(s[k])
  {
    seq(|s|, k requires 0 <= k < |s| => LowerChar(s[k]))
  }

  /** The first index at or after `i` that does not hold white space, or `|s|`. */
  function SkipSpace(s: string, i: nat): (j: nat)
    requires i <= |s|
    ensures i <= j <= |s|
    ensures j == |s| || !IsSpace(s[j])
    decreases |s| - i
  {
    if i < |s| && IsSpace(s[i]) then SkipSpace(s, i + 1) else i
  }

  /** Everything `SkipSpace` skips is white space. */
  lemma {:induction false} SkipSpaceSkips(s: string, i: nat)
    requires i <= |s|
    ensures forall k :: i <= k < SkipSpace(s, i) ==> IsSpace(s[k])
    decreases |s| - i
  {
    if i < |s| && IsSpace(s[i]) {
      SkipSpaceSkips(s, i + 1);
    }
  }

  /** The first index at or after `i` that holds white space, or `|s|`. */
  function SkipWord(s: string, i: nat): (j: nat)
    requires i <= |s|
    ensures i <= j <= |s|
    ensures j == |s| || IsSpace(s[j])
    decreases |s| - i
  {
    if i < |s| && !IsSpace(s[i]) then SkipWord(s, i + 1) else i
  }

  /** Everything `SkipWord` skips is not white space. */
  lemma {:induction false} SkipWordSkips(s: string, i: nat)
    requires i <= |s|
    ensures forall k :: i <= k < SkipWord(s, i) ==> !IsSpace(s[k])
    decreases |s| - i
  {
    if i < |s| && !IsSpace(s[i]) {
      SkipWordSkips(s, i + 1);
    }
  }

  /** The index just past the last non-space character of `s[lo..hi]`, or `lo` when there is none. */
  function TrimEnd(s: string, lo: nat, hi: nat): (e: nat)
    requires lo <= hi <= |s|
    ensures lo <= e <= hi
    ensures forall k :: e <= k < hi ==> IsSpace(s[k])
    ensures e == lo || !IsSpace(s[e - 1])
    decreases hi
  {
    if lo < hi && IsSpace(s[hi - 1]) then TrimEnd(s, lo, hi - 1) else hi
  }

  /** `s.strip()`: `s` without its leading and trailing white space. */
  function Strip(s: string): (r: string)
    ensures |r| <= |s|
    ensures r == [] || (!IsSpace(r[0]) && !IsSpace(r[|r| - 1]))
    ensures var a := SkipSpace(s, 0);
            && a + |r| <= |s| && r == s[a..a + |r|]
            && (forall k :: 0 <= k < a ==> IsSpace(s[k]))
            && (forall k :: a + |r| <= k < |s| ==> IsSpace(s[k]))
  {
    var a := SkipSpace(s, 0);
    SkipSpaceSkips(s, 0);
    s[a..TrimEnd(s, a, |s|)]
  }

  /** The words of `s` from index `i` on: its maximal runs of non-space characters, in order. */
  function SplitFrom(s: string, i: nat): (words: seq<string>)
    requires i <= |s|
    ensures forall w :: 0 <= w < |words| ==> words[w] != []
    ensures forall w, j :: 0 <= w < |words| && 0 <= j < |words[w]| ==> !IsSpace(words[w][j])
    ensures (forall k :: i <= k < |s| ==> IsSpace(s[k])) ==> words == []
    decreases |s| - i
  {
    var a := SkipSpace(s, i);
    if a == |s| then []
    else
      var b := SkipWord(s, a);
      SkipWordSkips(s, a);
      [s[a..b]] + SplitFrom(s, b)
  }

  /** `s.split()` */
  function Split(s: string): (words: seq<string>)
    ensures forall w :: 0 <= w < |words| ==> words[w] != []
    ensures forall w, j :: 0 <= w < |words| && 0 <= j < |words[w]| ==> !IsSpace(words[w][j])
    ensures (forall k :: 0 <= k < |s| ==> IsSpace(s[k])) ==> words == []
  {
    SplitFrom(s, 0)
  }

  /** `os.path.basename(p)` on POSIX: what follows the last '/'. */
  function Basename(p: string): (r: string)
    ensures |r| <= |p|
  {
    if p == [] || p[|p| - 1] == '/' then [] else Basename(p[..|p| - 1]) + [p[|p| - 1]]
  }

  /** The basename is the part of the path after its last '/'. */
  lemma {:induction false} BasenameShape(p: string)
    ensures var r := Basename(p);
            && r == p[|p| - |r|..]
            && '/' !in r
            && (|r| == |p| || p[|p| - |r| - 1] == '/')
  {
    if p != [] && p[|p| - 1] != '/' {
      var front := p[..|p| - 1];
      BasenameShape(front);
      var r := Basename(front);
      assert front[|front| - |r|..] + [p[|p| - 1]] == p[|p| - |r| - 1..];
    }
  }

  /** A name without a '/' is its own basename. */
  lemma {:induction false} BasenameOfName(name: string)
    requires '/' !in name
    ensures Basename(name) == name
  {
    if name != [] {
      var front := name[..|name| - 1];
      assert '/' !in front by {
        forall c | c in front ensures c != '/' { assert c in name; }
      }
      BasenameOfName(front);
      assert front + [name[|name| - 1]] == name;
    }
  }

  lemma {:induction false} SkipSpaceLower(s: string, i: nat)
    requires i <= |s|
    ensures SkipSpace(Lower(s), i) == SkipSpace(s, i)
    decreases |s| - i
  {
    if i < |s| && IsSpace(s[i]) {
      SkipSpaceLower(s, i + 1);
    }
  }

  lemma {:induction false} SkipWordLower(s: string, i: nat)
    requires i <= |s|
    ensures SkipWord(Lower(s), i) == SkipWord(s, i)
    decreases |s| - i
  {
    if i < |s| && !IsSpace(s[i]) {
      SkipWordLower(s, i + 1);
    }
  }

  /** Lower-casing cuts a string into the same number of words. */
  lemma {:induction false} SplitLower(s: string, i: nat)
    requires i <= |s|
    ensures |SplitFrom(Lower(s), i)| == |SplitFrom(s, i)|
    decreases |s| - i
  {
    SkipSpaceLower(s, i);
    var a := SkipSpace(s, i);
    if a < |s| {
      SkipWordLower(s, a);
      SplitLower(s, SkipWord(s, a));
    }
  }

  /** `t[j..]` matches `s` character for character from `a + j` on. */
  predicate Matches(t: string, s: string, a: nat, j: nat)
    requires a + |t| <= |s| && j <= |t|
    decreases |t| - j
  {
    j == |t| || (t[j] == s[a + j] && Matches(t, s, a, j + 1))
  }

  lemma {:induction false} MatchesAt(t: string, s: string, a: nat, j: nat, k: nat)
    requires a + |t| <= |s| && j <= k < |t| && Matches(t, s, a, j)
    ensures t[k] == s[a + k]
    decreases k - j
  {
    if j < k {
      MatchesAt(t, s, a, j + 1, k);
    }
  }

  lemma {:induction false} MatchesSlice(s: string, a: nat, e: nat, j: nat)
    requires a <= e <= |s| && j <= e - a
    ensures Matches(s[a..e], s, a, j)
    decreases e - a - j
  {
    if j < e - a {
      MatchesSlice(s, a, e, j + 1);
    }
  }

  /** `t` is the stretch of `s` that starts at `a` and is followed by white space only. */
  predicate Inside(t: string, s: string, a: nat)
  {
    && a + |t| <= |s|
    && Matches(t, s, a, 0)
    && (forall k :: a + |t| <= k < |s| ==> IsSpace(s[k]))
  }

  lemma {:induction false} SkipSpaceInside(t: string, s: string, a: nat, i: nat)
    requires Inside(t, s, a) && i <= |t|
    ensures SkipSpace(t, i) < |t| ==> SkipSpace(s, a + i) == a + SkipSpace(t, i)
    ensures SkipSpace(t, i) == |t| ==> SkipSpace(s, a + i) == |s|
    decreases |t| - i
  {
    if i < |t| {
      MatchesAt(t, s, a, 0, i);
      if IsSpace(t[i]) {
        SkipSpaceInside(t, s, a, i + 1);
      }
    }
  }

  lemma {:induction false} SkipWordInside(t: string, s: string, a: nat, i: nat)
    requires Inside(t, s, a) && i <= |t|
    ensures SkipWord(s, a + i) == a + SkipWord(t, i)
    decreases |t| - i
  {
    if i < |t| {
      MatchesAt(t, s, a, 0, i);
      if !IsSpace(t[i]) {
        SkipWordInside(t, s, a, i + 1);
      }
    }
  }

  /** The number of words of `s` from index `i` on, counted without building them. */
  function WordCount(s: string, i: nat): nat
    requires i <= |s|
    decreases |s| - i
  {
    var x := SkipSpace(s, i);
    if x == |s| then 0 else 1 + WordCount(s, SkipWord(s, x))
  }

  lemma {:induction false} WordCountSplit(s: string, i: nat)
    requires i <= |s|
    ensures |SplitFrom(s, i)| == WordCount(s, i)
    decreases |s| - i
  {
    var x := SkipSpace(s, i);
    if x < |s| {
      WordCountSplit(s, SkipWord(s, x));
    }
  }

  /** A stretch followed only by white space has as many words as the whole has from there on. */
  lemma {:induction false} WordCountInside(t: string, s: string, a: nat, i: nat)
    requires Inside(t, s, a) && i <= |t|
    ensures WordCount(t, i) == WordCount(s, a + i)
    decreases |t| - i
  {
    SkipSpaceInside(t, s, a, i);
    var x := SkipSpace(t, i);
    if x < |t| {
      SkipWordInside(t, s, a, x);
      var y := SkipWord(t, x);
      WordCountInside(t, s, a, y);
      WordCountStep(t, i, x, y);
      WordCountStep(s, a + i, a + x, a + y);
    } else {
      assert WordCount(s, a + i) == 0;
    }
  }

  lemma WordCountStep(s: string, i: nat, x: nat, y: nat)
    requires i <= |s| && x == SkipSpace(s, i) && x < |s| && y == SkipWord(s, x)
    ensures WordCount(s, i) == 1 + WordCount(s, y)
  {
  }

  /** `s.strip().split()` has as many words as `s.split()`. */
  lemma SplitStrip(s: string)
    ensures |Split(Strip(s))| == |Split(s)|
  {
    var a := SkipSpace(s, 0);
    var t := Strip(s);
    MatchesSlice(s, a, TrimEnd(s, a, |s|), 0);
    assert Inside(t, s, a);
    WordCountInside(t, s, a, 0);
    WordCountSplit(t, 0);
    WordCountSplit(s, 0);
    assert SkipSpace(s, a) == a;
  }

  /** A word starts at `k`: a non-space character at the start of the string or after a space. */
  predicate StartsWord(s: string, k: nat)
    requires k < |s|
  {
    !IsSpace(s[k]) && (k == 0 || IsSpace(s[k - 1]))
  }

  /** The number of positions at or after `i` where a word starts. */
  function WordStarts(s: string, i: nat): nat
    requires i <= |s|
    decreases |s| - i
  {
    if i == |s| then 0 else (if StartsWord(s, i) then 1 else 0) + WordStarts(s, i + 1)
  }

  /** No word starts inside a run of white space. */
  lemma {:induction false} WordStartsSpace(s: string, i: nat)
    requires i <= |s|
    ensures WordStarts(s, i) == WordStarts(s, SkipSpace(s, i))
    decreases |s| - i
  {
    if i < |s| && IsSpace(s[i]) {
      WordStartsSpace(s, i + 1);
    }
  }

  /** No word starts in the middle of a word. */
  lemma {:induction false} WordStartsWord(s: string, k: nat)
    requires 0 < k <= |s| && !IsSpace(s[k - 1])
    ensures WordStarts(s, k) == WordStarts(s, SkipWord(s, k))
    decreases |s| - k
  {
    if k < |s| && !IsSpace(s[k]) {
      WordStartsWord(s, k + 1);
    }
  }

  /** From a position that is not inside a word, the words counted are the word starts. */
  lemma {:induction false} WordCountStarts(s: string, i: nat)
    requires i <= |s|
    requires i == 0 || i == |s| || IsSpace(s[i - 1]) || IsSpace(s[i])
    ensures WordCount(s, i) == WordStarts(s, i)
    decreases |s| - i
  {
    WordStartsSpace(s, i);
    var x := SkipSpace(s, i);
    if x < |s| {
      SkipSpaceSkips(s, i);
      assert StartsWord(s, x);
      WordStartsWord(s, x + 1);
      var y := SkipWord(s, x);
      assert SkipWord(s, x + 1) == y;
      WordCountStarts(s, y);
      WordCountStep(s, i, x, y);
    }
  }

  /**
   * `s.split()` has one word for each position where a word starts: a
   * non-space character at the start of `s` or right after a space.
   */
  lemma SplitCountsWordStarts(s: string)
    ensures |Split(s)| == WordStarts(s, 0)
  {
    WordCountSplit(s, 0);
    WordCountStarts(s, 0);
  }

  /** Normalising a question by `lower().strip()` keeps its word count. */
  lemma WordCountNormalized(s: string)
    ensures |Split(Strip(Lower(s)))| == |Split(s)|
  {
    SplitStrip(Lower(s));
    SplitLower(s, 0);
  }
}
