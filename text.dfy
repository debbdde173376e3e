/**
 * The string primitives the Python source relies on: `str.strip`, `str.split()`,
 * `str.splitlines`, `str.join`, substring containment, slicing with Python's
 * bounds, and the case mappings (ASCII only).
 */
module Text {

  /** Python's `str.isspace`, the character set `strip()` and `split()` use. */
  predicate IsSpace(c: char) {
    || c == ' '
    || ('\t' <= c <= '\r')
    || ('\U{1C}' <= c <= '\U{1F}')
    || c == '\U{85}' || c == '\U{A0}' || c == '\U{1680}'
    || ('\U{2000}' <= c <= '\U{200A}')
    || c == '\U{2028}' || c == '\U{2029}' || c == '\U{202F}' || c == '\U{205F}' || c == '\U{3000}'
  }

  /** The line boundaries of Python's `str.splitlines` ("\r\n" counts as one). */
  predicate IsLineBreak(c: char) {
    || ('\n' <= c <= '\r')
    || ('\U{1C}' <= c <= '\U{1E}')
    || c == '\U{85}' || c == '\U{2028}' || c == '\U{2029}'
  }

  /** True of a string made only of whitespace, the empty string included. */
  predicate Blank(s: string) {
    forall i | 0 <= i < |s| :: IsSpace(s[i])
  }

  predicate NoLineBreak(s: string) {
    forall i | 0 <= i < |s| :: !IsLineBreak(s[i])
  }

  predicate StartsWith(s: string, prefix: string) {
    |prefix| <= |s| && s[..|prefix|] == prefix
  }

  predicate EndsWith(s: string, suffix: string) {
    |suffix| <= |s| && s[|s| - |suffix|..] == suffix
  }

  /** A prefix stays a prefix when text is appended. */
  lemma StartsWithExtended(s: string, prefix: string, more: string)
    requires StartsWith(s, prefix)
    ensures StartsWith(s + more, prefix)
  {
    assert (s + more)[..|prefix|] == s[..|prefix|];
  }

  // ---------------------------------------------------------------- strip

  function LStrip(s: string): (r: string)
    ensures |r| <= |s|
    ensures r == [] || !IsSpace(r[0])
    ensures Blank(s[..|s| - |r|])
  {
    if s != [] && IsSpace(s[0]) then
      var r := LStrip(s[1..]);
      assert s[1..][..|s| - 1 - |r|] == s[1..|s| - |r|];
      r
    else
      s
  }

  /** What `LStrip` leaves is a suffix of its input. */
  lemma {:induction false} LStripSuffix(s: string)
    ensures LStrip(s) == s[|s| - |LStrip(s)|..]
  {
    if s != [] && IsSpace(s[0]) {
      LStripSuffix(s[1..]);
    }
  }

  function RStrip(s: string): (r: string)
    ensures |r| <= |s| && r == s[..|r|]
    ensures r == [] || !IsSpace(r[|r| - 1])
    ensures Blank(s[|r|..])
  {
    if s != [] && IsSpace(s[|s| - 1]) then
      var r := RStrip(s[..|s| - 1]);
      assert s[..|s| - 1][|r|..] == s[|r|..|s| - 1];
      assert s[|r|..] == s[|r|..|s| - 1] + [s[|s| - 1]];
      assert s[..|s| - 1][..|r|] == s[..|r|];
      r
    else
      s
  }

  /** `s.strip()`. */
  function Strip(s: string): string {
    RStrip(LStrip(s))
  }

  /** Stripping leaves nothing exactly when the string is all whitespace. */
  lemma StripEmptyIffBlank(s: string)
    ensures Strip(s) == [] <==> Blank(s)
  {
    var l := LStrip(s);
    LStripSuffix(s);
    if Strip(s) == [] {
      assert Blank(l[0..]);
      assert l == [];
      forall i | 0 <= i < |s| ensures IsSpace(s[i]) {
        assert s[i] == s[..|s| - |l|][i];
      }
    } else if Blank(s) {
      assert false;
    }
  }

  /** A stripped string neither starts nor ends with whitespace, and is a slice of the input. */
  lemma StripShape(s: string)
    ensures var r := Strip(s);
      && (r == [] || (!IsSpace(r[0]) && !IsSpace(r[|r| - 1])))
      && exists k :: OccursAt(s, r, k)
  {
    var l := LStrip(s);
    var r := Strip(s);
    var k := |s| - |l|;
    LStripSuffix(s);
    assert r == l[..|r|];
    assert s[k..k + |r|] == r;
    assert OccursAt(s, r, k);
  }

  /** A string with no whitespace at either end is its own strip. */
  lemma StripUnpadded(s: string)
    requires s == [] || (!IsSpace(s[0]) && !IsSpace(s[|s| - 1]))
    ensures Strip(s) == s
  {
    assert LStrip(s) == s;
  }

  /** Stripping twice is stripping once. */
  lemma StripIdempotent(s: string)
    ensures Strip(Strip(s)) == Strip(s)
  {
    var r := Strip(s);
    StripShape(s);
    if r != [] {
      assert LStrip(r) == r;
      assert RStrip(r) == r;
    }
  }

  // ---------------------------------------------------------------- case mapping

  predicate IsAsciiLetter(c: char) {
    ('A' <= c <= 'Z') || ('a' <= c <= 'z')
  }

  function LowerChar(c: char): char {
    if 'A' <= c <= 'Z' then (c as int + 32) as char else c
  }

  function UpperChar(c: char): char {
    if 'a' <= c <= 'z' then (c as int - 32) as char else c
  }

  /** `s.lower()` on ASCII letters; every other character is left as it is. */
  function Lower(s: string): (r: string)
    ensures |r| == |s|
    ensures forall i | 0 <= i < |s| :: r[i] == LowerChar(s[i])
  {
    seq(|s|, i requires 0 <= i < |s| => LowerChar(s[i]))
  }

  /** `s.upper()` on ASCII letters. */
  function Upper(s: string): (r: string)
    ensures |r| == |s|
    ensures forall i | 0 <= i < |s| :: r[i] == UpperChar(s[i])
  {
    seq(|s|, i requires 0 <= i < |s| => UpperChar(s[i]))
  }

  /** `s.title()` on ASCII: a letter is upper-cased after a non-letter, lower-cased after a letter. */
  function TitleFrom(s: string, afterLetter: bool): (r: string)
    ensures |r| == |s|
  {
    if s == [] then []
    else [if afterLetter then LowerChar(s[0]) else UpperChar(s[0])] + TitleFrom(s[1..], IsAsciiLetter(s[0]))
  }

  function Title(s: string): string {
    TitleFrom(s, false)
  }

  /** `s.replace(from, to)` for one character. */
  function ReplaceChar(s: string, from: char, to: char): (r: string)
    ensures |r| == |s|
    ensures forall i | 0 <= i < |s| :: r[i] == (if s[i] == from then to else s[i])
  {
    seq(|s|, i requires 0 <= i < |s| => if s[i] == from then to else s[i])
  }

  function Repeat(c: char, n: nat): (r: string)
    ensures |r| == n && forall i | 0 <= i < n :: r[i] == c
  {
    seq(n, _ => c)
  }

  // ---------------------------------------------------------------- slicing

  /** A slice bound as Python normalises it for a sequence of length `len`. */
  function PyBound(len: nat, k: int): (b: nat)
    ensures b <= len
  {
    if k < 0 then (if len + k < 0 then 0 else len + k)
    else if k > len then len
    else k
  }

  /** `s[:k]`. */
  function PyTake<T>(s: seq<T>, k: int): seq<T> {
    s[..PyBound(|s|, k)]
  }

  /** `s[k:]`. */
  function PyDrop<T>(s: seq<T>, k: int): seq<T> {
    s[PyBound(|s|, k)..]
  }

  // ---------------------------------------------------------------- containment

  /** `needle in hay` for strings: substring containment. */
  predicate Contains(hay: string, needle: string)
    decreases |hay|
  {
    StartsWith(hay, needle) || (hay != [] && Contains(hay[1..], needle))
  }

  /** `needle` occurs in `hay` at position `i`. */
  predicate OccursAt(hay: string, needle: string, i: int) {
    0 <= i && i + |needle| <= |hay| && hay[i..i + |needle|] == needle
  }

  /** Containment means an occurrence at some position. */
  lemma {:induction false} ContainsIff(hay: string, needle: string)
    ensures Contains(hay, needle) <==> exists i :: OccursAt(hay, needle, i)
    decreases |hay|
  {
    if StartsWith(hay, needle) {
      assert OccursAt(hay, needle, 0);
    } else if hay != [] {
      ContainsIff(hay[1..], needle);
      if Contains(hay[1..], needle) {
        var i :| OccursAt(hay[1..], needle, i);
        assert hay[i + 1..i + 1 + |needle|] == hay[1..][i..i + |needle|];
        assert OccursAt(hay, needle, i + 1);
      }
      if exists i :: OccursAt(hay, needle, i) {
        var i :| OccursAt(hay, needle, i);
        assert i != 0;
        assert hay[1..][i - 1..i - 1 + |needle|] == hay[i..i + |needle|];
        assert OccursAt(hay[1..], needle, i - 1);
      }
    }
  }

  // ---------------------------------------------------------------- split()

  /** Length of the run of non-whitespace characters that starts `s`. */
  function WordLength(s: string): (n: nat)
    ensures n <= |s|
    ensures forall k | 0 <= k < n :: !IsSpace(s[k])
    ensures n < |s| ==> IsSpace(s[n])
  {
    if s == [] || IsSpace(s[0]) then 0 else 1 + WordLength(s[1..])
  }

  /** `s.split()`: the maximal runs of non-whitespace characters, in order. */
  function Split(s: string): (words: seq<string>)
    ensures forall w | w in words :: w != [] && forall k | 0 <= k < |w| :: !IsSpace(w[k])
    decreases |s|
  {
    if s == [] then []
    else if IsSpace(s[0]) then Split(s[1..])
    else
      var n := WordLength(s);
      [s[..n]] + Split(s[n..])
  }

  /** A non-empty string without whitespace. */
  predicate Word(w: string) {
    w != [] && forall k | 0 <= k < |w| :: !IsSpace(w[k])
  }

  /** A word with no whitespace, a space, then the rest: the first word of the split. */
  lemma SplitFirstWord(w: string, rest: string)
    requires Word(w)
    ensures Split(w + " " + rest) == [w] + Split(rest)
  {
    var s := w + " " + rest;
    assert forall k | 0 <= k < |w| :: s[k] == w[k];
    assert s[|w|] == ' ';
    assert WordLength(s) == |w|;
    assert s[..|w|] == w;
    assert s[|w|..][1..] == rest;
  }

  /** A single word splits into itself. */
  lemma SplitOneWord(w: string)
    requires Word(w)
    ensures Split(w) == [w]
  {
    assert WordLength(w) == |w|;
    assert w[..|w|] == w;
    assert w[|w|..] == [];
  }

  /** Two words separated by a single space split back into those two words. */
  lemma SplitTwoWords(c: string, d: string)
    requires Word(c) && Word(d)
    ensures Split(c + " " + d) == [c, d]
  {
    SplitOneWord(d);
    SplitFirstWord(c, d);
  }

  lemma SplitThreeWords(b: string, c: string, d: string)
    requires Word(b) && Word(c) && Word(d)
    ensures Split(b + " " + (c + " " + d)) == [b, c, d]
  {
    SplitTwoWords(c, d);
    SplitFirstWord(b, c + " " + d);
  }

  /** Four words separated by single spaces split back into those four words. */
  lemma SplitFourWords(a: string, b: string, c: string, d: string)
    requires Word(a) && Word(b) && Word(c) && Word(d)
    ensures Split(a + " " + (b + " " + (c + " " + d))) == [a, b, c, d]
  {
    SplitThreeWords(b, c, d);
    SplitFirstWord(a, b + " " + (c + " " + d));
  }

  // ---------------------------------------------------------------- splitlines()

  /** Index of the first line boundary of `s`, or `|s|`. */
  function LineLength(s: string): (n: nat)
    ensures n <= |s|
    ensures forall k | 0 <= k < n :: !IsLineBreak(s[k])
    ensures n < |s| ==> IsLineBreak(s[n])
  {
    if s == [] || IsLineBreak(s[0]) then 0 else 1 + LineLength(s[1..])
  }

  /** Width of the boundary at `i`: "\r\n" is one boundary of two characters. */
  function BreakWidth(s: string, i: nat): (w: nat)
    requires i < |s|
    ensures 1 <= w <= |s| - i
  {
    if s[i] == '\r' && i + 1 < |s| && s[i + 1] == '\n' then 2 else 1
  }

  /** `s.splitlines()`: lines without their boundaries; no empty last line after a final boundary. */
  function SplitLines(s: string): (lines: seq<string>)
    ensures forall l | l in lines :: NoLineBreak(l)
    decreases |s|
  {
    if s == [] then []
    else
      var n := LineLength(s);
      if n == |s| then [s]
      else [s[..n]] + SplitLines(s[n + BreakWidth(s, n)..])
  }

  // ---------------------------------------------------------------- join / split(sep)

  /** `sep.join(parts)`. */
  function Join(sep: string, parts: seq<string>): string {
    if parts == [] then ""
    else if |parts| == 1 then parts[0]
    else parts[0] + sep + Join(sep, parts[1..])
  }

  /** A join ends with its last part. */
  lemma {:induction false} JoinEndsWithLast(sep: string, parts: seq<string>)
    requires parts != []
    ensures EndsWith(Join(sep, parts), parts[|parts| - 1])
  {
    if |parts| > 1 {
      JoinEndsWithLast(sep, parts[1..]);
      var rest := Join(sep, parts[1..]);
      var last := parts[|parts| - 1];
      var a := parts[0] + sep;
      assert Join(sep, parts) == a + rest;
      assert (a + rest)[|a + rest| - |last|..] == rest[|rest| - |last|..];
    }
  }

  /** A line with no boundary in it, followed by "\n", is the first line of what it starts. */
  lemma FirstLine(a: string, rest: string)
    requires NoLineBreak(a)
    ensures SplitLines(a + "\n" + rest) == [a] + SplitLines(rest)
  {
    var s := a + "\n" + rest;
    var n := LineLength(s);
    assert s[|a|] == '\n';
    assert forall k | 0 <= k < |a| :: s[k] == a[k];
    assert n == |a|;
    assert BreakWidth(s, n) == 1;
    assert s[..n] == a;
    assert s[n + 1..] == rest;
  }

  /**
   * Lines free of boundaries, each followed by "\n", split back into the same lines
   * (an empty line included).
   */
  lemma {:induction false} SplitLinesTerminated(lines: seq<string>)
    requires lines != []
    requires forall l | l in lines :: NoLineBreak(l)
    ensures SplitLines(Join("\n", lines) + "\n") == lines
  {
    assert lines[0] in lines;
    var rest := if |lines| == 1 then "" else Join("\n", lines[1..]) + "\n";
    assert Join("\n", lines) + "\n" == lines[0] + "\n" + rest;
    FirstLine(lines[0], rest);
    if |lines| > 1 {
      SplitLinesTerminated(lines[1..]);
    }
  }

  /** Index of the first `c` in `s`, or `|s|`. */
  function IndexOf(s: string, c: char): (n: nat)
    ensures n <= |s|
    ensures forall k | 0 <= k < n :: s[k] != c
    ensures n < |s| ==> s[n] == c
  {
    if s == [] || s[0] == c then 0 else 1 + IndexOf(s[1..], c)
  }

  /** `s.split(c)` for a one-character separator: never empty. */
  function SplitOn(s: string, c: char): (parts: seq<string>)
    ensures parts != []
    decreases |s|
  {
    var n := IndexOf(s, c);
    if n == |s| then [s] else [s[..n]] + SplitOn(s[n + 1..], c)
  }

  predicate Lacks(s: string, c: char) {
    forall k | 0 <= k < |s| :: s[k] != c
  }

  /** Splitting a join on its separator gives the parts back, when no part holds the separator. */
  lemma {:induction false} SplitOnJoin(parts: seq<string>, c: char)
    requires parts != []
    requires forall p | p in parts :: Lacks(p, c)
    ensures SplitOn(Join([c], parts), c) == parts
  {
    assert parts[0] in parts;
    assert Lacks(parts[0], c);
    if |parts| == 1 {
      assert IndexOf(parts[0], c) == |parts[0]|;
    } else {
      var rest := Join([c], parts[1..]);
      var s := parts[0] + [c] + rest;
      assert Join([c], parts) == s;
      assert IndexOf(s, c) == |parts[0]| by {
        assert forall k | 0 <= k < |parts[0]| :: s[k] == parts[0][k];
        assert s[|parts[0]|] == c;
      }
      assert s[..|parts[0]|] == parts[0];
      assert s[|parts[0]| + 1..] == rest;
      SplitOnJoin(parts[1..], c);
    }
  }

  /** Joining the pieces of a split on `c` with `c` gives the string back. */
  lemma {:induction false} JoinSplitOn(s: string, c: char)
    ensures Join([c], SplitOn(s, c)) == s
    decreases |s|
  {
    var n := IndexOf(s, c);
    if n < |s| {
      JoinSplitOn(s[n + 1..], c);
      assert s == s[..n] + [c] + s[n + 1..];
    }
  }
}
