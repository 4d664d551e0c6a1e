/** The Python string operations the dialogue bridge relies on, on
    strings of code points: `str.splitlines()`, `str.split()` with no
    argument, `str.split(sep)` with a one-character separator, and the
    slice `s[1:-1]`. */
module PyStrings {

  /** The characters `str.isspace()` accepts, which `str.split()` splits on. */
  predicate IsSpace(c: char)
  {
    || '\U{0009}' <= c <= '\U{000D}' || '\U{001C}' <= c <= '\U{001F}' || c == ' '
    || c == '\U{0085}' || c == '\U{00A0}' || c == '\U{1680}'
    || '\U{2000}' <= c <= '\U{200A}' || c == '\U{2028}' || c == '\U{2029}'
    || c == '\U{202F}' || c == '\U{205F}' || c == '\U{3000}'
  }

  /** The line boundaries of `str.splitlines()` ("\r\n" counts as one). */
  predicate IsLineBreak(c: char)
  {
    || c == '\n' || c == '\r' || c == '\U{000B}' || c == '\U{000C}'
    || '\U{001C}' <= c <= '\U{001E}' || c == '\U{0085}' || c == '\U{2028}' || c == '\U{2029}'
  }

  predicate NoBreaks(s: string)
  {
    forall i | 0 <= i < |s| :: !IsLineBreak(s[i])
  }

  predicate NoSpaces(s: string)
  {
    forall i | 0 <= i < |s| :: !IsSpace(s[i])
  }

  // ---------------------------------------------------------------------
  // splitlines
  // ---------------------------------------------------------------------

  /** Length of the first line: the characters before the first break. */
  function LineLength(s: string): (k: nat)
    ensures k <= |s| && NoBreaks(s[..k])
    ensures k < |s| ==> IsLineBreak(s[k])
  {
    if s == [] || IsLineBreak(s[0]) then 0
    else
      var k := 1 + LineLength(s[1..]);
      assert s[..k] == [s[0]] + s[1..][..k - 1];
      k
  }

  /** Width of the break at position k: two for "\r\n", one otherwise. */
  function BreakWidth(s: string, k: nat): nat
    requires k < |s|
  {
    if s[k] == '\r' && k + 1 < |s| && s[k + 1] == '\n' then 2 else 1
  }

  /** `s.splitlines()`: no line holds a break, and a final break does not
      start an empty line. */
  function SplitLines(s: string): seq<string>
    decreases |s|
  {
    if s == [] then []
    else
      var k := LineLength(s);
      if k == |s| then [s]
      else [s[..k]] + SplitLines(s[k + BreakWidth(s, k)..])
  }

  /** No line contains a line break. */
  lemma {:induction false} LinesHaveNoBreaks(s: string)
    ensures forall n | 0 <= n < |SplitLines(s)| :: NoBreaks(SplitLines(s)[n])
    decreases |s|
  {
    if s != [] {
      var k := LineLength(s);
      if k < |s| {
        LinesHaveNoBreaks(s[k + BreakWidth(s, k)..]);
      }
    }
  }

  /** A line followed by "\n" comes off the front of the text. */
  lemma SplitLinesCons(line: string, rest: string)
    requires NoBreaks(line)
    ensures SplitLines(line + "\n" + rest) == [line] + SplitLines(rest)
  {
    var s := line + "\n" + rest;
    assert s == line + ("\n" + rest);
    LineLengthOf(line, "\n" + rest);
    assert s[|line|] == '\n' && BreakWidth(s, |line|) == 1;
    assert s[..|line|] == line;
    assert s[|line| + 1..] == rest;
  }

  /** A break-free text is one line. */
  lemma SplitLinesSingle(line: string)
    requires line != [] && NoBreaks(line)
    ensures SplitLines(line) == [line]
  {
    LineLengthOf(line, []);
    assert line + [] == line;
  }

  lemma {:induction false} LineLengthOf(line: string, rest: string)
    requires NoBreaks(line)
    requires rest != [] ==> IsLineBreak(rest[0])
    ensures LineLength(line + rest) == |line|
  {
    if line != [] {
      assert (line + rest)[1..] == line[1..] + rest;
      LineLengthOf(line[1..], rest);
    } else {
      assert line + rest == rest;
    }
  }

  // ---------------------------------------------------------------------
  // split() on whitespace
  // ---------------------------------------------------------------------

  /** Length of the leading whitespace. */
  function SpaceLength(s: string): (k: nat)
    ensures k <= |s|
    ensures k < |s| ==> !IsSpace(s[k])
  {
    if s != [] && IsSpace(s[0]) then 1 + SpaceLength(s[1..]) else 0
  }

  /** Length of the leading run of non-whitespace. */
  function WordLength(s: string): (k: nat)
    ensures k <= |s| && NoSpaces(s[..k])
    ensures k < |s| ==> IsSpace(s[k])
  {
    if s == [] || IsSpace(s[0]) then 0
    else
      var k := 1 + WordLength(s[1..]);
      assert s[..k] == [s[0]] + s[1..][..k - 1];
      k
  }

  /** `s.split()`: the maximal runs of non-whitespace, in order. */
  function SplitWords(s: string): seq<string>
    decreases |s|
  {
    var t := s[SpaceLength(s)..];
    if t == [] then []
    else
      var k := WordLength(t);
      [t[..k]] + SplitWords(t[k..])
  }

  /** Every word is non-empty and holds no whitespace. */
  lemma {:induction false} WordsAreWords(s: string)
    ensures forall n | 0 <= n < |SplitWords(s)| :: SplitWords(s)[n] != [] && NoSpaces(SplitWords(s)[n])
    decreases |s|
  {
    var t := s[SpaceLength(s)..];
    if t != [] {
      WordsAreWords(t[WordLength(t)..]);
    }
  }

  lemma {:induction false} WordLengthOf(word: string, rest: string)
    requires NoSpaces(word)
    requires rest != [] ==> IsSpace(rest[0])
    ensures WordLength(word + rest) == |word|
  {
    if word != [] {
      assert (word + rest)[1..] == word[1..] + rest;
      WordLengthOf(word[1..], rest);
    } else {
      assert word + rest == rest;
    }
  }

  /** Leading whitespace does not count. */
  lemma LeadingSpace(rest: string)
    ensures SplitWords(" " + rest) == SplitWords(rest)
  {
    var after := " " + rest;
    assert IsSpace(after[0]) && after[1..] == rest;
    assert after[SpaceLength(after)..] == rest[SpaceLength(rest)..];
  }

  /** A word followed by a space comes off the front of the text. */
  lemma SplitWordsCons(word: string, rest: string)
    requires word != [] && NoSpaces(word)
    ensures SplitWords(word + " " + rest) == [word] + SplitWords(rest)
  {
    var s := word + " " + rest;
    assert s == word + (" " + rest);
    assert s[0] == word[0];
    assert SpaceLength(s) == 0;
    WordLengthOf(word, " " + rest);
    assert s[..|word|] == word;
    assert s[|word|..] == " " + rest;
    LeadingSpace(rest);
  }

  // ---------------------------------------------------------------------
  // split(sep)
  // ---------------------------------------------------------------------

  /** Position of the first sep, or |s| when there is none. */
  function IndexOf(s: string, sep: char): (k: nat)
    ensures k <= |s| && sep !in s[..k]
    ensures k < |s| ==> s[k] == sep
  {
    if s == [] || s[0] == sep then 0
    else
      var k := 1 + IndexOf(s[1..], sep);
      assert s[..k] == [s[0]] + s[1..][..k - 1];
      k
  }

  /** `s.split(sep)`: the pieces between separators, empty ones included,
      so there is always at least one. */
  function SplitOn(s: string, sep: char): (parts: seq<string>)
    ensures |parts| >= 1
    decreases |s|
  {
    var k := IndexOf(s, sep);
    if k == |s| then [s] else [s[..k]] + SplitOn(s[k + 1..], sep)
  }

  /** `sep.join(parts)`. */
  function Join(parts: seq<string>, sep: char): string
    requires |parts| >= 1
  {
    if |parts| == 1 then parts[0] else parts[0] + [sep] + Join(parts[1..], sep)
  }

  /** Joining the pieces restores the text. */
  lemma {:induction false} JoinSplit(s: string, sep: char)
    ensures Join(SplitOn(s, sep), sep) == s
    decreases |s|
  {
    var k := IndexOf(s, sep);
    var parts := SplitOn(s, sep);
    if k < |s| {
      var rest := SplitOn(s[k + 1..], sep);
      assert parts == [s[..k]] + rest;
      assert parts[1..] == rest;
      JoinSplit(s[k + 1..], sep);
      assert Join(parts, sep) == s[..k] + [sep] + Join(rest, sep);
      assert s == s[..k] + [sep] + s[k + 1..];
    } else {
      assert parts == [s];
    }
  }

  /** Splitting separator-free pieces joined by sep gives them back. */
  lemma {:induction false} SplitJoin(parts: seq<string>, sep: char)
    requires |parts| >= 1
    requires forall n | 0 <= n < |parts| :: sep !in parts[n]
    ensures SplitOn(Join(parts, sep), sep) == parts
  {
    IndexOfAbsent(parts[0], sep);
    if |parts| > 1 {
      var s := Join(parts, sep);
      var tail := Join(parts[1..], sep);
      assert s == parts[0] + ([sep] + tail);
      IndexOfFirst(parts[0], sep, [sep] + tail);
      assert s[..|parts[0]|] == parts[0];
      assert s[|parts[0]| + 1..] == tail;
      SplitJoin(parts[1..], sep);
    }
  }

  /** Two separator-free pieces joined by one separator split back into
      them. */
  lemma SplitPair(a: string, b: string, sep: char)
    requires sep !in a && sep !in b
    ensures SplitOn(a + [sep] + b, sep) == [a, b]
  {
    var s := a + [sep] + b;
    assert s == a + ([sep] + b);
    IndexOfFirst(a, sep, [sep] + b);
    assert s[..|a|] == a;
    assert s[|a| + 1..] == b;
    IndexOfAbsent(b, sep);
  }

  lemma {:induction false} IndexOfAbsent(s: string, sep: char)
    requires sep !in s
    ensures IndexOf(s, sep) == |s|
  {
    if s != [] {
      assert s[0] in s;
      assert forall c | c in s[1..] :: c in s;
      IndexOfAbsent(s[1..], sep);
    }
  }

  lemma {:induction false} IndexOfFirst(piece: string, sep: char, rest: string)
    requires sep !in piece && rest != [] && rest[0] == sep
    ensures IndexOf(piece + rest, sep) == |piece|
  {
    if piece != [] {
      assert piece[0] in piece;
      assert forall c | c in piece[1..] :: c in piece;
      assert (piece + rest)[1..] == piece[1..] + rest;
      IndexOfFirst(piece[1..], sep, rest);
    } else {
      assert piece + rest == rest;
    }
  }

  // ---------------------------------------------------------------------
  // s[1:-1]
  // ---------------------------------------------------------------------

  /** `s[1:-1]`: drops the first and the last character; strings shorter
      than two characters give "". */
  function Unwrap(s: string): (t: string)
    ensures |s| >= 2 ==> |t| == |s| - 2
    ensures |s| < 2 ==> t == []
  {
    if |s| >= 2 then s[1..|s| - 1] else []
  }

  /** Unwrapping undoes quoting with any pair of delimiters. */
  lemma UnwrapQuoted(x: string, open: char, close: char)
    ensures Unwrap([open] + x + [close]) == x
  {
    var s := [open] + x + [close];
    assert s[1..|s| - 1] == x;
  }
}
