/** Python `str.strip()` and `str.splitlines()` on text, as the request validator uses them. */
module PyText {

  /** The characters for which Python's `str.isspace()` holds; `strip()` with no
      argument removes exactly these from both ends. */
  predicate IsSpace(c: char) {
    || ('\U{0009}' <= c <= '\U{000D}')
    || ('\U{001C}' <= c <= '\U{001F}')
    || c == ' '
    || c == '\U{0085}'
    || c == '\U{00A0}'
    || c == '\U{1680}'
    || ('\U{2000}' <= c <= '\U{200A}')
    || c == '\U{2028}'
    || c == '\U{2029}'
    || c == '\U{202F}'
    || c == '\U{205F}'
    || c == '\U{3000}'
  }

  /** The characters at which `str.splitlines()` ends a line. A carriage return
      directly followed by a line feed is one boundary (see `BoundaryWidth`). */
  predicate IsLineBreak(c: char) {
    || c == '\n'
    || c == '\r'
    || c == '\U{000B}'
    || c == '\U{000C}'
    || c == '\U{001C}'
    || c == '\U{001D}'
    || c == '\U{001E}'
    || c == '\U{0085}'
    || c == '\U{2028}'
    || c == '\U{2029}'
  }

  /** Every line-break character is also whitespace. */
  lemma LineBreakIsSpace(c: char)
    requires IsLineBreak(c)
    ensures IsSpace(c)
  {
  }

  /** Text made of whitespace only (the empty text included). */
  predicate IsBlank(s: string) {
    forall i :: 0 <= i < |s| ==> IsSpace(s[i])
  }

  /** Text without any line-break character: a single line's content. */
  predicate NoBreaks(s: string) {
    forall i :: 0 <= i < |s| ==> !IsLineBreak(s[i])
  }

  // ---------------------------------------------------------------- strip

  /** The index of the first non-space character at or after `i`, or `|s|`:
      the forward scan of `strip()`. */
  function SkipSpaces(s: string, i: nat): (j: nat)
    requires i <= |s|
    ensures i <= j <= |s|
    ensures forall k :: i <= k < j ==> IsSpace(s[k])
    ensures j < |s| ==> !IsSpace(s[j])
    decreases |s| - i
  {
    if i == |s| || !IsSpace(s[i]) then i else SkipSpaces(s, i + 1)
  }

  /** The end of `s[lo..j]` once its trailing whitespace is dropped: the
      backward scan of `strip()`, which stops at `lo`. */
  function SkipSpacesBack(s: string, lo: nat, j: nat): (e: nat)
    requires lo <= j <= |s|
    ensures lo <= e <= j
    ensures forall k :: e <= k < j ==> IsSpace(s[k])
    ensures lo < e ==> !IsSpace(s[e - 1])
    decreases j
  {
    if j == lo || !IsSpace(s[j - 1]) then j else SkipSpacesBack(s, lo, j - 1)
  }

  /** Whitespace followed by whitespace is whitespace. */
  lemma BlankConcat(a: string, b: string)
    requires IsBlank(a) && IsBlank(b)
    ensures IsBlank(a + b)
  {
  }

  /** `s.strip()`: the text between the leading and the trailing whitespace.
      It is empty exactly when `s` is blank; otherwise it starts and ends with
      a non-space character. Only whitespace is removed: `s` is `lead`
      whitespace characters, then the result, then whitespace. */
  function Strip(s: string): (r: string)
    ensures r == [] <==> IsBlank(s)
    ensures r != [] ==> !IsSpace(r[0]) && !IsSpace(r[|r| - 1])
    ensures var lead := SkipSpaces(s, 0);
      && lead + |r| <= |s|
      && r == s[lead..lead + |r|]
      && (forall k :: 0 <= k < lead ==> IsSpace(s[k]))
      && (forall k :: lead + |r| <= k < |s| ==> IsSpace(s[k]))
  {
    var lo := SkipSpaces(s, 0);
    var hi := SkipSpacesBack(s, lo, |s|);
    assert lo < |s| ==> lo < hi && s[lo..hi][0] == s[lo];
    s[lo..hi]
  }

  /** Stripping twice removes nothing more. */
  lemma StripIdempotent(s: string)
    ensures Strip(Strip(s)) == Strip(s)
  {
    var r := Strip(s);
    if r != [] {
      assert SkipSpaces(r, 0) == 0;
      assert SkipSpacesBack(r, 0, |r|) == |r|;
      assert r[0..|r|] == r;
    }
  }

  // ----------------------------------------------------------- splitlines

  /** Index of the first line-break character of `s`, or `|s|` when there is none. */
  function LineEnd(s: string): (e: nat)
    ensures e <= |s|
    ensures NoBreaks(s[..e])
    ensures e < |s| ==> IsLineBreak(s[e])
    decreases |s|
  {
    if s == [] || IsLineBreak(s[0]) then 0
    else
      var e := 1 + LineEnd(s[1..]);
      assert s[..e] == [s[0]] + s[1..][..e - 1];
      e
  }

  /** Number of characters of the line boundary that starts at `s[e]`:
      two for a carriage return followed by a line feed, one otherwise. */
  function BoundaryWidth(s: string, e: nat): (w: nat)
    requires e < |s| && IsLineBreak(s[e])
    ensures 1 <= w <= 2 && e + w <= |s|
    ensures IsLineBreak(s[e + w - 1])
  {
    if s[e] == '\r' && e + 1 < |s| && s[e + 1] == '\n' then 2 else 1
  }

  /** `s.splitlines()`: the lines of `s` without their terminators. A final
      terminator does not start another (empty) line, and the empty text has
      no lines at all. */
  function SplitLines(s: string): (lines: seq<string>)
    ensures forall k :: 0 <= k < |lines| ==> NoBreaks(lines[k])
    ensures lines == [] <==> s == []
    decreases |s|
  {
    if s == [] then []
    else
      var e := LineEnd(s);
      if e == |s| then [s]
      else [s[..e]] + SplitLines(s[e + BoundaryWidth(s, e)..])
  }

  // ------------------------------------------ an independent line count

  /** Number of line boundaries in `s`, reading left to right and counting a
      carriage return followed by a line feed once. */
  function Boundaries(s: string): nat
    decreases |s|
  {
    if s == [] then 0
    else if |s| >= 2 && s[0] == '\r' && s[1] == '\n' then 1 + Boundaries(s[2..])
    else if IsLineBreak(s[0]) then 1 + Boundaries(s[1..])
    else Boundaries(s[1..])
  }

  /** Number of lines of `s`: one per boundary, plus one for an unterminated last line. */
  function LineCount(s: string): nat {
    Boundaries(s) + if s != [] && !IsLineBreak(s[|s| - 1]) then 1 else 0
  }

  /** A break-free stretch contributes no boundary. */
  lemma {:induction false} BoundariesSkip(s: string, j: nat, e: nat)
    requires j <= e <= |s| && NoBreaks(s[..e])
    ensures Boundaries(s[j..]) == Boundaries(s[e..])
    decreases e - j
  {
    if j < e {
      assert s[j] == s[..e][j];
      assert s[j..][1..] == s[j + 1..];
      BoundariesSkip(s, j + 1, e);
    }
  }

  /** `splitlines()` yields exactly `LineCount(s)` lines. */
  lemma {:induction false} SplitLinesCount(s: string)
    ensures |SplitLines(s)| == LineCount(s)
    decreases |s|
  {
    if s != [] {
      var e := LineEnd(s);
      BoundariesSkip(s, 0, e);
      assert s[0..] == s;
      if e == |s| {
        assert s[e..] == [];
        assert !IsLineBreak(s[|s| - 1]) by { assert s[|s| - 1] == s[..e][|s| - 1]; }
      } else {
        var w := BoundaryWidth(s, e);
        var rest := s[e + w..];
        assert Boundaries(s[e..]) == 1 + Boundaries(rest) by {
          var t := s[e..];
          assert t[0] == s[e];
          if w == 2 {
            assert t[1] == s[e + 1];
            assert t[2..] == rest;
          } else {
            assert t[1..] == rest;
          }
        }
        SplitLinesCount(rest);
        if rest != [] {
          assert rest[|rest| - 1] == s[|s| - 1];
        } else {
          assert e + w == |s|;
        }
      }
    }
  }

  // ------------------------------------------- building text from lines

  /** The lines, each followed by a line feed: the text of a file whose last line is terminated. */
  function Terminated(lines: seq<string>): string {
    if lines == [] then [] else lines[0] + "\n" + Terminated(lines[1..])
  }

  /** `"\n".join(lines)`: the lines separated by line feeds, the last one unterminated. */
  function Joined(lines: seq<string>): string
    requires lines != []
  {
    if |lines| == 1 then lines[0] else lines[0] + "\n" + Joined(lines[1..])
  }

  /** Adding a line feed after the joined lines gives the terminated lines. */
  lemma {:induction false} JoinedThenNewline(lines: seq<string>)
    requires lines != []
    ensures Joined(lines) + "\n" == Terminated(lines)
    decreases |lines|
  {
    if |lines| > 1 {
      JoinedThenNewline(lines[1..]);
    } else {
      assert lines[1..] == [];
    }
  }

  /** The first line of `line + rest` ends right where `rest` starts with a line feed. */
  lemma FirstLineOf(line: string, rest: string)
    requires NoBreaks(line) && rest != [] && rest[0] == '\n'
    ensures LineEnd(line + rest) == |line|
    ensures BoundaryWidth(line + rest, |line|) == 1
    ensures (line + rest)[|line| + 1..] == rest[1..]
    decreases |line|
  {
    var s := line + rest;
    if line != [] {
      assert s[1..] == line[1..] + rest;
      FirstLineOf(line[1..], rest);
    }
  }

  /** Round trip: splitting terminated lines gives the lines back. */
  lemma {:induction false} SplitTerminated(lines: seq<string>)
    requires forall k :: 0 <= k < |lines| ==> NoBreaks(lines[k])
    ensures SplitLines(Terminated(lines)) == lines
    decreases |lines|
  {
    if lines != [] {
      var s := Terminated(lines);
      var rest := "\n" + Terminated(lines[1..]);
      assert s == lines[0] + rest;
      FirstLineOf(lines[0], rest);
      assert s[..|lines[0]|] == lines[0];
      assert rest[1..] == Terminated(lines[1..]);
      SplitTerminated(lines[1..]);
    }
  }

  /** A single break-free, non-empty line splits into itself. */
  lemma SplitSingleLine(line: string)
    requires NoBreaks(line) && line != []
    ensures SplitLines(line) == [line]
  {
  }

  /** Round trip: splitting joined lines gives the lines back, provided the
      last line is not empty (an empty last line leaves only a trailing line
      feed, which `splitlines()` drops). */
  lemma {:induction false} SplitJoined(lines: seq<string>)
    requires lines != [] && lines[|lines| - 1] != []
    requires forall k :: 0 <= k < |lines| ==> NoBreaks(lines[k])
    ensures SplitLines(Joined(lines)) == lines
    decreases |lines|
  {
    if |lines| == 1 {
      SplitSingleLine(lines[0]);
    } else {
      var s := Joined(lines);
      var rest := "\n" + Joined(lines[1..]);
      assert s == lines[0] + rest;
      FirstLineOf(lines[0], rest);
      assert s[..|lines[0]|] == lines[0];
      assert rest[1..] == Joined(lines[1..]);
      SplitJoined(lines[1..]);
    }
  }

  /** A trailing line feed does not change the lines of a text whose last
      line is non-empty. */
  lemma TrailingNewlineAddsNoLine(lines: seq<string>)
    requires lines != [] && lines[|lines| - 1] != []
    requires forall k :: 0 <= k < |lines| ==> NoBreaks(lines[k])
    ensures SplitLines(Joined(lines) + "\n") == SplitLines(Joined(lines)) == lines
  {
    JoinedThenNewline(lines);
    SplitTerminated(lines);
    SplitJoined(lines);
  }

  // ------------------------------------------------------- blank text

  /** A line with a non-space character makes any text that starts with it non-blank. */
  lemma NonBlankPrefix(line: string, rest: string)
    requires !IsBlank(line)
    ensures !IsBlank(line + rest)
  {
    var i :| 0 <= i < |line| && !IsSpace(line[i]);
    assert (line + rest)[i] == line[i];
  }

  /** Blank lines, each terminated, make blank text. */
  lemma {:induction false} BlankLinesAreBlank(lines: seq<string>)
    requires forall k :: 0 <= k < |lines| ==> IsBlank(lines[k])
    ensures IsBlank(Terminated(lines))
    decreases |lines|
  {
    if lines != [] {
      BlankLinesAreBlank(lines[1..]);
      LineBreakIsSpace('\n');
      assert IsBlank(lines[0] + "\n");
      BlankConcat(lines[0] + "\n", Terminated(lines[1..]));
      assert Terminated(lines) == lines[0] + "\n" + Terminated(lines[1..]);
    }
  }
}
