/** The string operations of the source's language that the planner and the loaders rely on. */
module Text {

  /** `str.isspace` for one character. */
  predicate IsSpace(c: char) {
    || '\t' <= c <= '\r' || '\U{1C}' <= c <= ' ' || c == '\U{85}' || c == '\U{A0}' || c == '\U{1680}'
    || '\U{2000}' <= c <= '\U{200A}' || c == '\U{2028}' || c == '\U{2029}' || c == '\U{202F}'
    || c == '\U{205F}' || c == '\U{3000}'
  }

  /** The characters at which `str.splitlines` breaks. */
  predicate IsLineBreak(c: char) {
    '\n' <= c <= '\r' || '\U{1C}' <= c <= '\U{1E}' || c == '\U{85}' || c == '\U{2028}' || c == '\U{2029}'
  }

  /** The code points of the characters that count as white space, and of those that end a line. */
  lemma SpacesAndBreaks(c: char)
    ensures IsSpace(c) <==> c as int in {
      9, 10, 11, 12, 13, 28, 29, 30, 31, 32, 133, 160, 5760, 8192, 8193, 8194, 8195, 8196, 8197, 8198, 8199, 8200,
      8201, 8202, 8232, 8233, 8239, 8287, 12288}
    ensures IsLineBreak(c) <==> c as int in {10, 11, 12, 13, 28, 29, 30, 133, 8232, 8233}
  {
  }

  function StripLeft(s: string): string {
    if s != "" && IsSpace(s[0]) then StripLeft(s[1..]) else s
  }

  function StripRight(s: string): string {
    if s != "" && IsSpace(s[|s| - 1]) then StripRight(s[..|s| - 1]) else s
  }

  function Strip(s: string): string {
    StripRight(StripLeft(s))
  }

  predicate StartsWith(s: string, prefix: string) {
    prefix <= s
  }

  /** A text that does not begin or end with white space. */
  predicate IsTrim(s: string) {
    s != "" ==> !IsSpace(s[0]) && !IsSpace(s[|s| - 1])
  }

  lemma {:induction false} StripLeftSplits(s: string) returns (cut: nat)
    ensures cut <= |s| && StripLeft(s) == s[cut..] && forall i :: 0 <= i < cut ==> IsSpace(s[i])
    ensures StripLeft(s) != "" ==> !IsSpace(StripLeft(s)[0])
  {
    if s != "" && IsSpace(s[0]) {
      var c := StripLeftSplits(s[1..]);
      cut := c + 1;
      assert s[1..][c..] == s[cut..];
      forall i | 0 <= i < cut ensures IsSpace(s[i]) {
        if i > 0 {
          assert s[i] == s[1..][i - 1];
        }
      }
    } else {
      cut := 0;
    }
  }

  lemma {:induction false} StripRightSplits(s: string) returns (cut: nat)
    ensures cut <= |s| && StripRight(s) == s[..cut] && forall i :: cut <= i < |s| ==> IsSpace(s[i])
    ensures StripRight(s) != "" ==> !IsSpace(StripRight(s)[|StripRight(s)| - 1])
  {
    if s != "" && IsSpace(s[|s| - 1]) {
      cut := StripRightSplits(s[..|s| - 1]);
      assert s[..|s| - 1][..cut] == s[..cut];
    } else {
      cut := |s|;
    }
  }

  /** Stripping removes white space from both ends, and only that. */
  lemma StripTrims(s: string) returns (from: nat, to: nat)
    ensures from <= to <= |s| && Strip(s) == s[from..to] && IsTrim(Strip(s))
    ensures forall i :: 0 <= i < from || to <= i < |s| ==> IsSpace(s[i])
  {
    from := StripLeftSplits(s);
    var t := s[from..];
    var cut := StripRightSplits(t);
    to := from + cut;
    assert t[..cut] == s[from..to];
    forall i | to <= i < |s| ensures IsSpace(s[i]) {
      assert s[i] == t[i - from];
    }
  }

  lemma StripOfTrim(s: string)
    requires IsTrim(s)
    ensures Strip(s) == s
  {
  }

  lemma {:induction false} StripLeftAppend(a: string, b: string)
    requires b != "" && !IsSpace(b[0])
    ensures StripLeft(a + b) == StripLeft(a) + b
  {
    if a != "" && IsSpace(a[0]) {
      StripLeftAppend(a[1..], b);
      assert (a + b)[1..] == a[1..] + b;
    } else if a == "" {
      assert a + b == b;
    }
  }

  lemma {:induction false} StripRightAppend(a: string, b: string)
    requires a != "" && !IsSpace(a[|a| - 1])
    ensures StripRight(a + b) == a + StripRight(b)
  {
    if b != "" && IsSpace(b[|b| - 1]) {
      StripRightAppend(a, b[..|b| - 1]);
      assert (a + b)[..|a + b| - 1] == a + b[..|b| - 1];
    } else if b == "" {
      assert a + b == a;
    }
  }

  /** Stripping never reaches into a part that neither begins nor ends with white space. */
  lemma StripAround(before: string, middle: string, after: string)
    requires middle != "" && IsTrim(middle)
    ensures Strip(before + middle + after) == StripLeft(before) + middle + StripRight(after)
  {
    assert before + middle + after == before + (middle + after);
    StripLeftAppend(before, middle + after);
    assert StripLeft(before) + (middle + after) == (StripLeft(before) + middle) + after;
    StripRightAppend(StripLeft(before) + middle, after);
  }

  // ----- Lines -----

  function Join(separator: string, parts: seq<string>): string {
    if parts == [] then ""
    else if |parts| == 1 then parts[0]
    else parts[0] + separator + Join(separator, parts[1..])
  }

  /** The length of the text before the first line break. */
  function LineLength(s: string): (n: nat)
    ensures n <= |s| && (n < |s| ==> IsLineBreak(s[n]))
    ensures forall i :: 0 <= i < n ==> !IsLineBreak(s[i])
  {
    if s == "" || IsLineBreak(s[0]) then 0 else 1 + LineLength(s[1..])
  }

  /** A carriage return and a line feed together break once. */
  function BreakWidth(s: string, n: nat): (width: nat)
    requires n < |s|
    ensures 1 <= width && n + width <= |s|
  {
    if s[n] == '\r' && n + 1 < |s| && s[n + 1] == '\n' then 2 else 1
  }

  /** What follows the first line break. */
  function AfterFirstLine(s: string): string {
    var n := LineLength(s);
    if n == |s| then "" else s[n + BreakWidth(s, n)..]
  }

  /** `str.splitlines`. */
  function SplitLines(s: string): seq<string>
    decreases |s|
  {
    if s == "" then [] else [s[..LineLength(s)]] + SplitLines(AfterFirstLine(s))
  }

  /** Every line break as one line feed. */
  function LineFeeds(s: string): string {
    if s == "" then ""
    else if IsLineBreak(s[0]) then "\n" + LineFeeds(s[BreakWidth(s, 0)..])
    else [s[0]] + LineFeeds(s[1..])
  }

  /** Without a final line feed. */
  function Chop(s: string): string {
    if s != "" && s[|s| - 1] == '\n' then s[..|s| - 1] else s
  }

  ghost predicate OneLine(s: string) {
    forall i :: 0 <= i < |s| ==> !IsLineBreak(s[i])
  }

  /** The line feed is the only line break in `s`. */
  ghost predicate PlainLines(s: string) {
    forall i :: 0 <= i < |s| && IsLineBreak(s[i]) ==> s[i] == '\n'
  }

  // ----- What splitting and joining does to a text -----

  lemma {:induction false} LineFeedsArePlain(s: string)
    ensures PlainLines(LineFeeds(s))
    decreases |s|
  {
    if s != "" {
      LineFeedsArePlain(s[BreakWidth(s, 0)..]);
    }
  }

  lemma {:induction false} PlainIsKept(s: string)
    requires PlainLines(s)
    ensures LineFeeds(s) == s
  {
    if s != "" {
      PlainIsKept(s[1..]);
    }
  }

  /** A text is kept exactly when the line feed is its only line break. */
  lemma LineFeedsIff(s: string)
    ensures LineFeeds(s) == s <==> PlainLines(s)
  {
    LineFeedsArePlain(s);
    if PlainLines(s) {
      PlainIsKept(s);
    }
  }

  /** No carriage return at the end of `a` meets a line feed at the start of `b`. */
  predicate Apart(a: string, b: string) {
    a == "" || b == "" || a[|a| - 1] != '\r' || b[0] != '\n'
  }

  lemma {:induction false} LineFeedsConcat(a: string, b: string)
    requires Apart(a, b)
    ensures LineFeeds(a + b) == LineFeeds(a) + LineFeeds(b)
    decreases |a|
  {
    if a == "" {
      assert a + b == b;
    } else {
      SameWidth(a, b, 0);
      var width := if IsLineBreak(a[0]) then BreakWidth(a, 0) else 1;
      var rest := a[width..];
      assert (a + b)[width..] == rest + b && (a + b)[0] == a[0];
      LineFeedsConcat(rest, b);
      Associative(if IsLineBreak(a[0]) then "\n" else [a[0]], LineFeeds(rest), LineFeeds(b));
    }
  }

  lemma CutAtBreak(s: string, n: nat, width: nat)
    requires n < |s| && width == BreakWidth(s, n)
    ensures BreakWidth(s[n..], 0) == width && s[n..][width..] == s[n + width..]
  {
    assert s[n..][0] == s[n];
    assert n + 1 < |s| ==> s[n..][1] == s[n + 1];
  }

  lemma LineFeedsAtBreak(s: string, rest: string)
    requires s != "" && IsLineBreak(s[0]) && rest == s[BreakWidth(s, 0)..]
    ensures LineFeeds(s) == "\n" + LineFeeds(rest)
  {
  }

  lemma Associative<T>(a: seq<T>, b: seq<T>, c: seq<T>)
    ensures a + (b + c) == a + b + c
  {
  }

  lemma LineAndBreak(line: string, rest: string, after: string)
    requires OneLine(line) && rest != "" && IsLineBreak(rest[0]) && after == rest[BreakWidth(rest, 0)..]
    ensures LineFeeds(line + rest) == line + "\n" + LineFeeds(after)
  {
    LineFeedsAtBreak(rest, after);
    PlainIsKept(line);
    LineFeedsConcat(line, rest);
    Associative(line, "\n", LineFeeds(after));
  }

  /** The first line, and the text from its line break on. */
  lemma CutFirstLine(s: string) returns (line: string, rest: string)
    requires LineLength(s) < |s|
    ensures s == line + rest && line == s[..LineLength(s)] && OneLine(line)
    ensures rest != "" && IsLineBreak(rest[0]) && AfterFirstLine(s) == rest[BreakWidth(rest, 0)..]
  {
    var n := LineLength(s);
    line, rest := s[..n], s[n..];
    CutAtBreak(s, n, BreakWidth(s, n));
  }

  lemma FirstLineSplits(s: string)
    requires LineLength(s) < |s|
    ensures LineFeeds(s) == s[..LineLength(s)] + "\n" + LineFeeds(AfterFirstLine(s))
  {
    var line, rest := CutFirstLine(s);
    LineAndBreak(line, rest, AfterFirstLine(s));
  }

  lemma SplitLinesIs(s: string, line: string, rest: string)
    requires s != "" && line == s[..LineLength(s)] && rest == AfterFirstLine(s)
    ensures SplitLines(s) == [line] + SplitLines(rest)
  {
  }

  lemma BreakSplits(line: string, ending: string, rest: string)
    requires OneLine(line) && ending != "" && IsLineBreak(ending[0])
    requires BreakWidth(ending + rest, 0) == |ending|
    ensures SplitLines(line + (ending + rest)) == [line] + SplitLines(rest)
  {
    var s := line + (ending + rest);
    var n := |line|;
    assert s[n] == ending[0] && s[n..] == ending + rest;
    LineLengthIs(s, n);
    CutAtBreak(s, n, BreakWidth(s, n));
    assert (ending + rest)[|ending|..] == rest;
    SplitLinesIs(s, line, rest);
  }

  /** A line ends at a line break; a carriage return and a line feed that follows it end it together. */
  lemma LineEnds(line: string, c: char, rest: string)
    requires OneLine(line)
    ensures SplitLines(line + ("\r\n" + rest)) == [line] + SplitLines(rest)
    ensures IsLineBreak(c) && !(c == '\r' && rest != "" && rest[0] == '\n') ==>
      SplitLines(line + ([c] + rest)) == [line] + SplitLines(rest)
  {
    BreakSplits(line, "\r\n", rest);
    if IsLineBreak(c) && !(c == '\r' && rest != "" && rest[0] == '\n') {
      BreakSplits(line, [c], rest);
    }
  }

  lemma ChopFirstLine(line: string, rest: string)
    ensures Chop(line + "\n" + rest) == if rest == "" then line else line + "\n" + Chop(rest)
  {
  }

  /** Splitting a text into lines and joining them makes every line break a line feed and drops a last one. */
  lemma {:induction false} SplitThenJoin(s: string)
    ensures Join("\n", SplitLines(s)) == Chop(LineFeeds(s))
    decreases |s|
  {
    if s != "" {
      var line, rest := s[..LineLength(s)], AfterFirstLine(s);
      if LineLength(s) == |s| {
        PlainIsKept(s);
        assert line == s;
        SplitLinesIs(s, s, "");
      } else {
        FirstLineSplits(s);
        ChopFirstLine(line, LineFeeds(rest));
        if rest == "" {
          assert SplitLines(s) == [line] + [];
        } else {
          SplitThenJoin(rest);
          JoinMore(line, SplitLines(rest));
        }
      }
    }
  }

  lemma RestEndsAlike(s: string)
    requires s != "" && s[|s| - 1] == '\n'
    ensures LineLength(s) < |s|
    ensures AfterFirstLine(s) != "" ==> AfterFirstLine(s)[|AfterFirstLine(s)| - 1] == '\n'
  {
  }

  /** Lines are split apart where one text ends with a line feed. */
  lemma {:induction false} SplitAfterLineFeed(a: string, b: string)
    requires a != "" && a[|a| - 1] == '\n'
    ensures SplitLines(a + b) == SplitLines(a) + SplitLines(b)
    decreases |a|
  {
    RestEndsAlike(a);
    SameFirstLine(a, b);
    var line, rest := a[..LineLength(a)], AfterFirstLine(a);
    if rest == "" {
      assert rest + b == b;
    } else {
      SplitAfterLineFeed(rest, b);
    }
    SplitLinesIs(a + b, line, rest + b);
    SplitLinesIs(a, line, rest);
    Associative([line], SplitLines(rest), SplitLines(b));
  }

  /** When the first line ends within `a`, what follows `a` does not matter to it. */
  lemma SameFirstLine(a: string, b: string)
    requires LineLength(a) < |a| && Apart(a, b)
    ensures LineLength(a + b) == LineLength(a) && (a + b)[..LineLength(a)] == a[..LineLength(a)]
    ensures AfterFirstLine(a + b) == AfterFirstLine(a) + b
  {
    var n := LineLength(a);
    LineLengthIs(a + b, n);
    SameWidth(a, b, n);
    assert (a + b)[n + BreakWidth(a, n)..] == a[n + BreakWidth(a, n)..] + b;
  }

  lemma SameWidth(a: string, b: string, n: nat)
    requires n < |a| && Apart(a, b)
    ensures BreakWidth(a + b, n) == BreakWidth(a, n)
  {
    assert (a + b)[n] == a[n];
    if n + 1 < |a| {
      assert (a + b)[n + 1] == a[n + 1];
    } else if b != "" {
      assert (a + b)[n + 1] == b[0];
    }
  }

  lemma LineLengthIs(s: string, n: nat)
    requires n <= |s| && (n < |s| ==> IsLineBreak(s[n])) && forall i :: 0 <= i < n ==> !IsLineBreak(s[i])
    ensures LineLength(s) == n
  {
  }

  lemma JoinMore(first: string, rest: seq<string>)
    requires rest != []
    ensures Join("\n", [first] + rest) == first + "\n" + Join("\n", rest)
  {
    assert ([first] + rest)[1..] == rest;
  }

  // ----- Stripping -----

  ghost predicate AllSpace(s: string) {
    forall i :: 0 <= i < |s| ==> IsSpace(s[i])
  }

  lemma AllSpaceStrips(s: string)
    requires AllSpace(s)
    ensures StripLeft(s) == "" && StripRight(s) == ""
  {
    var from := StripLeftSplits(s);
    var to := StripRightSplits(s);
  }

  lemma StripSpaces(a: string, m: string, b: string)
    requires AllSpace(a) && IsTrim(m) && AllSpace(b)
    ensures Strip(a + m + b) == m
  {
    AllSpaceStrips(a);
    AllSpaceStrips(b);
    if m == "" {
      AllSpaceStrips(a + m + b);
    } else {
      StripAround(a, m, b);
    }
  }

  lemma StripDropsLastSpace(s: string, c: char)
    requires IsSpace(c)
    ensures Strip(s + [c]) == Strip(s)
  {
    var from, to := StripTrims(s);
    assert s + [c] == s[..from] + Strip(s) + (s[to..] + [c]);
    StripSpaces(s[..from], Strip(s), s[to..] + [c]);
  }

  lemma StripChop(s: string)
    ensures Strip(Chop(s)) == Strip(s)
  {
    if s != "" && s[|s| - 1] == '\n' {
      StripDropsLastSpace(s[..|s| - 1], '\n');
      assert s == s[..|s| - 1] + ['\n'];
    }
  }

  lemma {:induction false} SpacesStaySpaces(s: string)
    requires AllSpace(s)
    ensures AllSpace(LineFeeds(s))
    decreases |s|
  {
    if s != "" {
      SpacesStaySpaces(s[BreakWidth(s, 0)..]);
    }
  }

  lemma TrimStaysTrim(m: string)
    requires m != "" && IsTrim(m)
    ensures LineFeeds(m) != "" && IsTrim(LineFeeds(m))
  {
    var front, last := m[..|m| - 1], [m[|m| - 1]];
    assert m == front + last;
    LineFeedsConcat(front, last);
    PlainIsKept(last);
  }

  lemma LineFeedsAround(a: string, m: string, b: string)
    requires m != "" && IsTrim(m)
    ensures LineFeeds(a + m + b) == LineFeeds(a) + LineFeeds(m) + LineFeeds(b)
  {
    var front := a + m;
    assert front[|front| - 1] == m[|m| - 1];
    LineFeedsConcat(a, m);
    LineFeedsConcat(front, b);
  }

  /** Stripping and rewriting line breaks can be done in either order. */
  lemma StripLineFeeds(s: string)
    ensures Strip(LineFeeds(s)) == LineFeeds(Strip(s))
  {
    var from, to := StripTrims(s);
    var a, m, b := s[..from], Strip(s), s[to..];
    assert s == a + m + b;
    if m == "" {
      assert AllSpace(s);
      SpacesStaySpaces(s);
      StripSpaces(LineFeeds(s), "", "");
      assert LineFeeds(s) + "" + "" == LineFeeds(s);
    } else {
      LineFeedsAround(a, m, b);
      SpacesStaySpaces(a);
      SpacesStaySpaces(b);
      TrimStaysTrim(m);
      StripSpaces(LineFeeds(a), LineFeeds(m), LineFeeds(b));
    }
  }
}
