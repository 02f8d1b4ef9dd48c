/** What is extracted from replies with prose around an object and with code fences. */
module Fences {
  import opened Wrappers
  import opened Json
  import opened Text
  import opened JsonScan

  // ----- Braces and line breaks -----

  /** The first character of a text, or its first line break, as one line feed. */
  lemma LineFeedsHead(s: string) returns (head: string, rest: string, h: string)
    requires s != ""
    ensures s == head + rest && head != "" && LineFeeds(s) == h + LineFeeds(rest)
    ensures |h| == 1 && (h == head || (BraceFree(h) && BraceFree(head)))
  {
    var width := if IsLineBreak(s[0]) then BreakWidth(s, 0) else 1;
    head, rest := s[..width], s[width..];
    h := if IsLineBreak(s[0]) then "\n" else [s[0]];
  }

  lemma SameBalance(head: string, h: string)
    requires h == head || (BraceFree(h) && BraceFree(head))
    ensures Balance(h) == Balance(head)
  {
    if h != head {
      BraceFreeNested(h);
      BraceFreeNested(head);
    }
  }

  /** Every prefix of the rewritten text balances like some prefix of the text. */
  lemma {:induction false} LineFeedsPrefix(s: string, e: nat) returns (k: nat)
    requires e <= |LineFeeds(s)|
    ensures k <= |s| && Balance(LineFeeds(s)[..e]) == Balance(s[..k])
    ensures e == |LineFeeds(s)| ==> k == |s|
    decreases |s|
  {
    if s == "" {
      k := 0;
    } else {
      var head, rest, h := LineFeedsHead(s);
      if e == 0 {
        k := 0;
      } else {
        var m := LineFeedsPrefix(rest, e - 1);
        k := |head| + m;
        PrefixOfConcat(h, LineFeeds(rest), e - 1);
        PrefixOfConcat(head, rest, m);
        SameBalance(head, h);
      }
    }
  }

  lemma PrefixOfConcat(a: string, b: string, k: nat)
    requires k <= |b|
    ensures Balance((a + b)[..|a| + k]) == Balance(a) + Balance(b[..k])
  {
    assert (a + b)[..|a| + k] == a + b[..k];
    BalanceConcat(a, b[..k]);
  }

  lemma NestedLineFeeds(s: string)
    ensures Nested(LineFeeds(s)) <==> Nested(s)
  {
    var t := LineFeeds(s);
    var all := LineFeedsPrefix(s, |t|);
    assert t[..|t|] == t && s[..|s|] == s;
    if Nested(s) {
      forall e | 0 <= e <= |t| ensures Balance(t[..e]) >= 0 {
        var k := LineFeedsPrefix(s, e);
      }
    }
    if Nested(t) {
      forall k | 0 <= k <= |s| ensures Balance(s[..k]) >= 0 {
        var e := PrefixOfLineFeeds(s, k);
      }
    }
  }

  /** And every prefix of the text like some prefix of the rewritten one. */
  lemma {:induction false} PrefixOfLineFeeds(s: string, k: nat) returns (e: nat)
    requires k <= |s|
    ensures e <= |LineFeeds(s)| && Balance(LineFeeds(s)[..e]) == Balance(s[..k])
    decreases |s|
  {
    if s == "" {
      e := 0;
    } else {
      var head, rest, h := LineFeedsHead(s);
      if k < |head| {
        e := 0;
        PartOfHead(head, rest, h, k);
      } else {
        var m := PrefixOfLineFeeds(rest, k - |head|);
        e := 1 + m;
        PrefixOfConcat(h, LineFeeds(rest), m);
        PrefixOfConcat(head, rest, k - |head|);
        SameBalance(head, h);
      }
    }
  }

  lemma PartOfHead(head: string, rest: string, h: string, k: nat)
    requires k < |head| && |h| == 1 && (h == head || (BraceFree(h) && BraceFree(head)))
    ensures Balance((head + rest)[..k]) == 0
  {
    assert (head + rest)[..k] == head[..k];
    if k > 0 {
      BraceFreeNested(head[..k]);
    }
  }

  function Opens(s: string): nat {
    multiset(s)['{']
  }

  lemma OpensOfPart(a: string, b: string, c: string)
    ensures Opens(b) <= Opens(a + b + c)
    ensures Opens(a + b) == Opens(a) + Opens(b)
  {
  }

  lemma OpensOfStrip(s: string)
    ensures Opens(Strip(s)) <= Opens(s)
  {
    var from, to := StripTrims(s);
    assert s == s[..from] + s[from..to] + s[to..];
    OpensOfPart(s[..from], s[from..to], s[to..]);
  }

  lemma {:induction false} OpensOfLineFeeds(s: string)
    ensures Opens(LineFeeds(s)) == Opens(s)
    decreases |s|
  {
    if s != "" {
      var head, rest, h := LineFeedsHead(s);
      OpensOfLineFeeds(rest);
      OpensOfPart(head, rest, "");
      OpensOfPart(h, LineFeeds(rest), "");
    }
  }

  /** Neither rewriting nor stripping makes a brace. */
  lemma NoOpening(s: string)
    requires '{' !in s
    ensures '{' !in LineFeeds(s) && '{' !in StripLeft(s)
  {
    OpensOfLineFeeds(s);
    assert Opens(LineFeeds(s)) == 0;
    var cut := StripLeftSplits(s);
    assert forall i :: 0 <= i < |StripLeft(s)| ==> StripLeft(s)[i] == s[cut + i];
  }

  lemma LineFeedsWrapped(inner: string)
    ensures LineFeeds("{" + inner + "}") == "{" + LineFeeds(inner) + "}"
  {
    LineFeedsConcat("{", inner);
    LineFeedsConcat("{" + inner, "}");
    PlainIsKept("{");
    PlainIsKept("}");
  }

  // ----- What a fence leaves -----

  /** The opening fence's line is dropped, whatever else is on it. */
  lemma FenceLineIsDropped(text: string)
    requires StartsWith(Strip(text), "```")
    ensures Candidate(text) == Strip(Join("\n", DropClosingFence(SplitLines(AfterFirstLine(Strip(text))))))
  {
    var s := Strip(text);
    var line := s[..LineLength(s)];
    assert s[0] == '`' && s[1] == '`' && s[2] == '`';
    assert LineLength(s) >= 3;
    SplitLinesIs(s, line, AfterFirstLine(s));
    assert line[0] == '`' && StripLeft(line) == line;
  }

  lemma LastIsFence(lines: seq<string>)
    ensures DropClosingFence(lines + ["```"]) == lines
  {
    StripOfTrim("```");
    assert (lines + ["```"])[..|lines|] == lines;
  }

  lemma FenceIsOneLine()
    ensures SplitLines("```") == ["```"]
  {
    LineLengthIs("```", 3);
    SplitLinesIs("```", "```", "");
  }

  lemma SplitFence(body: string)
    ensures SplitLines(body + "\n" + "```") == SplitLines(body + "\n") + ["```"]
  {
    SplitAfterLineFeed(body + "\n", "```");
    FenceIsOneLine();
  }

  /** The body of a fence, stripped and with every line break as a line feed. */
  lemma FencedBody(body: string)
    ensures Strip(Join("\n", DropClosingFence(SplitLines(body + "\n" + "```")))) == LineFeeds(Strip(body))
  {
    SplitFence(body);
    LastIsFence(SplitLines(body + "\n"));
    SplitThenJoin(body + "\n");
    StripChop(LineFeeds(body + "\n"));
    StripLineFeeds(body + "\n");
    StripDropsLastSpace(body, '\n');
  }

  function Fenced(tag: string, body: string): string {
    "```" + tag + "\n" + (body + "\n" + "```")
  }

  lemma FencedParts(tag: string, body: string)
    requires OneLine(tag)
    ensures IsTrim(Fenced(tag, body)) && StartsWith(Fenced(tag, body), "```")
    ensures AfterFirstLine(Fenced(tag, body)) == body + "\n" + "```"
  {
    var s, opening, rest := Fenced(tag, body), "```" + tag, body + "\n" + "```";
    assert s == opening + "\n" + rest;
    LineLengthIs(opening + "\n", |opening|);
    SameFirstLine(opening + "\n", rest);
    assert AfterFirstLine(opening + "\n") == "";
    assert s[0] == '`' && s[|s| - 1] == '`';
  }

  /**
   * A code fence with any tag is removed, whatever white space surrounds it.  Its body is stripped and
   * kept exactly when the line feed is its only line break.
   */
  lemma FenceIsRemoved(before: string, tag: string, body: string, after: string)
    requires OneLine(tag) && AllSpace(before) && AllSpace(after)
    ensures Candidate(before + Fenced(tag, body) + after) == LineFeeds(Strip(body))
    ensures Candidate(before + Fenced(tag, body) + after) == Strip(body) <==> PlainLines(Strip(body))
  {
    FencedParts(tag, body);
    StripSpaces(before, Fenced(tag, body), after);
    FenceLineIsDropped(before + Fenced(tag, body) + after);
    FencedBody(body);
    LineFeedsIff(Strip(body));
  }

  lemma SeparatorIsALineFeed(a: string, b: string)
    requires OneLine(a) && OneLine(b)
    ensures LineFeeds(a + ("\U{2028}" + b)) == a + "\n" + b
  {
    LineAndBreak(a, "\U{2028}" + b, b);
    PlainIsKept(b);
  }

  /** A line separator inside a fence becomes a line feed, also within a string. */
  lemma SeparatorIsRewritten(tag: string, a: string, b: string)
    requires OneLine(tag) && OneLine(a) && OneLine(b) && a != "" && b != "" && IsTrim(a) && IsTrim(b)
    ensures Candidate("" + Fenced(tag, a + ("\U{2028}" + b)) + "") == a + "\n" + b
  {
    var body := a + ("\U{2028}" + b);
    FenceIsRemoved("", tag, body, "");
    assert body[0] == a[0] && body[|body| - 1] == b[|b| - 1];
    StripOfTrim(body);
    SeparatorIsALineFeed(a, b);
  }

  /** A fenced object is extracted, braces in its strings included, when its lines still parse. */
  lemma ExtractsFromFence(before: string, tag: string, t: JsonText, after: string, loads: Loads, fields: map<string, Json>)
    requires t.ObjectText? && OneLine(tag) && AllSpace(before) && AllSpace(after)
    requires loads(LineFeeds(Render(t))) == Some(Obj(fields))
    ensures Extracted(before + Fenced(tag, Render(t)) + after, loads) == Some(fields)
  {
    FenceIsRemoved(before, tag, Render(t), after);
    ObjectIsTrim(t);
    StripOfTrim(Render(t));
  }

  lemma RewrittenSlice(t: JsonText)
    requires t.ObjectText?
    ensures LineFeeds(Render(t)) != "" && LineFeeds(Render(t))[0] == '{'
    ensures Nested(Inner(t)) ==> FirstObject(LineFeeds(Render(t))) == Some(LineFeeds(Render(t)))
  {
    InnerNested(t);
    LineFeedsWrapped(Inner(t));
    NestedLineFeeds(Inner(t));
    ScanReturnsWhole(LineFeeds(Inner(t)));
  }

  /**
   * It is lost when they do not, for rewriting its line breaks has made it another text; if braces in
   * its strings cut it short, what is left must not parse either.
   */
  lemma RewrittenObjectIsLost(before: string, tag: string, t: JsonText, after: string, loads: Loads)
    requires t.ObjectText? && OneLine(tag) && AllSpace(before) && AllSpace(after)
    requires loads(LineFeeds(Render(t))).None?
    requires Nested(Inner(t)) || forall k :: 0 <= k < |LineFeeds(Render(t))| ==> loads(LineFeeds(Render(t))[..k]).None?
    ensures Extracted(before + Fenced(tag, Render(t)) + after, loads) == None
  {
    FenceIsRemoved(before, tag, Render(t), after);
    ObjectIsTrim(t);
    StripOfTrim(Render(t));
    var rewritten := LineFeeds(Render(t));
    RewrittenSlice(t);
    SliceIsPrefix(rewritten);
    assert rewritten[..|rewritten|] == rewritten;
  }

  /** What the scan finds in a text that begins with a brace is its beginning. */
  lemma SliceIsPrefix(s: string)
    requires s != "" && s[0] == '{'
    ensures FirstObject(s).Some? ==> exists k :: 0 <= k <= |s| && FirstObject(s).value == s[..k]
  {
    if FirstObject(s).Some? {
      var start: nat, end: nat :| IsFirstObject(s, start, end) && FirstObject(s) == Some(s[start..end]);
      assert start == 0 && s[start..end] == s[..end];
    }
  }

  // ----- Text around the object -----

  /** Joining the lines of a text that ends on its last line keeps it, whatever follows. */
  lemma {:induction false} ClosedKeeps(a: string, b: string) returns (tail: string)
    requires a != "" && !IsSpace(a[|a| - 1]) && a[|a| - 1] != '`'
    ensures Join("\n", DropClosingFence(SplitLines(a + b))) == LineFeeds(a) + tail
    decreases |a|
  {
    var n := LineLength(a);
    if n < |a| {
      SameFirstLine(a, b);
      var line, rest := a[..n], AfterFirstLine(a);
      RestKeepsLast(a);
      tail := ClosedKeeps(rest, b);
      SplitLinesIs(a + b, line, rest + b);
      FirstLineSplits(a);
      JoinAfter(line, SplitLines(rest + b), LineFeeds(rest) + tail);
      Associative(line + "\n", LineFeeds(rest), tail);
    } else {
      tail := LastLineKeeps(a, b);
    }
  }

  lemma RestKeepsLast(a: string)
    requires LineLength(a) < |a| && !IsSpace(a[|a| - 1])
    ensures AfterFirstLine(a) != "" && AfterFirstLine(a)[|AfterFirstLine(a)| - 1] == a[|a| - 1]
  {
    assert IsLineBreak(a[LineLength(a)]);
  }

  lemma JoinAfter(line: string, lines: seq<string>, joined: string)
    requires Join("\n", DropClosingFence(lines)) == joined && joined != ""
    ensures Join("\n", DropClosingFence([line] + lines)) == line + "\n" + joined
  {
    assert DropClosingFence([line] + lines) == [line] + DropClosingFence(lines);
    JoinMore(line, DropClosingFence(lines));
  }

  /** The first line of `a + b` when `a` has no line break. */
  lemma FirstLineOfConcat(a: string, b: string) returns (more: string)
    requires LineLength(a) == |a|
    ensures (a + b)[..LineLength(a + b)] == a + more
  {
    var s := a + b;
    var n := LineLength(s);
    assert n >= |a| by {
      assert forall i :: 0 <= i < |a| ==> s[i] == a[i];
    }
    more := s[|a|..n];
    assert s[..n] == a + more;
  }

  lemma JoinKeepsFirst(line: string, lines: seq<string>) returns (tail: string)
    requires Strip(line) != "```"
    ensures Join("\n", DropClosingFence([line] + lines)) == line + tail
  {
    var closed := DropClosingFence(lines);
    if lines == [] {
      tail := "";
      assert DropClosingFence([line] + lines) == [line];
    } else {
      assert DropClosingFence([line] + lines) == [line] + closed;
      if closed == [] {
        tail := "";
        assert [line] + closed == [line];
      } else {
        tail := "\n" + Join("\n", closed);
        JoinMore(line, closed);
        Associative(line, "\n", Join("\n", closed));
      }
    }
  }

  lemma LastLineKeeps(a: string, b: string) returns (tail: string)
    requires a != "" && !IsSpace(a[|a| - 1]) && a[|a| - 1] != '`' && LineLength(a) == |a|
    ensures Join("\n", DropClosingFence(SplitLines(a + b))) == LineFeeds(a) + tail
  {
    var more := FirstLineOfConcat(a, b);
    NotAFence(a, more);
    var rest := JoinKeepsFirst(a + more, SplitLines(AfterFirstLine(a + b)));
    SplitLinesIs(a + b, a + more, AfterFirstLine(a + b));
    PlainIsKept(a);
    tail := more + rest;
    Associative(a, more, rest);
  }

  lemma NotAFence(a: string, more: string)
    requires a != "" && !IsSpace(a[|a| - 1]) && a[|a| - 1] != '`'
    ensures Strip(a + more) != "```"
  {
    var from, to := StripTrims(a + more);
    assert (a + more)[|a| - 1] == a[|a| - 1];
    assert from <= |a| - 1 < to;
    assert Strip(a + more)[|a| - 1 - from] == a[|a| - 1];
  }

  /** The prose before the object opens a code fence. */
  predicate OpensFence(prose: string) {
    StartsWith(StripLeft(prose), "```")
  }

  /** The object can be reached: it is not on the line of an opening fence. */
  ghost predicate Reachable(prose: string) {
    OpensFence(prose) ==> !OneLine(StripLeft(prose))
  }

  /** No brace opens in the prose that is kept; the line of an opening fence is not. */
  predicate Clear(prose: string) {
    '{' !in (if OpensFence(prose) then AfterFirstLine(StripLeft(prose)) else prose)
  }

  /** The object as it is parsed: within a fence its line breaks are line feeds. */
  function AsParsed(prose: string, t: JsonText): string {
    if OpensFence(prose) then LineFeeds(Render(t)) else Render(t)
  }

  lemma StrippedReply(prose: string, t: JsonText, suffix: string)
    requires t.ObjectText?
    ensures Strip(prose + Render(t) + suffix) == StripLeft(prose) + Render(t) + StripRight(suffix)
    ensures StartsWith(Strip(prose + Render(t) + suffix), "```") <==> OpensFence(prose)
  {
    ObjectIsTrim(t);
    StripAround(prose, Render(t), suffix);
    var p, s := StripLeft(prose), Strip(prose + Render(t) + suffix);
    InnerNested(t);
    assert s[|p|] == '{';
    if |p| < 3 {
      assert "```"[|p|] == '`';
    } else {
      assert s[..3] == p[..3];
    }
  }

  /** Outside a fence the reply is only stripped. */
  lemma FindsOutsideFence(prose: string, t: JsonText, suffix: string)
    requires t.ObjectText? && Clear(prose) && !OpensFence(prose)
    ensures FirstObject(Candidate(prose + Render(t) + suffix)) == Some(Render(t)) <==> Nested(Inner(t))
  {
    StrippedReply(prose, t, suffix);
    NoOpening(prose);
    ScanFindsObject(StripLeft(prose), t, StripRight(suffix));
  }

  /** Behind prose that may contain line breaks, the printed object survives their rewriting and stripping. */
  lemma FindsRewritten(prose: string, t: JsonText, tail: string)
    requires t.ObjectText? && '{' !in prose
    ensures FirstObject(Strip(LineFeeds(prose + Render(t)) + tail)) == Some(LineFeeds(Render(t))) <==> Nested(Inner(t))
  {
    var p, printed := LineFeeds(prose), LineFeeds(Render(t));
    ObjectIsTrim(t);
    TrimStaysTrim(Render(t));
    LineFeedsConcat(prose, Render(t));
    StripAround(p, printed, tail);
    NoOpening(prose);
    NoOpening(p);
    InnerNested(t);
    LineFeedsWrapped(Inner(t));
    NestedLineFeeds(Inner(t));
    ScanReturnsWrapped(StripLeft(p), LineFeeds(Inner(t)), StripRight(tail));
  }

  /** Behind a fence whose line ends before the object. */
  lemma FindsBehindFence(prose: string, t: JsonText, suffix: string)
    requires t.ObjectText? && Clear(prose) && OpensFence(prose) && !OneLine(StripLeft(prose))
    ensures FirstObject(Candidate(prose + Render(t) + suffix)) == Some(LineFeeds(Render(t))) <==> Nested(Inner(t))
  {
    var p, rest := StripLeft(prose), Render(t) + StripRight(suffix);
    StrippedReply(prose, t, suffix);
    ObjectIsTrim(t);
    Associative(p, Render(t), StripRight(suffix));
    SameFirstLine(p, rest);
    var inFence := AfterFirstLine(p);
    Associative(inFence, Render(t), StripRight(suffix));
    FenceLineIsDropped(prose + Render(t) + suffix);
    assert (inFence + Render(t))[|inFence + Render(t)| - 1] == '}';
    var tail := ClosedKeeps(inFence + Render(t), StripRight(suffix));
    FindsRewritten(inFence, t, tail);
  }

  // ----- An object on the line of the opening fence -----

  lemma {:induction false} JoinFront(lines: seq<string>)
    requires lines != []
    ensures Opens(Join("\n", lines[..|lines| - 1])) <= Opens(Join("\n", lines))
    decreases |lines|
  {
    if |lines| > 1 {
      var rest := lines[1..];
      JoinFront(rest);
      assert lines == [lines[0]] + rest;
      JoinMore(lines[0], rest);
      OpensOfPart(lines[0] + "\n", Join("\n", rest), "");
      var front := lines[..|lines| - 1];
      if |front| > 1 {
        assert front == [lines[0]] + rest[..|rest| - 1];
        JoinMore(lines[0], rest[..|rest| - 1]);
        OpensOfPart(lines[0] + "\n", Join("\n", rest[..|rest| - 1]), "");
      } else {
        OpensOfPart(lines[0], "\n", "");
      }
    }
  }

  lemma OpensOfChop(s: string)
    ensures Opens(Chop(s)) <= Opens(s)
  {
    if Chop(s) != s {
      assert s == Chop(s) + "\n";
      OpensOfPart(Chop(s), "\n", "");
    }
  }

  lemma OpensOfClosed(s: string)
    ensures Opens(Strip(Join("\n", DropClosingFence(SplitLines(s))))) <= Opens(s)
  {
    var lines := SplitLines(s);
    if lines != [] {
      JoinFront(lines);
    }
    SplitThenJoin(s);
    OpensOfLineFeeds(s);
    OpensOfChop(LineFeeds(s));
    OpensOfStrip(Join("\n", DropClosingFence(lines)));
  }

  lemma OpensOfFound(s: string, found: string)
    requires FirstObject(s) == Some(found)
    ensures Opens(found) <= Opens(s)
  {
    var start: nat, end: nat :| IsFirstObject(s, start, end) && found == s[start..end];
    assert s == s[..start] + s[start..end] + s[end..];
    OpensOfPart(s[..start], s[start..end], s[end..]);
  }

  /** A line that reaches a brace takes it along. */
  lemma LineTakesBrace(p: string, inner: string) returns (i: nat)
    requires OneLine(p)
    ensures i <= |inner| && AfterFirstLine(p + ("{" + inner)) == inner[i..]
  {
    var s := p + ("{" + inner);
    var n := LineLength(s);
    assert s[|p|] == '{' && forall k :: 0 <= k < |p| ==> s[k] == p[k];
    assert n > |p|;
    if n == |s| {
      i := |inner|;
    } else {
      i := n + BreakWidth(s, n) - |p| - 1;
      assert s[n + BreakWidth(s, n)..] == inner[i..];
    }
  }

  lemma OpensOfRest(s: string, i: nat)
    requires i <= |s|
    ensures Opens(s[i..]) <= Opens(s)
  {
    assert s == s[..i] + s[i..];
    OpensOfPart(s[..i], s[i..], "");
  }

  lemma FenceLineTakesBrace(p: string, t: JsonText, rest: string)
    requires t.ObjectText? && OneLine(p) && '{' !in rest
    ensures Opens(AfterFirstLine(p + Render(t) + rest)) < Opens(Render(t))
  {
    var inner := Inner(t) + "}";
    InnerNested(t);
    assert Render(t) == "{" + inner;
    Associative(p, "{" + inner, rest);
    Associative("{", inner, rest);
    var i := LineTakesBrace(p, inner + rest);
    OpensOfRest(inner + rest, i);
    OpensOfPart(inner, rest, "");
    OpensOfPart("{", inner, "");
  }

  lemma NotFoundOnFenceLine(prose: string, t: JsonText, suffix: string)
    requires t.ObjectText? && OpensFence(prose) && OneLine(StripLeft(prose)) && '{' !in suffix
    ensures FirstObject(Candidate(prose + Render(t) + suffix)) != Some(LineFeeds(Render(t)))
  {
    var text := prose + Render(t) + suffix;
    StrippedReply(prose, t, suffix);
    FenceLineIsDropped(text);
    var cut := StripRightSplits(suffix);
    FenceLineTakesBrace(StripLeft(prose), t, StripRight(suffix));
    OpensOfClosed(AfterFirstLine(Strip(text)));
    OpensOfLineFeeds(Render(t));
    if FirstObject(Candidate(text)) == Some(LineFeeds(Render(t))) {
      OpensOfFound(Candidate(text), LineFeeds(Render(t)));
    }
  }

  // ----- Main results -----

  /** What is read from a reply in which the scan finds the object, when its whole text does not parse. */
  ghost predicate Yields(reply: string, found: string, loads: Loads) {
    && FirstObject(Candidate(reply)) == Some(found)
    && Extracted(reply, loads) == Parsed(if loads(Candidate(reply)).Some? then loads(Candidate(reply)) else loads(found))
  }

  /**
   * What a reply with prose before a printed object, and any text after it, yields: the whole text if
   * that parses, else the object.  Within a fence its line breaks are line feeds; it must not stand on
   * the line of the opening fence, and its braces must nest, those in its strings included.
   */
  lemma ExtractsFromProse(prose: string, t: JsonText, suffix: string, loads: Loads)
    requires t.ObjectText? && Clear(prose) && Reachable(prose) && Nested(Inner(t))
    ensures Yields(prose + Render(t) + suffix, AsParsed(prose, t), loads)
  {
    if OpensFence(prose) {
      FindsBehindFence(prose, t, suffix);
    } else {
      FindsOutsideFence(prose, t, suffix);
    }
  }

  /** An object behind a fence with any tag, on the next line, and before any text at all. */
  lemma ExtractsBehindFence(tag: string, t: JsonText, suffix: string, loads: Loads)
    requires t.ObjectText? && OneLine(tag)
    ensures var reply := ("```" + tag + "\n") + Render(t) + suffix;
      && (FirstObject(Candidate(reply)) == Some(LineFeeds(Render(t))) <==> Nested(Inner(t)))
      && (Nested(Inner(t)) ==> Yields(reply, LineFeeds(Render(t)), loads))
  {
    var prose := "```" + tag + "\n";
    assert prose[0] == '`' && prose[1] == '`' && prose[2] == '`' && prose[|prose| - 1] == '\n';
    LineLengthIs(prose, |prose| - 1);
    assert StripLeft(prose) == prose;
    FindsBehindFence(prose, t, suffix);
  }

  /**
   * When an object is found behind prose in which no brace opens: exactly when it is not on the line of
   * an opening fence and its braces nest.  On that line it is lost unless another copy of it follows.
   */
  lemma ObjectIsFoundIff(prose: string, t: JsonText, suffix: string)
    requires t.ObjectText? && Clear(prose)
    ensures var found := FirstObject(Candidate(prose + Render(t) + suffix)) == Some(AsParsed(prose, t));
      && (Reachable(prose) ==> (found <==> Nested(Inner(t))))
      && ('{' !in suffix ==> (found <==> Reachable(prose) && Nested(Inner(t))))
  {
    if !OpensFence(prose) {
      FindsOutsideFence(prose, t, suffix);
    } else if Reachable(prose) {
      FindsBehindFence(prose, t, suffix);
    } else if '{' !in suffix {
      NotFoundOnFenceLine(prose, t, suffix);
    }
  }

  /** A reply that does not parse, and of which the scan finds a part that does not parse either, is lost. */
  lemma UnparsedSliceIsLost(reply: string, prose: string, inner: string, suffix: string, loads: Loads)
    requires reply == prose + ("{" + inner + "}") + suffix && IsTrim(reply) && !StartsWith(reply, "```")
    requires '{' !in prose && Nested(inner)
    requires loads(reply).None? && loads("{" + inner + "}").None?
    ensures Extracted(reply, loads) == None
  {
    StripOfTrim(reply);
    ScanReturnsWrapped(prose, inner, suffix);
  }

  /** A closing brace in a string ends the scan early: the object is lost as soon as text follows it. */
  lemma BraceInStringLosesObject(loads: Loads)
    requires loads("{\"a\":\"}\"} ok").None? && loads("{\"a\":\"}").None?
    ensures Extracted("{\"a\":\"}\"} ok", loads) == None
  {
    var inner := "\"a\":\"";
    assert "{\"a\":\"}" == "{" + inner + "}";
    BraceFreeNested(inner);
    UnparsedSliceIsLost("{\"a\":\"}\"} ok", "", inner, "\"} ok", loads);
  }

  /** So does prose that opens a brace, for the scan begins there. */
  lemma BraceInProseLosesObject(loads: Loads)
    requires loads("Use {x}: {\"a\":1}").None? && loads("{x}").None?
    ensures Extracted("Use {x}: {\"a\":1}", loads) == None
  {
    assert "{x}" == "{" + "x" + "}";
    BraceFreeNested("x");
    UnparsedSliceIsLost("Use {x}: {\"a\":1}", "Use ", "x", ": {\"a\":1}", loads);
  }

  /** A fence that opens and closes on one line leaves nothing of the object in it. */
  lemma SameLineFenceLosesObject(loads: Loads)
    requires loads("").None?
    ensures Extracted("```{}```", loads) == None
  {
    var s := "```{}```";
    StripOfTrim(s);
    LineLengthIs(s, |s|);
    FenceLineIsDropped(s);
    assert Candidate(s) == "";
    assert forall start: nat, end: nat :: !IsFirstObject("", start, end);
  }
}
