/** The DOCX loader: paragraphs to sections under headings. */
module Loaders {
  import opened Wrappers
  import opened Text

  /** A paragraph as the DOCX library reads it; the style name may be missing. */
  datatype Paragraph = Paragraph(text: string, style: Option<string>)

  datatype LoadedDocument = LoadedDocument(pageContent: string, source: string, page: Option<int>, heading: Option<string>)

  datatype Section = Section(heading: Option<string>, lines: seq<string>)

  function LowerChar(c: char): char {
    if 'A' <= c <= 'Z' then c - 'A' + 'a' else c
  }

  function Lower(s: string): string {
    seq(|s|, i requires 0 <= i < |s| => LowerChar(s[i]))
  }

  predicate IsHeading(p: Paragraph) {
    p.style.Some? && StartsWith(Lower(p.style.value), "heading")
  }

  /** A paragraph is a heading exactly when its style's name begins with "heading", in any capitalisation. */
  lemma IsHeadingIff(p: Paragraph)
    ensures IsHeading(p) <==>
      && p.style.Some? && |p.style.value| >= 7
      && forall i :: 0 <= i < 7 ==> p.style.value[i] == "heading"[i] || p.style.value[i] == "HEADING"[i]
  {
    if p.style.Some? && |p.style.value| >= 7 {
      var lower := Lower(p.style.value);
      assert StartsWith(lower, "heading") <==> forall i :: 0 <= i < 7 ==> lower[i] == "heading"[i];
      forall i | 0 <= i < 7
        ensures lower[i] == "heading"[i] <==> p.style.value[i] == "heading"[i] || p.style.value[i] == "HEADING"[i]
      {
      }
    }
  }

  predicate IsBlank(p: Paragraph) {
    Strip(p.text) == ""
  }

  // ----- Reference: each body paragraph with its heading -----

  /** The headings, in order. */
  function Headings(paragraphs: seq<Paragraph>): seq<string> {
    if paragraphs == [] then []
    else
      var p := paragraphs[|paragraphs| - 1];
      var front := Headings(paragraphs[..|paragraphs| - 1]);
      if !IsBlank(p) && IsHeading(p) then front + [Strip(p.text)] else front
  }

  function NearestHeading(paragraphs: seq<Paragraph>): Option<string> {
    var headings := Headings(paragraphs);
    if headings == [] then None else Some(headings[|headings| - 1])
  }

  /** The non-blank body paragraphs in order, each under the nearest heading before it. */
  function Body(paragraphs: seq<Paragraph>): seq<(Option<string>, string)> {
    if paragraphs == [] then []
    else
      var front, p := paragraphs[..|paragraphs| - 1], paragraphs[|paragraphs| - 1];
      if IsBlank(p) || IsHeading(p) then Body(front) else Body(front) + [(NearestHeading(front), Strip(p.text))]
  }

  // ----- Sections -----

  /** The sections closed so far and the one still open. */
  function Sections(paragraphs: seq<Paragraph>): (seq<Section>, Section) {
    if paragraphs == [] then ([], Section(None, []))
    else
      var p := paragraphs[|paragraphs| - 1];
      var (closed, current) := Sections(paragraphs[..|paragraphs| - 1]);
      if IsBlank(p) then (closed, current)
      else if IsHeading(p) then (closed + [current], Section(Some(Strip(p.text)), []))
      else (closed, current.(lines := current.lines + [Strip(p.text)]))
  }

  function AllSections(paragraphs: seq<Paragraph>): seq<Section> {
    Sections(paragraphs).0 + [Sections(paragraphs).1]
  }

  function Unit(section: Section): LoadedDocument {
    LoadedDocument(Join("\n", section.lines), "docx", None, section.heading)
  }

  /** One unit for each section that has lines. */
  function Units(sections: seq<Section>): seq<LoadedDocument> {
    if sections == [] then []
    else
      var front, last := Units(sections[..|sections| - 1]), sections[|sections| - 1];
      if last.lines == [] then front else front + [Unit(last)]
  }

  /** Non-empty lines that neither begin nor end with white space. */
  ghost predicate Trimmed(lines: seq<string>) {
    forall i :: 0 <= i < |lines| ==> lines[i] != "" && IsTrim(lines[i])
  }

  lemma {:induction false} SectionsAreTrimmed(paragraphs: seq<Paragraph>)
    ensures Trimmed(Sections(paragraphs).1.lines)
    ensures forall i :: 0 <= i < |Sections(paragraphs).0| ==> Trimmed(Sections(paragraphs).0[i].lines)
  {
    if paragraphs != [] {
      SectionsAreTrimmed(paragraphs[..|paragraphs| - 1]);
      var from, to := StripTrims(paragraphs[|paragraphs| - 1].text);
    }
  }

  /** Joining trimmed lines leaves nothing to strip, and nothing at all only without lines. */
  lemma {:induction false} JoinIsTrim(lines: seq<string>)
    requires Trimmed(lines)
    ensures IsTrim(Join("\n", lines)) && (Join("\n", lines) == "" <==> lines == [])
  {
    if |lines| > 1 {
      JoinIsTrim(lines[1..]);
      var first, rest := lines[0], Join("\n", lines[1..]);
      var joined := first + "\n" + rest;
      assert joined[0] == first[0] && joined[|joined| - 1] == rest[|rest| - 1];
    }
  }

  class DOCXDocumentLoader {

    constructor () {}

    method Load(paragraphs: seq<Paragraph>) returns (loaded: seq<LoadedDocument>)
      ensures loaded == Units(AllSections(paragraphs))
    {
      var sections: seq<Section> := [];
      var currentHeading: Option<string> := None;
      var currentLines: seq<string> := [];
      for i := 0 to |paragraphs|
        invariant Sections(paragraphs[..i]) == (sections, Section(currentHeading, currentLines))
      {
        assert paragraphs[..i + 1][..i] == paragraphs[..i];
        var text := Strip(paragraphs[i].text);
        if text == "" {
          continue;
        }
        if IsHeading(paragraphs[i]) {
          sections := sections + [Section(currentHeading, currentLines)];
          currentHeading, currentLines := Some(text), [];
        } else {
          currentLines := currentLines + [text];
        }
      }
      assert paragraphs[..|paragraphs|] == paragraphs;
      sections := sections + [Section(currentHeading, currentLines)];
      SectionsAreTrimmed(paragraphs);
      loaded := [];
      for i := 0 to |sections|
        invariant loaded == Units(sections[..i])
      {
        assert sections[..i + 1][..i] == sections[..i];
        JoinIsTrim(sections[i].lines);
        StripOfTrim(Join("\n", sections[i].lines));
        var content := Strip(Join("\n", sections[i].lines));
        if content != "" {
          loaded := loaded + [LoadedDocument(content, "docx", None, sections[i].heading)];
        }
      }
      assert sections[..|sections|] == sections;
    }
  }

  // ----- Nothing is lost or reordered -----

  function Under(heading: Option<string>, lines: seq<string>): seq<(Option<string>, string)> {
    seq(|lines|, i requires 0 <= i < |lines| => (heading, lines[i]))
  }

  /** The lines of all sections in order, each with its section's heading. */
  function Flatten(sections: seq<Section>): seq<(Option<string>, string)> {
    if sections == [] then []
    else
      var last := sections[|sections| - 1];
      Flatten(sections[..|sections| - 1]) + Under(last.heading, last.lines)
  }

  lemma FlattenLast(closed: seq<Section>, current: Section)
    ensures Flatten(closed + [current]) == Flatten(closed) + Under(current.heading, current.lines)
  {
    assert (closed + [current])[..|closed|] == closed;
  }

  lemma {:induction false} OpenSectionHeading(paragraphs: seq<Paragraph>)
    ensures Sections(paragraphs).1.heading == NearestHeading(paragraphs)
  {
    if paragraphs != [] {
      OpenSectionHeading(paragraphs[..|paragraphs| - 1]);
    }
  }

  /** Everything read so far: the closed sections' lines, then the open one's. */
  function SoFar(closed: seq<Section>, current: Section): seq<(Option<string>, string)> {
    Flatten(closed) + Under(current.heading, current.lines)
  }

  lemma HeadingKeepsSoFar(closed: seq<Section>, current: Section, heading: string)
    ensures SoFar(closed + [current], Section(Some(heading), [])) == SoFar(closed, current)
  {
    FlattenLast(closed, current);
    assert Under(Some(heading), []) == [];
  }

  lemma LineExtendsSoFar(closed: seq<Section>, current: Section, line: string)
    ensures SoFar(closed, current.(lines := current.lines + [line])) == SoFar(closed, current) + [(current.heading, line)]
  {
    assert Under(current.heading, current.lines + [line]) == Under(current.heading, current.lines) + [(current.heading, line)];
  }

  lemma {:induction false} SoFarIsTheBody(paragraphs: seq<Paragraph>)
    ensures SoFar(Sections(paragraphs).0, Sections(paragraphs).1) == Body(paragraphs)
  {
    if paragraphs != [] {
      var front, p := paragraphs[..|paragraphs| - 1], paragraphs[|paragraphs| - 1];
      var (closed, current) := Sections(front);
      SoFarIsTheBody(front);
      OpenSectionHeading(front);
      HeadingKeepsSoFar(closed, current, Strip(p.text));
      LineExtendsSoFar(closed, current, Strip(p.text));
    }
  }

  /** The sections hold exactly the body paragraphs, in order, under their nearest heading. */
  lemma SectionsHoldTheBody(paragraphs: seq<Paragraph>)
    ensures Flatten(AllSections(paragraphs)) == Body(paragraphs)
  {
    SoFarIsTheBody(paragraphs);
    FlattenLast(Sections(paragraphs).0, Sections(paragraphs).1);
  }

  /** Besides the text before the first heading, there is one section for each heading, in order. */
  lemma {:induction false} OneSectionPerHeading(paragraphs: seq<Paragraph>)
    ensures |AllSections(paragraphs)| == |Headings(paragraphs)| + 1
    ensures AllSections(paragraphs)[0].heading == None
    ensures forall i :: 0 <= i < |Headings(paragraphs)| ==>
      AllSections(paragraphs)[i + 1].heading == Some(Headings(paragraphs)[i])
  {
    if paragraphs != [] {
      var front := paragraphs[..|paragraphs| - 1];
      OneSectionPerHeading(front);
      var before, after := AllSections(front), AllSections(paragraphs);
      assert forall i :: 0 <= i < |before| ==> after[i].heading == before[i].heading;
    }
  }

  /** Unit `i` is section `from[i]`, and the order is kept. */
  ghost predicate LoadedFrom(units: seq<LoadedDocument>, from: seq<nat>, sections: seq<Section>) {
    && |from| == |units|
    && (forall i, j :: 0 <= i < j < |from| ==> from[i] < from[j])
    && forall i :: 0 <= i < |from| ==> from[i] < |sections| && units[i] == Unit(sections[from[i]])
  }

  ghost predicate AllWithLines(from: seq<nat>, sections: seq<Section>) {
    forall p: nat :: p in from <==> p < |sections| && sections[p].lines != []
  }

  lemma OneMoreLoaded(units: seq<LoadedDocument>, from: seq<nat>, sections: seq<Section>, last: Section)
    requires LoadedFrom(units, from, sections)
    ensures LoadedFrom(units, from, sections + [last])
    ensures LoadedFrom(units + [Unit(last)], from + [|sections|], sections + [last])
  {
  }

  lemma OneMoreWithLines(from: seq<nat>, sections: seq<Section>, last: Section)
    requires AllWithLines(from, sections)
    ensures AllWithLines(if last.lines == [] then from else from + [|sections|], sections + [last])
  {
  }

  /** Loading keeps every line: a section becomes one unit with its lines, or had none. */
  lemma {:induction false} UnitsKeepEveryLine(sections: seq<Section>) returns (from: seq<nat>)
    ensures LoadedFrom(Units(sections), from, sections) && AllWithLines(from, sections)
  {
    from := [];
    if sections != [] {
      var front, last := sections[..|sections| - 1], sections[|sections| - 1];
      assert sections == front + [last];
      from := UnitsKeepEveryLine(front);
      OneMoreLoaded(Units(front), from, front, last);
      OneMoreWithLines(from, front, last);
      if last.lines != [] {
        from := from + [|front|];
      }
    }
  }
}
