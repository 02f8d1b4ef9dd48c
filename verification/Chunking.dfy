/** The chunk manager: loaded units to indexed chunks, over an arbitrary text splitter. */
module Chunking {
  import opened Wrappers
  import opened Text
  import opened Loaders

  /** A text splitter, a library: any function from a text to pieces. */
  type Split = string -> seq<string>

  datatype TextChunk = TextChunk(
    content: string, index: nat, tokenCount: nat, page: Option<int>, heading: Option<string>, source: string)

  function EstimateTokens(text: string): nat {
    if (|text| + 3) / 4 < 1 then 1 else (|text| + 3) / 4
  }

  /** The pieces that are not blank, without surrounding white space. */
  function Contents(pieces: seq<string>): seq<string> {
    if pieces == [] then []
    else
      var front, content := Contents(pieces[..|pieces| - 1]), Strip(pieces[|pieces| - 1]);
      if content == "" then front else front + [content]
  }

  /** The chunks' texts in order, each with the unit it comes from. */
  function Sources(loaded: seq<LoadedDocument>, split: Split): seq<(LoadedDocument, string)> {
    if loaded == [] then []
    else
      var last := loaded[|loaded| - 1];
      Sources(loaded[..|loaded| - 1], split) + From(last, Contents(split(last.pageContent)))
  }

  function From(unit: LoadedDocument, contents: seq<string>): seq<(LoadedDocument, string)> {
    seq(|contents|, i requires 0 <= i < |contents| => (unit, contents[i]))
  }

  function ChunkAt(source: (LoadedDocument, string), index: nat): TextChunk {
    TextChunk(source.1, index, EstimateTokens(source.1), source.0.page, source.0.heading, source.0.source)
  }

  /** The chunks number the texts consecutively from 0. */
  ghost predicate IsNumbering(chunks: seq<TextChunk>, sources: seq<(LoadedDocument, string)>) {
    |chunks| == |sources| && forall i :: 0 <= i < |chunks| ==> chunks[i] == ChunkAt(sources[i], i)
  }

  class ChunkManager {
    const split: Split

    constructor (split: Split)
      ensures this.split == split
    {
      this.split := split;
    }

    /** Appends the chunks of one unit, numbered on from `index0`. */
    method AddUnit(document: LoadedDocument, chunks0: seq<TextChunk>, index0: nat,
                   ghost before: seq<(LoadedDocument, string)>)
      returns (chunks: seq<TextChunk>, index: nat)
      requires index0 == |chunks0| && IsNumbering(chunks0, before)
      ensures index == |chunks| && IsNumbering(chunks, before + From(document, Contents(split(document.pageContent))))
    {
      chunks, index := chunks0, index0;
      var pieces := split(document.pageContent);
      ghost var sources := before;
      for p := 0 to |pieces|
        invariant sources == before + From(document, Contents(pieces[..p]))
        invariant index == |chunks| && IsNumbering(chunks, sources)
      {
        assert pieces[..p + 1][..p] == pieces[..p];
        var content := Strip(pieces[p]);
        if content == "" {
          continue;
        }
        FromExtends(document, Contents(pieces[..p]), content);
        sources := sources + [(document, content)];
        chunks := chunks + [
          TextChunk(content, index, EstimateTokens(content), document.page, document.heading, document.source)];
        index := index + 1;
      }
      assert pieces[..|pieces|] == pieces;
    }

    method ChunkDocument(loaded: seq<LoadedDocument>) returns (chunks: seq<TextChunk>)
      ensures IsNumbering(chunks, Sources(loaded, split))
    {
      chunks := [];
      var index := 0;
      for d := 0 to |loaded|
        invariant index == |chunks| && IsNumbering(chunks, Sources(loaded[..d], split))
      {
        assert loaded[..d + 1][..d] == loaded[..d];
        chunks, index := AddUnit(loaded[d], chunks, index, Sources(loaded[..d], split));
      }
      assert loaded[..|loaded|] == loaded;
    }
  }

  lemma FromExtends(unit: LoadedDocument, contents: seq<string>, content: string)
    ensures From(unit, contents + [content]) == From(unit, contents) + [(unit, content)]
  {
  }

  /** Text `i` is piece `at[i]`, stripped, and the order is kept. */
  ghost predicate TakenFrom(contents: seq<string>, at: seq<nat>, pieces: seq<string>) {
    && |at| == |contents|
    && (forall i, j :: 0 <= i < j < |at| ==> at[i] < at[j])
    && forall i :: 0 <= i < |at| ==> at[i] < |pieces| && contents[i] == Strip(pieces[at[i]])
  }

  ghost predicate AllNonBlank(at: seq<nat>, pieces: seq<string>) {
    forall p: nat :: p in at <==> p < |pieces| && Strip(pieces[p]) != ""
  }

  lemma OneMoreTaken(contents: seq<string>, at: seq<nat>, pieces: seq<string>, last: string)
    requires TakenFrom(contents, at, pieces)
    ensures TakenFrom(contents, at, pieces + [last])
    ensures TakenFrom(contents + [Strip(last)], at + [|pieces|], pieces + [last])
  {
  }

  lemma OneMoreNonBlank(at: seq<nat>, pieces: seq<string>, last: string)
    requires AllNonBlank(at, pieces)
    ensures AllNonBlank(if Strip(last) == "" then at else at + [|pieces|], pieces + [last])
  {
  }

  /** The texts are the non-blank pieces, each once, stripped, in order. */
  lemma {:induction false} ContentsAreThePieces(pieces: seq<string>) returns (at: seq<nat>)
    ensures TakenFrom(Contents(pieces), at, pieces) && AllNonBlank(at, pieces)
  {
    at := [];
    if pieces != [] {
      var front, last := pieces[..|pieces| - 1], pieces[|pieces| - 1];
      assert pieces == front + [last];
      at := ContentsAreThePieces(front);
      OneMoreTaken(Contents(front), at, front, last);
      OneMoreNonBlank(at, front, last);
      if Strip(last) != "" {
        at := at + [|front|];
      }
    }
  }

  /** No two chunks of a document share an index: the table's uniqueness constraint always holds. */
  lemma IndicesAreUnique(chunks: seq<TextChunk>, sources: seq<(LoadedDocument, string)>)
    requires IsNumbering(chunks, sources)
    ensures forall i, j :: 0 <= i < j < |chunks| ==> chunks[i].index != chunks[j].index
    ensures forall i :: 0 <= i < |chunks| ==> chunks[i].index == i && chunks[i].content == sources[i].1
  {
  }

  // ----- From paragraphs to chunks -----

  /** A place in a document: a unit, or a section, and one of the pieces it splits into. */
  datatype Place = Place(part: nat, piece: nat) {
    predicate Before(other: Place) {
      part < other.part || (part == other.part && piece < other.piece)
    }
  }

  ghost predicate InReadingOrder(at: seq<Place>) {
    forall i, j :: 0 <= i < j < |at| ==> at[i].Before(at[j])
  }

  /** The place holds text: a piece of a unit that is not blank. */
  ghost predicate HoldsText(loaded: seq<LoadedDocument>, split: Split, at: Place) {
    && at.part < |loaded| && at.piece < |split(loaded[at.part].pageContent)|
    && Strip(split(loaded[at.part].pageContent)[at.piece]) != ""
  }

  ghost function TextAt(loaded: seq<LoadedDocument>, split: Split, at: Place): (LoadedDocument, string)
    requires HoldsText(loaded, split, at)
  {
    (loaded[at.part], Strip(split(loaded[at.part].pageContent)[at.piece]))
  }

  /** The texts of `sources` are those at the places `at`. */
  ghost predicate TextsAt(
    sources: seq<(LoadedDocument, string)>, at: seq<Place>, loaded: seq<LoadedDocument>, split: Split)
  {
    && |at| == |sources|
    && forall i :: 0 <= i < |at| ==> HoldsText(loaded, split, at[i]) && sources[i] == TextAt(loaded, split, at[i])
  }

  ghost predicate AllTexts(at: seq<Place>, loaded: seq<LoadedDocument>, split: Split) {
    forall place :: HoldsText(loaded, split, place) ==> place in at
  }

  function PlacesIn(part: nat, pieces: seq<nat>): seq<Place> {
    seq(|pieces|, i requires 0 <= i < |pieces| => Place(part, pieces[i]))
  }

  lemma OneMoreUnitInOrder(at: seq<Place>, part: nat, pieces: seq<nat>)
    requires InReadingOrder(at) && forall i :: 0 <= i < |at| ==> at[i].part < part
    requires forall i, j :: 0 <= i < j < |pieces| ==> pieces[i] < pieces[j]
    ensures InReadingOrder(at + PlacesIn(part, pieces))
  {
  }

  lemma OneMoreUnitTexts(
      sources: seq<(LoadedDocument, string)>, at: seq<Place>, loaded: seq<LoadedDocument>, split: Split,
      unit: LoadedDocument, contents: seq<string>, pieces: seq<nat>)
    requires TextsAt(sources, at, loaded, split)
    requires TakenFrom(contents, pieces, split(unit.pageContent)) && AllNonBlank(pieces, split(unit.pageContent))
    ensures TextsAt(sources + From(unit, contents), at + PlacesIn(|loaded|, pieces), loaded + [unit], split)
  {
    var places, all, more := PlacesIn(|loaded|, pieces), loaded + [unit], From(unit, contents);
    forall i | 0 <= i < |places|
      ensures HoldsText(all, split, places[i]) && more[i] == TextAt(all, split, places[i])
    {
      assert pieces[i] in pieces;
    }
    forall i | 0 <= i < |at| ensures HoldsText(all, split, at[i]) && sources[i] == TextAt(all, split, at[i]) {
      assert HoldsText(loaded, split, at[i]);
    }
  }

  lemma OneMoreUnitAll(at: seq<Place>, loaded: seq<LoadedDocument>, split: Split, unit: LoadedDocument, pieces: seq<nat>)
    requires AllTexts(at, loaded, split) && AllNonBlank(pieces, split(unit.pageContent))
    ensures AllTexts(at + PlacesIn(|loaded|, pieces), loaded + [unit], split)
  {
    var places, all := PlacesIn(|loaded|, pieces), loaded + [unit];
    forall place | HoldsText(all, split, place) ensures place in at + places {
      if place.part < |loaded| {
        assert HoldsText(loaded, split, place);
      } else {
        assert place.piece in pieces;
        var i :| 0 <= i < |pieces| && pieces[i] == place.piece;
        assert places[i] == place;
      }
    }
  }

  /** The texts are all non-blank pieces of all units, each once, in order. */
  lemma {:induction false} SourcesAreTheTexts(loaded: seq<LoadedDocument>, split: Split) returns (at: seq<Place>)
    ensures InReadingOrder(at) && TextsAt(Sources(loaded, split), at, loaded, split) && AllTexts(at, loaded, split)
  {
    at := [];
    if loaded != [] {
      var front, last := loaded[..|loaded| - 1], loaded[|loaded| - 1];
      assert loaded == front + [last];
      var before := SourcesAreTheTexts(front, split);
      var pieces := ContentsAreThePieces(split(last.pageContent));
      OneMoreUnitInOrder(before, |front|, pieces);
      OneMoreUnitTexts(Sources(front, split), before, front, split, last, Contents(split(last.pageContent)), pieces);
      OneMoreUnitAll(before, front, split, last, pieces);
      at := before + PlacesIn(|front|, pieces);
    }
  }

  /** The place holds a non-blank piece of a section that has lines. */
  ghost predicate HoldsPiece(sections: seq<Section>, split: Split, at: Place) {
    && at.part < |sections| && sections[at.part].lines != []
    && at.piece < |split(Join("\n", sections[at.part].lines))|
    && Strip(split(Join("\n", sections[at.part].lines))[at.piece]) != ""
  }

  /** The chunk holds the piece at the place, under its section's heading, numbered `index`. */
  ghost predicate IsChunkOf(chunk: TextChunk, sections: seq<Section>, split: Split, at: Place, index: nat)
    requires HoldsPiece(sections, split, at)
  {
    && chunk.content == Strip(split(Join("\n", sections[at.part].lines))[at.piece])
    && chunk.heading == sections[at.part].heading && chunk.index == index && chunk.source == "docx"
    && chunk.page == None && IsEstimate(chunk.tokenCount, |chunk.content|)
  }

  /** A quarter of the length, rounded up, and at least one. */
  ghost predicate IsEstimate(tokens: nat, length: nat) {
    if length <= 4 then tokens == 1 else 4 * (tokens - 1) < length <= 4 * tokens
  }

  /** The chunk holds the piece at the place, with its unit's page, heading and source. */
  ghost predicate IsChunkOfUnit(chunk: TextChunk, loaded: seq<LoadedDocument>, split: Split, at: Place, index: nat)
    requires HoldsText(loaded, split, at)
  {
    var unit := loaded[at.part];
    && chunk.content == Strip(split(unit.pageContent)[at.piece]) && chunk.index == index
    && chunk.page == unit.page && chunk.heading == unit.heading && chunk.source == unit.source
    && IsEstimate(chunk.tokenCount, |chunk.content|)
  }

  /**
   * For any loaded units, pages of a PDF as well as sections: the chunks are the units' non-blank pieces,
   * each once and in order, with their unit's page, heading and source, numbered from 0.
   */
  lemma ChunksCarryTheirUnit(loaded: seq<LoadedDocument>, split: Split, chunks: seq<TextChunk>) returns (at: seq<Place>)
    requires IsNumbering(chunks, Sources(loaded, split))
    ensures InReadingOrder(at) && AllTexts(at, loaded, split) && |at| == |chunks|
    ensures forall i :: 0 <= i < |at| ==>
      HoldsText(loaded, split, at[i]) && IsChunkOfUnit(chunks[i], loaded, split, at[i], i)
  {
    at := SourcesAreTheTexts(loaded, split);
  }

  /** The places counted in sections; unit `u` is section `from[u]`. */
  function InSections(at: seq<Place>, from: seq<nat>): seq<Place>
    requires forall i :: 0 <= i < |at| ==> at[i].part < |from|
  {
    seq(|at|, i requires 0 <= i < |at| => Place(from[at[i].part], at[i].piece))
  }

  lemma PlaceInSections(
      units: seq<LoadedDocument>, sections: seq<Section>, from: seq<nat>, split: Split, at: Place, index: nat)
    requires LoadedFrom(units, from, sections) && AllWithLines(from, sections) && HoldsText(units, split, at)
    ensures HoldsPiece(sections, split, Place(from[at.part], at.piece))
    ensures IsChunkOf(ChunkAt(TextAt(units, split, at), index), sections, split, Place(from[at.part], at.piece), index)
  {
    assert from[at.part] in from;
  }

  lemma PlaceInUnits(
      units: seq<LoadedDocument>, sections: seq<Section>, from: seq<nat>, split: Split, place: Place) returns (at: Place)
    requires LoadedFrom(units, from, sections) && AllWithLines(from, sections) && HoldsPiece(sections, split, place)
    ensures HoldsText(units, split, at) && Place(from[at.part], at.piece) == place
  {
    assert place.part in from;
    var u :| 0 <= u < |from| && from[u] == place.part;
    at := Place(u, place.piece);
  }

  lemma OrderInSections(at: seq<Place>, from: seq<nat>)
    requires InReadingOrder(at) && forall i :: 0 <= i < |at| ==> at[i].part < |from|
    requires forall i, j :: 0 <= i < j < |from| ==> from[i] < from[j]
    ensures InReadingOrder(InSections(at, from))
  {
    forall i, j | 0 <= i < j < |at| ensures InSections(at, from)[i].Before(InSections(at, from)[j]) {
      assert at[i].Before(at[j]);
    }
  }

  /** The chunks' texts are at the places `at`, counted in sections. */
  ghost predicate ChunksAt(chunks: seq<TextChunk>, at: seq<Place>, sections: seq<Section>, split: Split) {
    && |at| == |chunks|
    && forall i :: 0 <= i < |at| ==> HoldsPiece(sections, split, at[i]) && IsChunkOf(chunks[i], sections, split, at[i], i)
  }

  ghost predicate AllPieces(at: seq<Place>, sections: seq<Section>, split: Split) {
    forall place :: HoldsPiece(sections, split, place) ==> place in at
  }

  lemma ChunksInSections(
      chunks: seq<TextChunk>, sources: seq<(LoadedDocument, string)>, at: seq<Place>, units: seq<LoadedDocument>,
      sections: seq<Section>, from: seq<nat>, split: Split)
    requires IsNumbering(chunks, sources) && TextsAt(sources, at, units, split)
    requires LoadedFrom(units, from, sections) && AllWithLines(from, sections)
    ensures forall i :: 0 <= i < |at| ==> at[i].part < |from|
    ensures ChunksAt(chunks, InSections(at, from), sections, split)
  {
    assert forall i :: 0 <= i < |at| ==> HoldsText(units, split, at[i]);
    var places := InSections(at, from);
    forall i | 0 <= i < |at|
      ensures HoldsPiece(sections, split, places[i]) && IsChunkOf(chunks[i], sections, split, places[i], i)
    {
      PlaceInSections(units, sections, from, split, at[i], i);
    }
  }

  lemma AllInSections(
      at: seq<Place>, units: seq<LoadedDocument>, sections: seq<Section>, from: seq<nat>, split: Split)
    requires AllTexts(at, units, split) && forall i :: 0 <= i < |at| ==> at[i].part < |from|
    requires LoadedFrom(units, from, sections) && AllWithLines(from, sections)
    ensures AllPieces(InSections(at, from), sections, split)
  {
    forall place | HoldsPiece(sections, split, place) ensures place in InSections(at, from) {
      var inUnit := PlaceInUnits(units, sections, from, split, place);
      var i :| 0 <= i < |at| && at[i] == inUnit;
      assert InSections(at, from)[i] == place;
    }
  }

  /**
   * From DOCX paragraphs to chunks: for any splitter, the chunks are the non-blank pieces of the
   * sections with lines, each once, section by section and piece by piece, under their section's
   * heading and numbered from 0.
   */
  lemma ChunksAreThePieces(paragraphs: seq<Paragraph>, split: Split, chunks: seq<TextChunk>) returns (at: seq<Place>)
    requires IsNumbering(chunks, Sources(Units(AllSections(paragraphs)), split))
    ensures InReadingOrder(at)
    ensures ChunksAt(chunks, at, AllSections(paragraphs), split) && AllPieces(at, AllSections(paragraphs), split)
  {
    var sections := AllSections(paragraphs);
    var units := Units(sections);
    var inUnits := SourcesAreTheTexts(units, split);
    var from := UnitsKeepEveryLine(sections);
    ChunksInSections(chunks, Sources(units, split), inUnits, units, sections, from, split);
    AllInSections(inUnits, units, sections, from, split);
    OrderInSections(inUnits, from);
    at := InSections(inUnits, from);
  }
}
