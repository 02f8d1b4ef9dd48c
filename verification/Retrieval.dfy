/** Hybrid retrieval: dense candidates, lexical scores, weighted fusion, ranking, and user scoping. */
module Retrieval {
  import opened Wrappers
  import opened Numbers
  import opened Ranking
  import opened Vectors
  import opened VectorStore
  import opened DocumentTables
  import B = BM25

  // ----- Vector ids -----

  /** Parsing an identifier, a library call: `None` when the text is no identifier. */
  type ParseId = string -> Option<string>

  /** The text after the first colon. */
  function AfterColon(s: string): Option<string> {
    if s == "" then None else if s[0] == ':' then Some(s[1..]) else AfterColon(s[1..])
  }

  function ParseChunkId(vectorId: string, parse: ParseId): Option<string> {
    var rest := AfterColon(vectorId);
    if rest.None? then None else parse(rest.value)
  }

  function VectorId(documentId: string, chunkId: string): string {
    documentId + ":" + chunkId
  }

  /** Without a colon there is no chunk part. */
  lemma {:induction false} NoColonNoChunk(vectorId: string, parse: ParseId)
    requires ':' !in vectorId
    ensures ParseChunkId(vectorId, parse) == None
  {
    if vectorId != "" {
      NoColonNoChunk(vectorId[1..], parse);
    }
  }

  /** Parsing takes a vector id apart again, whatever the chunk part looks like. */
  lemma {:induction false} ParseInvertsVectorId(documentId: string, chunkId: string, parse: ParseId)
    requires ':' !in documentId
    ensures ParseChunkId(VectorId(documentId, chunkId), parse) == parse(chunkId)
    decreases |documentId|
  {
    if documentId == "" {
      assert VectorId("", chunkId) == ":" + chunkId;
    } else {
      ParseInvertsVectorId(documentId[1..], chunkId, parse);
      assert VectorId(documentId, chunkId)[1..] == VectorId(documentId[1..], chunkId);
    }
  }

  // ----- Normalisation -----

  function Lesser(x: real, y: real): real { if y < x then y else x }

  function Greater(x: real, y: real): real { if y > x then y else x }

  function Low(s: seq<real>): real
    requires s != []
  {
    if |s| == 1 then s[0] else Lesser(Low(s[..|s| - 1]), s[|s| - 1])
  }

  function High(s: seq<real>): real
    requires s != []
  {
    if |s| == 1 then s[0] else Greater(High(s[..|s| - 1]), s[|s| - 1])
  }

  /** Min-max normalisation; equal scores all become zero. */
  function Normalize(scores: seq<real>): seq<real> {
    if scores == [] then []
    else if High(scores) <= Low(scores) then seq(|scores|, _ => 0.0)
    else seq(|scores|, i requires 0 <= i < |scores| => Share(scores[i], Low(scores), High(scores)))
  }

  lemma {:induction false} LowHighBounds(s: seq<real>)
    requires s != []
    ensures forall i :: 0 <= i < |s| ==> Low(s) <= s[i] <= High(s)
  {
    if |s| > 1 {
      LowHighBounds(s[..|s| - 1]);
      assert forall i :: 0 <= i < |s| - 1 ==> s[i] == s[..|s| - 1][i];
    }
  }

  lemma {:induction false} LowHighAttained(s: seq<real>)
    requires s != []
    ensures Low(s) in s && High(s) in s
  {
    if |s| > 1 {
      LowHighAttained(s[..|s| - 1]);
    }
  }

  /** Normalised scores lie between 0 and 1 and keep the order of the scores. */
  lemma NormalizeBounds(s: seq<real>)
    ensures |Normalize(s)| == |s|
    ensures forall i :: 0 <= i < |s| ==> 0.0 <= Normalize(s)[i] <= 1.0
    ensures forall i, j :: 0 <= i < |s| && 0 <= j < |s| && s[i] <= s[j] ==> Normalize(s)[i] <= Normalize(s)[j]
  {
    if s != [] && High(s) > Low(s) {
      LowHighBounds(s);
      var range := High(s) - Low(s);
      forall i | 0 <= i < |s| ensures 0.0 <= Normalize(s)[i] <= 1.0 {
        B.QuotientOfAtMost(s[i] - Low(s), range);
      }
      forall i, j | 0 <= i < |s| && 0 <= j < |s| && s[i] <= s[j] ensures Normalize(s)[i] <= Normalize(s)[j] {
        B.DivideKeepsOrder(s[i] - Low(s), s[j] - Low(s), range);
      }
    }
  }

  lemma ShareTimes(x: real, low: real, high: real)
    requires low < high
    ensures Share(x, low, high) * (high - low) == x - low
  {
    QuotientTimes(x - low, high - low);
  }

  /** Normalisation is the linear map that takes a lowest score to 0 and a highest to 1; equal scores become 0. */
  lemma NormalizeSpreads(s: seq<real>, lowest: nat, highest: nat)
    requires lowest < |s| && highest < |s| && forall i :: 0 <= i < |s| ==> s[lowest] <= s[i] <= s[highest]
    ensures |Normalize(s)| == |s|
    ensures forall i :: 0 <= i < |s| ==>
      if s[lowest] < s[highest] then Normalize(s)[i] * (s[highest] - s[lowest]) == s[i] - s[lowest]
      else Normalize(s)[i] == 0.0
  {
    LowHighBounds(s);
    LowHighAttained(s);
    forall i | 0 <= i < |s| && s[lowest] < s[highest]
      ensures Normalize(s)[i] * (s[highest] - s[lowest]) == s[i] - s[lowest]
    {
      ShareTimes(s[i], Low(s), High(s));
    }
  }

  /** Normalised scores are in the order of the scores. */
  lemma NormalizeKeepsOrder(s: seq<real>)
    ensures SameOrder(s, Normalize(s))
  {
    if s != [] {
      LowHighBounds(s);
      forall i, j | 0 <= i < |s| && 0 <= j < |s| ensures s[i] < s[j] <==> Normalize(s)[i] < Normalize(s)[j] {
        if Low(s) < High(s) {
          ShareKeepsOrder(s[i], s[j], Low(s), High(s));
        }
      }
    }
  }

  lemma ShareKeepsOrder(x: real, y: real, low: real, high: real)
    requires low < high
    ensures x < y <==> Share(x, low, high) < Share(y, low, high)
  {
    ShareTimes(x, low, high);
    ShareTimes(y, low, high);
    B.PositiveFactor(Share(y, low, high) - Share(x, low, high), high - low);
    assert (Share(y, low, high) - Share(x, low, high)) * (high - low) == y - x;
  }

  function Line(a: real, b: real, x: real): real { a * x + b }

  function Affine(s: seq<real>, a: real, b: real): seq<real> {
    seq(|s|, i requires 0 <= i < |s| => Line(a, b, s[i]))
  }

  lemma LineKeepsOrder(x: real, y: real, a: real, b: real)
    requires a > 0.0
    ensures Lesser(Line(a, b, x), Line(a, b, y)) == Line(a, b, Lesser(x, y))
    ensures Greater(Line(a, b, x), Line(a, b, y)) == Line(a, b, Greater(x, y))
    ensures Line(a, b, x) < Line(a, b, y) <==> x < y
  {
    B.PositiveFactor(y - x, a);
    B.PositiveFactor(x - y, a);
    assert (y - x) * a == Line(a, b, y) - Line(a, b, x);
    assert (x - y) * a == Line(a, b, x) - Line(a, b, y);
  }

  lemma {:induction false} LowAffine(s: seq<real>, a: real, b: real)
    requires s != [] && a > 0.0
    ensures Low(Affine(s, a, b)) == Line(a, b, Low(s))
  {
    if |s| > 1 {
      var n := |s| - 1;
      LowAffine(s[..n], a, b);
      assert Affine(s, a, b)[..n] == Affine(s[..n], a, b);
      LineKeepsOrder(Low(s[..n]), s[n], a, b);
    }
  }

  lemma {:induction false} HighAffine(s: seq<real>, a: real, b: real)
    requires s != [] && a > 0.0
    ensures High(Affine(s, a, b)) == Line(a, b, High(s))
  {
    if |s| > 1 {
      var n := |s| - 1;
      HighAffine(s[..n], a, b);
      assert Affine(s, a, b)[..n] == Affine(s[..n], a, b);
      LineKeepsOrder(High(s[..n]), s[n], a, b);
    }
  }

  lemma QuotientRescaled(x: real, y: real, a: real)
    requires a > 0.0 && y > 0.0
    ensures a * y > 0.0 && (a * x) / (a * y) == x / y
  {
    var q := x / y;
    QuotientTimes(x, y);
    assert q * (a * y) == a * (q * y);
    QuotientTimes(a * x, a * y);
    B.PositiveFactor((a * x) / (a * y) - q, a * y);
    B.PositiveFactor(q - (a * x) / (a * y), a * y);
  }

  /** Where `x` lies between `low` and `high`. */
  function Share(x: real, low: real, high: real): real
    requires low < high
  {
    (x - low) / (high - low)
  }

  lemma ShareOfLine(x: real, low: real, high: real, a: real, b: real)
    requires a > 0.0 && low < high
    ensures Line(a, b, low) < Line(a, b, high)
    ensures Share(Line(a, b, x), Line(a, b, low), Line(a, b, high)) == Share(x, low, high)
  {
    LineKeepsOrder(low, high, a, b);
    QuotientRescaled(x - low, high - low, a);
    assert Line(a, b, x) - Line(a, b, low) == a * (x - low);
    assert Line(a, b, high) - Line(a, b, low) == a * (high - low);
  }

  /** A positive affine rescaling of the scores changes nothing. */
  lemma NormalizeAffine(s: seq<real>, a: real, b: real)
    requires a > 0.0
    ensures Normalize(Affine(s, a, b)) == Normalize(s)
  {
    if s != [] {
      var t := Affine(s, a, b);
      LowAffine(s, a, b);
      HighAffine(s, a, b);
      LineKeepsOrder(Low(s), High(s), a, b);
      if High(s) > Low(s) {
        forall i | 0 <= i < |s| ensures Normalize(t)[i] == Normalize(s)[i] {
          ShareOfLine(s[i], Low(s), High(s), a, b);
          assert Normalize(t)[i] == Share(t[i], Low(t), High(t));
        }
      }
    }
  }

  // ----- Fusion -----

  datatype Weights = Weights(dense: real, lexical: real)

  function FusedScore(w: Weights, dense: real, lexical: real): real {
    w.dense * dense + w.lexical * lexical
  }

  function FuseAll(w: Weights, norm: seq<real>, lexical: seq<real>): seq<real>
    requires |norm| == |lexical|
  {
    seq(|norm|, i requires 0 <= i < |norm| => FusedScore(w, norm[i], lexical[i]))
  }

  /** The fused score of every candidate. */
  function FusedScores(w: Weights, dense: seq<real>, lexical: seq<real>): seq<real>
    requires |dense| == |lexical|
  {
    NormalizeBounds(dense);
    FuseAll(w, Normalize(dense), lexical)
  }

  lemma ScaleKeepsOrder(w: real, x: real, y: real)
    requires w >= 0.0 && x <= y
    ensures w * x <= w * y
  {
  }

  lemma FusedScoreMonotone(w: Weights, d: real, l: real, d': real, l': real)
    requires w.dense >= 0.0 && w.lexical >= 0.0 && d <= d' && l <= l'
    ensures FusedScore(w, d, l) <= FusedScore(w, d', l')
  {
    ScaleKeepsOrder(w.dense, d, d');
    ScaleKeepsOrder(w.lexical, l, l');
  }

  /** Fused scores lie between 0 and the sum of the weights. */
  lemma FusedBounds(w: Weights, dense: seq<real>, lexical: seq<real>)
    requires w.dense >= 0.0 && w.lexical >= 0.0 && |dense| == |lexical|
    requires forall i :: 0 <= i < |lexical| ==> 0.0 <= lexical[i] <= 1.0
    ensures forall i :: 0 <= i < |dense| ==> 0.0 <= FusedScores(w, dense, lexical)[i] <= w.dense + w.lexical
  {
    NormalizeBounds(dense);
    var norm := Normalize(dense);
    forall i | 0 <= i < |dense| ensures 0.0 <= FuseAll(w, norm, lexical)[i] <= w.dense + w.lexical {
      FusedScoreMonotone(w, 0.0, 0.0, norm[i], lexical[i]);
      FusedScoreMonotone(w, norm[i], lexical[i], 1.0, 1.0);
    }
  }

  /** A candidate at least as good in both scores never gets the lower fused score. */
  lemma FusionRespectsDominance(w: Weights, dense: seq<real>, lexical: seq<real>, i: nat, j: nat)
    requires w.dense >= 0.0 && w.lexical >= 0.0 && |dense| == |lexical| && i < |dense| && j < |dense|
    requires dense[i] <= dense[j] && lexical[i] <= lexical[j]
    ensures FusedScores(w, dense, lexical)[i] <= FusedScores(w, dense, lexical)[j]
  {
    NormalizeBounds(dense);
    FusedScoreMonotone(w, Normalize(dense)[i], lexical[i], Normalize(dense)[j], lexical[j]);
  }

  /** Rescaling the dense scores leaves every fused score, and so the ranking, as it is. */
  lemma RankingIsScaleFree(w: Weights, dense: seq<real>, lexical: seq<real>, a: real, b: real)
    requires a > 0.0 && |dense| == |lexical|
    ensures FusedScores(w, Affine(dense, a, b), lexical) == FusedScores(w, dense, lexical)
    ensures Rank(FusedScores(w, Affine(dense, a, b), lexical)) == Rank(FusedScores(w, dense, lexical))
  {
    NormalizeAffine(dense, a, b);
  }

  /** `wx` and `wy` are a positive multiple of `x` and `y`. */
  lemma ScaleIsStrict(w: real, x: real, y: real, wx: real, wy: real)
    requires w > 0.0 && (y - x) * w == wy - wx
    ensures wx < wy <==> x < y
  {
    B.PositiveFactor(y - x, w);
  }

  lemma ZeroTimes(x: real)
    ensures 0.0 * x == 0.0
  {
  }

  /** With one weight zero, the other score alone decides the order. */
  lemma DenseScoreDecides(w: Weights, d: real, l: real, d': real, l': real)
    requires w.dense > 0.0 && w.lexical == 0.0
    ensures FusedScore(w, d, l) < FusedScore(w, d', l') <==> d < d'
  {
    ZeroTimes(l);
    ZeroTimes(l');
    B.DifferenceTimes(d, d', w.dense);
    ScaleIsStrict(w.dense, d, d', FusedScore(w, d, l), FusedScore(w, d', l'));
  }

  lemma LexicalScoreDecides(w: Weights, d: real, l: real, d': real, l': real)
    requires w.dense == 0.0 && w.lexical > 0.0
    ensures FusedScore(w, d, l) < FusedScore(w, d', l') <==> l < l'
  {
    ZeroTimes(d);
    ZeroTimes(d');
    B.DifferenceTimes(l, l', w.lexical);
    ScaleIsStrict(w.lexical, l, l', FusedScore(w, d, l), FusedScore(w, d', l'));
  }

  /** With dense weight alone, candidates are ranked as by the vector store's scores. */
  lemma DenseWeightAlone(w: Weights, dense: seq<real>, lexical: seq<real>)
    requires w.dense > 0.0 && w.lexical == 0.0 && |dense| == |lexical|
    ensures Rank(FusedScores(w, dense, lexical)) == Rank(dense)
  {
    NormalizeKeepsOrder(dense);
    var norm, fused := Normalize(dense), FusedScores(w, dense, lexical);
    forall i, j | 0 <= i < |dense| && 0 <= j < |dense| ensures fused[i] < fused[j] <==> dense[i] < dense[j] {
      DenseScoreDecides(w, norm[i], lexical[i], norm[j], lexical[j]);
    }
    SameOrderSameRank(fused, dense);
  }

  /** With lexical weight alone, they are ranked as by the lexical scores. */
  lemma LexicalWeightAlone(w: Weights, dense: seq<real>, lexical: seq<real>)
    requires w.dense == 0.0 && w.lexical > 0.0 && |dense| == |lexical|
    ensures Rank(FusedScores(w, dense, lexical)) == Rank(lexical)
  {
    NormalizeBounds(dense);
    var norm, fused := Normalize(dense), FusedScores(w, dense, lexical);
    forall i, j | 0 <= i < |dense| && 0 <= j < |dense| ensures fused[i] < fused[j] <==> lexical[i] < lexical[j] {
      LexicalScoreDecides(w, norm[i], lexical[i], norm[j], lexical[j]);
    }
    SameOrderSameRank(fused, lexical);
  }

  lemma FusedDifference(w: Weights, d: real, l: real, d': real, l': real)
    ensures FusedScore(w, d', l') - FusedScore(w, d, l) == w.lexical * (l' - l) - w.dense * (d - d')
  {
    B.DifferenceTimes(l, l', w.lexical);
    B.DifferenceTimes(d', d, w.dense);
  }

  lemma ScaledDifference(a: real, b: real, c: real, spread: real, gap: real)
    requires gap == c * spread
    ensures (a - b * c) * spread == a * spread - b * gap
  {
    B.DifferenceTimes(b * c, a, spread);
    assert (b * c) * spread == b * (c * spread);
  }

  /** A positive multiple of `y - x` has its sign. */
  lemma SameSign(x: real, y: real, spread: real, lhs: real, rhs: real)
    requires spread > 0.0 && (y - x) * spread == rhs - lhs
    ensures x < y <==> lhs < rhs
  {
    B.PositiveFactor(y - x, spread);
  }

  /** A lexical lead outweighs a dense one, `spread` being the range of the dense scores. */
  predicate Outweighs(w: Weights, lexicalLead: real, denseLead: real, spread: real) {
    w.dense * denseLead < w.lexical * lexicalLead * spread
  }

  lemma ScoreDifference(w: Weights, d: real, l: real, d': real, l': real, spread: real, gap: real)
    requires spread > 0.0 && gap == (d - d') * spread
    ensures FusedScore(w, d, l) < FusedScore(w, d', l') <==> Outweighs(w, l' - l, gap, spread)
  {
    FusedDifference(w, d, l, d', l');
    ScaledDifference(w.lexical * (l' - l), w.dense, d - d', spread, gap);
    SameSign(FusedScore(w, d, l), FusedScore(w, d', l'), spread, w.dense * gap, w.lexical * (l' - l) * spread);
  }

  lemma NormDifference(dense: seq<real>, lowest: nat, highest: nat, i: nat, j: nat)
    requires lowest < |dense| && highest < |dense| && i < |dense| && j < |dense| && dense[lowest] < dense[highest]
    requires forall k :: 0 <= k < |dense| ==> dense[lowest] <= dense[k] <= dense[highest]
    ensures |Normalize(dense)| == |dense|
    ensures dense[i] - dense[j] == (Normalize(dense)[i] - Normalize(dense)[j]) * (dense[highest] - dense[lowest])
  {
    NormalizeSpreads(dense, lowest, highest);
    B.DifferenceTimes(Normalize(dense)[j], Normalize(dense)[i], dense[highest] - dense[lowest]);
  }

  /**
   * How dense and lexical scores trade off: candidate `i` scores less than `j` exactly when the lexical
   * lead of `j`, weighed and on the scale of the dense scores, exceeds the weighed dense lead of `i`.
   */
  lemma ScoresTradeOff(
      candidates: seq<RetrievalHit>, w: Weights, lexical: seq<real>, lowest: nat, highest: nat, i: nat, j: nat)
    requires |lexical| == |candidates| && i < |candidates| && j < |candidates|
    requires lowest < |candidates| && highest < |candidates| && candidates[lowest].score < candidates[highest].score
    requires forall k :: 0 <= k < |candidates| ==> candidates[lowest].score <= candidates[k].score <= candidates[highest].score
    ensures var h, spread := Fused(candidates, w, lexical), candidates[highest].score - candidates[lowest].score;
      h[i].fused < h[j].fused <==> Outweighs(w, h[j].bm25 - h[i].bm25, h[i].score - h[j].score, spread)
  {
    var dense := DenseScores(candidates);
    NormDifference(dense, lowest, highest, i, j);
    ScoreDifference(w, Normalize(dense)[i], lexical[i], Normalize(dense)[j], lexical[j], dense[highest] - dense[lowest],
                    dense[i] - dense[j]);
  }

  // ----- Candidates -----

  datatype Database = Database(chunks: map<string, ChunkRow>, documents: map<string, DocumentRow>) {
    ghost predicate Valid() {
      && (forall id :: id in chunks ==> chunks[id].id == id)
      && (forall id :: id in documents ==> documents[id].id == id)
    }

    /** The chunk exists and belongs to one of the user's documents. */
    predicate Owns(userId: string, chunkId: string) {
      && chunkId in chunks && chunks[chunkId].documentId in documents
      && documents[chunks[chunkId].documentId].uploaderId == userId
    }
  }

  datatype RetrievalHit = RetrievalHit(
    chunkId: string, documentId: string, documentName: string, content: string, score: real,
    page: Option<int>, heading: Option<string>, bm25: real, fused: real)

  /** The chunk ids that parse, in the order of the hits. */
  function ChunkIds(hits: seq<VectorHit>, parse: ParseId): seq<string> {
    if hits == [] then []
    else
      var front := ChunkIds(hits[..|hits| - 1], parse);
      var last := ParseChunkId(hits[|hits| - 1].id, parse);
      if last.Some? then front + [last.value] else front
  }

  lemma {:induction false} ChunkIdsShorter(hits: seq<VectorHit>, parse: ParseId)
    ensures |ChunkIds(hits, parse)| <= |hits|
  {
    if hits != [] {
      ChunkIdsShorter(hits[..|hits| - 1], parse);
    }
  }

  /** Scores by chunk id: the i-th score goes to the i-th parsed id; a repeated id keeps the last. */
  function ScoresByChunk(hits: seq<VectorHit>, chunkIds: seq<string>): map<string, real>
    requires |chunkIds| <= |hits|
  {
    if chunkIds == [] then map[]
    else
      var n := |chunkIds| - 1;
      ScoresByChunk(hits, chunkIds[..n])[chunkIds[n] := hits[n].score]
  }

  function CandidateFor(db: Database, userId: string, chunkId: string, score: real): RetrievalHit
    requires db.Owns(userId, chunkId)
  {
    var chunk := db.chunks[chunkId];
    RetrievalHit(chunkId, chunk.documentId, db.documents[chunk.documentId].name, chunk.chunk.content, score,
                 chunk.chunk.page, chunk.chunk.heading, 0.0, 0.0)
  }

  /** The user's chunks among `chunkIds`, in order. */
  function CandidatesFor(db: Database, userId: string, chunkIds: seq<string>, scores: map<string, real>): seq<RetrievalHit> {
    if chunkIds == [] then []
    else
      var front := CandidatesFor(db, userId, chunkIds[..|chunkIds| - 1], scores);
      var last := chunkIds[|chunkIds| - 1];
      if last in scores && db.Owns(userId, last) then front + [CandidateFor(db, userId, last, scores[last])] else front
  }

  /** The candidate for each scored chunk of the user's documents. */
  function ByChunk(db: Database, userId: string, scores: map<string, real>): map<string, RetrievalHit> {
    map id | id in scores && db.Owns(userId, id) :: CandidateFor(db, userId, id, scores[id])
  }

  lemma NextCandidate(db: Database, userId: string, chunkIds: seq<string>, i: nat, scores: map<string, real>)
    requires i < |chunkIds|
    ensures var byChunk, before := ByChunk(db, userId, scores), CandidatesFor(db, userId, chunkIds[..i], scores);
      CandidatesFor(db, userId, chunkIds[..i + 1], scores) ==
      if chunkIds[i] in byChunk then before + [byChunk[chunkIds[i]]] else before
  {
    assert chunkIds[..i + 1][..i] == chunkIds[..i];
  }

  function Candidates(db: Database, userId: string, hits: seq<VectorHit>, parse: ParseId): seq<RetrievalHit> {
    ChunkIdsShorter(hits, parse);
    CandidatesFor(db, userId, ChunkIds(hits, parse), ScoresByChunk(hits, ChunkIds(hits, parse)))
  }

  function DenseScores(candidates: seq<RetrievalHit>): seq<real> {
    seq(|candidates|, i requires 0 <= i < |candidates| => candidates[i].score)
  }

  // ----- Retrieval -----

  type Tokenize = string -> seq<string>

  function Documents(candidates: seq<RetrievalHit>, tokenize: Tokenize): seq<B.Doc> {
    seq(|candidates|, i requires 0 <= i < |candidates| => tokenize(candidates[i].content))
  }

  function Fused(candidates: seq<RetrievalHit>, w: Weights, lexical: seq<real>): seq<RetrievalHit>
    requires |lexical| == |candidates|
  {
    var scores := FusedScores(w, DenseScores(candidates), lexical);
    seq(|candidates|, i requires 0 <= i < |candidates| => candidates[i].(bm25 := lexical[i], fused := scores[i]))
  }

  function FusedOf(hits: seq<RetrievalHit>): seq<real> {
    seq(|hits|, i requires 0 <= i < |hits| => hits[i].fused)
  }

  /** The `k` best hits of a stable descending sort by fused score. */
  function Best(hits: seq<RetrievalHit>, k: nat): seq<RetrievalHit> {
    var at := Rank(FusedOf(hits));
    var top := at[..Min(k, |at|)];
    seq(|top|, i requires 0 <= i < |top| => hits[top[i]])
  }

  /** The caller's `top_k`, if given and not zero. */
  function Limit(topK: Option<nat>, default: nat): (k: nat)
    ensures topK.Some? && topK.value > 0 ==> k == topK.value
    ensures topK.None? || topK.value == 0 ==> k == default
  {
    if topK.Some? && topK.value != 0 then topK.value else default
  }

  /** How many hits are asked of the vector store. */
  function CandidateLimit(topK: Option<nat>, default: nat, oversample: nat): (n: nat)
    ensures oversample >= 1 ==> n >= Limit(topK, default)
    ensures topK.Some? && topK.value > 0 ==> n == topK.value * oversample
    ensures topK.None? || topK.value == 0 ==> n == default * oversample
  {
    Limit(topK, default) * oversample
  }

  lemma CosineRankIsTopK(c: Contents, query: Vector, k: nat, sqrt: RealFunction)
    requires IsSqrt(sqrt)
    ensures var scores := Cosines(query, VectorsOf(c), sqrt);
      && |Rank(scores)| == |scores| == |c|
      && IsTopK(scores, k, Rank(scores)[..Min(k, |scores|)])
  {
    var scores := Cosines(query, VectorsOf(c), sqrt);
    RankIsRanking(scores);
    RankingPrefixIsTopK(scores, Rank(scores), k);
  }

  /** Ids left over beyond the vectors do not show in any hit. */
  lemma HeldHits(ids: seq<string>, vectors: seq<Vector>, query: Vector, at: seq<nat>)
    requires |ids| >= |vectors| && InRange(at, |vectors|)
    ensures var held := Pair(ids, vectors);
      && Scores(query, VectorsOf(held)) == Scores(query, vectors)
      && HitsAt(IdsOf(held), Scores(query, vectors), at) == HitsAt(ids, Scores(query, vectors), at)
  {
    assert VectorsOf(Pair(ids, vectors)) == vectors;
  }

  class RetrievalService {
    const topK: nat
    const oversample: nat
    const weights: Weights
    const parse: ParseId
    const tokenize: Tokenize
    const log: RealFunction

    const embed: string -> Vector

    constructor (topK: nat, oversample: nat, weights: Weights, parse: ParseId, tokenize: Tokenize, log: RealFunction,
                 embed: string -> Vector)
      ensures this.topK == topK && this.oversample == oversample && this.weights == weights && this.parse == parse
      ensures this.tokenize == tokenize && this.log == log && this.embed == embed
    {
      this.topK, this.oversample, this.weights, this.parse := topK, oversample, weights, parse;
      this.tokenize, this.log, this.embed := tokenize, log, embed;
    }

    /** The lexical score is positive exactly when the hit's own text contains a word of the query. */
    ghost predicate ScoredByItsText(h: RetrievalHit, query: string) {
      0.0 <= h.bm25 <= 1.0 && (h.bm25 > 0.0 <==> exists t :: t in tokenize(query) && t in tokenize(h.content))
    }

    /** The candidates' texts, as words, and their lexical scores for the query. */
    ghost predicate AreLexicalScores(
      docs: seq<B.Doc>, lexical: seq<real>, idf: map<string, real>, candidates: seq<RetrievalHit>, query: string)
    {
      && |docs| == |candidates| == |lexical|
      && (forall i :: 0 <= i < |docs| ==> docs[i] == tokenize(candidates[i].content))
      && B.IsIdf(docs, log, idf) && B.Scored(B.Parameters(1.5, 0.75), docs, idf, tokenize(query)) == Ok(lexical)
    }

    /**
     * What a query is answered with, given the vector store's hits: an error exactly when the query has
     * words, there are candidates, and no candidate's text has any; else the best `k` candidates by fused
     * score, each with the lexical score of its own text.
     */
    ghost predicate Answers(r: Result<seq<RetrievalHit>, B.ScoreError>, db: Database, userId: string, query: string,
                            denseHits: seq<VectorHit>, k: nat) {
      var candidates := Candidates(db, userId, denseHits, parse);
      && (r.Err? <==>
            candidates != [] && tokenize(query) != []
            && forall i :: 0 <= i < |candidates| ==> tokenize(candidates[i].content) == [])
      && (candidates == [] ==> r == Ok([]))
      && (r.Ok? ==> |r.value| == Min(k, |candidates|) && forall h :: h in r.value ==> ScoredByItsText(h, query))
      && (candidates != [] && r.Ok? ==>
            exists docs, lexical, idf ::
              && AreLexicalScores(docs, lexical, idf, candidates, query)
              && r.value == Best(Fused(candidates, weights, lexical), k))
    }

    lemma BestAreScoredByTheirText(
        docs: seq<B.Doc>, lexical: seq<real>, idf: map<string, real>, candidates: seq<RetrievalHit>, query: string, k: nat)
      requires B.IsLog(log) && AreLexicalScores(docs, lexical, idf, candidates, query)
      ensures |Best(Fused(candidates, weights, lexical), k)| == Min(k, |candidates|)
      ensures forall h :: h in Best(Fused(candidates, weights, lexical), k) ==> ScoredByItsText(h, query)
    {
      B.ScoresAreNormalised(B.Parameters(1.5, 0.75), docs, log, idf, tokenize(query));
      var fused := Fused(candidates, weights, lexical);
      forall i | 0 <= i < |fused| ensures ScoredByItsText(fused[i], query) {
        assert B.Hit(docs[i], tokenize(query)) <==> exists t :: t in tokenize(query) && t in tokenize(fused[i].content);
      }
      var at := BestIsTopK(fused, k);
    }

    method ParseChunkIds(denseHits: seq<VectorHit>) returns (chunkIds: seq<string>)
      ensures chunkIds == ChunkIds(denseHits, parse)
    {
      chunkIds := [];
      for i := 0 to |denseHits|
        invariant chunkIds == ChunkIds(denseHits[..i], parse)
      {
        assert denseHits[..i + 1][..i] == denseHits[..i];
        var parsed := ParseChunkId(denseHits[i].id, parse);
        if parsed.Some? {
          chunkIds := chunkIds + [parsed.value];
        }
      }
      assert denseHits[..|denseHits|] == denseHits;
    }

    method RecordScores(denseHits: seq<VectorHit>, chunkIds: seq<string>) returns (scoresByChunk: map<string, real>)
      requires |chunkIds| <= |denseHits|
      ensures scoresByChunk == ScoresByChunk(denseHits, chunkIds)
    {
      scoresByChunk := map[];
      for i := 0 to |chunkIds|
        invariant scoresByChunk == ScoresByChunk(denseHits, chunkIds[..i])
      {
        assert chunkIds[..i + 1][..i] == chunkIds[..i];
        scoresByChunk := scoresByChunk[chunkIds[i] := denseHits[i].score];
      }
      assert chunkIds[..|chunkIds|] == chunkIds;
    }

    /** The candidates in `byChunk`, in the order of `chunkIds`. */
    method InHitOrder(
      db: Database, userId: string, chunkIds: seq<string>, scoresByChunk: map<string, real>,
      byChunk: map<string, RetrievalHit>) returns (ordered: seq<RetrievalHit>)
      requires byChunk == ByChunk(db, userId, scoresByChunk)
      ensures ordered == CandidatesFor(db, userId, chunkIds, scoresByChunk)
    {
      ordered := [];
      for i := 0 to |chunkIds|
        invariant ordered == CandidatesFor(db, userId, chunkIds[..i], scoresByChunk)
      {
        NextCandidate(db, userId, chunkIds, i, scoresByChunk);
        if chunkIds[i] in byChunk {
          ordered := ordered + [byChunk[chunkIds[i]]];
        }
      }
      assert chunkIds[..|chunkIds|] == chunkIds;
    }

    /** The user's candidates among the hits, each with the score recorded for its chunk. */
    method Gather(db: Database, userId: string, denseHits: seq<VectorHit>) returns (ordered: seq<RetrievalHit>)
      ensures ordered == Candidates(db, userId, denseHits, parse)
    {
      var chunkIds := ParseChunkIds(denseHits);
      ChunkIdsShorter(denseHits, parse);
      var scoresByChunk := RecordScores(denseHits, chunkIds);
      var byChunk := ByChunk(db, userId, scoresByChunk);
      ordered := InHitOrder(db, userId, chunkIds, scoresByChunk, byChunk);
    }

    /** The candidates' lexical scores for the query, or a division by zero. */
    method LexicalScores(query: string, candidates: seq<RetrievalHit>)
      returns (scored: Result<seq<real>, B.ScoreError>, ghost docs: seq<B.Doc>, ghost idf: map<string, real>)
      requires B.IsLog(log) && candidates != []
      ensures scored.Err? <==> tokenize(query) != [] && forall i :: 0 <= i < |candidates| ==> tokenize(candidates[i].content) == []
      ensures scored.Ok? ==> AreLexicalScores(docs, scored.value, idf, candidates, query)
    {
      var texts := Documents(candidates, tokenize);
      var bm25 := new B.BM25();
      bm25.Fit(texts, log);
      var terms := tokenize(query);
      scored := bm25.Score(terms, log);
      docs, idf := texts, bm25.idf;
      B.ScoreFailsWithoutTokens(bm25.p, docs, idf, terms);
      assert forall i :: 0 <= i < |docs| ==> docs[i] == tokenize(candidates[i].content);
      if scored.Ok? {
        B.ScoresAreNormalised(bm25.p, docs, log, idf, terms);
      }
    }

    /** The answer to a query, given what the vector store found. */
    method FuseAndRank(db: Database, userId: string, query: string, denseHits: seq<VectorHit>, topK: Option<nat>)
      returns (r: Result<seq<RetrievalHit>, B.ScoreError>)
      requires db.Valid() && B.IsLog(log)
      ensures Answers(r, db, userId, query, denseHits, Limit(topK, this.topK))
    {
      var ordered := Gather(db, userId, denseHits);
      if ordered == [] {
        return Ok([]);
      }
      var scored, docs, idf := LexicalScores(query, ordered);
      if scored.Err? {
        return Err(scored.error);
      }
      BestAreScoredByTheirText(docs, scored.value, idf, ordered, query, Limit(topK, this.topK));
      r := Ok(Best(Fused(ordered, weights, scored.value), Limit(topK, this.topK)));
    }

    /** Retrieval over the in-memory store; `rewritten` is what the query rewriter made of the query. */
    method Retrieve(db: Database, userId: string, query: string, rewritten: string, store: InMemoryVectorStore,
                    topK: Option<nat>, sqrt: RealFunction) returns (r: Result<seq<RetrievalHit>, B.ScoreError>)
      requires db.Valid() && B.IsLog(log) && IsSqrt(sqrt)
      ensures var limit, scores := CandidateLimit(topK, this.topK, oversample), Cosines(embed(rewritten), VectorsOf(store.Holds()), sqrt);
        && |Rank(scores)| == |scores| && IsTopK(scores, limit, Rank(scores)[..Min(limit, |scores|)])
        && Answers(r, db, userId, query, HitsAt(IdsOf(store.Holds()), scores, Rank(scores)[..Min(limit, |scores|)]),
                   Limit(topK, this.topK))
    {
      var vector := embed(rewritten);
      var limit := CandidateLimit(topK, this.topK, oversample);
      var denseHits := store.Search(vector, limit, sqrt);
      CosineRankIsTopK(store.Holds(), vector, limit, sqrt);
      r := FuseAndRank(db, userId, query, denseHits, topK);
    }

    /** Retrieval over the FAISS store; `scores` and `positions` are what its index answers. */
    method RetrieveFromIndex(db: Database, userId: string, query: string, rewritten: string, store: FAISSVectorStore,
                             topK: Option<nat>, ghost at: seq<nat>, scores: seq<real>, positions: seq<int>)
      returns (r: Result<seq<RetrievalHit>, B.ScoreError>)
      requires db.Valid() && B.IsLog(log) && store.Valid()
      requires IsIndexAnswer(store.index, embed(rewritten), CandidateLimit(topK, this.topK, oversample), scores, positions)
      requires at == Found(positions, Min(CandidateLimit(topK, this.topK, oversample), |store.index|))
      ensures var exact := Scores(embed(rewritten), store.vectors);
        && IsTopK(exact, CandidateLimit(topK, this.topK, oversample), at)
        && Answers(r, db, userId, query, HitsAt(store.ids, exact, Labelled(at, |store.ids|, |exact|)), Limit(topK, this.topK))
        && (|store.ids| >= |store.vectors| ==>
              Answers(r, db, userId, query, HitsAt(IdsOf(store.Holds()), exact, at), Limit(topK, this.topK)))
    {
      var vector := embed(rewritten);
      var denseHits := store.Search(vector, CandidateLimit(topK, this.topK, oversample), at, scores, positions);
      if |store.ids| >= |store.vectors| {
        HeldHits(store.ids, store.vectors, vector, at);
      }
      r := FuseAndRank(db, userId, query, denseHits, topK);
    }
  }

  // ----- When scores belong to their chunks -----

  /** The i-th parsed chunk id comes from the i-th hit. */
  ghost predicate Aligned(hits: seq<VectorHit>, parse: ParseId) {
    forall i :: 0 <= i < |ChunkIds(hits, parse)| ==>
      i < |hits| && ParseChunkId(hits[i].id, parse) == Some(ChunkIds(hits, parse)[i])
  }

  /** Hits whose id does not parse come last, if there are any. */
  ghost predicate UnparsableLast(hits: seq<VectorHit>, parse: ParseId) {
    forall i, j :: 0 <= i < j < |hits| && ParseChunkId(hits[j].id, parse).Some? ==> ParseChunkId(hits[i].id, parse).Some?
  }

  lemma {:induction false} AllParse(hits: seq<VectorHit>, parse: ParseId)
    requires forall i :: 0 <= i < |hits| ==> ParseChunkId(hits[i].id, parse).Some?
    ensures |ChunkIds(hits, parse)| == |hits|
    ensures forall i :: 0 <= i < |hits| ==> ParseChunkId(hits[i].id, parse) == Some(ChunkIds(hits, parse)[i])
  {
    if hits != [] {
      AllParse(hits[..|hits| - 1], parse);
    }
  }

  lemma {:induction false} ParsablePrefix(hits: seq<VectorHit>, parse: ParseId, k: nat)
    requires k <= |hits| && forall i :: 0 <= i < k ==> ParseChunkId(hits[i].id, parse).Some?
    ensures |ChunkIds(hits, parse)| >= k
  {
    if k == |hits| {
      AllParse(hits, parse);
    } else {
      ParsablePrefix(hits[..|hits| - 1], parse, k);
    }
  }

  lemma {:induction false} OneMoreParses(hits: seq<VectorHit>, parse: ParseId, k: nat, j: nat)
    requires k <= j < |hits| && forall i :: 0 <= i < k ==> ParseChunkId(hits[i].id, parse).Some?
    requires ParseChunkId(hits[j].id, parse).Some?
    ensures |ChunkIds(hits, parse)| > k
  {
    var front := hits[..|hits| - 1];
    if j == |hits| - 1 {
      ParsablePrefix(front, parse, k);
    } else {
      OneMoreParses(front, parse, k, j);
    }
  }

  lemma {:induction false} UnparsableLastAligns(hits: seq<VectorHit>, parse: ParseId)
    requires UnparsableLast(hits, parse)
    ensures Aligned(hits, parse)
  {
    if hits == [] {
      assert ChunkIds(hits, parse) == [];
    } else {
      var n := |hits| - 1;
      if ParseChunkId(hits[n].id, parse).Some? {
        AllParse(hits, parse);
      } else {
        assert forall i :: 0 <= i < n ==> hits[..n][i] == hits[i];
        UnparsableLastAligns(hits[..n], parse);
        ChunkIdsShorter(hits[..n], parse);
        assert ChunkIds(hits, parse) == ChunkIds(hits[..n], parse);
      }
    }
  }

  lemma AlignedHasUnparsableLast(hits: seq<VectorHit>, parse: ParseId)
    requires Aligned(hits, parse)
    ensures UnparsableLast(hits, parse)
  {
    var m := |ChunkIds(hits, parse)|;
    ChunkIdsShorter(hits, parse);
    forall i, j | 0 <= i < j < |hits| && ParseChunkId(hits[j].id, parse).Some?
      ensures ParseChunkId(hits[i].id, parse).Some?
    {
      if m <= j {
        OneMoreParses(hits, parse, m, j);
      }
    }
  }

  /** Scores are paired with the right chunks exactly when no unparsable hit precedes a parsable one. */
  lemma AlignedIff(hits: seq<VectorHit>, parse: ParseId)
    ensures Aligned(hits, parse) <==> UnparsableLast(hits, parse)
  {
    if Aligned(hits, parse) {
      AlignedHasUnparsableLast(hits, parse);
    }
    if UnparsableLast(hits, parse) {
      UnparsableLastAligns(hits, parse);
    }
  }

  lemma IdsOfTwo(lost: VectorHit, own: VectorHit, parse: ParseId)
    requires ParseChunkId(lost.id, parse).None? && ParseChunkId(own.id, parse).Some?
    ensures ChunkIds([lost, own], parse) == [ParseChunkId(own.id, parse).value]
  {
    var hits := [lost, own];
    var one := hits[..1];
    assert one[0] == lost && one[..0] == [];
    assert ChunkIds(one, parse) == [];
  }

  /** One lost id is enough to give a chunk another vector's score. */
  lemma MisalignedScore(lost: VectorHit, own: VectorHit, parse: ParseId)
    requires ParseChunkId(lost.id, parse).None? && ParseChunkId(own.id, parse).Some?
    ensures ChunkIds([lost, own], parse) == [ParseChunkId(own.id, parse).value]
    ensures ScoresByChunk([lost, own], ChunkIds([lost, own], parse)) == map[ParseChunkId(own.id, parse).value := lost.score]
  {
    IdsOfTwo(lost, own, parse);
    var ids := ChunkIds([lost, own], parse);
    assert ids[..0] == [];
    assert ScoresByChunk([lost, own], ids[..0]) == map[];
  }

  // ----- With unique, well-formed ids -----

  ghost predicate Unique(ids: seq<string>) {
    forall i, j :: 0 <= i < j < |ids| ==> ids[i] != ids[j]
  }

  ghost predicate WellFormed(hits: seq<VectorHit>, parse: ParseId) {
    && (forall i :: 0 <= i < |hits| ==> ParseChunkId(hits[i].id, parse).Some?)
    && forall i, j :: 0 <= i < j < |hits| ==> ParseChunkId(hits[i].id, parse) != ParseChunkId(hits[j].id, parse)
  }

  lemma WellFormedIds(hits: seq<VectorHit>, parse: ParseId)
    requires WellFormed(hits, parse)
    ensures |ChunkIds(hits, parse)| == |hits| && Unique(ChunkIds(hits, parse))
    ensures forall i :: 0 <= i < |hits| ==> ParseChunkId(hits[i].id, parse) == Some(ChunkIds(hits, parse)[i])
  {
    AllParse(hits, parse);
  }

  lemma {:induction false} OwnScores(hits: seq<VectorHit>, ids: seq<string>)
    requires |ids| <= |hits| && Unique(ids)
    ensures ScoresByChunk(hits, ids).Keys == set id | id in ids
    ensures forall i :: 0 <= i < |ids| ==> ScoresByChunk(hits, ids)[ids[i]] == hits[i].score
  {
    if ids != [] {
      var n := |ids| - 1;
      OwnScores(hits, ids[..n]);
      assert ids == ids[..n] + [ids[n]];
      forall i | 0 <= i < |ids| ensures ScoresByChunk(hits, ids)[ids[i]] == hits[i].score {
        if i < n {
          assert ids[..n][i] == ids[i];
        }
      }
    }
  }

  /** Candidate `i` is the one for id `from[i]`, and the order is kept. */
  ghost predicate ComeFrom(
    c: seq<RetrievalHit>, from: seq<nat>, db: Database, userId: string, ids: seq<string>, scores: map<string, real>)
  {
    && |from| == |c|
    && (forall i, j :: 0 <= i < j < |from| ==> from[i] < from[j])
    && forall i :: 0 <= i < |from| ==>
         && from[i] < |ids| && ids[from[i]] in scores && db.Owns(userId, ids[from[i]])
         && c[i] == CandidateFor(db, userId, ids[from[i]], scores[ids[from[i]]])
  }

  ghost predicate AllOwnedIn(from: seq<nat>, db: Database, userId: string, ids: seq<string>, scores: map<string, real>) {
    forall p: nat :: p < |ids| && ids[p] in scores && db.Owns(userId, ids[p]) ==> p in from
  }

  lemma OneMoreCandidate(
      c: seq<RetrievalHit>, from: seq<nat>, db: Database, userId: string, ids: seq<string>, scores: map<string, real>,
      last: string)
    requires ComeFrom(c, from, db, userId, ids, scores)
    ensures ComeFrom(c, from, db, userId, ids + [last], scores)
    ensures last in scores && db.Owns(userId, last) ==>
      ComeFrom(c + [CandidateFor(db, userId, last, scores[last])], from + [|ids|], db, userId, ids + [last], scores)
  {
  }

  lemma OneMoreOwned(
      from: seq<nat>, db: Database, userId: string, ids: seq<string>, scores: map<string, real>, last: string)
    requires AllOwnedIn(from, db, userId, ids, scores)
    ensures AllOwnedIn(from + [|ids|], db, userId, ids + [last], scores)
    ensures !(last in scores && db.Owns(userId, last)) ==> AllOwnedIn(from, db, userId, ids + [last], scores)
  {
  }

  /** `from` names, for each candidate, the id it comes from. */
  lemma {:induction false} CandidatesComeFrom(db: Database, userId: string, ids: seq<string>, scores: map<string, real>)
      returns (from: seq<nat>)
    ensures ComeFrom(CandidatesFor(db, userId, ids, scores), from, db, userId, ids, scores)
    ensures AllOwnedIn(from, db, userId, ids, scores)
  {
    from := [];
    if ids != [] {
      var front, last := ids[..|ids| - 1], ids[|ids| - 1];
      assert ids == front + [last];
      from := CandidatesComeFrom(db, userId, front, scores);
      OneMoreCandidate(CandidatesFor(db, userId, front, scores), from, db, userId, front, scores, last);
      OneMoreOwned(from, db, userId, front, scores, last);
      if last in scores && db.Owns(userId, last) {
        from := from + [|front|];
      }
    }
  }

  /** A hit carries its own chunk's text and place and its own document's name. */
  ghost predicate ShowsItsRows(db: Database, hit: RetrievalHit) {
    && hit.chunkId in db.chunks && hit.documentId in db.documents
    && var chunk := db.chunks[hit.chunkId];
    && hit.documentId == chunk.documentId && hit.content == chunk.chunk.content
    && hit.page == chunk.chunk.page && hit.heading == chunk.chunk.heading
    && hit.documentName == db.documents[hit.documentId].name
  }

  /**
   * With unique, well-formed ids the candidates are distinct chunks of the user's own documents,
   * each with its own dense score, and every hit on such a chunk is a candidate.
   */
  lemma CandidatesAreTheUsersHits(db: Database, userId: string, hits: seq<VectorHit>, parse: ParseId)
      returns (from: seq<nat>)
    requires WellFormed(hits, parse)
    ensures var c := Candidates(db, userId, hits, parse);
      && |from| == |c|
      && (forall i, j :: 0 <= i < j < |from| ==> from[i] < from[j] && c[i].chunkId != c[j].chunkId)
      && (forall i :: 0 <= i < |from| ==>
           && from[i] < |hits| && ParseChunkId(hits[from[i]].id, parse) == Some(c[i].chunkId)
           && c[i].score == hits[from[i]].score
           && db.Owns(userId, c[i].chunkId) && ShowsItsRows(db, c[i]))
      && (forall p: nat :: p < |hits| && db.Owns(userId, ParseChunkId(hits[p].id, parse).value) ==> p in from)
  {
    var ids := ChunkIds(hits, parse);
    WellFormedIds(hits, parse);
    OwnScores(hits, ids);
    from := CandidatesComeFrom(db, userId, ids, ScoresByChunk(hits, ids));
    forall p: nat | p < |hits| && db.Owns(userId, ParseChunkId(hits[p].id, parse).value) ensures p in from {
      assert ids[p] in ids;
    }
  }

  /** The returned hits are an exact top-k of the candidates by fused score. */
  lemma BestIsTopK(hits: seq<RetrievalHit>, k: nat) returns (at: seq<nat>)
    ensures IsTopK(FusedOf(hits), k, at)
    ensures |Best(hits, k)| == |at| == Min(k, |hits|)
    ensures forall i :: 0 <= i < |at| ==> at[i] < |hits| && Best(hits, k)[i] == hits[at[i]]
  {
    var scores := FusedOf(hits);
    RankIsRanking(scores);
    RankingPrefixIsTopK(scores, Rank(scores), k);
    at := Rank(scores)[..Min(k, |Rank(scores)|)];
  }

  /** They come best first, and no candidate left out scores more than any returned one. */
  lemma BestComesFirst(hits: seq<RetrievalHit>, k: nat, i: nat, j: nat)
    requires i <= j < |Best(hits, k)|
    ensures Best(hits, k)[i].fused >= Best(hits, k)[j].fused
    ensures Best(hits, k)[i] in hits && Best(hits, k)[j] in hits
    ensures forall h :: h in hits && h !in Best(hits, k) ==> h.fused <= Best(hits, k)[j].fused
  {
    var at := BestIsTopK(hits, k);
    var scores := FusedOf(hits);
    assert scores[at[i]] >= scores[at[j]];
    forall h | h in hits && h !in Best(hits, k) ensures h.fused <= Best(hits, k)[j].fused {
      var p: nat :| p < |hits| && hits[p] == h;
      assert p !in at by {
        forall q | 0 <= q < |at| ensures at[q] != p {
          assert Best(hits, k)[q] in Best(hits, k);
        }
      }
      assert scores[p] <= scores[at[j]];
    }
  }

  lemma TopOfAllCovers(scores: seq<real>, k: nat, at: seq<nat>, p: nat)
    requires IsTopK(scores, k, at) && k >= |scores| && p < |scores|
    ensures p in at
  {
    NoRepeatsSize(at);
    BelowIs(|scores|);
    SubsetSize(Positions(at), Below(|scores|));
    assert p in Below(|scores|);
  }

  /** Every stored id parses, to a different chunk. */
  ghost predicate WellFormedStore(c: Contents, parse: ParseId) {
    && (forall i :: 0 <= i < |c| ==> ParseChunkId(c[i].0, parse).Some?)
    && forall i, j :: 0 <= i < j < |c| ==> ParseChunkId(c[i].0, parse) != ParseChunkId(c[j].0, parse)
  }

  /** What either store answers from a well-formed store is well formed. */
  lemma AnswersAreWellFormed(c: Contents, scores: seq<real>, limit: nat, at: seq<nat>, parse: ParseId)
    requires WellFormedStore(c, parse) && |scores| == |c| && IsTopK(scores, limit, at)
    ensures WellFormed(HitsAt(IdsOf(c), scores, at), parse)
  {
    var hits := HitsAt(IdsOf(c), scores, at);
    forall i, j | 0 <= i < j < |hits| ensures ParseChunkId(hits[i].id, parse) != ParseChunkId(hits[j].id, parse) {
      assert at[i] != at[j];
      assert hits[i].id == c[at[i]].0 && hits[j].id == c[at[j]].0;
    }
  }

  // ----- After a crash between the files of a save -----

  /** What a store reloaded after the crash holds. */
  function Reloaded(c: Contents, since: seq<Change>): Contents {
    Pair(CrashedIds(c, since), VectorsOf(ReplayFrom(c, since)))
  }

  /** The labels given to the new positions name no chunk. */
  ghost predicate LabelsDoNotParse(c: Contents, since: seq<Change>, parse: ParseId) {
    forall p: nat :: |c| <= p < |ReplayFrom(c, since)| ==> ParseChunkId(Unknown(p), parse).None?
  }

  /**
   * When no saved entry was deleted, every label is right, and still the reloaded store is fit for
   * retrieval only if nothing was added either: a new vector's label does not parse.
   */
  lemma CrashStaysWellFormedIff(c: Contents, since: seq<Change>, parse: ParseId)
    requires WellFormedStore(c, parse) && NoneDeleted(c, since) && LabelsDoNotParse(c, since, parse)
    ensures WellFormedStore(Reloaded(c, since), parse) <==> ReplayFrom(c, since) == c
  {
    var after, reloaded := ReplayFrom(c, since), Reloaded(c, since);
    UndeletedStayInFront(c, since);
    if |after| > |c| {
      assert reloaded[|c|].0 == Unknown(|c|);
    } else {
      assert after == c;
      assert reloaded == c;
    }
  }

  lemma ReloadedAfterAdd(id: string, newId: string, u: Vector, v: Vector)
    ensures var c, since := [(id, u)], [AddVectors([v], [newId])];
      && NoneDeleted(c, since) && IdsOf(Reloaded(c, since)) == [id, Unknown(1)]
  {
    var c, since := [(id, u)], [AddVectors([v], [newId])];
    assert since[..0] == [];
    assert ReplayFrom(c, since) == c + Pair([newId], [v]);
    assert IdsOf(Reloaded(c, since)) == [id, Unknown(1)];
  }

  lemma BestOfTwo(a: string, b: string, su: real, sv: real)
    requires su < sv
    ensures IsTopK([su, sv], 2, [1, 0])
    ensures HitsAt([a, b], [su, sv], [1, 0]) == [VectorHit(b, sv), VectorHit(a, su)]
  {
  }

  /**
   * One addition before the crash is enough: when the new vector ranks first, the saved chunk is given
   * the new vector's score.
   */
  lemma CrashAfterAddMisaligns(
      id: string, newId: string, u: Vector, v: Vector, su: real, sv: real, parse: ParseId, chunkId: string)
    requires ParseChunkId(id, parse) == Some(chunkId) && ParseChunkId(Unknown(1), parse).None? && su < sv
    ensures var c, since := [(id, u)], [AddVectors([v], [newId])];
      && NoneDeleted(c, since) && IdsOf(Reloaded(c, since)) == [id, Unknown(1)] && IsTopK([su, sv], 2, [1, 0])
      && var hits := HitsAt(IdsOf(Reloaded(c, since)), [su, sv], [1, 0]);
      && ChunkIds(hits, parse) == [chunkId]
      && ScoresByChunk(hits, ChunkIds(hits, parse)) == map[chunkId := sv]
  {
    ReloadedAfterAdd(id, newId, u, v);
    BestOfTwo(id, Unknown(1), su, sv);
    MisalignedScore(VectorHit(Unknown(1), sv), VectorHit(id, su), parse);
  }

  // ----- Completeness -----

  /**
   * When at least as many hits are asked for as vectors are stored, the candidates are all of the
   * user's indexed chunks, so the fused top-k of the candidates is the true fused top-k.
   */
  lemma CandidatesAreComplete(
      db: Database, userId: string, c: Contents, scores: seq<real>, limit: nat, at: seq<nat>, parse: ParseId, p: nat)
      returns (i: nat)
    requires WellFormedStore(c, parse) && |scores| == |c| <= limit && IsTopK(scores, limit, at)
    requires p < |c| && db.Owns(userId, ParseChunkId(c[p].0, parse).value)
    ensures var candidates := Candidates(db, userId, HitsAt(IdsOf(c), scores, at), parse);
      && i < |candidates|
      && ParseChunkId(c[p].0, parse) == Some(candidates[i].chunkId)
      && candidates[i].score == scores[p]
  {
    var hits := HitsAt(IdsOf(c), scores, at);
    AnswersAreWellFormed(c, scores, limit, at, parse);
    var from := CandidatesAreTheUsersHits(db, userId, hits, parse);
    TopOfAllCovers(scores, limit, at, p);
    var q :| 0 <= q < |at| && at[q] == p;
    assert hits[q] == VectorHit(c[p].0, scores[p]);
    assert q in from;
    i :| 0 <= i < |from| && from[i] == q;
  }

  /**
   * With unique, well-formed ids the returned hits are distinct chunks of the user's own documents,
   * each with its own dense score, best fused score first.
   */
  lemma ReturnedHitsAreTheUsers(
      db: Database, userId: string, hits: seq<VectorHit>, parse: ParseId, w: Weights, lexical: seq<real>, k: nat,
      i: nat) returns (p: nat)
    requires WellFormed(hits, parse) && |lexical| == |Candidates(db, userId, hits, parse)|
    requires i < |Best(Fused(Candidates(db, userId, hits, parse), w, lexical), k)|
    ensures var r := Best(Fused(Candidates(db, userId, hits, parse), w, lexical), k);
      && db.Owns(userId, r[i].chunkId) && ShowsItsRows(db, r[i])
      && p < |hits| && ParseChunkId(hits[p].id, parse) == Some(r[i].chunkId) && r[i].score == hits[p].score
      && forall j :: 0 <= j < i ==> r[j].chunkId != r[i].chunkId && r[j].fused >= r[i].fused
  {
    var candidates := Candidates(db, userId, hits, parse);
    var fused := Fused(candidates, w, lexical);
    var from := CandidatesAreTheUsersHits(db, userId, hits, parse);
    var at := BestIsTopK(fused, k);
    p := from[at[i]];
    var r := Best(fused, k);
    forall j | 0 <= j < i ensures r[j].chunkId != r[i].chunkId && r[j].fused >= r[i].fused {
      BestComesFirst(fused, k, j, i);
      assert at[j] != at[i];
      var a, b := if at[j] < at[i] then at[j] else at[i], if at[j] < at[i] then at[i] else at[j];
      assert candidates[a].chunkId != candidates[b].chunkId;
    }
  }

  /**
   * When `top_k` times the oversampling is at least the number of stored vectors, the result is the
   * true fused top-k: every indexed chunk of the user is returned or scores no more than all that are.
   * `scores` and `at` are those of either store's search for that many hits.
   */
  lemma ResultIsTrueTopK(
      db: Database, userId: string, c: Contents, scores: seq<real>, at: seq<nat>, parse: ParseId,
      w: Weights, lexical: seq<real>, topK: Option<nat>, default: nat, oversample: nat, p: nat)
      returns (own: RetrievalHit)
    requires WellFormedStore(c, parse) && |scores| == |c| <= CandidateLimit(topK, default, oversample)
    requires IsTopK(scores, CandidateLimit(topK, default, oversample), at)
    requires |lexical| == |Candidates(db, userId, HitsAt(IdsOf(c), scores, at), parse)|
    requires p < |c| && db.Owns(userId, ParseChunkId(c[p].0, parse).value)
    ensures var fused := Fused(Candidates(db, userId, HitsAt(IdsOf(c), scores, at), parse), w, lexical);
      var best := Best(fused, Limit(topK, default));
      && own in fused && ParseChunkId(c[p].0, parse) == Some(own.chunkId) && own.score == scores[p]
      && (own in best || forall h :: h in best ==> own.fused <= h.fused)
  {
    var candidates := Candidates(db, userId, HitsAt(IdsOf(c), scores, at), parse);
    var fused, limit := Fused(candidates, w, lexical), CandidateLimit(topK, default, oversample);
    var i := CandidatesAreComplete(db, userId, c, scores, limit, at, parse, p);
    own := fused[i];
    if own !in Best(fused, Limit(topK, default)) {
      BestBeatsTheRest(fused, Limit(topK, default), own);
    }
  }

  lemma BestBeatsTheRest(hits: seq<RetrievalHit>, k: nat, h: RetrievalHit)
    requires h in hits && h !in Best(hits, k)
    ensures forall b :: b in Best(hits, k) ==> h.fused <= b.fused
  {
    forall b | b in Best(hits, k) ensures h.fused <= b.fused {
      var j: nat :| j < |Best(hits, k)| && Best(hits, k)[j] == b;
      BestComesFirst(hits, k, j, j);
    }
  }
}
