/** Retrieval over the state that ingestion and deletion leave: what a query is answered with. */
module Answering {
  import opened Wrappers
  import opened Ranking
  import opened VectorStore
  import opened DocumentTables
  import opened Ingestion
  import opened IngestionSafety
  import R = Retrieval
  import B = BM25

  function ById(rows: seq<ChunkRow>): map<string, ChunkRow> {
    if rows == [] then map[]
    else
      var last := rows[|rows| - 1];
      ById(rows[..|rows| - 1])[last.id := last]
  }

  /** The tables as retrieval looks rows up in them. */
  function DatabaseOf(db: Tables): R.Database {
    R.Database(ById(db.chunks), db.documents)
  }

  lemma {:induction false} ByIdFinds(rows: seq<ChunkRow>)
    ensures forall id :: id in ById(rows) ==> ById(rows)[id] in rows && ById(rows)[id].id == id
    ensures DistinctIds(rows) ==> forall r :: r in rows ==> r.id in ById(rows) && ById(rows)[r.id] == r
  {
    if rows != [] {
      var front, last := rows[..|rows| - 1], rows[|rows| - 1];
      assert rows == front + [last];
      ByIdFinds(front);
      if DistinctIds(rows) {
        assert DistinctIds(front);
        forall r | r in front ensures r.id != last.id {
          var i :| 0 <= i < |front| && front[i] == r;
          assert rows[i] == r;
        }
      }
    }
  }

  ghost predicate DistinctIds(rows: seq<ChunkRow>) {
    forall i, j :: 0 <= i < j < |rows| ==> rows[i].id != rows[j].id
  }

  lemma DatabaseIsValid(s: State, purged: set<string>)
    requires Consistent(s, purged)
    ensures DatabaseOf(s.db).Valid() && DistinctIds(s.db.chunks)
  {
    ByIdFinds(s.db.chunks);
  }

  /** The identifiers of chunk rows print and parse as identifiers do. */
  ghost predicate IdsParse(s: State, parse: R.ParseId) {
    forall r :: r in s.db.chunks ==> parse(r.id) == Some(r.id)
  }

  /** What is retrieved is the user's: a chunk row of a READY document of theirs, with its own vector's score. */
  ghost predicate IsOwn(s: State, userId: string, h: R.RetrievalHit, scores: seq<real>, row: ChunkRow, p: nat)
    requires |scores| == |s.vectors|
  {
    && row in s.db.chunks && h.chunkId == row.id && h.documentId == row.documentId
    && h.content == row.chunk.content && h.page == row.chunk.page && h.heading == row.chunk.heading
    && row.documentId in s.db.documents && s.db.documents[row.documentId].status == Ready
    && s.db.documents[row.documentId].uploaderId == userId && h.documentName == s.db.documents[row.documentId].name
    && p < |s.vectors| && s.vectors[p].0 == VectorIdOf(row) && h.score == scores[p]
  }

  /** A hit of the search that retrieval makes a candidate stems from a stored vector and its row. */
  lemma HitIsOwn(s: State, purged: set<string>, userId: string, h: R.RetrievalHit, scores: seq<real>, at: seq<nat>,
                 q: nat, parse: R.ParseId) returns (row: ChunkRow)
    requires Consistent(s, purged) && IdsParse(s, parse) && |scores| == |s.vectors| && InRange(at, |scores|)
    requires q < |at| && h.score == scores[at[q]]
    requires R.ParseChunkId(s.vectors[at[q]].0, parse) == Some(h.chunkId)
    requires DatabaseOf(s.db).Owns(userId, h.chunkId) && R.ShowsItsRows(DatabaseOf(s.db), h)
    ensures IsOwn(s, userId, h, scores, row, at[q])
  {
    row := VectorsBelongToReadyDocuments(s, purged, at[q]);
    RowsAreColonFree(s.db, purged);
    R.ParseInvertsVectorId(row.documentId, row.id, parse);
    DatabaseIsValid(s, purged);
    ByIdFinds(s.db.chunks);
  }

  /** The hits of a search over the stored vectors. */
  function SearchHits(s: State, scores: seq<real>, at: seq<nat>): seq<VectorHit>
    requires |scores| == |s.vectors| && InRange(at, |scores|)
  {
    HitsAt(IdsOf(s.vectors), scores, at)
  }

  ghost predicate IsSomeOwn(s: State, userId: string, h: R.RetrievalHit, scores: seq<real>)
    requires |scores| == |s.vectors|
  {
    exists row, p :: IsOwn(s, userId, h, scores, row, p)
  }

  /** The hits before `i` are of other chunks and score at least as much. */
  ghost predicate FollowsBetter(hits: seq<R.RetrievalHit>, i: nat)
    requires i < |hits|
  {
    forall j :: 0 <= j < i ==> hits[j].chunkId != hits[i].chunkId && hits[j].fused >= hits[i].fused
  }

  /** The hits of an answer: each the user's own, no chunk twice, best fused score first. */
  ghost predicate AreOwn(s: State, userId: string, hits: seq<R.RetrievalHit>, scores: seq<real>)
    requires |scores| == |s.vectors|
  {
    forall i :: 0 <= i < |hits| ==> IsSomeOwn(s, userId, hits[i], scores) && FollowsBetter(hits, i)
  }

  lemma BestIsOwn(s: State, purged: set<string>, userId: string, scores: seq<real>, limit: nat, at: seq<nat>,
                  parse: R.ParseId, w: R.Weights, lexical: seq<real>, n: nat, i: nat) returns (row: ChunkRow, p: nat)
    requires Consistent(s, purged) && IdsParse(s, parse) && |scores| == |s.vectors| && IsTopK(scores, limit, at)
    requires |lexical| == |R.Candidates(DatabaseOf(s.db), userId, SearchHits(s, scores, at), parse)|
    requires i < |R.Best(R.Fused(R.Candidates(DatabaseOf(s.db), userId, SearchHits(s, scores, at), parse), w, lexical), n)|
    ensures var r := R.Best(R.Fused(R.Candidates(DatabaseOf(s.db), userId, SearchHits(s, scores, at), parse), w, lexical), n);
      IsOwn(s, userId, r[i], scores, row, p) && FollowsBetter(r, i)
  {
    var hits := SearchHits(s, scores, at);
    StoredIdsAreWellFormed(s, purged, parse);
    R.AnswersAreWellFormed(s.vectors, scores, limit, at, parse);
    var q := R.ReturnedHitsAreTheUsers(DatabaseOf(s.db), userId, hits, parse, w, lexical, n, i);
    var r := R.Best(R.Fused(R.Candidates(DatabaseOf(s.db), userId, hits, parse), w, lexical), n);
    assert hits[q] == VectorHit(s.vectors[at[q]].0, scores[at[q]]);
    row := HitIsOwn(s, purged, userId, r[i], scores, at, q, parse);
    p := at[q];
  }

  lemma BestAreOwn(s: State, purged: set<string>, userId: string, scores: seq<real>, limit: nat, at: seq<nat>,
                   parse: R.ParseId, w: R.Weights, lexical: seq<real>, n: nat)
    requires Consistent(s, purged) && IdsParse(s, parse) && |scores| == |s.vectors| && IsTopK(scores, limit, at)
    requires |lexical| == |R.Candidates(DatabaseOf(s.db), userId, SearchHits(s, scores, at), parse)|
    ensures AreOwn(s, userId, R.Best(R.Fused(R.Candidates(DatabaseOf(s.db), userId, SearchHits(s, scores, at), parse),
                                             w, lexical), n), scores)
  {
    var r := R.Best(R.Fused(R.Candidates(DatabaseOf(s.db), userId, SearchHits(s, scores, at), parse), w, lexical), n);
    forall i | 0 <= i < |r|
      ensures IsSomeOwn(s, userId, r[i], scores) && FollowsBetter(r, i)
    {
      var row, p := BestIsOwn(s, purged, userId, scores, limit, at, parse, w, lexical, n, i);
    }
  }

  /** What an answer consists of: nothing without candidates, else the best of them by fused score. */
  lemma AnswerIsBest(service: R.RetrievalService, r: Result<seq<R.RetrievalHit>, B.ScoreError>, db: R.Database,
                     userId: string, query: string, hits: seq<VectorHit>, n: nat) returns (lexical: seq<real>)
    requires service.Answers(r, db, userId, query, hits, n) && r.Ok?
    ensures var candidates := R.Candidates(db, userId, hits, service.parse);
      |lexical| == |candidates| && r.value == R.Best(R.Fused(candidates, service.weights, lexical), n)
  {
    var candidates := R.Candidates(db, userId, hits, service.parse);
    if candidates == [] {
      lexical := [];
      var at := R.BestIsTopK(R.Fused(candidates, service.weights, lexical), n);
    } else {
      var docs, found, idf :| service.AreLexicalScores(docs, found, idf, candidates, query)
        && r.value == R.Best(R.Fused(candidates, service.weights, found), n);
      lexical := found;
    }
  }

  /**
   * In every state of a run, whatever failed before, a query is answered only with chunks of the caller's
   * READY documents, each with its own score, no chunk twice, best first.  `scores` and `at` are those of
   * either store's search.
   */
  lemma AnswersAreOwn(
      actions: seq<Action>, states: seq<State>, dims: nat, k: nat, service: R.RetrievalService,
      r: Result<seq<R.RetrievalHit>, B.ScoreError>, userId: string, query: string, scores: seq<real>, limit: nat,
      at: seq<nat>, n: nat)
    requires IsRun(actions, states, dims) && k <= |actions| && IdsParse(states[k], service.parse)
    requires |scores| == |states[k].vectors| && IsTopK(scores, limit, at)
    requires service.Answers(r, DatabaseOf(states[k].db), userId, query, SearchHits(states[k], scores, at), n) && r.Ok?
    ensures AreOwn(states[k], userId, r.value, scores)
  {
    var s := states[k];
    var purged := RunsStayConsistent(actions, states, dims, k);
    var lexical := AnswerIsBest(service, r, DatabaseOf(s.db), userId, query, SearchHits(s, scores, at), n);
    BestAreOwn(s, purged, userId, scores, limit, at, service.parse, service.weights, lexical, n);
  }

  /**
   * Conversely, when no deletion failed and no document could not be re-read, every chunk of the caller's
   * READY documents is a candidate with its own score, if as many hits are asked for as there are vectors.
   */
  lemma OwnChunksAreCandidates(
      actions: seq<Action>, states: seq<State>, dims: nat, k: nat, parse: R.ParseId, userId: string,
      scores: seq<real>, limit: nat, at: seq<nat>, p: nat) returns (i: nat)
    requires IsRun(actions, states, dims) && k <= |actions| && IdsParse(states[k], parse)
    requires forall j :: 0 <= j < k ==>
      && (actions[j].DoIngest? ==> actions[j].fault != AfterCommit)
      && (actions[j].DoDelete? ==> actions[j].deleteFault == Clean)
    requires |scores| == |states[k].vectors| <= limit && IsTopK(scores, limit, at)
    requires p < |states[k].db.chunks| && states[k].db.chunks[p].documentId in states[k].db.documents
    requires states[k].db.documents[states[k].db.chunks[p].documentId].uploaderId == userId
    ensures var candidates := R.Candidates(DatabaseOf(states[k].db), userId, SearchHits(states[k], scores, at), parse);
      && |states[k].vectors| == |states[k].db.chunks| && i < |candidates|
      && candidates[i].chunkId == states[k].db.chunks[p].id && candidates[i].score == scores[p]
  {
    var s := states[k];
    var purged := RunsStayConsistent(actions, states, dims, k);
    NothingPurgedIsOneToOne(s);
    StoredIdsAreWellFormed(s, purged, parse);
    DatabaseIsValid(s, purged);
    ByIdFinds(s.db.chunks);
    RowsAreColonFree(s.db, purged);
    var row := s.db.chunks[p];
    assert row in s.db.chunks;
    R.ParseInvertsVectorId(row.documentId, row.id, parse);
    i := R.CandidatesAreComplete(DatabaseOf(s.db), userId, s.vectors, scores, limit, at, parse, p);
  }
}
