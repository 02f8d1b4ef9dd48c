/** What every run of ingestions and deletions keeps, wherever they fail. */
module IngestionSafety {
  import opened Wrappers
  import opened Vectors
  import opened VectorStore
  import opened Chunking
  import opened Ingestion
  import opened DocumentTables
  import R = Retrieval

  // ----- Vector ids and documents -----

  lemma {:induction false} PrefixIffSameDocument(a: string, b: string, chunkId: string)
    requires ':' !in a && ':' !in b
    ensures Prefix(a) <= R.VectorId(b, chunkId) <==> a == b
    decreases |a|
  {
    var p, v := Prefix(a), R.VectorId(b, chunkId);
    if a == "" {
      assert p == ":" && (b != "" ==> v[0] == b[0]);
      assert b == "" ==> v[0] == ':';
    } else if b == "" {
      assert v[0] == ':' && p[0] == a[0] && a[0] in a;
    } else {
      PrefixIffSameDocument(a[1..], b[1..], chunkId);
      assert p == [a[0]] + Prefix(a[1..]) && v == [b[0]] + R.VectorId(b[1..], chunkId);
      assert p <= v <==> a[0] == b[0] && Prefix(a[1..]) <= R.VectorId(b[1..], chunkId) by {
        if p <= v {
          assert p[0] == v[0] && p[1..] == v[1..|p|];
        }
      }
      assert a == [a[0]] + a[1..] && b == [b[0]] + b[1..];
    }
  }

  /** A vector id determines its document and its chunk. */
  lemma VectorIdInjective(a: ChunkRow, b: ChunkRow)
    requires ':' !in a.documentId && ':' !in b.documentId && VectorIdOf(a) == VectorIdOf(b)
    ensures a.documentId == b.documentId && a.id == b.id
  {
    assert Prefix(a.documentId) <= VectorIdOf(a);
    PrefixIffSameDocument(a.documentId, b.documentId, b.id);
    assert VectorIdOf(a)[|a.documentId| + 1..] == a.id && VectorIdOf(b)[|b.documentId| + 1..] == b.id;
  }

  // ----- Filtering rows -----

  ghost predicate ColonFree(rows: seq<ChunkRow>) {
    forall i :: 0 <= i < |rows| ==> ':' !in rows[i].documentId
  }

  /** Purging a document's vectors by prefix drops exactly the vectors of its rows. */
  lemma {:induction false} PurgeMatchesRows(c: Contents, rows: seq<ChunkRow>, documentId: string)
    requires IdsOf(c) == VectorIdsOf(rows) && ColonFree(rows) && ':' !in documentId
    ensures IdsOf(WithoutPrefix(c, Prefix(documentId))) == VectorIdsOf(RowsOutside(rows, {documentId}))
  {
    assert |c| == |IdsOf(c)| == |rows|;
    if c != [] {
      var n := |c| - 1;
      assert IdsOf(c[..n]) == IdsOf(c)[..n] && VectorIdsOf(rows[..n]) == VectorIdsOf(rows)[..n];
      PurgeMatchesRows(c[..n], rows[..n], documentId);
      assert c[n].0 == IdsOf(c)[n] == VectorIdOf(rows[n]);
      PrefixIffSameDocument(documentId, rows[n].documentId, rows[n].id);
      var kept, keptRows := WithoutPrefix(c[..n], Prefix(documentId)), RowsOutside(rows[..n], {documentId});
      if rows[n].documentId != documentId {
        assert IdsOf(kept + [c[n]]) == IdsOf(kept) + [c[n].0];
        assert VectorIdsOf(keptRows + [rows[n]]) == VectorIdsOf(keptRows) + [VectorIdOf(rows[n])];
      }
    }
  }

  lemma {:induction false} RowsOutsideMembers(rows: seq<ChunkRow>, documents: set<string>)
    ensures forall r :: r in RowsOutside(rows, documents) <==> r in rows && r.documentId !in documents
  {
    if rows != [] {
      RowsOutsideMembers(rows[..|rows| - 1], documents);
      assert rows == rows[..|rows| - 1] + [rows[|rows| - 1]];
    }
  }

  lemma {:induction false} RowsOutsideTwice(rows: seq<ChunkRow>, a: set<string>, b: set<string>)
    ensures RowsOutside(RowsOutside(rows, a), b) == RowsOutside(rows, a + b)
  {
    if rows != [] {
      var n := |rows| - 1;
      RowsOutsideTwice(rows[..n], a, b);
      var front := RowsOutside(rows[..n], a);
      if rows[n].documentId !in a {
        assert RowsOutside(rows, a)[..|front|] == front;
      }
    }
  }

  lemma {:induction false} RowsOutsideConcat(a: seq<ChunkRow>, b: seq<ChunkRow>, documents: set<string>)
    ensures RowsOutside(a + b, documents) == RowsOutside(a, documents) + RowsOutside(b, documents)
  {
    if b == [] {
      assert a + b == a;
    } else {
      RowsOutsideConcat(a, b[..|b| - 1], documents);
      assert (a + b)[..|a + b| - 1] == a + b[..|b| - 1];
    }
  }

  lemma {:induction false} NoRowsOf(rows: seq<ChunkRow>, documents: set<string>)
    requires forall i :: 0 <= i < |rows| ==> rows[i].documentId !in documents
    ensures RowsOutside(rows, documents) == rows
  {
    if rows != [] {
      NoRowsOf(rows[..|rows| - 1], documents);
    }
  }

  lemma {:induction false} EmbeddingsFollowRows(rows: seq<ChunkRow>, documentId: string)
    ensures EmbeddingsOutside(EmbeddingsFor(rows), documentId) == EmbeddingsFor(RowsOutside(rows, {documentId}))
  {
    if rows != [] {
      var n := |rows| - 1;
      EmbeddingsFollowRows(rows[..n], documentId);
      assert EmbeddingsFor(rows)[..n] == EmbeddingsFor(rows[..n]);
      var kept := RowsOutside(rows[..n], {documentId});
      assert EmbeddingsFor(kept + [rows[n]]) == EmbeddingsFor(kept) + [EmbeddingFor(rows[n])];
    }
  }

  // ----- The invariant -----

  ghost predicate MayOwnRows(db: Tables, documentId: string, purged: set<string>) {
    && documentId in db.documents
    && (db.documents[documentId].status == Ready || (db.documents[documentId].status == Failed && documentId in purged))
  }

  /**
   * Every chunk row belongs to a READY document, or to a FAILED one whose vectors are gone; rows are
   * distinct, and each has its embedding row.
   */
  ghost predicate GoodTables(db: Tables, purged: set<string>) {
    && (forall id :: id in db.documents ==> ':' !in id && db.documents[id].id == id)
    && (forall r :: r in db.chunks ==> MayOwnRows(db, r.documentId, purged))
    && (forall i, j :: 0 <= i < j < |db.chunks| ==> db.chunks[i].id != db.chunks[j].id)
    && (forall i, j :: 0 <= i < j < |db.chunks| && db.chunks[i].documentId == db.chunks[j].documentId ==>
         db.chunks[i].chunk.index != db.chunks[j].chunk.index)
    && db.embeddings == EmbeddingsFor(db.chunks)
  }

  /**
   * The vectors are those of the chunk rows, in the same order, except for the documents in
   * `purged`, whose vectors are gone although their rows are still there.
   */
  ghost predicate Consistent(s: State, purged: set<string>) {
    && GoodTables(s.db, purged)
    && purged <= s.db.documents.Keys
    && IdsOf(s.vectors) == VectorIdsOf(RowsOutside(s.db.chunks, purged))
  }

  lemma RowsAreColonFree(db: Tables, purged: set<string>)
    requires GoodTables(db, purged)
    ensures ColonFree(db.chunks) && ColonFree(RowsOutside(db.chunks, purged))
  {
    RowsOutsideMembers(db.chunks, purged);
    var kept := RowsOutside(db.chunks, purged);
    forall i | 0 <= i < |kept| ensures ':' !in kept[i].documentId {
      assert kept[i] in kept;
    }
    forall i | 0 <= i < |db.chunks| ensures ':' !in db.chunks[i].documentId {
      assert db.chunks[i] in db.chunks;
    }
  }

  /** In plain terms: every stored vector belongs to a committed chunk row of a READY document. */
  lemma VectorsBelongToReadyDocuments(s: State, purged: set<string>, i: nat) returns (row: ChunkRow)
    requires Consistent(s, purged) && i < |s.vectors|
    ensures row in s.db.chunks && s.vectors[i].0 == VectorIdOf(row)
    ensures row.documentId in s.db.documents && s.db.documents[row.documentId].status == Ready
  {
    var kept := RowsOutside(s.db.chunks, purged);
    assert |IdsOf(s.vectors)| == |kept| && IdsOf(s.vectors)[i] == VectorIdOf(kept[i]);
    row := kept[i];
    assert row in kept;
    RowsOutsideMembers(s.db.chunks, purged);
  }

  /**
   * FAILED and PROCESSING documents own no vectors.  Nor do they own chunk rows or embedding rows, but
   * for FAILED documents in `purged`, which an ingestion marked after its own commit.
   */
  lemma UnreadyDocumentsOwnNothing(s: State, purged: set<string>, documentId: string)
    requires Consistent(s, purged) && documentId in s.db.documents && s.db.documents[documentId].status != Ready
    ensures s.db.documents[documentId].status == Processing || documentId !in purged ==>
      && (forall r :: r in s.db.chunks ==> r.documentId != documentId)
      && (forall e :: e in s.db.embeddings ==> e.documentId != documentId)
    ensures forall i :: 0 <= i < |s.vectors| ==> !(Prefix(documentId) <= s.vectors[i].0)
  {
    forall e | e in s.db.embeddings ensures MayOwnRows(s.db, e.documentId, purged) {
      var i :| 0 <= i < |s.db.embeddings| && s.db.embeddings[i] == e;
      assert s.db.chunks[i] in s.db.chunks;
    }
    forall i | 0 <= i < |s.vectors| ensures !(Prefix(documentId) <= s.vectors[i].0) {
      var row := VectorsBelongToReadyDocuments(s, purged, i);
      PrefixIffSameDocument(documentId, row.documentId, row.id);
    }
  }

  lemma VectorIdsAreDistinct(db: Tables, purged: set<string>, i: nat, j: nat)
    requires GoodTables(db, purged) && i < j < |db.chunks|
    ensures VectorIdOf(db.chunks[i]) != VectorIdOf(db.chunks[j])
  {
    RowsAreColonFree(db, purged);
    if VectorIdOf(db.chunks[i]) == VectorIdOf(db.chunks[j]) {
      VectorIdInjective(db.chunks[i], db.chunks[j]);
    }
  }

  lemma AllVectorIds(s: State)
    requires Consistent(s, {})
    ensures IdsOf(s.vectors) == VectorIdsOf(s.db.chunks)
  {
    NoRowsOf(s.db.chunks, {});
  }

  lemma SameIds(vectors: Contents, rows: seq<ChunkRow>)
    requires IdsOf(vectors) == VectorIdsOf(rows)
    ensures |vectors| == |rows|
    ensures forall i :: 0 <= i < |vectors| ==> vectors[i].0 == VectorIdOf(rows[i])
  {
    assert |IdsOf(vectors)| == |VectorIdsOf(rows)|;
    forall i | 0 <= i < |vectors| ensures vectors[i].0 == VectorIdOf(rows[i]) {
      assert IdsOf(vectors)[i] == VectorIdsOf(rows)[i];
    }
  }

  /** With nothing purged, chunk rows, embedding rows and vectors correspond one to one, in order. */
  lemma NothingPurgedIsOneToOne(s: State)
    requires Consistent(s, {})
    ensures |s.vectors| == |s.db.chunks| == |s.db.embeddings|
    ensures forall i :: 0 <= i < |s.vectors| ==>
      s.vectors[i].0 == VectorIdOf(s.db.chunks[i]) && s.db.embeddings[i] == EmbeddingFor(s.db.chunks[i])
    ensures forall i, j :: 0 <= i < j < |s.vectors| ==> s.vectors[i].0 != s.vectors[j].0
  {
    AllVectorIds(s);
    SameIds(s.vectors, s.db.chunks);
    forall i, j | 0 <= i < j < |s.vectors| ensures s.vectors[i].0 != s.vectors[j].0 {
      VectorIdsAreDistinct(s.db, {}, i, j);
    }
  }

  // ----- Deletion -----

  /** Purging one document's vectors and leaving its rows adds it to the purged documents. */
  lemma PurgedIsConsistent(s: State, purged: set<string>, documentId: string)
    requires Consistent(s, purged) && documentId in s.db.documents
    ensures Consistent(State(s.db, WithoutPrefix(s.vectors, Prefix(documentId))), purged + {documentId})
  {
    RowsAreColonFree(s.db, purged);
    PurgeMatchesRows(s.vectors, RowsOutside(s.db.chunks, purged), documentId);
    RowsOutsideTwice(s.db.chunks, purged, {documentId});
  }

  /** A deletion keeps the invariant; if it fails after the purge, the document counts as purged. */
  lemma DeleteKeepsConsistent(s: State, purged: set<string>, userId: string, documentId: string, fault: CleanupFault)
    requires Consistent(s, purged) && MayDelete(s, userId, documentId)
    ensures Consistent(Delete(s, userId, documentId, fault),
                       if fault == Clean then purged - {documentId} else purged + {documentId})
  {
    PurgedIsConsistent(s, purged, documentId);
    if fault == Clean {
      DeletedTables(s.db, purged, documentId);
      RowsOutsideTwice(s.db.chunks, {documentId}, purged - {documentId});
      assert {documentId} + (purged - {documentId}) == purged + {documentId};
    }
  }

  lemma DeletedTables(db: Tables, purged: set<string>, documentId: string)
    requires GoodTables(db, purged)
    ensures GoodTables(WithoutDocument(db, documentId), purged - {documentId})
  {
    var rows := RowsOutside(db.chunks, {documentId});
    RowsOutsideMembers(db.chunks, {documentId});
    EmbeddingsFollowRows(db.chunks, documentId);
    SubsequenceStaysDistinct(db.chunks, {documentId});
  }

  ghost predicate DistinctRows(rows: seq<ChunkRow>) {
    forall i, j :: 0 <= i < j < |rows| ==>
      rows[i].id != rows[j].id
      && (rows[i].documentId == rows[j].documentId ==> rows[i].chunk.index != rows[j].chunk.index)
  }

  lemma {:induction false} SubsequenceStaysDistinct(rows: seq<ChunkRow>, documents: set<string>)
    requires DistinctRows(rows)
    ensures DistinctRows(RowsOutside(rows, documents))
  {
    if rows != [] {
      var n := |rows| - 1;
      SubsequenceStaysDistinct(rows[..n], documents);
      RowsOutsideMembers(rows[..n], documents);
      var front := RowsOutside(rows[..n], documents);
      forall i | 0 <= i < |front|
        ensures front[i].id != rows[n].id
        ensures front[i].documentId == rows[n].documentId ==> front[i].chunk.index != rows[n].chunk.index
      {
        assert front[i] in front;
        var k :| 0 <= k < n && rows[..n][k] == front[i];
        assert rows[k] == front[i];
      }
    }
  }

  // ----- Ingestion -----

  /** Fresh ids, and chunks as the chunk manager returns them. */
  ghost predicate FreshJob(s: State, job: Job) {
    && job.Shaped()
    && job.documentId !in s.db.documents && ':' !in job.documentId
    && (forall i, j :: 0 <= i < j < |job.rowIds| ==> job.rowIds[i] != job.rowIds[j])
    && (forall i, r :: 0 <= i < |job.rowIds| && r in s.db.chunks ==> job.rowIds[i] != r.id)
    && exists sources :: IsNumbering(job.chunks, sources)
  }

  /** The chunk manager numbers a document's chunks apart, as the table demands. */
  lemma FreshChunksAreNumberedApart(s: State, job: Job)
    requires FreshJob(s, job)
    ensures forall i, j :: 0 <= i < j < |job.chunks| ==> job.chunks[i].index != job.chunks[j].index
  {
    var sources :| IsNumbering(job.chunks, sources);
    IndicesAreUnique(job.chunks, sources);
  }

  /** A new document, whatever its status, changes nothing as long as it owns nothing. */
  lemma OwnsNothingYet(s: State, purged: set<string>, job: Job, status: Status)
    requires Consistent(s, purged) && FreshJob(s, job)
    ensures Consistent(State(WithStatus(Create(s.db, job), job.documentId, status), s.vectors), purged)
    ensures WithoutPrefix(s.vectors, Prefix(job.documentId)) == s.vectors
  {
    forall i | 0 <= i < |s.vectors| ensures !(Prefix(job.documentId) <= s.vectors[i].0) {
      var row := VectorsBelongToReadyDocuments(s, purged, i);
      PrefixIffSameDocument(job.documentId, row.documentId, row.id);
    }
    NothingWithPrefix(s.vectors, Prefix(job.documentId));
  }

  lemma NewVectors(job: Job)
    requires job.Shaped() && ':' !in job.documentId
    ensures var rows := Rows(job, |job.chunks|);
      && IdsOf(Pair(VectorIdsOf(rows), job.vectors)) == VectorIdsOf(rows)
      && WithoutPrefix(Pair(VectorIdsOf(rows), job.vectors), Prefix(job.documentId)) == []
  {
    var rows := Rows(job, |job.chunks|);
    var c := Pair(VectorIdsOf(rows), job.vectors);
    forall i | 0 <= i < |c| ensures Prefix(job.documentId) <= c[i].0 {
      assert c[i].0 == VectorIdOf(rows[i]);
    }
    OnlyWithPrefix(c, Prefix(job.documentId));
  }

  /** The database forgets a pipeline that fails at its commit, but the store does not: clean-up must purge it. */
  lemma RollbackLeavesVectors(s: State, job: Job, fault: Fault, dims: nat)
    requires job.Shaped() && job.documentId in s.db.documents
    requires (fault == InReady || fault == InCommit) && RightSize(job.vectors, dims)
    ensures var (after, ok) := Pipeline(s, job, fault, dims);
      && !ok && after.db == s.db && |after.vectors| == |s.vectors| + |job.chunks| && s.vectors <= after.vectors
      && forall i :: 0 <= i < |job.chunks| ==>
           after.vectors[|s.vectors| + i] == (job.documentId + ":" + job.rowIds[i], job.vectors[i])
  {
    var rows := Rows(job, |job.chunks|);
    assert forall i :: 0 <= i < |rows| ==> VectorIdsOf(rows)[i] == job.documentId + ":" + job.rowIds[i];
  }

  /** Wherever an ingestion fails before its commit, the store ends up exactly as it was. */
  lemma FailedIngestionLeavesNoVectors(s: State, purged: set<string>, job: Job, fault: Fault, cleanup: CleanupFault, dims: nat)
    requires Consistent(s, purged) && FreshJob(s, job)
    requires !Pipeline(State(Create(s.db, job), s.vectors), job, fault, dims).1
    ensures Ingest(s, job, fault, cleanup, dims).vectors == s.vectors
  {
    OwnsNothingYet(s, purged, job, Processing);
    NewVectors(job);
    var rows := Rows(job, |job.chunks|);
    WithoutPrefixConcat(s.vectors, Pair(VectorIdsOf(rows), job.vectors), Prefix(job.documentId));
    assert s.vectors + [] == s.vectors;
  }

  /** The job's rows are distinct among themselves. */
  lemma JobRowsAreDistinct(s: State, job: Job)
    requires FreshJob(s, job)
    ensures DistinctRows(Rows(job, |job.chunks|))
  {
    FreshChunksAreNumberedApart(s, job);
  }

  lemma DistinctConcat(a: seq<ChunkRow>, b: seq<ChunkRow>)
    requires DistinctRows(a) && DistinctRows(b)
    requires forall x, y :: x in a && y in b ==> x.id != y.id && x.documentId != y.documentId
    ensures DistinctRows(a + b)
  {
    forall i, j | 0 <= i < |a| <= j < |a + b|
      ensures (a + b)[i].id != (a + b)[j].id && (a + b)[i].documentId != (a + b)[j].documentId
    {
      assert (a + b)[i] in a && (a + b)[j] in b;
    }
  }

  /** The job's rows differ from those stored. */
  lemma AddedRowsAreDistinct(s: State, purged: set<string>, job: Job)
    requires Consistent(s, purged) && FreshJob(s, job)
    ensures DistinctRows(s.db.chunks + Rows(job, |job.chunks|))
  {
    var rows := Rows(job, |job.chunks|);
    NoRowsYet(s, purged, job);
    JobRowsAreDistinct(s, job);
    forall x, y | x in s.db.chunks && y in rows ensures x.id != y.id && x.documentId != y.documentId {
      var i :| 0 <= i < |rows| && rows[i] == y;
      assert y.id == job.rowIds[i];
    }
    DistinctConcat(s.db.chunks, rows);
  }

  lemma AddedTables(s: State, purged: set<string>, job: Job)
    requires Consistent(s, purged) && FreshJob(s, job)
    ensures GoodTables(WithStatus(WithRows(Create(s.db, job), Rows(job, |job.chunks|)), job.documentId, Ready), purged)
  {
    var rows := Rows(job, |job.chunks|);
    AddedRowsAreDistinct(s, purged, job);
    assert EmbeddingsFor(s.db.chunks + rows) == EmbeddingsFor(s.db.chunks) + EmbeddingsFor(rows);
  }

  lemma IdsConcat(a: Contents, b: Contents)
    ensures IdsOf(a + b) == IdsOf(a) + IdsOf(b)
  {
  }

  lemma VectorIdsConcat(a: seq<ChunkRow>, b: seq<ChunkRow>)
    ensures VectorIdsOf(a + b) == VectorIdsOf(a) + VectorIdsOf(b)
  {
  }

  ghost function Committed(s: State, job: Job): State
    requires job.Shaped()
  {
    var rows := Rows(job, |job.chunks|);
    State(WithStatus(WithRows(Create(s.db, job), rows), job.documentId, Ready),
          s.vectors + Pair(VectorIdsOf(rows), job.vectors))
  }

  lemma CommittedVectors(s: State, purged: set<string>, job: Job)
    requires Consistent(s, purged) && FreshJob(s, job)
    ensures IdsOf(Committed(s, job).vectors) == VectorIdsOf(RowsOutside(Committed(s, job).db.chunks, purged))
  {
    var rows := Rows(job, |job.chunks|);
    NewVectors(job);
    RowsOutsideConcat(s.db.chunks, rows, purged);
    NoRowsOf(rows, purged);
    IdsConcat(s.vectors, Pair(VectorIdsOf(rows), job.vectors));
    VectorIdsConcat(RowsOutside(s.db.chunks, purged), rows);
  }

  /** After a commit the new rows and the new vectors correspond. */
  lemma CommittedIsConsistent(s: State, purged: set<string>, job: Job)
    requires Consistent(s, purged) && FreshJob(s, job)
    ensures Consistent(Committed(s, job), purged)
  {
    AddedTables(s, purged, job);
    CommittedVectors(s, purged, job);
  }

  /** The documents whose vectors are gone after an ingestion. */
  ghost function PurgedAfter(purged: set<string>, job: Job, fault: Fault, dims: nat): set<string> {
    if fault == AfterCommit && RightSize(job.vectors, dims) then purged + {job.documentId} else purged
  }

  /** Marking a document FAILED keeps the invariant: its rows stay, its vectors go. */
  lemma MarkedFailedIsConsistent(s: State, purged: set<string>, documentId: string, cleanup: CleanupFault)
    requires Consistent(s, purged) && documentId in s.db.documents
    ensures Consistent(MarkFailed(s, documentId, cleanup), purged + {documentId})
  {
    PurgedIsConsistent(s, purged, documentId);
  }

  lemma AfterCommitIngestIs(s: State, job: Job, cleanup: CleanupFault, dims: nat)
    requires job.Shaped() && RightSize(job.vectors, dims)
    ensures Ingest(s, job, AfterCommit, cleanup, dims) == MarkFailed(Committed(s, job), job.documentId, cleanup)
  {
  }

  /** Re-reading the document fails after the commit. */
  lemma AfterCommitIngest(s: State, purged: set<string>, job: Job, cleanup: CleanupFault, dims: nat)
    requires Consistent(s, purged) && FreshJob(s, job) && RightSize(job.vectors, dims)
    ensures Consistent(Ingest(s, job, AfterCommit, cleanup, dims), purged + {job.documentId})
  {
    CommittedIsConsistent(s, purged, job);
    AfterCommitIngestIs(s, job, cleanup, dims);
    MarkedFailedIsConsistent(Committed(s, job), purged, job.documentId, cleanup);
  }

  /** A failure before the commit leaves a document without rows and the vectors as they were. */
  lemma FailedIngest(s: State, purged: set<string>, job: Job, fault: Fault, cleanup: CleanupFault, dims: nat)
    requires Consistent(s, purged) && FreshJob(s, job)
    requires fault != InCreate && fault != AfterCreate
    requires !Pipeline(State(Create(s.db, job), s.vectors), job, fault, dims).1
    requires Pipeline(State(Create(s.db, job), s.vectors), job, fault, dims).0.db == Create(s.db, job)
    ensures Consistent(Ingest(s, job, fault, cleanup, dims), purged)
  {
    OwnsNothingYet(s, purged, job, if cleanup == Clean then Failed else Processing);
    FailedIngestionLeavesNoVectors(s, purged, job, fault, cleanup, dims);
  }

  lemma CreatedIsConsistent(s: State, purged: set<string>, job: Job)
    requires Consistent(s, purged) && FreshJob(s, job)
    ensures Consistent(State(Create(s.db, job), s.vectors), purged)
  {
    OwnsNothingYet(s, purged, job, Processing);
    assert WithStatus(Create(s.db, job), job.documentId, Processing) == Create(s.db, job);
  }

  /** What the pipeline leaves: everything committed, or the tables as they were. */
  lemma PipelineOutcome(s: State, job: Job, fault: Fault, dims: nat)
    requires job.Shaped()
    ensures var created := State(Create(s.db, job), s.vectors);
      var (after, ok) := Pipeline(created, job, fault, dims);
      && (ok ==> fault != AfterCommit && after == Committed(s, job))
      && (!ok && fault == AfterCommit && RightSize(job.vectors, dims) ==> after == Committed(s, job))
      && (!ok && !(fault == AfterCommit && RightSize(job.vectors, dims)) ==> after.db == created.db)
  {
  }

  lemma FilledIngest(s: State, purged: set<string>, job: Job, fault: Fault, cleanup: CleanupFault, dims: nat)
    requires Consistent(s, purged) && FreshJob(s, job) && fault != InCreate && fault != AfterCreate
    ensures Consistent(Ingest(s, job, fault, cleanup, dims), PurgedAfter(purged, job, fault, dims))
  {
    PipelineOutcome(s, job, fault, dims);
    if Pipeline(State(Create(s.db, job), s.vectors), job, fault, dims).1 {
      assert Ingest(s, job, fault, cleanup, dims) == Committed(s, job);
      CommittedIsConsistent(s, purged, job);
    } else if fault == AfterCommit && RightSize(job.vectors, dims) {
      AfterCommitIngest(s, purged, job, cleanup, dims);
    } else {
      FailedIngest(s, purged, job, fault, cleanup, dims);
    }
  }

  /** Every ingestion keeps the invariant, wherever it fails. */
  lemma IngestKeepsConsistent(s: State, purged: set<string>, job: Job, fault: Fault, cleanup: CleanupFault, dims: nat)
    requires Consistent(s, purged) && FreshJob(s, job)
    ensures Consistent(Ingest(s, job, fault, cleanup, dims), PurgedAfter(purged, job, fault, dims))
  {
    if fault == AfterCreate {
      CreatedIsConsistent(s, purged, job);
    } else if fault != InCreate {
      FilledIngest(s, purged, job, fault, cleanup, dims);
    }
  }

  // ----- Rows of FAILED documents -----

  /** The document is FAILED and its chunk rows are still there. */
  ghost predicate Stranded(db: Tables, documentId: string) {
    && documentId in db.documents && db.documents[documentId].status == Failed
    && exists r :: r in db.chunks && r.documentId == documentId
  }

  /**
   * The one failure that strands rows: they are committed, then re-reading the document fails, and the
   * clean-up marks it FAILED.
   */
  ghost predicate Breaks(job: Job, fault: Fault, cleanup: CleanupFault, dims: nat) {
    fault == AfterCommit && cleanup == Clean && job.chunks != [] && RightSize(job.vectors, dims)
  }

  /** A new document has no rows before its own commit. */
  lemma NoRowsYet(s: State, purged: set<string>, job: Job)
    requires Consistent(s, purged) && FreshJob(s, job)
    ensures forall r :: r in s.db.chunks ==> r.documentId != job.documentId
  {
    forall r | r in s.db.chunks ensures r.documentId != job.documentId {
      assert MayOwnRows(s.db, r.documentId, purged);
    }
  }

  /** Any other ingestion leaves its document READY, or without rows. */
  lemma OtherIngestions(s: State, job: Job, fault: Fault, cleanup: CleanupFault, dims: nat)
    requires job.Shaped() && job.documentId !in s.db.documents && !Breaks(job, fault, cleanup, dims)
    ensures var after := Ingest(s, job, fault, cleanup, dims);
      || after.db.chunks == s.db.chunks
      || (job.documentId in after.db.documents && after.db.documents[job.documentId].status == Ready)
  {
    assert job.chunks == [] ==> s.db.chunks + Rows(job, 0) == s.db.chunks;
  }

  /** An ingestion strands its document's rows exactly when it fails after its own commit in that way. */
  lemma IngestIsSafeIff(s: State, purged: set<string>, job: Job, fault: Fault, cleanup: CleanupFault, dims: nat)
    requires Consistent(s, purged) && FreshJob(s, job)
    ensures Stranded(Ingest(s, job, fault, cleanup, dims).db, job.documentId) <==> Breaks(job, fault, cleanup, dims)
  {
    NoRowsYet(s, purged, job);
    if Breaks(job, fault, cleanup, dims) {
      AfterCommitIngestIs(s, job, cleanup, dims);
      var chunks := Committed(s, job).db.chunks;
      assert chunks[|s.db.chunks|] == RowAt(job, 0) && RowAt(job, 0) in chunks;
    } else {
      OtherIngestions(s, job, fault, cleanup, dims);
    }
  }

  /** The tables an ingestion can leave. */
  lemma IngestedTables(s: State, job: Job, fault: Fault, cleanup: CleanupFault, dims: nat)
    requires job.Shaped()
    ensures var after, created, committed := Ingest(s, job, fault, cleanup, dims).db, Create(s.db, job), Committed(s, job).db;
      || after == s.db || after == created || after == WithStatus(created, job.documentId, Failed)
      || after == committed || after == WithStatus(committed, job.documentId, Failed)
  {
    PipelineOutcome(s, job, fault, dims);
  }

  /** What an ingestion does outside its own document. */
  lemma IngestLeavesOthers(s: State, job: Job, fault: Fault, cleanup: CleanupFault, dims: nat, documentId: string)
    requires job.Shaped() && documentId != job.documentId
    ensures var after := Ingest(s, job, fault, cleanup, dims).db;
      && (after.chunks == s.db.chunks || after.chunks == s.db.chunks + Rows(job, |job.chunks|))
      && (documentId in after.documents <==> documentId in s.db.documents)
      && (documentId in s.db.documents ==> after.documents[documentId] == s.db.documents[documentId])
  {
    IngestedTables(s, job, fault, cleanup, dims);
  }

  /** It strands no other document's rows. */
  lemma IngestStrandsNoOther(
      s: State, job: Job, fault: Fault, cleanup: CleanupFault, dims: nat, documentId: string)
    requires job.Shaped() && documentId != job.documentId
    ensures Stranded(Ingest(s, job, fault, cleanup, dims).db, documentId) <==> Stranded(s.db, documentId)
  {
    IngestLeavesOthers(s, job, fault, cleanup, dims, documentId);
    var rows := Rows(job, |job.chunks|);
    forall r ensures r in s.db.chunks + rows && r.documentId == documentId <==> r in s.db.chunks && r.documentId == documentId {
    }
  }

  // ----- The status an ingestion leaves -----

  ghost predicate HasStatus(db: Tables, documentId: string, status: Status) {
    documentId in db.documents && db.documents[documentId].status == status
  }

  /** Everything was committed, whatever failed after that. */
  ghost predicate Commits(job: Job, fault: Fault, dims: nat) {
    Succeeds(job, fault, dims) || ((fault == AfterCommit || fault == InSave) && RightSize(job.vectors, dims))
  }

  /** The status in which an ingestion leaves its document, if it creates one. */
  ghost function StatusLeft(job: Job, fault: Fault, cleanup: CleanupFault, dims: nat): Option<Status> {
    if fault == InCreate then None
    else if fault == AfterCreate then Some(Processing)
    else if Commits(job, fault, dims) && !(fault == AfterCommit && cleanup == Clean) then Some(Ready)
    else if cleanup == Clean then Some(Failed)
    else Some(Processing)
  }

  lemma CommitsIff(s: State, job: Job, fault: Fault, dims: nat)
    requires job.Shaped() && fault != InCreate && fault != AfterCreate
    ensures var (after, ok) := Pipeline(State(Create(s.db, job), s.vectors), job, fault, dims);
      && (Commits(job, fault, dims) <==> after.db == Committed(s, job).db && (ok || fault == AfterCommit))
      && (ok <==> Commits(job, fault, dims) && fault != AfterCommit)
      && (!Commits(job, fault, dims) ==> after.db == Create(s.db, job))
  {
    PipelineOutcome(s, job, fault, dims);
  }

  lemma IngestLeavesStatus(s: State, job: Job, fault: Fault, cleanup: CleanupFault, dims: nat, status: Status)
    requires job.Shaped() && job.documentId !in s.db.documents
    ensures HasStatus(Ingest(s, job, fault, cleanup, dims).db, job.documentId, status) <==>
            StatusLeft(job, fault, cleanup, dims) == Some(status)
  {
    if fault != InCreate && fault != AfterCreate {
      CommitsIff(s, job, fault, dims);
    }
  }

  /**
   * A raised ingestion marks its document FAILED unless the re-read after the first commit, the save after
   * the second, or the clean-up itself fails; and in what status it leaves it then.
   */
  lemma MarkedFailedIff(s: State, job: Job, fault: Fault, cleanup: CleanupFault, dims: nat)
    requires job.Shaped() && job.documentId !in s.db.documents
    requires !Succeeds(job, fault, dims) && fault != InCreate
    ensures var after := Ingest(s, job, fault, cleanup, dims).db;
      && job.documentId in after.documents
      && (HasStatus(after, job.documentId, Failed) <==>
            fault != AfterCreate && !(fault == InSave && RightSize(job.vectors, dims)) && cleanup == Clean)
      && (HasStatus(after, job.documentId, Ready) <==>
            RightSize(job.vectors, dims) && (fault == InSave || (fault == AfterCommit && cleanup != Clean)))
      && (HasStatus(after, job.documentId, Processing) <==>
            || fault == AfterCreate
            || (cleanup != Clean && !((fault == InSave || fault == AfterCommit) && RightSize(job.vectors, dims))))
  {
    IngestLeavesStatus(s, job, fault, cleanup, dims, Failed);
    IngestLeavesStatus(s, job, fault, cleanup, dims, Ready);
    IngestLeavesStatus(s, job, fault, cleanup, dims, Processing);
  }

  /** `stored` are the chunk rows of the job: one for each chunk, in order. */
  ghost predicate StoresChunks(stored: seq<ChunkRow>, job: Job) {
    |stored| == |job.chunks| && forall i :: 0 <= i < |stored| ==>
      stored[i].documentId == job.documentId && stored[i].chunk == job.chunks[i]
  }

  ghost predicate StoresEmbeddings(stored: seq<EmbeddingRow>, rows: seq<ChunkRow>) {
    |stored| == |rows| && forall i :: 0 <= i < |stored| ==>
      stored[i].documentId == rows[i].documentId && stored[i].chunkId == rows[i].id
  }

  /** Each chunk's own vector, under the id made of its document and its row. */
  ghost predicate StoresVectors(stored: Contents, rows: seq<ChunkRow>, vectors: seq<Vector>) {
    |stored| == |rows| == |vectors| && forall i :: 0 <= i < |stored| ==>
      stored[i] == (rows[i].documentId + ":" + rows[i].id, vectors[i])
  }

  lemma NewRowsAreStored(job: Job)
    requires job.Shaped()
    ensures var rows := Rows(job, |job.chunks|);
      && StoresChunks(rows, job) && StoresEmbeddings(EmbeddingsFor(rows), rows)
      && StoresVectors(Pair(VectorIdsOf(rows), job.vectors), rows, job.vectors)
  {
    var rows := Rows(job, |job.chunks|);
    forall i | 0 <= i < |rows| ensures Pair(VectorIdsOf(rows), job.vectors)[i].0 == rows[i].documentId + ":" + rows[i].id {
      assert VectorIdsOf(rows)[i] == VectorIdOf(rows[i]);
    }
  }

  /**
   * A successful ingestion makes its document READY, stores every chunk with its own vector under
   * `<document>:<chunk row>`, in order, and leaves everything else as it was.
   */
  lemma SuccessStoresEveryChunk(s: State, job: Job, fault: Fault, cleanup: CleanupFault, dims: nat)
      returns (rows: seq<ChunkRow>, embeddings: seq<EmbeddingRow>, vectors: Contents)
    requires job.Shaped() && Succeeds(job, fault, dims)
    ensures var t := Ingest(s, job, fault, cleanup, dims);
      && t.db.documents == s.db.documents[job.documentId := DocumentRow(job.documentId, job.userId, job.name, Ready)]
      && t.db.chunks == s.db.chunks + rows && t.db.embeddings == s.db.embeddings + embeddings
      && t.vectors == s.vectors + vectors
    ensures StoresChunks(rows, job) && StoresEmbeddings(embeddings, rows) && StoresVectors(vectors, rows, job.vectors)
  {
    rows := Rows(job, |job.chunks|);
    embeddings, vectors := EmbeddingsFor(rows), Pair(VectorIdsOf(rows), job.vectors);
    NewRowsAreStored(job);
    assert Ingest(s, job, fault, cleanup, dims) == Committed(s, job);
  }

  // ----- Runs -----

  datatype Action =
    | DoIngest(job: Job, fault: Fault, cleanup: CleanupFault)
    | DoDelete(userId: string, documentId: string, deleteFault: CleanupFault)

  ghost function Step(s: State, a: Action, dims: nat): State
    requires a.DoIngest? ==> a.job.Shaped()
  {
    match a
    case DoIngest(job, fault, cleanup) => Ingest(s, job, fault, cleanup, dims)
    case DoDelete(userId, documentId, fault) => Delete(s, userId, documentId, fault)
  }

  const EMPTY := State(Tables(map[], [], []), [])

  /** A run from the empty service: each ingestion with fresh ids, and anything at all failing. */
  ghost predicate IsRun(actions: seq<Action>, states: seq<State>, dims: nat) {
    && |states| == |actions| + 1 && states[0] == EMPTY
    && forall i :: 0 <= i < |actions| ==>
         (actions[i].DoIngest? ==> FreshJob(states[i], actions[i].job)) && states[i + 1] == Step(states[i], actions[i], dims)
  }

  ghost function PurgedBy(s: State, purged: set<string>, a: Action, dims: nat): set<string> {
    match a
    case DoIngest(job, fault, cleanup) => PurgedAfter(purged, job, fault, dims)
    case DoDelete(userId, documentId, fault) =>
      if !MayDelete(s, userId, documentId) then purged
      else if fault == Clean then purged - {documentId} else purged + {documentId}
  }

  lemma StepKeepsConsistent(s: State, purged: set<string>, a: Action, dims: nat)
    requires Consistent(s, purged) && (a.DoIngest? ==> FreshJob(s, a.job))
    ensures Consistent(Step(s, a, dims), PurgedBy(s, purged, a, dims))
  {
    match a
    case DoIngest(job, fault, cleanup) => IngestKeepsConsistent(s, purged, job, fault, cleanup, dims);
    case DoDelete(userId, documentId, fault) =>
      if MayDelete(s, userId, documentId) {
        DeleteKeepsConsistent(s, purged, userId, documentId, fault);
      }
  }

  /** In every reachable state, the vectors are those of the rows of some of the documents. */
  lemma {:induction false} RunsStayConsistent(actions: seq<Action>, states: seq<State>, dims: nat, k: nat)
      returns (purged: set<string>)
    requires IsRun(actions, states, dims) && k <= |actions|
    ensures Consistent(states[k], purged)
    ensures (forall i :: 0 <= i < k ==>
              (actions[i].DoIngest? ==> actions[i].fault != AfterCommit)
              && (actions[i].DoDelete? ==> actions[i].deleteFault == Clean)) ==> purged == {}
  {
    if k == 0 {
      purged := {};
      assert IdsOf(EMPTY.vectors) == VectorIdsOf([]);
      assert EmbeddingsFor([]) == [];
    } else {
      var before := RunsStayConsistent(actions, states, dims, k - 1);
      StepKeepsConsistent(states[k - 1], before, actions[k - 1], dims);
      purged := PurgedBy(states[k - 1], before, actions[k - 1], dims);
    }
  }

  /**
   * In plain terms, in every reachable state, whatever failed before: each stored vector belongs to a
   * committed chunk row of a READY document, documents that are not READY own no vectors, and
   * PROCESSING documents own no rows either.
   */
  lemma EveryReachableState(actions: seq<Action>, states: seq<State>, dims: nat, k: nat)
    requires IsRun(actions, states, dims) && k <= |actions|
    ensures var s := states[k];
      && (forall i :: 0 <= i < |s.vectors| ==>
           exists r :: r in s.db.chunks && s.vectors[i].0 == VectorIdOf(r)
                       && r.documentId in s.db.documents && s.db.documents[r.documentId].status == Ready)
      && (forall id, i :: id in s.db.documents && s.db.documents[id].status != Ready && 0 <= i < |s.vectors| ==>
           !(Prefix(id) <= s.vectors[i].0))
      && (forall id, r :: id in s.db.documents && s.db.documents[id].status == Processing && r in s.db.chunks ==>
           r.documentId != id)
  {
    var s := states[k];
    var purged := RunsStayConsistent(actions, states, dims, k);
    forall i | 0 <= i < |s.vectors|
      ensures exists r :: r in s.db.chunks && s.vectors[i].0 == VectorIdOf(r)
                          && r.documentId in s.db.documents && s.db.documents[r.documentId].status == Ready
    {
      var row := VectorsBelongToReadyDocuments(s, purged, i);
    }
    forall id | id in s.db.documents && s.db.documents[id].status != Ready
      ensures forall i :: 0 <= i < |s.vectors| ==> !(Prefix(id) <= s.vectors[i].0)
      ensures s.db.documents[id].status == Processing ==> forall r :: r in s.db.chunks ==> r.documentId != id
    {
      UnreadyDocumentsOwnNothing(s, purged, id);
    }
  }

  /** What a document can be in for: rows left behind, or a status. */
  datatype Mark = StrandedRows | InStatus(status: Status)

  ghost predicate Shows(db: Tables, documentId: string, mark: Mark) {
    match mark
    case StrandedRows => Stranded(db, documentId)
    case InStatus(status) => HasStatus(db, documentId, status)
  }

  /** The action is the ingestion of the document and leaves it so. */
  ghost predicate Makes(a: Action, dims: nat, documentId: string, mark: Mark) {
    && a.DoIngest? && a.job.documentId == documentId
    && match mark
       case StrandedRows => Breaks(a.job, a.fault, a.cleanup, dims)
       case InStatus(status) => StatusLeft(a.job, a.fault, a.cleanup, dims) == Some(status)
  }

  /** The action deletes the document for good. */
  ghost predicate Removes(s: State, a: Action, documentId: string) {
    a.DoDelete? && a.documentId == documentId && a.deleteFault == Clean && MayDelete(s, a.userId, documentId)
  }

  lemma IngestMakesIff(
      s: State, purged: set<string>, job: Job, fault: Fault, cleanup: CleanupFault, dims: nat, documentId: string, mark: Mark)
    requires Consistent(s, purged) && FreshJob(s, job)
    ensures Shows(Ingest(s, job, fault, cleanup, dims).db, documentId, mark) <==>
            Makes(DoIngest(job, fault, cleanup), dims, documentId, mark) || Shows(s.db, documentId, mark)
  {
    if job.documentId == documentId {
      match mark
      case StrandedRows => IngestIsSafeIff(s, purged, job, fault, cleanup, dims);
      case InStatus(status) => IngestLeavesStatus(s, job, fault, cleanup, dims, status);
    } else {
      match mark
      case StrandedRows => IngestStrandsNoOther(s, job, fault, cleanup, dims, documentId);
      case InStatus(status) => IngestLeavesOthers(s, job, fault, cleanup, dims, documentId);
    }
  }

  lemma DeleteKeepsIff(s: State, userId: string, id: string, fault: CleanupFault, documentId: string, mark: Mark)
    ensures Shows(Delete(s, userId, id, fault).db, documentId, mark) <==>
            Shows(s.db, documentId, mark) && !Removes(s, DoDelete(userId, id, fault), documentId)
  {
    RowsOutsideMembers(s.db.chunks, {id});
  }

  lemma StepMakesIff(s: State, purged: set<string>, a: Action, dims: nat, documentId: string, mark: Mark)
    requires Consistent(s, purged) && (a.DoIngest? ==> FreshJob(s, a.job))
    ensures Shows(Step(s, a, dims).db, documentId, mark) <==>
            Makes(a, dims, documentId, mark) || (Shows(s.db, documentId, mark) && !Removes(s, a, documentId))
  {
    match a
    case DoIngest(job, fault, cleanup) => IngestMakesIff(s, purged, job, fault, cleanup, dims, documentId, mark);
    case DoDelete(userId, id, fault) => DeleteKeepsIff(s, userId, id, fault, documentId, mark);
  }

  /** Step `i`, before `k`, leaves the document so, and none after it and before `k` removes the document. */
  ghost predicate MadeSince(
    actions: seq<Action>, states: seq<State>, dims: nat, documentId: string, mark: Mark, i: nat, k: nat)
    requires k <= |actions| && |states| == |actions| + 1
  {
    && i < k && Makes(actions[i], dims, documentId, mark)
    && forall j :: i < j < k ==> !Removes(states[j], actions[j], documentId)
  }

  ghost predicate MadeBefore(
    actions: seq<Action>, states: seq<State>, dims: nat, documentId: string, mark: Mark, k: nat)
    requires k <= |actions| && |states| == |actions| + 1
  {
    exists i: nat :: MadeSince(actions, states, dims, documentId, mark, i, k)
  }

  lemma MadeBeforeNext(
      actions: seq<Action>, states: seq<State>, dims: nat, documentId: string, mark: Mark, n: nat, k: nat)
    requires k == n + 1 <= |actions| && |states| == |actions| + 1
    ensures MadeBefore(actions, states, dims, documentId, mark, k) <==>
            || Makes(actions[n], dims, documentId, mark)
            || (MadeBefore(actions, states, dims, documentId, mark, n) && !Removes(states[n], actions[n], documentId))
  {
    if Makes(actions[n], dims, documentId, mark) {
      assert MadeSince(actions, states, dims, documentId, mark, n, k);
    }
    if i: nat :| MadeSince(actions, states, dims, documentId, mark, i, n) && !Removes(states[n], actions[n], documentId) {
      assert MadeSince(actions, states, dims, documentId, mark, i, k);
    }
    if i: nat :| MadeSince(actions, states, dims, documentId, mark, i, k) && i != n {
      assert MadeSince(actions, states, dims, documentId, mark, i, n);
    }
  }

  lemma {:induction false} MadeIff(
      actions: seq<Action>, states: seq<State>, dims: nat, documentId: string, mark: Mark, k: nat)
    requires IsRun(actions, states, dims) && k <= |actions|
    ensures Shows(states[k].db, documentId, mark) <==> MadeBefore(actions, states, dims, documentId, mark, k)
  {
    if k > 0 {
      var n := k - 1;
      MadeIff(actions, states, dims, documentId, mark, n);
      var purged := RunsStayConsistent(actions, states, dims, n);
      StepMakesIff(states[n], purged, actions[n], dims, documentId, mark);
      MadeBeforeNext(actions, states, dims, documentId, mark, n, k);
    }
  }

  /**
   * Over any run a FAILED document owns rows exactly when an ingestion stranded them and no deletion of
   * the document succeeded since.
   */
  lemma StrandedIff(actions: seq<Action>, states: seq<State>, dims: nat, documentId: string, k: nat)
    requires IsRun(actions, states, dims) && k <= |actions|
    ensures Stranded(states[k].db, documentId) <==>
            MadeBefore(actions, states, dims, documentId, StrandedRows, k)
  {
    MadeIff(actions, states, dims, documentId, StrandedRows, k);
  }

  /**
   * Over any run a document is PROCESSING, READY or FAILED exactly when its ingestion left it so and no
   * deletion of it succeeded since: nothing else ever changes its status.
   */
  lemma StatusIff(actions: seq<Action>, states: seq<State>, dims: nat, documentId: string, status: Status, k: nat)
    requires IsRun(actions, states, dims) && k <= |actions|
    ensures HasStatus(states[k].db, documentId, status) <==>
            MadeBefore(actions, states, dims, documentId, InStatus(status), k)
  {
    MadeIff(actions, states, dims, documentId, InStatus(status), k);
  }

  /** The ingestion raises, leaving the document as if nothing had failed. */
  ghost predicate RaisesButReady(a: Action, dims: nat) {
    && a.DoIngest? && RightSize(a.job.vectors, dims)
    && (a.fault == InSave || (a.fault == AfterCommit && a.cleanup != Clean))
  }

  /**
   * Over any run a document that is not FAILED although its ingestion raised stays so until it is
   * deleted: READY when saving failed, or the clean-up after the commit did; else PROCESSING.
   */
  lemma RaisedNotFailedIff(actions: seq<Action>, states: seq<State>, dims: nat, documentId: string, i: nat, k: nat)
    requires IsRun(actions, states, dims) && i < k <= |actions|
    requires actions[i].DoIngest? && actions[i].job.documentId == documentId && actions[i].fault != InCreate
    requires !Succeeds(actions[i].job, actions[i].fault, dims)
    requires forall j :: i < j < k ==> !Removes(states[j], actions[j], documentId)
    ensures documentId in states[k].db.documents
    ensures HasStatus(states[k].db, documentId, Ready) <==> RaisesButReady(actions[i], dims)
    ensures HasStatus(states[k].db, documentId, Processing) <==>
            !RaisesButReady(actions[i], dims) && (actions[i].fault == AfterCreate || actions[i].cleanup != Clean)
  {
    var a := actions[i];
    MarkedFailedIff(states[i], a.job, a.fault, a.cleanup, dims);
    IngestLeavesStatus(states[i], a.job, a.fault, a.cleanup, dims, Ready);
    IngestLeavesStatus(states[i], a.job, a.fault, a.cleanup, dims, Processing);
    IngestLeavesStatus(states[i], a.job, a.fault, a.cleanup, dims, Failed);
    var status := StatusLeft(a.job, a.fault, a.cleanup, dims).value;
    assert MadeSince(actions, states, dims, documentId, InStatus(status), i, k);
    StatusIff(actions, states, dims, documentId, status, k);
  }

  lemma {:induction false} EmbeddingsOutsideMembers(rows: seq<EmbeddingRow>, documentId: string)
    ensures forall e :: e in EmbeddingsOutside(rows, documentId) <==> e in rows && e.documentId != documentId
  {
    if rows != [] {
      EmbeddingsOutsideMembers(rows[..|rows| - 1], documentId);
      assert rows == rows[..|rows| - 1] + [rows[|rows| - 1]];
    }
  }

  /** Nobody deletes a document that someone else uploaded. */
  lemma ForeignDeleteChangesNothing(s: State, userId: string, documentId: string, fault: CleanupFault)
    ensures Delete(s, userId, documentId, fault) == s
      || (documentId in s.db.documents && s.db.documents[documentId].uploaderId == userId)
  {
  }

  /** A successful deletion removes all of one document and nothing of any other. */
  lemma DeleteRemovesOneDocument(s: State, userId: string, documentId: string)
    requires MayDelete(s, userId, documentId)
    ensures var after := Delete(s, userId, documentId, Clean);
      && after.db.documents == s.db.documents - {documentId}
      && (forall r :: r in after.db.chunks <==> r in s.db.chunks && r.documentId != documentId)
      && (forall e :: e in after.db.embeddings <==> e in s.db.embeddings && e.documentId != documentId)
      && (forall v :: v in after.vectors <==> v in s.vectors && !(Prefix(documentId) <= v.0))
  {
    RowsOutsideMembers(s.db.chunks, {documentId});
    EmbeddingsOutsideMembers(s.db.embeddings, documentId);
    WithoutPrefixMembers(s.vectors, Prefix(documentId));
  }

  /**
   * In a consistent state every stored id parses back to its own chunk, so retrieval pairs every
   * score with the right chunk.
   */
  lemma StoredIdsAreWellFormed(s: State, purged: set<string>, parse: R.ParseId)
    requires Consistent(s, purged)
    requires forall r :: r in s.db.chunks ==> parse(r.id) == Some(r.id)
    ensures R.WellFormedStore(s.vectors, parse)
  {
    var kept := RowsOutside(s.db.chunks, purged);
    RowsAreColonFree(s.db, purged);
    RowsOutsideMembers(s.db.chunks, purged);
    SubsequenceStaysDistinct(s.db.chunks, purged);
    assert |IdsOf(s.vectors)| == |kept|;
    forall i | 0 <= i < |s.vectors| ensures R.ParseChunkId(s.vectors[i].0, parse) == Some(kept[i].id) {
      assert IdsOf(s.vectors)[i] == VectorIdOf(kept[i]);
      assert kept[i] in kept;
      R.ParseInvertsVectorId(kept[i].documentId, kept[i].id, parse);
    }
  }
}
