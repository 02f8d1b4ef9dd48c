/**
 * Ingestion: database rows and vectors kept in step.  The database commits or rolls back; the vector
 * store does not, so a failed ingestion removes its vectors again.
 */
module Ingestion {
  import opened Wrappers
  import opened Vectors
  import opened VectorStore
  import opened Chunking
  import opened DocumentTables
  import R = Retrieval

  // ----- The database -----

  datatype EmbeddingRow = EmbeddingRow(documentId: string, chunkId: string)

  /** The committed tables; chunks and embeddings in the order of insertion. */
  datatype Tables = Tables(
    documents: map<string, DocumentRow>, chunks: seq<ChunkRow>, embeddings: seq<EmbeddingRow>)

  datatype State = State(db: Tables, vectors: Contents)

  datatype Upload = Upload(isReady: bool)

  datatype IngestError = UploadNotFound | UploadNotReady | PipelineFailed | CreateFailed | SaveFailed | DocumentNotFound

  // ----- What can go wrong -----

  /**
   * The first thing that fails in an ingestion.  `InContent` stands for reading, parsing, chunking
   * and embedding; `AfterCommit` for re-reading the document once everything is committed.
   */
  datatype Fault =
    | NoFault | InCreate | AfterCreate | InContent | InRow(row: nat) | InVectors | InReady | InCommit
    | AfterCommit | InSave

  /** What fails in the clean-up after a failure, or in a deletion. */
  datatype CleanupFault = Clean | InCleanupSave | InCleanupCommit

  /** One ingestion: its fresh ids and what the splitter and the embedder returned for it. */
  datatype Job = Job(
    documentId: string, userId: string, name: string, chunks: seq<TextChunk>, vectors: seq<Vector>, rowIds: seq<string>)
  {
    /** One vector and one fresh row id for each chunk. */
    ghost predicate Shaped() {
      |chunks| == |vectors| == |rowIds|
    }
  }

  function RowAt(job: Job, i: nat): ChunkRow
    requires i < |job.chunks| && i < |job.rowIds|
  {
    ChunkRow(job.rowIds[i], job.documentId, job.chunks[i])
  }

  function Rows(job: Job, n: nat): seq<ChunkRow>
    requires n <= |job.chunks| && n <= |job.rowIds|
  {
    seq(n, i requires 0 <= i < n => RowAt(job, i))
  }

  function EmbeddingFor(row: ChunkRow): EmbeddingRow {
    EmbeddingRow(row.documentId, row.id)
  }

  function EmbeddingsFor(rows: seq<ChunkRow>): seq<EmbeddingRow> {
    seq(|rows|, i requires 0 <= i < |rows| => EmbeddingFor(rows[i]))
  }

  /** The vector-store id of a chunk row: document, colon, chunk. */
  function VectorIdOf(row: ChunkRow): string {
    R.VectorId(row.documentId, row.id)
  }

  function VectorIdsOf(rows: seq<ChunkRow>): seq<string> {
    seq(|rows|, i requires 0 <= i < |rows| => VectorIdOf(rows[i]))
  }

  function RowsOutside(rows: seq<ChunkRow>, documents: set<string>): seq<ChunkRow> {
    if rows == [] then []
    else
      var front, last := RowsOutside(rows[..|rows| - 1], documents), rows[|rows| - 1];
      if last.documentId in documents then front else front + [last]
  }

  function EmbeddingsOutside(rows: seq<EmbeddingRow>, documentId: string): seq<EmbeddingRow> {
    if rows == [] then []
    else
      var front, last := EmbeddingsOutside(rows[..|rows| - 1], documentId), rows[|rows| - 1];
      if last.documentId == documentId then front else front + [last]
  }

  function Prefix(documentId: string): string {
    documentId + ":"
  }

  // ----- What each step does -----

  function Create(db: Tables, job: Job): Tables {
    db.(documents := db.documents[job.documentId := DocumentRow(job.documentId, job.userId, job.name, Processing)])
  }

  function WithStatus(db: Tables, documentId: string, status: Status): Tables
    requires documentId in db.documents
  {
    db.(documents := db.documents[documentId := db.documents[documentId].(status := status)])
  }

  function WithRows(db: Tables, rows: seq<ChunkRow>): Tables {
    db.(chunks := db.chunks + rows, embeddings := db.embeddings + EmbeddingsFor(rows))
  }

  predicate RightSize(vectors: seq<Vector>, dims: nat) {
    forall i :: 0 <= i < |vectors| ==> |vectors[i]| == dims
  }

  /** From the stored bytes to the committed rows: the new state and whether nothing was raised. */
  function Pipeline(s: State, job: Job, fault: Fault, dims: nat): (State, bool)
    requires job.Shaped() && job.documentId in s.db.documents
  {
    if fault == InContent || (fault.InRow? && fault.row < |job.chunks|) then (s, false)
    else if job.vectors != [] && (fault == InVectors || !RightSize(job.vectors, dims)) then (s, false)
    else
      var rows := Rows(job, |job.chunks|);
      var added := s.vectors + Pair(VectorIdsOf(rows), job.vectors);
      if fault == InReady || fault == InCommit then (State(s.db, added), false)
      else (State(WithStatus(WithRows(s.db, rows), job.documentId, Ready), added), fault != AfterCommit)
  }

  /** The clean-up: the vectors go first, then the status changes. */
  function MarkFailed(s: State, documentId: string, cleanup: CleanupFault): State
    requires documentId in s.db.documents
  {
    var purged := WithoutPrefix(s.vectors, Prefix(documentId));
    State(if cleanup == Clean then WithStatus(s.db, documentId, Failed) else s.db, purged)
  }

  /** The pipeline and, when it raises, the clean-up. */
  function Filled(s: State, job: Job, fault: Fault, cleanup: CleanupFault, dims: nat): State
    requires job.Shaped() && job.documentId in s.db.documents
  {
    var (after, ok) := Pipeline(s, job, fault, dims);
    if ok then after else MarkFailed(after, job.documentId, cleanup)
  }

  function Ingest(s: State, job: Job, fault: Fault, cleanup: CleanupFault, dims: nat): State
    requires job.Shaped()
  {
    if fault == InCreate then s
    else
      var created := State(Create(s.db, job), s.vectors);
      if fault == AfterCreate then created
      else
        Filled(created, job, fault, cleanup, dims)
  }

  /** Nothing fails: a fault in a row or in adding vectors needs that row or a vector. */
  predicate Succeeds(job: Job, fault: Fault, dims: nat) {
    && (fault.NoFault? || (fault.InRow? && fault.row >= |job.chunks|) || (fault == InVectors && job.vectors == []))
    && RightSize(job.vectors, dims)
  }

  function WithoutDocument(db: Tables, documentId: string): Tables {
    Tables(db.documents - {documentId}, RowsOutside(db.chunks, {documentId}), EmbeddingsOutside(db.embeddings, documentId))
  }

  predicate MayDelete(s: State, userId: string, documentId: string) {
    documentId in s.db.documents && s.db.documents[documentId].uploaderId == userId
  }

  function Delete(s: State, userId: string, documentId: string, fault: CleanupFault): State {
    if !MayDelete(s, userId, documentId) then s
    else
      State(if fault == Clean then WithoutDocument(s.db, documentId) else s.db,
            WithoutPrefix(s.vectors, Prefix(documentId)))
  }

  function SaveFaultOf(fails: bool): SaveFault {
    if fails then BeforeIndex else SaveFault.NoFault
  }

  lemma PipelineSucceedsIff(s: State, job: Job, fault: Fault, dims: nat)
    requires job.Shaped() && job.documentId in s.db.documents && fault != InCreate && fault != AfterCreate
    ensures Pipeline(s, job, fault, dims).1 <==>
            Succeeds(job, fault, dims) || (fault == InSave && RightSize(job.vectors, dims))
  {
  }

  // ----- The service -----

  class IngestionService {
    const store: FAISSVectorStore
    var db: Tables

    ghost predicate Valid()
      reads this, store
    {
      store.Valid() && store.Parallel()
    }

    ghost function StateOf(): State
      reads this, store
    {
      State(db, store.Holds())
    }

    constructor (store: FAISSVectorStore)
      requires store.Valid() && store.Parallel()
      ensures Valid() && this.store == store && db == Tables(map[], [], [])
    {
      this.store := store;
      db := Tables(map[], [], []);
    }

    /** Adds one chunk row and one embedding row for each chunk to a transaction on `db`. */
    method AddRows(db: Tables, job: Job, fault: Fault) returns (ok: bool, tx: Tables, vectorIds: seq<string>)
      requires job.Shaped()
      ensures ok <==> !(fault.InRow? && fault.row < |job.chunks|)
      ensures ok ==> tx == WithRows(db, Rows(job, |job.chunks|)) && vectorIds == VectorIdsOf(Rows(job, |job.chunks|))
    {
      ok, tx, vectorIds := true, db, [];
      for i := 0 to |job.chunks|
        invariant tx == WithRows(db, Rows(job, i)) && vectorIds == VectorIdsOf(Rows(job, i))
        invariant !(fault.InRow? && fault.row < i)
      {
        if fault == InRow(i) {
          ok := false;
          return;
        }
        var row := RowAt(job, i);
        RowsExtend(job, i);
        tx := tx.(chunks := tx.chunks + [row], embeddings := tx.embeddings + [EmbeddingFor(row)]);
        vectorIds := vectorIds + [VectorIdOf(row)];
      }
    }

    /** Adds the rows in one transaction and the vectors outside it. */
    method RunPipeline(job: Job, fault: Fault) returns (ok: bool)
      requires Valid() && job.Shaped() && job.documentId in db.documents
      modifies this, store`ids, store`vectors, store`index
      ensures Valid() && (StateOf(), ok) == Pipeline(old(StateOf()), job, fault, store.dims)
    {
      if fault == InContent {
        return false;
      }
      var rowsAdded, tx, vectorIds := AddRows(db, job, fault);
      if !rowsAdded {
        return false;
      }
      if job.vectors != [] {
        if fault == InVectors {
          return false;
        }
        var added := store.Add(job.vectors, vectorIds);
        if !added {
          return false;
        }
      }
      assert store.Holds() == old(store.Holds()) + Pair(vectorIds, job.vectors);
      if fault == InReady || fault == InCommit {
        return false;
      }
      tx := WithStatus(tx, job.documentId, Ready);
      db := tx;
      ok := fault != AfterCommit;
    }

    method CleanUp(documentId: string, cleanup: CleanupFault)
      requires Valid() && documentId in db.documents
      modifies this, store`ids, store`vectors, store`index, store.disk
      ensures Valid() && StateOf() == MarkFailed(old(StateOf()), documentId, cleanup)
    {
      store.DeleteByPrefix(Prefix(documentId));
      var saved := store.Save(SaveFaultOf(cleanup == InCleanupSave));
      if cleanup == InCleanupSave {
        return;
      }
      var tx := WithStatus(db, documentId, Failed);
      if cleanup != InCleanupCommit {
        db := tx;
      }
    }

    /** Runs the pipeline and cleans up after a failure. */
    method Fill(job: Job, fault: Fault, cleanup: CleanupFault) returns (ok: bool)
      requires Valid() && job.Shaped() && job.documentId in db.documents
      modifies this, store`ids, store`vectors, store`index, store.disk
      ensures Valid() && StateOf() == Filled(old(StateOf()), job, fault, cleanup, store.dims)
      ensures ok <==> Pipeline(old(StateOf()), job, fault, store.dims).1
    {
      ok := RunPipeline(job, fault);
      if !ok {
        CleanUp(job.documentId, cleanup);
      }
    }

    /** Creates the document and fills it. */
    method CreateAndFill(job: Job, fault: Fault, cleanup: CleanupFault) returns (r: Result<(), IngestError>)
      requires Valid() && job.Shaped()
      modifies this, store`ids, store`vectors, store`index, store.disk
      ensures Valid() && StateOf() == Ingest(old(StateOf()), job, fault, cleanup, store.dims)
      ensures r.Ok? <==> Succeeds(job, fault, store.dims) || (fault == InSave && RightSize(job.vectors, store.dims))
    {
      if fault == InCreate {
        return Err(CreateFailed);
      }
      db := Create(db, job);
      if fault == AfterCreate {
        return Err(CreateFailed);
      }
      PipelineSucceedsIff(StateOf(), job, fault, store.dims);
      var ok := Fill(job, fault, cleanup);
      r := if ok then Ok(()) else Err(PipelineFailed);
    }

    /** Ingests one upload; on success the store is saved as well. */
    method IngestUpload(upload: Option<Upload>, job: Job, fault: Fault, cleanup: CleanupFault)
      returns (r: Result<nat, IngestError>)
      requires Valid() && job.Shaped()
      modifies this, store`ids, store`vectors, store`index, store.disk
      ensures Valid()
      ensures upload.None? ==> r == Err(UploadNotFound)
      ensures upload.Some? && !upload.value.isReady ==> r == Err(UploadNotReady)
      ensures StateOf() == if upload.Some? && upload.value.isReady
                           then Ingest(old(StateOf()), job, fault, cleanup, store.dims) else old(StateOf())
      ensures r.Ok? <==> upload.Some? && upload.value.isReady && Succeeds(job, fault, store.dims)
      ensures r.Ok? ==> r.value == |job.chunks|
      ensures r.Ok? && store.disk != null ==>
        store.disk.index == Some(store.index) && store.disk.sidecar == Some(store.ids)
    {
      if upload.None? {
        return Err(UploadNotFound);
      }
      if !upload.value.isReady {
        return Err(UploadNotReady);
      }
      var filled := CreateAndFill(job, fault, cleanup);
      if filled.Err? {
        return Err(filled.error);
      }
      var saved := store.Save(SaveFaultOf(fault == InSave));
      if fault == InSave {
        return Err(SaveFailed);
      }
      r := Ok(|job.chunks|);
    }

    method DeleteDocument(userId: string, documentId: string, fault: CleanupFault) returns (r: Result<(), IngestError>)
      requires Valid()
      modifies this, store`ids, store`vectors, store`index, store.disk
      ensures Valid() && StateOf() == Delete(old(StateOf()), userId, documentId, fault)
      ensures r == Err(DocumentNotFound) <==>
        documentId !in old(db.documents) || old(db.documents)[documentId].uploaderId != userId
      ensures r == Err(DocumentNotFound) ==> StateOf() == old(StateOf())
      ensures r.Ok? <==> r != Err(DocumentNotFound) && fault == Clean
    {
      if documentId !in db.documents || db.documents[documentId].uploaderId != userId {
        return Err(DocumentNotFound);
      }
      store.DeleteByPrefix(Prefix(documentId));
      var saved := store.Save(SaveFaultOf(fault == InCleanupSave));
      if fault == InCleanupSave {
        return Err(SaveFailed);
      }
      var tx := WithoutDocument(db, documentId);
      if fault == InCleanupCommit {
        return Err(PipelineFailed);
      }
      db := tx;
      r := Ok(());
    }
  }

  lemma RowsExtend(job: Job, i: nat)
    requires i < |job.chunks| && i < |job.rowIds|
    ensures Rows(job, i + 1) == Rows(job, i) + [RowAt(job, i)]
    ensures EmbeddingsFor(Rows(job, i + 1)) == EmbeddingsFor(Rows(job, i)) + [EmbeddingFor(RowAt(job, i))]
    ensures VectorIdsOf(Rows(job, i + 1)) == VectorIdsOf(Rows(job, i)) + [VectorIdOf(RowAt(job, i))]
  {
  }
}
