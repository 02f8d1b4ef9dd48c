/** The rows of the document tables, as ingestion writes them and retrieval reads them. */
module DocumentTables {
  import opened Chunking

  datatype Status = Processing | Ready | Failed

  datatype DocumentRow = DocumentRow(id: string, uploaderId: string, name: string, status: Status)
  datatype ChunkRow = ChunkRow(id: string, documentId: string, chunk: TextChunk)
}
