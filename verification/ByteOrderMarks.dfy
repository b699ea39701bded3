/**
 Byte-order marks. Decoding UTF-8 drops one from the front of the bytes, and a record's length is
 the upload's while its chunk rows are the decoded text. The other modules take content without a
 mark, for which nothing here differs from `Blobs`; this one says what becomes of content with one.
 */
module ByteOrderMarks {
  import opened Basics
  import opened Blobs

  const MARK: Bytes := [0xEF, 0xBB, 0xBF]

  predicate Marked(bytes: Bytes) {
    MARK <= bytes
  }

  /** Decoding valid UTF-8, as the bytes of the text. */
  function Decoded(bytes: Bytes): Bytes {
    if Marked(bytes) then bytes[3..] else bytes
  }

  // ------------------------------------------------------------------ records

  /** The row of an uploaded record: laid out by the size of the upload, holding its text. */
  function RecordBlob(upload: Bytes): Blob {
    if |upload| > INLINE_BYTES then Blob(None, |upload|, |ChunksOf(Decoded(upload), CHUNK_BYTES)|)
    else Blob(Some(Decoded(upload)), |upload|, 0)
  }

  function RecordChunks(table: ChunkTable, key: RecordKey, upload: Bytes): ChunkTable {
    var chunks := if |upload| > INLINE_BYTES then ChunksOf(Decoded(upload), CHUNK_BYTES) else [];
    WithoutRecord(table, key) + ChunkRows(key, chunks)
  }

  /** A record read from chunk rows is decoded first, and then the length of the text is compared. */
  function ReadRecord(table: ChunkTable, key: RecordKey, blob: Blob): Option<Bytes> {
    if blob.content.Some? then blob.content else
    var parts := StoredChunks(table, key);
    if |parts| != blob.chunkCount then None else
    var text := Decoded(Concat(parts));
    if |text| != blob.byteLength then None else Some(text)
  }

  /** The read fails exactly when the upload has a mark and is stored in chunks; otherwise it is the text. */
  lemma RecordReads(table: ChunkTable, key: RecordKey, upload: Bytes)
    ensures var read := ReadRecord(RecordChunks(table, key, upload), key, RecordBlob(upload));
      read == if Marked(upload) && |upload| > 1536 * 1024 then None else Some(Decoded(upload))
  {
    hide Concat, ChunksOf, StoredChunks, ChunkRows, WithoutRecord;
    if |upload| > INLINE_BYTES {
      WrittenChunks(table, key, ChunksOf(Decoded(upload), CHUNK_BYTES));
      ChunksConcat(Decoded(upload), CHUNK_BYTES);
    }
  }

  lemma WrittenChunks(table: ChunkTable, key: RecordKey, chunks: seq<Bytes>)
    ensures StoredChunks(WithoutRecord(table, key) + ChunkRows(key, chunks), key) == chunks
  {
    hide StoredChunks;
    var after := WithoutRecord(table, key) + ChunkRows(key, chunks);
    ChunkRowsAre(key, chunks);
    forall c: ChunkKey ensures c in RowsOf(after, key) <==> c.record == key && c.index < |chunks| {
      assert c == ChunkKey(c.record, c.index);
    }
    StoredInOrder(after, key, chunks);
  }

  /** Without a mark the layout and what it reads as are those of `Blobs`. */
  lemma UnmarkedRecord(table: ChunkTable, key: RecordKey, upload: Bytes)
    requires !Marked(upload)
    ensures RecordBlob(upload) == BlobOf(upload) && RecordChunks(table, key, upload) == PutChunks(table, key, Some(upload))
    ensures var after := PutChunks(table, key, Some(upload));
      ReadRecord(after, key, BlobOf(upload)) == ReadBlob(after, key, BlobOf(upload)) == Some(upload)
  {
    hide ReadRecord, ReadBlob, ChunksOf, ChunkRows, WithoutRecord;
    RecordReads(table, key, upload);
    PutThenRead(table, key, upload);
  }

  // ------------------------------------------------------------------ commits

  /** A commit read from chunk rows is compared as bytes and decoded afterwards. */
  function ReadCommit(table: ChunkTable, key: RecordKey, blob: Blob): Option<Bytes> {
    if blob.content.Some? then blob.content else
    match ReadBlob(table, key, blob)
    case None => None
    case Some(bytes) => Some(Decoded(bytes))
  }

  /** A stored commit never fails to read, and comes back without its mark exactly when it is in chunks. */
  lemma CommitReads(table: ChunkTable, key: RecordKey, content: Bytes)
    ensures var read := ReadCommit(PutChunks(table, key, Some(content)), key, BlobOf(content));
      read == Some(if |content| > 1536 * 1024 then Decoded(content) else content)
  {
    hide ReadBlob, PutChunks, ChunksOf;
    PutThenRead(table, key, content);
  }
}
