/**
 How record bytes are stored: inline below a threshold, otherwise as numbered chunk rows in a
 table shared by all records. The point of the module is `PutThenRead` and `PutKeepsOthers`:
 together they make the chunked layout invisible.
 */
module Blobs {
  import opened Basics
  import opened SqlOrder

  datatype Section = Items | Closed | Plans | DecisionPackets | Commits

  datatype RecordId = ItemId(n: nat) | CommitId(sha: string)

  /** Primary key of the record tables and of the export index. */
  datatype RecordKey = RecordKey(repo: string, section: Section, id: RecordId)

  /** Primary key of a chunk table. */
  datatype ChunkKey = ChunkKey(record: RecordKey, index: nat)

  type ChunkTable = map<ChunkKey, Bytes>

  /** The content, byte_length and chunk_count columns of a record row. */
  datatype Blob = Blob(content: Option<Bytes>, byteLength: nat, chunkCount: nat)

  const INLINE_BYTES: nat := 1572864
  const CHUNK_BYTES: nat := 524288

  // ------------------------------------------------------------------ splitting

  function Concat(parts: seq<Bytes>): Bytes {
    if parts == [] then [] else parts[0] + Concat(parts[1..])
  }

  function ChunksOf(content: Bytes, maximum: nat): (chunks: seq<Bytes>)
    requires maximum > 0
    decreases |content|
  {
    if |content| <= maximum then (if content == [] then [] else [content])
    else [content[..maximum]] + ChunksOf(content[maximum..], maximum)
  }

  /** Splitting loses nothing, and every chunk is nonempty and within the bound. */
  lemma {:induction false} ChunksConcat(content: Bytes, maximum: nat)
    requires maximum > 0
    ensures Concat(ChunksOf(content, maximum)) == content
    ensures forall chunk | chunk in ChunksOf(content, maximum) :: 0 < |chunk| <= maximum
    decreases |content|
  {
    if |content| <= maximum {
      if content != [] { assert Concat([content]) == content + Concat([]); }
    } else {
      ChunksConcat(content[maximum..], maximum);
      var head, tail := content[..maximum], ChunksOf(content[maximum..], maximum);
      assert ([head] + tail)[1..] == tail;
      assert content == head + content[maximum..];
    }
  }

  /** The chunks from an offset on: the next one, and those from its end on. */
  lemma NextChunk(content: Bytes, maximum: nat, offset: nat)
    requires maximum > 0 && offset < |content|
    ensures var end := Min(|content|, offset + maximum);
      ChunksOf(content[offset..], maximum) == [content[offset..end]] + ChunksOf(content[end..], maximum)
  {
    var rest, end := content[offset..], Min(|content|, offset + maximum);
    if |rest| <= maximum {
      assert content[offset..end] == rest && content[end..] == [];
    } else {
      assert rest[..maximum] == content[offset..end] && rest[maximum..] == content[end..];
    }
  }

  method ByteChunks(content: Bytes, maximum: nat) returns (chunks: seq<Bytes>)
    requires maximum > 0
    ensures chunks == ChunksOf(content, maximum)
  {
    chunks := [];
    var offset := 0;
    assert content[0..] == content;
    while offset < |content|
      invariant chunks + ChunksOf(content[Min(offset, |content|)..], maximum) == ChunksOf(content, maximum)
      decreases |content| - offset
    {
      hide ChunksOf;
      NextChunk(content, maximum, offset);
      var end := Min(|content|, offset + maximum);
      chunks := chunks + [content[offset..end]];
      offset := offset + maximum;
    }
  }

  // ------------------------------------------------------------------ the layout

  function BlobOf(content: Bytes): Blob {
    if |content| > INLINE_BYTES then Blob(None, |content|, |ChunksOf(content, CHUNK_BYTES)|)
    else Blob(Some(content), |content|, 0)
  }

  const NO_BLOB := Blob(None, 0, 0)

  /** The chunk rows a content of this size is given. */
  function ChunkList(content: Bytes): seq<Bytes> {
    if |content| > INLINE_BYTES then ChunksOf(content, CHUNK_BYTES) else []
  }

  function ChunkRows(key: RecordKey, chunks: seq<Bytes>): ChunkTable {
    map c: ChunkKey | c in (set i | 0 <= i < |chunks| :: ChunkKey(key, i)) :: chunks[c.index]
  }

  /** DELETE ... WHERE record = key */
  function WithoutRecord(table: ChunkTable, key: RecordKey): ChunkTable {
    map c | c in table && c.record != key :: table[c]
  }

  /** The chunk table after `content` became the stored content of `key` (None: a tombstone). */
  function PutChunks(table: ChunkTable, key: RecordKey, content: Option<Bytes>): ChunkTable {
    WithoutRecord(table, key) + (if content.None? then map[] else ChunkRows(key, ChunkList(content.value)))
  }

  predicate ChunkBefore(a: ChunkKey, b: ChunkKey) {
    a.index < b.index
  }

  function RowsOf(table: ChunkTable, key: RecordKey): set<ChunkKey> {
    set c | c in table && c.record == key
  }

  /** SELECT ... WHERE record = key ORDER BY chunk_index */
  function StoredChunks(table: ChunkTable, key: RecordKey): seq<Bytes> {
    var order := OrderBy(RowsOf(table, key), ChunkBefore);
    seq(|order|, i requires 0 <= i < |order| => table[order[i]])
  }

  /** The bytes of a row, or None where the store would report a chunk or byte count mismatch. */
  function ReadBlob(table: ChunkTable, key: RecordKey, blob: Blob): Option<Bytes> {
    if blob.content.Some? then blob.content else
    var parts := StoredChunks(table, key);
    if |parts| != blob.chunkCount then None else
    var bytes := Concat(parts);
    if |bytes| != blob.byteLength then None else Some(bytes)
  }

  /** Chunk rows of `key` are exactly 0 .. chunkCount - 1. */
  ghost predicate ExactChunks(table: ChunkTable, key: RecordKey, chunkCount: nat) {
    forall i: nat :: ChunkKey(key, i) in table <==> i < chunkCount
  }

  // ------------------------------------------------------------------ laws

  lemma StoredInOrder(table: ChunkTable, key: RecordKey, chunks: seq<Bytes>)
    requires forall c: ChunkKey :: c in RowsOf(table, key) <==> c.record == key && c.index < |chunks|
    requires forall i: nat | i < |chunks| :: ChunkKey(key, i) in table && table[ChunkKey(key, i)] == chunks[i]
    ensures StoredChunks(table, key) == chunks
  {
    var order := seq(|chunks|, i requires 0 <= i < |chunks| => ChunkKey(key, i));
    var rows := RowsOf(table, key);
    Numbered(key, |chunks|);
    assert rows == set i | 0 <= i < |chunks| :: ChunkKey(key, i);
    assert Lists(order, rows, ChunkBefore) by {
      forall k | k in rows ensures k in order { assert order[k.index] == k; }
    }
    OrderByUnique(rows, ChunkBefore, order);
  }

  lemma Numbered(key: RecordKey, n: nat)
    ensures |set i | 0 <= i < n :: ChunkKey(key, i)| == n
  {
    var all := set i | 0 <= i < n :: ChunkKey(key, i);
    if n == 0 {
      assert all == {};
    } else {
      Numbered(key, n - 1);
      assert all == (set i | 0 <= i < n - 1 :: ChunkKey(key, i)) + {ChunkKey(key, n - 1)};
    }
  }

  lemma ChunkRowsAre(key: RecordKey, chunks: seq<Bytes>)
    ensures forall c: ChunkKey :: c in ChunkRows(key, chunks) <==> c.record == key && c.index < |chunks|
  {
    forall c: ChunkKey ensures c in ChunkRows(key, chunks) <==> c.record == key && c.index < |chunks| {
      assert c == ChunkKey(c.record, c.index);
    }
  }

  /** Row by row, what PutChunks leaves in the table. */
  lemma PutRows(table: ChunkTable, key: RecordKey, content: Option<Bytes>)
    ensures var after := PutChunks(table, key, content);
            var chunks := if content.None? then [] else ChunkList(content.value);
            && (forall c: ChunkKey | c.record != key :: (c in after <==> c in table) && (c in table ==> after[c] == table[c]))
            && (forall i: nat :: ChunkKey(key, i) in after <==> i < |chunks|)
            && (forall i: nat | i < |chunks| :: after[ChunkKey(key, i)] == chunks[i])
  {
    var chunks := if content.None? then [] else ChunkList(content.value);
    ChunkRowsAre(key, chunks);
  }

  /** What was stored is what is read back, whatever was stored under the key before. */
  lemma PutThenRead(table: ChunkTable, key: RecordKey, content: Bytes)
    ensures var after := PutChunks(table, key, Some(content));
            && ReadBlob(after, key, BlobOf(content)) == Some(content)
            && ExactChunks(after, key, BlobOf(content).chunkCount)
  {
    var after := PutChunks(table, key, Some(content));
    var chunks := ChunkList(content);
    PutRows(table, key, Some(content));
    forall c: ChunkKey ensures c in RowsOf(after, key) <==> c.record == key && c.index < |chunks| {
      assert c == ChunkKey(c.record, c.index);
    }
    StoredInOrder(after, key, chunks);
    ChunksConcat(content, CHUNK_BYTES);
  }

  /** Storing under one key changes neither bytes nor chunk rows of any other key. */
  lemma PutKeepsOthers(table: ChunkTable, key: RecordKey, content: Option<Bytes>, other: RecordKey, blob: Blob)
    requires other != key
    ensures var after := PutChunks(table, key, content);
            && ReadBlob(after, other, blob) == ReadBlob(table, other, blob)
            && (forall i: nat :: ChunkKey(other, i) in after <==> ChunkKey(other, i) in table)
  {
    var after := PutChunks(table, key, content);
    PutRows(table, key, content);
    assert RowsOf(after, other) == RowsOf(table, other);
    assert StoredChunks(after, other) == StoredChunks(table, other);
  }

  lemma {:induction false} ChunkCount(content: Bytes, maximum: nat)
    requires maximum > 0
    ensures maximum * |ChunksOf(content, maximum)| < |content| + maximum
    ensures |content| <= maximum * |ChunksOf(content, maximum)|
    decreases |content|
  {
    if |content| > maximum {
      ChunkCount(content[maximum..], maximum);
      var rest := |ChunksOf(content[maximum..], maximum)|;
      assert maximum * (rest + 1) == maximum * rest + maximum;
    }
  }

  /** Up to 1.5 MiB is stored inline; more in the fewest chunk rows of half a MiB that hold it. */
  lemma LayoutExactly(content: Bytes)
    ensures var blob, count := BlobOf(content), BlobOf(content).chunkCount;
      && blob.byteLength == |content|
      && (blob.content == if |content| <= 1536 * 1024 then Some(content) else None)
      && (|content| <= 1536 * 1024 ==> count == 0)
      && (|content| > 1536 * 1024 ==> 512 * 1024 * (count - 1) < |content| <= 512 * 1024 * count)
  {
    hide ChunksOf;
    ChunkCount(content, CHUNK_BYTES);
  }

  /** A read fails exactly when chunk rows are missing or too many, or do not add up to the recorded length. */
  lemma ReadFailsExactly(table: ChunkTable, key: RecordKey, blob: Blob)
    requires blob.content.None?
    ensures var parts := StoredChunks(table, key);
      ReadBlob(table, key, blob) ==
        if |parts| == blob.chunkCount && |Concat(parts)| == blob.byteLength then Some(Concat(parts)) else None
  {
    hide StoredChunks, Concat;
  }
}
