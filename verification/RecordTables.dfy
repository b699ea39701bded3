/**
 The canonical record tables, the commit (backfill) tables and the export index over both,
 with the one write every path funnels through, and the invariant that write keeps.
 */
module RecordTables {
  import opened Basics
  import opened SqlOrder
  import opened Blobs

  datatype Source = Canonical | Backfill

  datatype CanonicalRow = CanonicalRow(
    blob: Blob, digest: Option<string>, deleted: bool, revision: nat,
    targetKey: string, claimGeneration: nat, updatedAt: int)

  datatype BackfillRow = BackfillRow(blob: Blob, digest: string, updatedAt: int)

  datatype IndexRow = IndexRow(
    digest: Option<string>, deleted: bool, revision: nat, storeRevision: nat, source: Source, updatedAt: int)

  datatype Records = Records(
    canonical: map<RecordKey, CanonicalRow>,
    chunks: ChunkTable,
    index: map<RecordKey, IndexRow>,
    backfill: map<RecordKey, BackfillRow>,
    backfillChunks: ChunkTable,
    counter: nat)

  const EMPTY_RECORDS := Records(map[], map[], map[], map[], map[], 0)

  /** One validated file change: no content is a deletion. */
  datatype Operation = Operation(
    key: RecordKey, content: Option<Bytes>, digest: Option<string>, referencesPacket: bool)

  /** The columns a write takes from its plan and the clock. */
  datatype Stamp = Stamp(targetKey: string, claimGeneration: nat, now: int)

  predicate TupleKey(k: RecordKey) {
    k.section != Commits && k.id.ItemId?
  }

  predicate ValidOperation(op: Operation) {
    TupleKey(op.key) && (op.content.None? <==> op.digest.None?)
  }

  // ------------------------------------------------------------------ reading

  datatype CanonicalRecord = CanonicalRecord(
    content: Option<Bytes>, digest: Option<string>, revision: nat, updatedAt: int, deleted: bool)

  datatype ReadResult = Missing | Corrupt | Found(record: CanonicalRecord)

  function ReadCanonical(r: Records, k: RecordKey): ReadResult {
    if k !in r.canonical then Missing else
    var row := r.canonical[k];
    if row.deleted then Found(CanonicalRecord(None, row.digest, row.revision, row.updatedAt, true)) else
    match ReadBlob(r.chunks, k, row.blob)
    case None => Corrupt
    case Some(bytes) => Found(CanonicalRecord(Some(bytes), row.digest, row.revision, row.updatedAt, false))
  }

  datatype Entry = Entry(
    key: RecordKey, content: Option<Bytes>, digest: Option<string>,
    revision: nat, storeRevision: nat, updatedAt: int, deleted: bool)

  predicate FromCanonical(row: IndexRow, k: RecordKey) {
    row.source == Canonical && k.section != Commits
  }

  /** The bytes behind a live index row; None where the store raises its consistency error. */
  function SourceContent(r: Records, k: RecordKey): Option<Bytes>
    requires k in r.index
  {
    if FromCanonical(r.index[k], k) then
      match ReadCanonical(r, k)
      case Found(record) => record.content
      case _ => None
    else if k in r.backfill then ReadBlob(r.backfillChunks, k, r.backfill[k].blob) else None
  }

  /** The exported form of an index row; None is the consistency error. */
  function EntryOf(r: Records, k: RecordKey): Option<Entry>
    requires k in r.index
  {
    var row := r.index[k];
    var content := if row.deleted then None else SourceContent(r, k);
    if !row.deleted && content.None? then None
    else Some(Entry(k, content, row.digest, row.revision, row.storeRevision, row.updatedAt, row.deleted))
  }

  // ------------------------------------------------------------------ writing

  function RowFor(op: Operation, revision: nat, stamp: Stamp): CanonicalRow {
    CanonicalRow(if op.content.None? then NO_BLOB else BlobOf(op.content.value),
                 op.digest, op.content.None?, revision, stamp.targetKey, stamp.claimGeneration, stamp.now)
  }

  /** Upsert one record and its index row; None when the store revision cannot be allocated. */
  function PutRecord(r: Records, op: Operation, revision: nat, stamp: Stamp): Option<Records> {
    if r.counter + 1 > MAX_SAFE_INTEGER then None else
    Some(r.(canonical := r.canonical[op.key := RowFor(op, revision, stamp)],
            chunks := PutChunks(r.chunks, op.key, op.content),
            index := r.index[op.key := IndexRow(op.digest, op.content.None?, revision, r.counter + 1, Canonical, stamp.now)],
            counter := r.counter + 1))
  }

  function PutAll(r: Records, ops: seq<Operation>, revision: nat, stamp: Stamp): Option<Records> {
    if ops == [] then Some(r) else
    match PutAll(r, ops[..|ops|-1], revision, stamp)
    case None => None
    case Some(before) => PutRecord(before, ops[|ops|-1], revision, stamp)
  }

  datatype CommitInput = CommitInput(sha: string, content: Bytes, digest: string)

  datatype CommitPublication = Published(records: Records, inserted: nat, matching: nat) | ConflictingCommit | Exhausted

  function CommitKey(repo: string, sha: string): RecordKey {
    RecordKey(repo, Commits, CommitId(sha))
  }

  function PutCommit(r: Records, repo: string, input: CommitInput, now: int): Records {
    var k := CommitKey(repo, input.sha);
    r.(backfill := r.backfill[k := BackfillRow(BlobOf(input.content), input.digest, now)],
       backfillChunks := r.backfillChunks + ChunkRows(k, ChunkList(input.content)),
       index := r.index[k := IndexRow(Some(input.digest), false, 1, r.counter + 1, Canonical, now)],
       counter := r.counter + 1)
  }

  function PublishCommit(r: Records, repo: string, input: CommitInput, now: int): CommitPublication {
    var k := CommitKey(repo, input.sha);
    if k in r.index then
      if !r.index[k].deleted && r.index[k].digest == Some(input.digest) then Published(r, 0, 1) else ConflictingCommit
    else if r.counter + 1 > MAX_SAFE_INTEGER then Exhausted
    else Published(PutCommit(r, repo, input, now), 1, 0)
  }

  function PublishCommits(r: Records, repo: string, inputs: seq<CommitInput>, now: int): CommitPublication {
    if inputs == [] then Published(r, 0, 0) else
    var init := PublishCommits(r, repo, inputs[..|inputs|-1], now);
    if !init.Published? then init else
    var last := PublishCommit(init.records, repo, inputs[|inputs|-1], now);
    if !last.Published? then last
    else Published(last.records, init.inserted + last.inserted, init.matching + last.matching)
  }

  // ------------------------------------------------------------------ the invariant

  /** The bytes behind a row are all there: readable, of the recorded length, in exactly its chunk rows. */
  ghost predicate BlobCoherent(table: ChunkTable, k: RecordKey, blob: Blob) {
    && ReadBlob(table, k, blob).Some? && |ReadBlob(table, k, blob).value| == blob.byteLength
    && (blob.content.Some? ==> blob.chunkCount == 0)
    && ExactChunks(table, k, blob.chunkCount)
  }

  ghost predicate RowStored(r: Records, k: RecordKey)
    requires k in r.canonical
  {
    var row := r.canonical[k];
    && TupleKey(k)
    && (if row.deleted then row.digest.None? && row.blob == NO_BLOB && ExactChunks(r.chunks, k, 0)
        else row.digest.Some? && BlobCoherent(r.chunks, k, row.blob))
  }

  ghost predicate RowIndexed(r: Records, k: RecordKey)
    requires k in r.canonical
  {
    k in r.index
    && var row, entry := r.canonical[k], r.index[k];
       entry.source == Canonical && entry.digest == row.digest && entry.deleted == row.deleted
       && entry.revision == row.revision && entry.updatedAt == row.updatedAt
  }

  /** A record's row, chunk rows and index row agree. */
  ghost predicate RowCoherent(r: Records, k: RecordKey)
    requires k in r.canonical
  {
    RowStored(r, k) && RowIndexed(r, k)
  }

  ghost predicate BackfillCoherent(r: Records, k: RecordKey)
    requires k in r.backfill
  {
    k in r.index && BlobCoherent(r.backfillChunks, k, r.backfill[k].blob)
  }

  ghost predicate IndexCoherent(r: Records, k: RecordKey)
    requires k in r.index
  {
    var row := r.index[k];
    && 1 <= row.storeRevision <= r.counter
    && (row.deleted <==> row.digest.None?)
    && (if FromCanonical(row, k) then k in r.canonical
        else !row.deleted && k in r.backfill && row.digest == Some(r.backfill[k].digest))
  }

  ghost predicate DistinctRevisions(index: map<RecordKey, IndexRow>) {
    forall a, b | a in index && b in index && a != b :: index[a].storeRevision != index[b].storeRevision
  }

  ghost predicate Coherent(r: Records) {
    && (forall k | k in r.canonical :: RowCoherent(r, k))
    && (forall k | k in r.backfill :: BackfillCoherent(r, k))
    && (forall k | k in r.index :: IndexCoherent(r, k))
    && DistinctRevisions(r.index)
    && (forall c | c in r.chunks :: c.record in r.canonical)
    && (forall c | c in r.backfillChunks :: c.record in r.backfill)
    && r.counter <= MAX_SAFE_INTEGER
  }

  /** In a coherent store no index row is unreadable: the consistency error cannot occur. */
  lemma EntryDefined(r: Records, k: RecordKey)
    requires Coherent(r) && k in r.index
    ensures EntryOf(r, k).Some?
  {
    assert IndexCoherent(r, k);
    if FromCanonical(r.index[k], k) {
      assert RowCoherent(r, k);
    } else {
      assert BackfillCoherent(r, k);
    }
  }

  /** A write is readable as written, and no other record's content, row or index row moves. */
  lemma PutIsAMapUpdate(r: Records, op: Operation, revision: nat, stamp: Stamp, other: RecordKey)
    requires PutRecord(r, op, revision, stamp).Some?
    ensures var after := PutRecord(r, op, revision, stamp).value;
      && ReadCanonical(after, op.key) ==
         Found(CanonicalRecord(op.content, op.digest, revision, stamp.now, op.content.None?))
      && (other != op.key ==> ReadCanonical(after, other) == ReadCanonical(r, other))
  {
    if op.content.Some? {
      PutThenRead(r.chunks, op.key, op.content.value);
    }
    if other != op.key && other in r.canonical {
      PutKeepsOthers(r.chunks, op.key, op.content, other, r.canonical[other].blob);
    }
  }

  /** What a change feed may rely on between two states of the store. */
  ghost predicate Advances(before: Records, after: Records) {
    && before.counter <= after.counter
    && (forall k | k in before.index ::
          k in after.index
          && (after.index[k].storeRevision > before.counter
              || (after.index[k] == before.index[k] && EntryOf(after, k) == EntryOf(before, k))))
    && (forall k | k in after.index && k !in before.index :: after.index[k].storeRevision > before.counter)
  }

  lemma AdvancesTransitive(a: Records, b: Records, c: Records)
    requires Advances(a, b) && Advances(b, c)
    ensures Advances(a, c)
  {
  }

  lemma PutKeepsRow(r: Records, op: Operation, revision: nat, stamp: Stamp, k: RecordKey)
    requires ValidOperation(op) && PutRecord(r, op, revision, stamp).Some?
    requires k == op.key || (k in r.canonical && RowCoherent(r, k))
    ensures RowCoherent(PutRecord(r, op, revision, stamp).value, k)
  {
    if k != op.key {
      PutKeepsOthers(r.chunks, op.key, op.content, k, r.canonical[k].blob);
    } else if op.content.Some? {
      PutThenRead(r.chunks, k, op.content.value);
    } else {
      PutRows(r.chunks, k, None);
    }
  }

  lemma PutKeepsIndex(r: Records, op: Operation, revision: nat, stamp: Stamp)
    requires Coherent(r) && ValidOperation(op) && PutRecord(r, op, revision, stamp).Some?
    ensures var after := PutRecord(r, op, revision, stamp).value;
      (forall k | k in after.index :: IndexCoherent(after, k)) && DistinctRevisions(after.index)
  {
    var after := PutRecord(r, op, revision, stamp).value;
    forall k | k in r.index ensures IndexCoherent(r, k) && r.index[k].storeRevision < r.counter + 1 {
    }
    forall k | k in after.index ensures IndexCoherent(after, k) {
      assert k == op.key || IndexCoherent(r, k);
    }
  }

  lemma PutKeepsEntry(r: Records, op: Operation, revision: nat, stamp: Stamp, k: RecordKey)
    requires PutRecord(r, op, revision, stamp).Some? && k in r.index && k != op.key
    ensures var after := PutRecord(r, op, revision, stamp).value;
      after.index[k] == r.index[k] && EntryOf(after, k) == EntryOf(r, k)
  {
    PutIsAMapUpdate(r, op, revision, stamp, k);
  }

  /** A write is exported as it was made: content or tombstone, under the next store revision. */
  lemma PutEntry(r: Records, op: Operation, revision: nat, stamp: Stamp)
    requires ValidOperation(op) && PutRecord(r, op, revision, stamp).Some?
    ensures EntryOf(PutRecord(r, op, revision, stamp).value, op.key) ==
      Some(Entry(op.key, op.content, op.digest, revision, r.counter + 1, stamp.now, op.content.None?))
  {
    hide ReadCanonical;
    PutIsAMapUpdate(r, op, revision, stamp, op.key);
  }

  /** In a coherent store a tuple section is exported exactly as it is read, tombstones included. */
  lemma EntryIsRecord(r: Records, k: RecordKey)
    requires Coherent(r) && k in r.canonical
    ensures k in r.index && ReadCanonical(r, k).Found?
    ensures var record := ReadCanonical(r, k).record;
      EntryOf(r, k) == Some(Entry(
        k, record.content, record.digest, record.revision, r.index[k].storeRevision, record.updatedAt, record.deleted))
  {
    hide ReadBlob, ExactChunks, DistinctRevisions;
    assert RowCoherent(r, k) && IndexCoherent(r, k);
  }

  /** And a commit as it was stored. */
  lemma EntryIsCommit(r: Records, k: RecordKey)
    requires Coherent(r) && k in r.backfill && k.section == Commits
    ensures k in r.index && var row := r.backfill[k];
      EntryOf(r, k) == Some(Entry(
        k, ReadBlob(r.backfillChunks, k, row.blob), Some(row.digest), r.index[k].revision, r.index[k].storeRevision,
        r.index[k].updatedAt, false))
  {
    hide ReadBlob, ExactChunks, DistinctRevisions;
    assert BackfillCoherent(r, k) && IndexCoherent(r, k);
  }

  lemma PutAdvances(r: Records, op: Operation, revision: nat, stamp: Stamp)
    requires PutRecord(r, op, revision, stamp).Some?
    ensures Advances(r, PutRecord(r, op, revision, stamp).value)
  {
    forall k | k in r.index && k != op.key
      ensures var after := PutRecord(r, op, revision, stamp).value;
        after.index[k] == r.index[k] && EntryOf(after, k) == EntryOf(r, k)
    {
      PutKeepsEntry(r, op, revision, stamp, k);
    }
  }

  lemma PutCoherent(r: Records, op: Operation, revision: nat, stamp: Stamp)
    requires Coherent(r) && ValidOperation(op)
    requires PutRecord(r, op, revision, stamp).Some?
    ensures Coherent(PutRecord(r, op, revision, stamp).value)
  {
    var after := PutRecord(r, op, revision, stamp).value;
    PutKeepsIndex(r, op, revision, stamp);
    forall k | k in after.canonical ensures RowCoherent(after, k) {
      PutKeepsRow(r, op, revision, stamp, k);
    }
    forall k | k in after.backfill ensures BackfillCoherent(after, k) {
      assert BackfillCoherent(r, k);
    }
    forall c | c in after.chunks ensures c.record in after.canonical {
      assert c in r.chunks || c.record == op.key;
    }
  }

  lemma {:induction false} PutAllCoherent(r: Records, ops: seq<Operation>, revision: nat, stamp: Stamp)
    requires Coherent(r) && (forall op | op in ops :: ValidOperation(op))
    requires PutAll(r, ops, revision, stamp).Some?
    ensures Coherent(PutAll(r, ops, revision, stamp).value)
    ensures Advances(r, PutAll(r, ops, revision, stamp).value)
  {
    if ops != [] {
      var init, last := ops[..|ops|-1], ops[|ops|-1];
      PutAllCoherent(r, init, revision, stamp);
      var before := PutAll(r, init, revision, stamp).value;
      PutCoherent(before, last, revision, stamp);
      PutAdvances(before, last, revision, stamp);
      AdvancesTransitive(r, before, PutRecord(before, last, revision, stamp).value);
    }
  }

  /** Commit rows are inserted under fresh keys, so the inserts cannot hit an existing row. */
  lemma CommitInsertIsFresh(r: Records, repo: string, sha: string)
    requires Coherent(r) && CommitKey(repo, sha) !in r.index
    ensures CommitKey(repo, sha) !in r.backfill
    ensures forall c | c in r.backfillChunks :: c.record != CommitKey(repo, sha)
  {
    var k := CommitKey(repo, sha);
    assert k in r.backfill ==> BackfillCoherent(r, k);
  }

  /** On a fresh key the plain insert of chunk rows is the replacing write. */
  lemma CommitChunks(r: Records, repo: string, input: CommitInput, now: int)
    requires Coherent(r) && CommitKey(repo, input.sha) !in r.index
    ensures PutCommit(r, repo, input, now).backfillChunks
      == PutChunks(r.backfillChunks, CommitKey(repo, input.sha), Some(input.content))
  {
    CommitInsertIsFresh(r, repo, input.sha);
    assert WithoutRecord(r.backfillChunks, CommitKey(repo, input.sha)) == r.backfillChunks;
  }

  lemma CoherentAt(r: Records, k: RecordKey)
    requires Coherent(r)
    ensures k in r.canonical ==> RowCoherent(r, k)
    ensures k in r.backfill ==> BackfillCoherent(r, k)
    ensures k in r.index ==> IndexCoherent(r, k)
  {
  }

  lemma PutCommitKeepsOthers(r: Records, repo: string, input: CommitInput, now: int, other: RecordKey)
    requires Coherent(r) && CommitKey(repo, input.sha) !in r.index && other != CommitKey(repo, input.sha)
    ensures var after := PutCommit(r, repo, input, now);
      && (other in r.canonical ==> RowCoherent(after, other))
      && (other in r.backfill ==> BackfillCoherent(after, other))
      && (other in r.index ==> IndexCoherent(after, other))
  {
    hide Coherent, ReadBlob, PutChunks, ChunkRows, BlobOf;
    CommitChunks(r, repo, input, now);
    CoherentAt(r, other);
    if other in r.backfill {
      PutKeepsOthers(r.backfillChunks, CommitKey(repo, input.sha), Some(input.content), other, r.backfill[other].blob);
    }
  }

  lemma PutCommitKeepsEntry(r: Records, repo: string, input: CommitInput, now: int, other: RecordKey)
    requires Coherent(r) && CommitKey(repo, input.sha) !in r.index && other in r.index
    ensures EntryOf(PutCommit(r, repo, input, now), other) == EntryOf(r, other)
  {
    hide Coherent, ReadBlob, PutChunks, ChunkRows, BlobOf;
    var k, after := CommitKey(repo, input.sha), PutCommit(r, repo, input, now);
    CommitChunks(r, repo, input, now);
    assert after.index[other] == r.index[other];
    if FromCanonical(r.index[other], other) {
      assert ReadCanonical(after, other) == ReadCanonical(r, other);
    } else if other in r.backfill {
      PutKeepsOthers(r.backfillChunks, k, Some(input.content), other, r.backfill[other].blob);
    }
  }

  lemma PutCommitNew(r: Records, repo: string, input: CommitInput, now: int)
    requires Coherent(r) && CommitKey(repo, input.sha) !in r.index && r.counter + 1 <= MAX_SAFE_INTEGER
    ensures var k, after := CommitKey(repo, input.sha), PutCommit(r, repo, input, now);
      && k !in after.canonical && BackfillCoherent(after, k) && IndexCoherent(after, k)
      && EntryOf(after, k) == Some(Entry(k, Some(input.content), Some(input.digest), 1, r.counter + 1, now, false))
  {
    hide ReadBlob, PutChunks, ChunkRows, ChunkList, DistinctRevisions;
    var k := CommitKey(repo, input.sha);
    CommitChunks(r, repo, input, now);
    PutThenRead(r.backfillChunks, k, input.content);
    assert k in r.canonical ==> RowCoherent(r, k);
  }

  lemma PutCommitRevisions(r: Records, repo: string, input: CommitInput, now: int)
    requires Coherent(r)
    ensures DistinctRevisions(PutCommit(r, repo, input, now).index)
  {
    hide RowCoherent, BackfillCoherent, ChunkRows, ChunkList, BlobOf;
    forall a | a in r.index ensures r.index[a].storeRevision < r.counter + 1 {
      assert IndexCoherent(r, a);
    }
  }

  lemma PutCommitOwners(r: Records, repo: string, input: CommitInput, now: int)
    requires Coherent(r) && CommitKey(repo, input.sha) !in r.index
    ensures var after := PutCommit(r, repo, input, now);
      forall c | c in after.backfillChunks :: c.record in after.backfill
  {
    hide RowCoherent, BackfillCoherent, IndexCoherent, DistinctRevisions, PutChunks, ChunkRows, ChunkList, BlobOf;
    var k := CommitKey(repo, input.sha);
    CommitChunks(r, repo, input, now);
    PutRows(r.backfillChunks, k, Some(input.content));
    forall c | c in PutCommit(r, repo, input, now).backfillChunks ensures c.record == k || c in r.backfillChunks {}
  }

  lemma PutCommitCoherent(r: Records, repo: string, input: CommitInput, now: int)
    requires Coherent(r) && CommitKey(repo, input.sha) !in r.index && r.counter + 1 <= MAX_SAFE_INTEGER
    ensures Coherent(PutCommit(r, repo, input, now))
  {
    hide RowCoherent, BackfillCoherent, IndexCoherent, DistinctRevisions, ChunkRows, ChunkList, BlobOf;
    var k, after := CommitKey(repo, input.sha), PutCommit(r, repo, input, now);
    PutCommitNew(r, repo, input, now);
    PutCommitRevisions(r, repo, input, now);
    PutCommitOwners(r, repo, input, now);
    forall other | other != k
      ensures other in r.canonical ==> RowCoherent(after, other)
      ensures other in r.backfill ==> BackfillCoherent(after, other)
      ensures other in r.index ==> IndexCoherent(after, other)
    {
      PutCommitKeepsOthers(r, repo, input, now, other);
    }
  }

  lemma PutCommitAdvances(r: Records, repo: string, input: CommitInput, now: int)
    requires Coherent(r) && CommitKey(repo, input.sha) !in r.index
    ensures Advances(r, PutCommit(r, repo, input, now))
  {
    forall k | k in r.index ensures EntryOf(PutCommit(r, repo, input, now), k) == EntryOf(r, k) {
      PutCommitKeepsEntry(r, repo, input, now, k);
    }
  }

  lemma {:induction false} PublishCommitsCoherent(r: Records, repo: string, inputs: seq<CommitInput>, now: int)
    requires Coherent(r) && PublishCommits(r, repo, inputs, now).Published?
    ensures Coherent(PublishCommits(r, repo, inputs, now).records)
    ensures Advances(r, PublishCommits(r, repo, inputs, now).records)
  {
    if inputs != [] {
      var init, last := inputs[..|inputs|-1], inputs[|inputs|-1];
      PublishCommitsCoherent(r, repo, init, now);
      var done := PublishCommits(r, repo, init, now).records;
      if CommitKey(repo, last.sha) !in done.index {
        PutCommitCoherent(done, repo, last, now);
        PutCommitAdvances(done, repo, last, now);
        AdvancesTransitive(r, done, PutCommit(done, repo, last, now));
      }
    }
  }
}
