/**
 The store itself: its tables as fields, each operation statement by statement, and a transaction
 as a saved copy of the fields that a failure restores. Every method is proved against the
 transition of `DirectPublication`, `RecordTables` or `ChangeFeed` it implements.
 */
module RecordStore {
  import opened Basics
  import opened SqlOrder
  import opened Blobs
  import opened RecordTables
  import opened TupleCompletion
  import opened DirectPublication
  import opened PublicationLaws
  import opened ChangeFeed
  import opened ExportSeed

  // ------------------------------------------------------------------ pure steps with loops

  lemma ChunkRowsGrow(key: RecordKey, chunks: seq<Bytes>, n: nat)
    requires n < |chunks|
    ensures ChunkRows(key, chunks[..n+1]) == ChunkRows(key, chunks[..n])[ChunkKey(key, n) := chunks[n]]
  {
    ChunkRowsAre(key, chunks[..n]);
    ChunkRowsAre(key, chunks[..n+1]);
  }

  lemma NoChunkRows(key: RecordKey)
    ensures ChunkRows(key, []) == map[]
  {
  }

  /** Reassembles stored parts into one buffer. */
  method Combine(parts: seq<Bytes>) returns (bytes: Bytes)
    ensures bytes == Concat(parts)
  {
    bytes := [];
    for i := 0 to |parts|
      invariant bytes + Concat(parts[i..]) == Concat(parts)
    {
      assert parts[i..] == [parts[i]] + parts[i+1..];
      bytes := bytes + parts[i];
    }
    assert parts[|parts|..] == [];
  }

  /** Appends the deletions a plan implies. */
  method LivePrimaries(ops: seq<Operation>) returns (primaryWrites: seq<Operation>)
    ensures primaryWrites == PrimaryWrites(ops)
  {
    primaryWrites := [];
    for i := 0 to |ops|
      invariant primaryWrites + PrimaryWrites(ops[i..]) == PrimaryWrites(ops)
    {
      assert ops[i..][0] == ops[i] && ops[i..][1..] == ops[i+1..];
      if PrimaryWrite(ops[i]) {
        primaryWrites := primaryWrites + [ops[i]];
      }
    }
    assert ops[|ops|..] == [];
  }

  method CanonicalTupleOperations(ops: seq<Operation>) returns (completion: Completion)
    requires ops != []
    ensures completion == CompleteTuple(ops)
  {
    hide AddDelete, PrimaryWrites;
    var primaryWrites := LivePrimaries(ops);
    if |primaryWrites| > 1 {
      return BothPrimaries;
    }
    var operations := ops;
    if |primaryWrites| == 1 {
      var primary := primaryWrites[0];
      operations := AddDelete(operations, if primary.key.section == Items then Closed else Items);
      if primary.key.section == Closed {
        operations := AddDelete(operations, Plans);
      }
      if !primary.referencesPacket {
        operations := AddDelete(operations, DecisionPackets);
      }
    } else if exists op | op in ops :: IsPrimary(op.key.section) && op.content.None? {
      operations := AddDelete(operations, Plans);
      operations := AddDelete(operations, DecisionPackets);
    }
    if |operations| > MAX_FILES {
      return FileLimit;
    }
    return Completed(operations);
  }

  class ExactReviewDirectPublicationStore {
    var canonical: map<RecordKey, CanonicalRow>
    var chunks: ChunkTable
    var index: map<RecordKey, IndexRow>
    var backfill: map<RecordKey, BackfillRow>
    var backfillChunks: ChunkTable
    var counter: nat
    var plans: map<PlanKey, PlanRow>
    var receipts: map<string, Receipt>

    function Rows(): Records
      reads this
    {
      Records(canonical, chunks, index, backfill, backfillChunks, counter)
    }

    function Tables(): Store
      reads this
    {
      Store(Rows(), plans, receipts)
    }

    ghost predicate Valid()
      reads this
    {
      StoreInvariant(Tables())
    }

    constructor ()
      ensures Tables() == EMPTY_STORE && Valid()
    {
      canonical, chunks, index, backfill, backfillChunks, counter := map[], map[], map[], map[], map[], 0;
      plans, receipts := map[], map[];
    }

    /** ROLLBACK */
    method Restore(saved: Store)
      modifies this
      ensures Tables() == saved
    {
      canonical, chunks, index := saved.records.canonical, saved.records.chunks, saved.records.index;
      backfill, backfillChunks := saved.records.backfill, saved.records.backfillChunks;
      counter, plans, receipts := saved.records.counter, saved.plans, saved.receipts;
    }

    /** The next store revision; not ok when it would leave the safe integers. */
    method NextExportRevision() returns (ok: bool, revision: nat)
      modifies this`counter
      ensures counter == old(counter) + 1 && revision == counter
      ensures ok <==> revision <= MAX_SAFE_INTEGER
    {
      counter := counter + 1;
      revision := counter;
      ok := revision <= MAX_SAFE_INTEGER;
    }

    method InsertChunks(key: RecordKey, parts: seq<Bytes>)
      modifies this`chunks
      ensures chunks == old(chunks) + ChunkRows(key, parts)
    {
      for i := 0 to |parts|
        invariant chunks == old(chunks) + ChunkRows(key, parts[..i])
      {
        ChunkRowsGrow(key, parts, i);
        chunks := chunks[ChunkKey(key, i) := parts[i]];
      }
      assert parts[..|parts|] == parts;
    }

    method WriteCanonicalOperation(op: Operation, revision: nat, stamp: Stamp) returns (ok: bool)
      modifies this`canonical, this`chunks, this`index, this`counter
      ensures ok <==> PutRecord(old(Rows()), op, revision, stamp).Some?
      ensures ok ==> Rows() == PutRecord(old(Rows()), op, revision, stamp).value
    {
      hide WithoutRecord, ChunksOf, ChunkRows;
      chunks := WithoutRecord(chunks, op.key);
      var chunked := op.content.Some? && |op.content.value| > INLINE_BYTES;
      var parts: seq<Bytes> := [];
      if chunked {
        parts := ByteChunks(op.content.value, CHUNK_BYTES);
      }
      canonical := canonical[op.key := CanonicalRow(
        Blob(if op.content.None? || chunked then None else op.content,
             if op.content.None? then 0 else |op.content.value|, |parts|),
        op.digest, op.content.None?, revision, stamp.targetKey, stamp.claimGeneration, stamp.now)];
      InsertChunks(op.key, parts);
      NoChunkRows(op.key);
      assert chunks == PutChunks(old(chunks), op.key, op.content);
      var storeRevision;
      ok, storeRevision := NextExportRevision();
      if ok {
        index := index[op.key := IndexRow(op.digest, op.content.None?, revision, storeRevision, Canonical, stamp.now)];
      }
    }

    /** The write loop shared by plans and mutations; not ok leaves the tables to the rollback. */
    method WriteOperations(ops: seq<Operation>, revision: nat, stamp: Stamp) returns (ok: bool)
      modifies this`canonical, this`chunks, this`index, this`counter
      ensures ok <==> PutAll(old(Rows()), ops, revision, stamp).Some?
      ensures ok ==> Rows() == PutAll(old(Rows()), ops, revision, stamp).value
    {
      ghost var before := Rows();
      for i := 0 to |ops|
        invariant backfill == old(backfill) && backfillChunks == old(backfillChunks)
        invariant PutAll(before, ops[..i], revision, stamp) == Some(Rows())
      {
        assert ops[..i+1][..i] == ops[..i];
        ok := WriteCanonicalOperation(ops[i], revision, stamp);
        if !ok {
          PutAllFails(before, ops, i + 1, revision, stamp);
          return false;
        }
      }
      assert ops[..|ops|] == ops;
      ok := true;
    }

    method WriteNextRevision(minimum: nat, ops: seq<Operation>, stamp: Stamp) returns (ok: bool, revision: nat)
      requires ops != []
      modifies this`canonical, this`chunks, this`index, this`counter
      ensures ok <==> WriteTuple(old(Rows()), minimum, ops, stamp).Some?
      ensures ok ==> WriteTuple(old(Rows()), minimum, ops, stamp) == Some((Rows(), revision))
    {
      var current := TupleRevision(Rows(), ops[0].key.repo, ops[0].key.id);
      revision := Max(minimum, current + 1);
      if current >= MAX_SAFE_INTEGER {
        return false, revision;
      }
      ok := WriteOperations(ops, revision, stamp);
    }

    /**
     Index rows for records that predate the index. Not a transaction: when the revisions run out
     the rows seeded so far stay.
     */
    method SeedExportIndex() returns (ok: bool)
      requires CoherentWhereIndexed(Rows())
      modifies this`index, this`counter
      ensures ok <==> Seed(old(Rows())).Some?
      ensures ok ==> Rows() == Seed(old(Rows())).value && Coherent(Rows())
    {
      hide Coherent, CoherentWhereIndexed, OrderBy, Unindexed, Advances, SeedRows;
      ghost var before := Rows();
      SeedLaw(before);
      SeedKeys(before);
      UnindexedAreCanonical(before);
      ok := InsertIndexRows(OrderBy(Unindexed(Rows()), KeyBefore));
    }

    method InsertIndexRows(keys: seq<RecordKey>) returns (ok: bool)
      requires forall k | k in keys :: k in canonical
      modifies this`index, this`counter
      ensures ok <==> SeedRows(old(Rows()), keys).Some?
      ensures ok ==> Rows() == SeedRows(old(Rows()), keys).value
    {
      ghost var whole := SeedRows(Rows(), keys);
      for i := 0 to |keys|
        invariant canonical == old(canonical) && SeedRows(Rows(), keys[i..]) == whole
      {
        assert keys[i..][0] == keys[i] && keys[i..][1..] == keys[i+1..];
        var row := canonical[keys[i]];
        var fits, storeRevision := NextExportRevision();
        if !fits {
          return false;
        }
        index := index[keys[i] := IndexRow(
          row.digest, row.deleted, row.revision, storeRevision, Canonical, row.updatedAt)];
      }
      return true;
    }

    // ---------------------------------------------------------------- reading

    method ReadBlobRow(table: ChunkTable, k: RecordKey, blob: Blob) returns (content: Option<Bytes>)
      ensures content == ReadBlob(table, k, blob)
    {
      if blob.content.Some? {
        return blob.content;
      }
      var parts := StoredChunks(table, k);
      if |parts| != blob.chunkCount {
        return None;
      }
      var bytes := Combine(parts);
      if |bytes| != blob.byteLength {
        return None;
      }
      return Some(bytes);
    }

    method ReadCanonicalContent(k: RecordKey) returns (result: ReadResult)
      ensures result == ReadCanonical(Rows(), k)
      ensures Valid() ==> !result.Corrupt?
    {
      if k !in canonical {
        return Missing;
      }
      var row := canonical[k];
      if row.deleted {
        return Found(CanonicalRecord(None, row.digest, row.revision, row.updatedAt, true));
      }
      var content := ReadBlobRow(chunks, k, row.blob);
      assert Valid() ==> RowCoherent(Rows(), k);
      if content.None? {
        return Corrupt;
      }
      return Found(CanonicalRecord(content, row.digest, row.revision, row.updatedAt, false));
    }

    method RecordExportEntry(k: RecordKey) returns (entry: Option<Entry>)
      requires k in index
      ensures entry == EntryOf(Rows(), k)
    {
      var row := index[k];
      var content: Option<Bytes> := None;
      if !row.deleted {
        if row.source == Canonical && k.section != Commits {
          var found := ReadCanonicalContent(k);
          if found.Found? { content := found.record.content; }
        } else if k in backfill {
          content := ReadBlobRow(backfillChunks, k, backfill[k].blob);
        }
        if content.None? {
          return None;
        }
      }
      return Some(Entry(k, content, row.digest, row.revision, row.storeRevision, row.updatedAt, row.deleted));
    }

    // ---------------------------------------------------------------- export

    /** The source_byte_length column of the preflight query. */
    method SourceByteLength(k: RecordKey) returns (bytes: nat)
      requires Valid() && k in index
      ensures EntryOf(Rows(), k).Some? && bytes == ContentBytes(EntryOf(Rows(), k).value)
    {
      EntryDefined(Rows(), k);
      assert IndexCoherent(Rows(), k);
      var row := index[k];
      if row.deleted {
        return 0;
      }
      if row.source == Canonical && k.section != Commits {
        assert RowCoherent(Rows(), k);
        return canonical[k].blob.byteLength;
      }
      assert BackfillCoherent(Rows(), k);
      return backfill[k].blob.byteLength;
    }

    method ExportRecords(
        scope: Scope, since: nat, cursor: nat, limit: nat,
        maxBytes: nat, maxSourceBytes: nat, maxRecords: nat, entryBytes: Entry -> nat) returns (page: Page)
      requires Valid() && limit >= 1 && maxRecords >= 1
      ensures IsPage(Snapshot(Rows(), scope), counter, Max(since, cursor), page)
      ensures FillsBudgets(Feed(Snapshot(Rows(), scope), Max(since, cursor)), |page.records|, Min(limit, maxRecords),
                           maxSourceBytes, maxBytes, entryBytes)
    {
      hide Coherent, EntryOf, RowsShow, Feed, Snapshot;
      ghost var feed := Feed(Snapshot(Rows(), scope), Max(since, cursor));
      var rowLimit := Min(limit, maxRecords);
      var rows := QueryRowKeys(scope, since, cursor, rowLimit);
      var records := SelectPage(rows, rowLimit, maxBytes, maxSourceBytes, entryBytes, feed);
      forall i | 0 <= i < |feed| ensures HasRowsAfter(scope, since, feed[i].storeRevision) <==> i + 1 < |feed| {
        RestExactly(Rows(), scope, since, Max(since, cursor), feed, i + 1);
      }
      page := AddCursor(scope, since, records, |rows|, rowLimit, feed);
    }

    /** Whether and from where to go on, decided from the rows fetched and one probe of the index. */
    method AddCursor(scope: Scope, since: nat, records: seq<Entry>, fetched: nat, rowLimit: nat, ghost feed: seq<Entry>)
      returns (page: Page)
      requires |records| <= fetched == Min(rowLimit, |feed|) && records == feed[..|records|]
      requires (fetched > 0 ==> records != []) && rowLimit > 0
      requires forall i | 0 <= i < |feed| :: HasRowsAfter(scope, since, feed[i].storeRevision) <==> i + 1 < |feed|
      ensures PageOf(feed, counter, page) && page.records == records
    {
      var hasMore := records != []
        && (|records| < fetched || (fetched == rowLimit && HasRowsAfter(scope, since, records[|records|-1].storeRevision)));
      page := Page(records, if hasMore then Some(records[|records|-1].storeRevision) else None, counter);
    }

    predicate HasRowsAfter(scope: Scope, since: nat, cursor: nat)
      reads this
    {
      IndexRowsAfter(index, scope, since, cursor) != {}
    }

    /** The preflight query: row keys past both bounds, by store revision, at most rowLimit. */
    method QueryRowKeys(scope: Scope, since: nat, cursor: nat, rowLimit: nat) returns (rows: seq<RecordKey>)
      requires Valid()
      ensures var feed := Feed(Snapshot(Rows(), scope), Max(since, cursor));
        |rows| == Min(rowLimit, |feed|) && RowsShow(Rows(), rows, feed)
    {
      hide OrderBy, Coherent, Feed, Snapshot, EntryOf, IndexRowsAfter;
      var table := index;
      var keys := OrderBy(IndexRowsAfter(table, scope, since, cursor), (a, b) => RevisionBefore(table, a, b));
      QueryIsFeed(Rows(), scope, since, cursor);
      rows := keys[..Min(rowLimit, |keys|)];
    }

    /** The longest prefix of the rows that keeps both budgets, but at least one row. */
    method SelectPage(
        rows: seq<RecordKey>, rowLimit: nat, maxBytes: nat, maxSourceBytes: nat, entryBytes: Entry -> nat,
        ghost feed: seq<Entry>) returns (records: seq<Entry>)
      requires Valid() && RowsShow(Rows(), rows, feed) && |rows| == Min(rowLimit, |feed|)
      ensures |records| <= |rows| && records == feed[..|records|] && (rows != [] ==> records != [])
      ensures FillsBudgets(feed, |records|, rowLimit, maxSourceBytes, maxBytes, entryBytes)
    {
      hide Coherent, EntryOf, SourceBytes, ResponseBytes;
      var selected := SelectWithinSource(rows, maxSourceBytes, feed);
      assert RowsShow(Rows(), rows[..selected], feed);
      records := Reconstruct(rows[..selected], maxBytes, entryBytes, feed);
      SourceBytesGrow(feed, |records|, selected);
    }

    /** How many leading rows the source budget admits. */
    method SelectWithinSource(rows: seq<RecordKey>, maxSourceBytes: nat, ghost feed: seq<Entry>) returns (selected: nat)
      requires Valid() && RowsShow(Rows(), rows, feed)
      ensures selected <= |rows| && (rows != [] ==> selected > 0)
      ensures selected <= 1 || SourceBytes(feed[..selected]) <= maxSourceBytes
      ensures selected == |rows| || SourceBytes(feed[..selected+1]) > maxSourceBytes
    {
      hide Coherent, EntryOf;
      selected := 0;
      var sourceBytes: nat := 0;
      while selected < |rows|
        invariant selected <= |rows| && sourceBytes == SourceBytes(feed[..selected])
        invariant selected <= 1 || sourceBytes <= maxSourceBytes
      {
        var byteLength := SourceByteLength(rows[selected]);
        assert feed[..selected+1][..selected] == feed[..selected];
        if selected > 0 && sourceBytes + byteLength > maxSourceBytes {
          return;
        }
        selected, sourceBytes := selected + 1, sourceBytes + byteLength;
      }
    }

    /** The leading rows' entries, as far as the response budget goes. */
    method Reconstruct(rows: seq<RecordKey>, maxBytes: nat, entryBytes: Entry -> nat, ghost feed: seq<Entry>)
      returns (records: seq<Entry>)
      requires RowsShow(Rows(), rows, feed)
      ensures |records| <= |rows| && records == feed[..|records|] && (rows != [] ==> records != [])
      ensures |records| <= 1 || ResponseBytes(records, entryBytes) <= maxBytes
      ensures |records| == |rows| || ResponseBytes(feed[..|records|+1], entryBytes) > maxBytes
    {
      hide EntryOf, ResponseBytes;
      records := [];
      var responseBytes: nat := 0;
      NoBytes(records, entryBytes);
      while |records| < |rows|
        invariant |records| <= |rows| && records == feed[..|records|]
        invariant responseBytes == ResponseBytes(records, entryBytes)
        invariant |records| <= 1 || responseBytes <= maxBytes
        decreases |rows| - |records|
      {
        var entry := RecordExportEntry(rows[|records|]);
        ResponseBytesNext(feed, |records|, entryBytes);
        var longer := records + [entry.value];
        var bytes := entryBytes(entry.value);
        if records != [] && responseBytes + bytes > maxBytes {
          return;
        }
        records, responseBytes := longer, responseBytes + bytes;
      }
    }

    // ---------------------------------------------------------------- plans

    method Accept(plan: Plan, now: int) returns (outcome: AcceptOutcome)
      requires ValidPlan(plan)
      modifies this
      ensures (Tables(), outcome) == DirectPublication.Accept(old(Tables()), plan, now)
      ensures old(Valid()) ==> Valid()
    {
      ghost var before := Tables();
      var completion := CanonicalTupleOperations(plan.operations);
      outcome := AcceptInTransaction(plan, completion, now);
      if StoreInvariant(before) {
        AcceptLaw(before, plan, now);
      }
    }

    method AcceptInTransaction(plan: Plan, completion: Completion, now: int) returns (outcome: AcceptOutcome)
      requires completion.Completed? ==> completion.operations != []
      modifies this
      ensures (Tables(), outcome) == AcceptCompleted(old(Tables()), plan, completion, now)
    {
      hide WriteTuple, PrunePlans, NewerKnown, BodyOf, RowOf;
      if !completion.Completed? {
        return InvalidTuple;
      }
      var saved := Tables();
      plans := PrunePlans(plans, now);
      var key := PlanKey(plan.fenceKey, plan.revision);
      if key in plans {
        var existing := plans[key];
        if !Settled(existing.state) {
          plans := plans - {key};
        } else if existing.body != BodyOf(plan) {
          Restore(saved);
          return ConflictingRetry;
        } else {
          return if existing.state.SupersededPlan? then Superseded else Deduped;
        }
      }
      assert plans == PrunePlans(saved.plans, now) - {key};
      if NewerKnown(plans, plan.fenceKey, plan.revision) {
        plans := plans[key := RowOf(plan, SupersededPlan, now, None)];
        assert plans == PrunePlans(saved.plans, now)[key := RowOf(plan, SupersededPlan, now, None)];
        return Superseded;
      }
      var ok, revision := WriteNextRevision(
        plan.revision, completion.operations, Stamp(plan.targetKey, plan.claimGeneration, now));
      if !ok {
        Restore(saved);
        return RevisionExhausted;
      }
      plans := plans[key := RowOf(plan, PublishedPlan, now, Some(revision))];
      assert plans == PrunePlans(saved.plans, now)[key := RowOf(plan, PublishedPlan, now, Some(revision))];
      return Accepted(revision);
    }

    // ---------------------------------------------------------------- mutations

    method AcceptCanonicalTupleMutation(m: Mutation, now: int) returns (outcome: MutateOutcome)
      requires ValidMutation(m)
      modifies this
      ensures (Tables(), outcome) == Mutate(old(Tables()), m, now)
      ensures old(Valid()) ==> Valid()
    {
      var saved := Tables();
      receipts := PruneReceipts(receipts, now);
      if m.deliveryId in receipts {
        if receipts[m.deliveryId].fingerprint != m.fingerprint {
          Restore(saved);
          return BoundToAnotherPayload;
        }
        outcome := Repeated(receipts[m.deliveryId].revision);
      } else {
        outcome := CompareAndWrite(m, now, saved);
      }
      if StoreInvariant(saved) {
        MutateLaw(saved, m, now);
      }
    }

    method CompareAndWrite(m: Mutation, now: int, saved: Store) returns (outcome: MutateOutcome)
      requires ValidMutation(m)
      requires Tables() == saved.(receipts := PruneReceipts(saved.receipts, now)) && m.deliveryId !in receipts
      modifies this
      ensures (Tables(), outcome) == Mutate(saved, m, now)
    {
      for i := 0 to |m.operations|
        invariant Tables() == saved.(receipts := PruneReceipts(saved.receipts, now))
        invariant forall j | 0 <= j < i ::
          LiveDigest(Rows(), m.operations[j].key) == Expected(m, m.operations[j].key.section)
      {
        var op := m.operations[i];
        var current := if op.key in index && !index[op.key].deleted then index[op.key].digest else None;
        if current != Expected(m, op.key.section) {
          assert !ExpectationsMet(saved.records, m);
          Restore(saved);
          return Changed(CurrentTuple(Rows(), m.repo, m.id));
        }
      }
      assert ExpectationsMet(saved.records, m);
      var ok, revision := WriteNextRevision(0, m.operations, Stamp(m.key, 1, now));
      if !ok {
        Restore(saved);
        return MutationExhausted;
      }
      receipts := receipts[m.deliveryId := Receipt(m.fingerprint, revision, now)];
      return Applied(revision);
    }

    // ---------------------------------------------------------------- commits

    method PublishCanonicalCommits(repo: string, inputs: seq<CommitInput>, now: int) returns (publication: CommitPublication)
      modifies this
      ensures publication == PublishCommits(old(Rows()), repo, inputs, now)
      ensures Tables() == if publication.Published? then old(Tables()).(records := publication.records) else old(Tables())
      ensures old(Valid()) ==> Valid()
    {
      hide PublishCommit, StoreInvariant;
      var saved := Tables();
      var inserted: nat, matching: nat := 0, 0;
      for i := 0 to |inputs|
        invariant plans == saved.plans && receipts == saved.receipts
        invariant PublishCommits(saved.records, repo, inputs[..i], now) == Published(Rows(), inserted, matching)
      {
        assert inputs[..i+1][..i] == inputs[..i];
        var one := PublishCommitRecord(repo, inputs[i], now);
        if !one.Published? {
          CommitFailure(saved.records, repo, inputs, i + 1, now);
          Restore(saved);
          return one;
        }
        inserted, matching := inserted + one.inserted, matching + one.matching;
      }
      assert inputs[..|inputs|] == inputs;
      publication := Published(Rows(), inserted, matching);
      CommitsKeepInvariant(saved, repo, inputs, now);
    }

    method PublishCommitRecord(repo: string, input: CommitInput, now: int) returns (one: CommitPublication)
      modifies this`backfill, this`backfillChunks, this`index, this`counter
      ensures one == PublishCommit(old(Rows()), repo, input, now)
      ensures one.Published? ==> one.records == Rows()
    {
      var k := CommitKey(repo, input.sha);
      if k in index {
        return if !index[k].deleted && index[k].digest == Some(input.digest) then Published(Rows(), 0, 1) else ConflictingCommit;
      }
      WriteBackfillRecord(k, input, now);
      var ok, storeRevision := NextExportRevision();
      if !ok {
        return Exhausted;
      }
      index := index[k := IndexRow(Some(input.digest), false, 1, storeRevision, Canonical, now)];
      return Published(Rows(), 1, 0);
    }

    method WriteBackfillRecord(k: RecordKey, input: CommitInput, now: int)
      modifies this`backfill, this`backfillChunks
      ensures backfill == old(backfill)[k := BackfillRow(BlobOf(input.content), input.digest, now)]
      ensures backfillChunks == old(backfillChunks) + ChunkRows(k, ChunkList(input.content))
    {
      var chunked := |input.content| > INLINE_BYTES;
      var parts: seq<Bytes> := [];
      if chunked {
        parts := ByteChunks(input.content, CHUNK_BYTES);
      }
      backfill := backfill[k := BackfillRow(
        Blob(if chunked then None else Some(input.content), |input.content|, |parts|), input.digest, now)];
      InsertBackfillChunks(k, parts);
    }

    method InsertBackfillChunks(key: RecordKey, parts: seq<Bytes>)
      modifies this`backfillChunks
      ensures backfillChunks == old(backfillChunks) + ChunkRows(key, parts)
    {
      for i := 0 to |parts|
        invariant backfillChunks == old(backfillChunks) + ChunkRows(key, parts[..i])
      {
        ChunkRowsGrow(key, parts, i);
        backfillChunks := backfillChunks[ChunkKey(key, i) := parts[i]];
      }
      assert parts[..|parts|] == parts;
    }
  }

  // ------------------------------------------------------------------ pages

  function SourceBytes(records: seq<Entry>): nat {
    if records == [] then 0
    else SourceBytes(records[..|records|-1]) + ContentBytes(records[|records|-1])
  }

  function ContentBytes(entry: Entry): nat {
    if entry.content.Some? then |entry.content.value| else 0
  }

  function ResponseBytes(records: seq<Entry>, entryBytes: Entry -> nat): nat {
    if records == [] then 0
    else ResponseBytes(records[..|records|-1], entryBytes) + entryBytes(records[|records|-1])
  }

  lemma CommitsKeepInvariant(s: Store, repo: string, inputs: seq<CommitInput>, now: int)
    ensures StoreInvariant(s) ==>
      var publication := PublishCommits(s.records, repo, inputs, now);
      publication.Published? ==> StoreInvariant(s.(records := publication.records))
  {
    if StoreInvariant(s) { CommitsKeepRevisions(s.records, repo, inputs, now); }
  }

  lemma NoBytes(records: seq<Entry>, entryBytes: Entry -> nat)
    requires records == []
    ensures ResponseBytes(records, entryBytes) == 0
  {
  }

  lemma ResponseBytesNext(feed: seq<Entry>, n: nat, entryBytes: Entry -> nat)
    requires n < |feed|
    ensures feed[..n+1] == feed[..n] + [feed[n]]
    ensures ResponseBytes(feed[..n+1], entryBytes) == ResponseBytes(feed[..n], entryBytes) + entryBytes(feed[n])
  {
    assert feed[..n+1][..n] == feed[..n];
  }

  /** A page of n records is within both byte budgets; one record always is. */
  predicate WithinBudgets(feed: seq<Entry>, n: nat, maxSourceBytes: nat, maxBytes: nat, entryBytes: Entry -> nat)
    requires n <= |feed|
  {
    n <= 1 || (SourceBytes(feed[..n]) <= maxSourceBytes && ResponseBytes(feed[..n], entryBytes) <= maxBytes)
  }

  /** Within the row limit and both budgets, and as long as they allow. */
  predicate FillsBudgets(
      feed: seq<Entry>, n: nat, rowLimit: nat, maxSourceBytes: nat, maxBytes: nat, entryBytes: Entry -> nat)
  {
    && n <= Min(rowLimit, |feed|) && WithinBudgets(feed, n, maxSourceBytes, maxBytes, entryBytes)
    && (n == Min(rowLimit, |feed|) || !WithinBudgets(feed, n + 1, maxSourceBytes, maxBytes, entryBytes))
  }

  predicate RevisionBefore(index: map<RecordKey, IndexRow>, a: RecordKey, b: RecordKey) {
    a in index && b in index && index[a].storeRevision < index[b].storeRevision
  }

  function IndexRowsAfter(index: map<RecordKey, IndexRow>, scope: Scope, since: nat, cursor: nat): set<RecordKey> {
    set k | k in index && InScope(k, scope) && index[k].storeRevision > since && index[k].storeRevision > cursor
  }

  lemma {:induction false} SourceBytesGrow(feed: seq<Entry>, n: nat, m: nat)
    requires n <= m <= |feed|
    ensures SourceBytes(feed[..n]) <= SourceBytes(feed[..m])
    decreases m
  {
    if n < m {
      assert feed[..m][..m-1] == feed[..m-1];
      SourceBytesGrow(feed, n, m - 1);
    }
  }

  lemma QueryRows(r: Records, scope: Scope, since: nat, cursor: nat)
    requires Coherent(r)
    ensures IndexRowsAfter(r.index, scope, since, cursor) == RowsAfter(Snapshot(r, scope), Max(since, cursor))
  {
    SnapshotWellFormed(r, scope);
  }

  /** Rows remain past the n-th row of the feed exactly when the feed is longer. */
  lemma RestExactly(r: Records, scope: Scope, since: nat, after: nat, feed: seq<Entry>, n: nat)
    requires Coherent(r) && since <= after && feed == Feed(Snapshot(r, scope), after) && 0 < n <= |feed|
    ensures IndexRowsAfter(r.index, scope, since, feed[n-1].storeRevision) != {} <==> n < |feed|
  {
    hide Coherent, Snapshot, Feed, IndexRowsAfter, RowsAfter;
    var last := feed[n-1].storeRevision;
    var snapshot := Snapshot(r, scope);
    assert last > after && (RowsAfter(snapshot, last) != {} <==> n < |feed|) by {
      SnapshotWellFormed(r, scope);
      MoreRowsExactly(snapshot, r.counter, after, n);
    }
    assert IndexRowsAfter(r.index, scope, since, last) == RowsAfter(snapshot, last) by {
      QueryRows(r, scope, since, last);
    }
  }

  lemma OrderedRowsAreFeed(
      snapshot: Replica, counter: nat, after: nat, rows: set<RecordKey>, before: (RecordKey, RecordKey) -> bool)
    requires WellFormed(snapshot, counter)
    requires rows == RowsAfter(snapshot, after)
    requires forall a, b | a in rows && b in rows :: before(a, b) <==> snapshot[a].storeRevision < snapshot[b].storeRevision
    ensures var keys, feed := OrderBy(rows, before), Feed(snapshot, after);
      |keys| == |feed| && forall i | 0 <= i < |keys| :: keys[i] in snapshot && snapshot[keys[i]] == feed[i]
  {
    hide OrderBy;
    OrderByLists(rows, before);
    OrderByUnique(rows, FeedOrder(snapshot), OrderBy(rows, before));
  }

  /** Row keys beside the entries they stand for. */
  ghost predicate RowsShow(r: Records, keys: seq<RecordKey>, feed: seq<Entry>) {
    |keys| <= |feed| && forall i | 0 <= i < |keys| :: keys[i] in r.index && EntryOf(r, keys[i]) == Some(feed[i])
  }

  /** The ordered index query and the feed of the snapshot are the same rows. */
  lemma QueryIsFeed(r: Records, scope: Scope, since: nat, cursor: nat)
    requires Coherent(r)
    ensures var keys := OrderBy(IndexRowsAfter(r.index, scope, since, cursor), (a, b) => RevisionBefore(r.index, a, b));
      var feed := Feed(Snapshot(r, scope), Max(since, cursor));
      |keys| == |feed| && RowsShow(r, keys, feed)
  {
    var snapshot := Snapshot(r, scope);
    SnapshotWellFormed(r, scope);
    QueryRows(r, scope, since, cursor);
    OrderedRowsAreFeed(snapshot, r.counter, Max(since, cursor), RowsAfter(snapshot, Max(since, cursor)),
                       (a, b) => RevisionBefore(r.index, a, b));
  }

  lemma {:induction false} PutAllFails(r: Records, ops: seq<Operation>, n: nat, revision: nat, stamp: Stamp)
    requires n <= |ops| && PutAll(r, ops[..n], revision, stamp).None?
    ensures PutAll(r, ops, revision, stamp).None?
    decreases |ops| - n
  {
    if n < |ops| {
      assert ops[..n+1][..n] == ops[..n];
      PutAllFails(r, ops, n + 1, revision, stamp);
    } else {
      assert ops[..n] == ops;
    }
  }

  lemma {:induction false} CommitFailure(r: Records, repo: string, inputs: seq<CommitInput>, n: nat, now: int)
    requires n <= |inputs| && !PublishCommits(r, repo, inputs[..n], now).Published?
    ensures PublishCommits(r, repo, inputs, now) == PublishCommits(r, repo, inputs[..n], now)
    decreases |inputs| - n
  {
    if n < |inputs| {
      assert inputs[..n+1][..n] == inputs[..n];
      CommitFailure(r, repo, inputs, n + 1, now);
    } else {
      assert inputs[..n] == inputs;
    }
  }
}
