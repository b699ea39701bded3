/**
 Seeding the export index: canonical records written before there was an index get their rows, in
 key order, and the store then meets the invariant every other operation keeps.
 */
module ExportSeed {
  import opened Basics
  import opened SqlOrder
  import opened Blobs
  import opened RecordTables

  function SectionRank(section: Section): nat {
    match section
    case Closed => 0
    case Commits => 1
    case DecisionPackets => 2
    case Items => 3
    case Plans => 4
  }

  /** ORDER BY repo_slug, section, item_id */
  predicate KeyBefore(a: RecordKey, b: RecordKey) {
    TextBefore(a.repo, b.repo)
    || (a.repo == b.repo && SectionRank(a.section) < SectionRank(b.section))
    || (a.repo == b.repo && a.section == b.section && a.id.ItemId? && b.id.ItemId? && a.id.n < b.id.n)
  }

  lemma KeyOrderTotal(keys: set<RecordKey>)
    requires forall k | k in keys :: TupleKey(k)
    ensures TotalOn(keys, KeyBefore)
  {
    TextOrderTotal();
  }

  function Unindexed(r: Records): set<RecordKey> {
    set k | k in r.canonical && k !in r.index
  }

  function IndexRowOf(row: CanonicalRow, storeRevision: nat): IndexRow {
    IndexRow(row.digest, row.deleted, row.revision, storeRevision, Canonical, row.updatedAt)
  }

  function SeedRow(r: Records, k: RecordKey): Records
    requires k in r.canonical
  {
    r.(index := r.index[k := IndexRowOf(r.canonical[k], r.counter + 1)], counter := r.counter + 1)
  }

  /** One row after another; None where the store revision cannot be allocated. */
  function SeedRows(r: Records, keys: seq<RecordKey>): Option<Records>
    requires forall k | k in keys :: k in r.canonical
    decreases |keys|
  {
    if keys == [] then Some(r)
    else if r.counter + 1 > MAX_SAFE_INTEGER then None
    else SeedRows(SeedRow(r, keys[0]), keys[1..])
  }

  function Seed(r: Records): Option<Records> {
    SeedRows(r, OrderBy(Unindexed(r), KeyBefore))
  }

  /** A coherent store, but for canonical records that have no index row yet. */
  ghost predicate CoherentWhereIndexed(r: Records) {
    && (forall k | k in r.canonical :: RowStored(r, k) && (k in r.index ==> RowIndexed(r, k)))
    && (forall k | k in r.backfill :: BackfillCoherent(r, k))
    && (forall k | k in r.index :: IndexCoherent(r, k))
    && DistinctRevisions(r.index)
    && (forall c | c in r.chunks :: c.record in r.canonical)
    && (forall c | c in r.backfillChunks :: c.record in r.backfill)
    && r.counter <= MAX_SAFE_INTEGER
  }

  lemma SeedRowIndex(r: Records, k: RecordKey)
    requires k in r.canonical && k !in r.index && RowStored(r, k)
    requires forall x | x in r.index :: IndexCoherent(r, x)
    requires DistinctRevisions(r.index)
    ensures forall x | x in SeedRow(r, k).index :: IndexCoherent(SeedRow(r, k), x)
    ensures DistinctRevisions(SeedRow(r, k).index)
  {
    hide BlobCoherent, ExactChunks;
    var after := SeedRow(r, k);
    forall x | x in r.index ensures IndexCoherent(r, x) && r.index[x].storeRevision < r.counter + 1 {}
    forall x | x in after.index ensures IndexCoherent(after, x) { assert x in r.index ==> IndexCoherent(r, x); }
  }

  lemma SeedRowStored(r: Records, k: RecordKey, x: RecordKey)
    requires k in r.canonical && k !in r.index && x in r.canonical && RowStored(r, x) && (x in r.index ==> RowIndexed(r, x))
    ensures RowStored(SeedRow(r, k), x) && (x in SeedRow(r, k).index ==> RowIndexed(SeedRow(r, k), x))
  {
    hide BlobCoherent, ExactChunks;
  }

  lemma SeedRowAdvances(r: Records, k: RecordKey)
    requires k in r.canonical && k !in r.index
    ensures Advances(r, SeedRow(r, k))
  {
    hide ReadBlob;
    forall x | x in r.index ensures EntryOf(SeedRow(r, k), x) == EntryOf(r, x) {}
  }

  lemma SeedRowKeeps(r: Records, k: RecordKey)
    requires CoherentWhereIndexed(r) && k in r.canonical && k !in r.index && r.counter + 1 <= MAX_SAFE_INTEGER
    ensures CoherentWhereIndexed(SeedRow(r, k)) && Advances(r, SeedRow(r, k))
  {
    hide RowStored, RowIndexed, BlobCoherent, IndexCoherent, DistinctRevisions, Advances;
    var after := SeedRow(r, k);
    SeedRowIndex(r, k);
    SeedRowAdvances(r, k);
    forall x | x in r.canonical ensures RowStored(after, x) && (x in after.index ==> RowIndexed(after, x)) {
      SeedRowStored(r, k, x);
    }
    forall x | x in r.backfill ensures BackfillCoherent(after, x) { assert BackfillCoherent(r, x); }
  }

  /**
   Seeding adds exactly the missing rows, each under a store revision of its own above every one
   given out before, and ends coherent; it fails exactly when the revisions run out.
   */
  lemma {:induction false} SeedRowsLaw(r: Records, keys: seq<RecordKey>)
    requires CoherentWhereIndexed(r) && (forall k | k in keys :: k in r.canonical && k !in r.index)
    requires forall i, j | 0 <= i < j < |keys| :: keys[i] != keys[j]
    ensures SeedRows(r, keys).Some? <==> r.counter + |keys| <= MAX_SAFE_INTEGER
    ensures SeedRows(r, keys).Some? ==>
      var after := SeedRows(r, keys).value;
      && CoherentWhereIndexed(after) && Advances(r, after)
      && after.counter == r.counter + |keys| && after.canonical == r.canonical
      && (forall k :: k in after.index <==> k in r.index || k in keys)
      && (forall k | k in r.index :: after.index[k] == r.index[k])
    decreases |keys|
  {
    hide CoherentWhereIndexed, Advances, RowStored;
    CounterInRange(r);
    if keys == [] {
      AdvancesSelf(r);
    } else if r.counter + 1 <= MAX_SAFE_INTEGER {
      var next := SeedRow(r, keys[0]);
      SeedRowKeeps(r, keys[0]);
      assert forall k | k in keys[1..] :: k != keys[0];
      SeedRowsLaw(next, keys[1..]);
      assert keys == [keys[0]] + keys[1..];
      if SeedRows(r, keys).Some? { AdvancesTransitive(r, next, SeedRows(r, keys).value); }
    }
  }

  lemma CounterInRange(r: Records)
    requires CoherentWhereIndexed(r)
    ensures r.counter <= MAX_SAFE_INTEGER
  {
  }

  lemma AdvancesSelf(r: Records)
    ensures Advances(r, r)
  {
  }

  lemma SeedLaw(r: Records)
    requires CoherentWhereIndexed(r)
    ensures Seed(r).Some? <==> r.counter + |Unindexed(r)| <= MAX_SAFE_INTEGER
    ensures Seed(r).Some? ==> Coherent(Seed(r).value) && Advances(r, Seed(r).value)
    ensures Seed(r).Some? ==> forall k | k in r.index :: Seed(r).value.index[k] == r.index[k]
    ensures Coherent(r) ==> Seed(r) == Some(r)
  {
    hide CoherentWhereIndexed, Advances, RowStored, OrderBy, SeedRows, KeyBefore, TotalOn;
    var keys := OrderBy(Unindexed(r), KeyBefore);
    SeedKeys(r);
    SeedRowsLaw(r, keys);
    if Seed(r).Some? {
      assert forall k | k in r.canonical :: k in r.index || k in Unindexed(r);
      FullyIndexed(Seed(r).value);
    }
    if Coherent(r) { NothingToSeed(r); }
  }

  lemma SeedKeys(r: Records)
    requires CoherentWhereIndexed(r)
    ensures var keys := OrderBy(Unindexed(r), KeyBefore);
      && |keys| == |Unindexed(r)| && (forall k :: k in keys <==> k in Unindexed(r))
      && (forall i, j | 0 <= i < j < |keys| :: keys[i] != keys[j])
  {
    hide OrderBy, RowIndexed, BackfillCoherent, IndexCoherent;
    forall k | k in Unindexed(r) ensures TupleKey(k) { assert RowStored(r, k); }
    KeyOrderTotal(Unindexed(r));
    OrderByLists(Unindexed(r), KeyBefore);
  }

  lemma UnindexedAreCanonical(r: Records)
    ensures forall k | k in Unindexed(r) :: k in r.canonical
  {
  }

  lemma FullyIndexed(r: Records)
    requires CoherentWhereIndexed(r) && forall k | k in r.canonical :: k in r.index
    ensures Coherent(r)
  {
  }

  lemma NothingToSeed(r: Records)
    requires Coherent(r)
    ensures Seed(r) == Some(r)
  {
    forall k | k in r.canonical ensures k in r.index { assert RowCoherent(r, k); }
    assert Unindexed(r) == {};
    OrderByNone();
  }

  lemma OrderByNone()
    ensures OrderBy({}, KeyBefore) == []
  {
  }
}
