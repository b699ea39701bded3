/**
 The reads of the publication batches: what a snapshot of the active leases lists, and what stats
 deletes and counts. Over a sound table their numbers can be had without the joins and filters.
 */
module BatchReports {
  import opened Basics
  import opened SqlOrder
  import opened PublicationBatches
  import opened BatchLaws

  // ------------------------------------------------------------------ snapshots

  /** The read-only snapshot is the same as the one that reclaims first. */
  lemma SnapshotNeedsNoReclaim(s: Tables, now: int)
    ensures ActiveMembers(Reclaim(s, now), now) == ActiveMembers(s, now)
    ensures SnapshotOf(Reclaim(s, now), now) == SnapshotOf(s, now)
  {
    hide OrderBy, Least;
    var r, ids := Reclaim(s, now), BatchIds(ActiveMembers(s, now));
    assert ActiveMembers(r, now) == ActiveMembers(s, now);
    assert forall b | b in ids :: b in s.batches && r.batches[b] == s.batches[b];
    assert Expiries(r, ids) == Expiries(s, ids);
  }

  lemma ByItemKeyTotal(rows: set<MemberKey>)
    ensures TotalOn(rows, ByItemKey())
  {
    TextOrderTotal();
  }

  /** No lease has lapsed, as after a reclaim. */
  predicate NoneLapsed(s: Tables, now: int) {
    forall b | b in LeasedBatches(s) :: s.batches[b].expiresAt > now
  }

  function Unfinished(s: Tables): set<MemberKey> {
    set mk | mk in s.members && s.members[mk].outcome.None?
  }

  /** Then the active rows are the unfinished memberships, and every leased batch has one. */
  lemma ActiveIsUnfinished(s: Tables, now: int)
    requires Sound(s) && NoneLapsed(s, now)
    ensures ActiveMembers(s, now) == Unfinished(s)
    ensures BatchIds(Unfinished(s)) == LeasedBatches(s)
    ensures forall x, y | x in Unfinished(s) && y in Unfinished(s) && x.itemKey == y.itemKey :: x == y
  {
    hide BatchSound;
    forall mk | mk in s.members ensures MemberSound(s, mk) {}
    assert ActiveMembers(s, now) == Unfinished(s);
    forall b | b in LeasedBatches(s) ensures b in BatchIds(Unfinished(s)) {
      assert Occupied(s, b);
      var mk :| mk in UnfinishedOf(s, b);
      assert mk in Unfinished(s);
    }
  }

  lemma ReclaimLapses(s: Tables, now: int)
    requires Sound(s)
    ensures Sound(Reclaim(s, now)) && NoneLapsed(Reclaim(s, now), now)
  {
    hide SoundBut, Follows;
    ReclaimLaw(s, now);
  }

  /** What a snapshot of a table without lapsed leases says. */
  lemma SnapshotOfLeases(s: Tables, now: int)
    requires Sound(s) && NoneLapsed(s, now)
    ensures var snapshot := SnapshotOf(s, now);
      && (forall i, j | 0 <= i < j < |snapshot.items| :: TextBefore(snapshot.items[i].itemKey, snapshot.items[j].itemKey))
      && (forall mk :: mk in snapshot.items <==> mk in Unfinished(s)) && |snapshot.items| == |Unfinished(s)|
      && snapshot.activeBatches == |LeasedBatches(s)|
      && snapshot.nextLeaseExpiresAt == Least(Expiries(s, LeasedBatches(s)))
  {
    hide SoundBut, NoneLapsed, LeasedBatches, ActiveMembers, Unfinished, BatchIds, Expiries, TextBefore, Least,
      OrderBy;
    ActiveIsUnfinished(s, now);
    ByItemKeyTotal(Unfinished(s));
    OrderByLists(Unfinished(s), ByItemKey());
  }

  /**
   A snapshot lists each owned item once, by item key, under the batch that owns it, counts the
   leased batches as they are after a reclaim, and names the first of their leases to lapse.
   */
  lemma SnapshotLaw(s: Tables, now: int)
    requires Sound(s)
    ensures var r, snapshot := Reclaim(s, now), SnapshotOf(s, now);
      && (forall i, j | 0 <= i < j < |snapshot.items| :: TextBefore(snapshot.items[i].itemKey, snapshot.items[j].itemKey))
      && (forall mk | mk in snapshot.items :: Owns(r, mk.batchId, mk.itemKey))
      && (forall b, itemKey | Owns(r, b, itemKey) :: MemberKey(b, itemKey) in snapshot.items)
      && snapshot.activeBatches == |LeasedBatches(r)|
      && snapshot.nextLeaseExpiresAt == Least(Expiries(r, LeasedBatches(r)))
  {
    hide SoundBut, Follows, NoneLapsed, LeasedBatches, Unfinished, Expiries, TextBefore, Least, OrderBy, SnapshotOf,
      Reclaim;
    var r := Reclaim(s, now);
    ReclaimLapses(s, now);
    SnapshotNeedsNoReclaim(s, now);
    SnapshotOfLeases(r, now);
    UnfinishedOwns(r);
  }

  /** Some fence of the item passes the ownership query for this batch. */
  ghost predicate Owns(s: Tables, b: string, itemKey: string) {
    b in s.batches && s.batches[b].state == Leased && exists f: Fence :: f.itemKey == itemKey && Holds(s, b, f)
  }

  lemma UnfinishedOwns(s: Tables)
    requires Sound(s)
    ensures forall mk | mk in Unfinished(s) :: Owns(s, mk.batchId, mk.itemKey)
    ensures forall b, itemKey | Owns(s, b, itemKey) :: MemberKey(b, itemKey) in Unfinished(s)
  {
    hide Fenced, BatchSound, Occupied;
    forall mk | mk in Unfinished(s) ensures Owns(s, mk.batchId, mk.itemKey) {
      assert MemberSound(s, mk);
      assert MemberKey(mk.batchId, mk.itemKey) == mk && Holds(s, mk.batchId, FenceOf(mk, s.members[mk]));
    }
  }

  // ------------------------------------------------------------------ cleanup

  lemma WithoutEligible(s: Tables, ids: set<string>, cutoff: int)
    requires Sound(s) && ids <= Eligible(s, cutoff)
    ensures var after := WithoutBatches(s, ids);
      Eligible(after, cutoff) == Eligible(s, cutoff) - ids && LeasedBatches(after) == LeasedBatches(s)
    ensures Unfinished(WithoutBatches(s, ids)) == Unfinished(s)
    ensures forall now | NoneLapsed(s, now) :: NoneLapsed(WithoutBatches(s, ids), now)
  {
    hide Fenced, BatchSound, Occupied;
    forall mk | mk in s.members && s.members[mk].outcome.None? ensures mk.batchId !in ids {
      assert MemberSound(s, mk);
    }
  }

  lemma WithoutCount(s: Tables, ids: set<string>)
    requires ids <= s.batches.Keys
    ensures var after := WithoutBatches(s, ids);
      && |after.batches| == |s.batches| - |ids| && after.generations == s.generations
      && (forall b | b in s.batches && b !in after.batches :: b in ids)
  {
    var after := WithoutBatches(s, ids);
    assert after.batches.Keys == s.batches.Keys - ids;
    KeyCount(s);
    KeyCount(after);
  }

  lemma KeyCount(s: Tables)
    ensures |s.batches| == |s.batches.Keys|
  {
  }

  lemma CleanupIdsLaw(s: Tables, cutoff: int, limit: int)
    ensures var ids, eligible := CleanupIds(s, cutoff, limit), Eligible(s, cutoff);
      && ids <= eligible && |ids| == (if limit < 0 then |eligible| else Min(limit, |eligible|))
      && (forall gone, kept | gone in ids && kept in eligible - ids :: ByTimeThenKey(FinishTimes(s))(gone, kept))
  {
    var times := FinishTimes(s);
    ByTimeThenKeyTotal(times);
    assert Eligible(s, cutoff) <= times.Keys;
    if limit >= 0 {
      FirstRowsAreLeast(Eligible(s, cutoff), ByTimeThenKey(times), limit);
    }
  }

  /**
   Cleanup deletes min(limit, eligible) finished batches, the oldest, so deleted plus remaining is
   what was eligible; generations, leased batches and owned items are untouched.
   */
  lemma CleanupLaw(s: Tables, now: int, ttl: int, limit: int)
    requires Sound(s)
    ensures var r, cutoff := Reclaim(s, now), now - ttl;
      var (after, report) := Stats(s, now, ttl, limit);
      && report.deleted == (if limit < 0 then |Eligible(r, cutoff)| else Min(limit, |Eligible(r, cutoff)|))
      && report.deleted + report.remaining == |Eligible(r, cutoff)|
      && after.generations == s.generations && LeasedBatches(after) == LeasedBatches(r)
      && Unfinished(after) == Unfinished(r) && |after.batches| == |r.batches| - report.deleted
      && (forall gone, kept | gone in r.batches && gone !in after.batches && kept in Eligible(after, cutoff) ::
            ByTimeThenKey(FinishTimes(r))(gone, kept))
      && NoneLapsed(after, now)
  {
    hide SoundBut, Follows, FirstRows, ByTimeThenKey, Reclaim, CleanupIds, FinishTimes, Eligible, LeasedBatches,
      Unfinished, NoneLapsed, SnapshotOf, ReclaimedItems, InState, Least, WithoutBatches, CreationTimes;
    var r, cutoff := Reclaim(s, now), now - ttl;
    var ids := CleanupIds(r, cutoff, limit);
    ReclaimLapses(s, now);
    ReclaimKeepsRows(s, now);
    CleanupIdsLaw(r, cutoff, limit);
    WithoutEligible(r, ids, cutoff);
    EligibleIsBatch(r, cutoff);
    WithoutCount(r, ids);
  }

  lemma EligibleIsBatch(s: Tables, cutoff: int)
    ensures Eligible(s, cutoff) <= s.batches.Keys
  {
  }

  lemma ReclaimKeepsRows(s: Tables, now: int)
    ensures Reclaim(s, now).generations == s.generations && |Reclaim(s, now).batches| == |s.batches|
    ensures Reclaim(s, now).members.Keys == s.members.Keys
  {
    assert Reclaim(s, now).batches.Keys == s.batches.Keys;
    KeyCount(s);
    KeyCount(Reclaim(s, now));
  }

  // ------------------------------------------------------------------ the report

  lemma StatesPartition(s: Tables)
    ensures |LeasedBatches(s)| + |InState(s, Completed)| + |InState(s, Expired)| == |s.batches|
  {
    var leased, completed, expired := LeasedBatches(s), InState(s, Completed), InState(s, Expired);
    assert leased !! completed && (leased + completed) !! expired;
    assert leased + completed + expired == s.batches.Keys;
    KeyCount(s);
  }

  /**
   The report accounts for every batch: leased, completed, expired and deleted ones add up to those
   there were. The lease figures agree with one another: the active rows are the unfinished
   memberships, and leased batches, next expiry and oldest creation speak of the same batches.
   */
  lemma StatsLaw(s: Tables, now: int, ttl: int, limit: int)
    requires Sound(s)
    ensures var (after, report) := Stats(s, now, ttl, limit);
      && report.leased + report.completed + report.expired + report.deleted == |s.batches|
      && report.leased == report.active.activeBatches == |LeasedBatches(after)|
      && report.oldestActiveAt == Least(CreationTimes(after, LeasedBatches(after)))
      && report.active.nextLeaseExpiresAt == Least(Expiries(after, LeasedBatches(after)))
      && |report.active.items| == |Unfinished(after)|
      && (forall mk :: mk in report.active.items <==> mk in Unfinished(after))
  {
    hide SoundBut, Follows, Reclaim, CleanupIds, Eligible, LeasedBatches, Unfinished, NoneLapsed, SnapshotOf,
      ReclaimedItems, InState, Least, Expiries, CreationTimes, WithoutBatches;
    var after := Stats(s, now, ttl, limit).0;
    CleanupLaw(s, now, ttl, limit);
    ReclaimKeepsRows(s, now);
    StatsSound(s, now, ttl, limit);
    StatesPartition(after);
    SnapshotOfLeases(after, now);
  }

  /** What was owned before is owned after, or counted as reclaimed, or gone with its finished batch. */
  lemma OwnedOrReclaimed(s: Tables, now: int, ttl: int, limit: int, mk: MemberKey)
    requires Sound(s) && mk in Unfinished(s)
    ensures var after := Stats(s, now, ttl, limit).0;
      mk in Unfinished(after) || mk in ReclaimedItems(after) || mk.batchId !in after.batches
  {
    hide Fenced, BatchSound, Occupied, FirstRows;
    assert MemberSound(s, mk);
  }
}
