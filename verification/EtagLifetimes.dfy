/**
 How long a response is served from the ETag cache: from the store or the last confirmation until
 thirty days later, which confirmations are accepted, and when cleanup and recounts happen.
 */
module EtagLifetimes {
  import opened Basics
  import opened EtagCache

  /** A stored response is served for thirty days, as it was stored, while its row is there. */
  lemma StoredIsServed(
      c: Cache, key: string, etag: string, body: Bytes, digest: string, t: int, after: Cache, now: int)
    requires Stored(c, key, NewEntry(etag, body, digest, t), t, after) && key in after.entries
    ensures Found(after.entries, key, now) ==
      if now < t + 30 * 24 * 3600 * 1000
      then Some(Entry(etag, body, digest, t, t, t + 30 * 24 * 3600 * 1000)) else None
  {
    hide Cleaned, Oldest, Recounted;
    var entry := NewEntry(etag, body, digest, t);
    var cleaned :| Cleaned(c, t, cleaned) && after == Capped(Upserted(cleaned, key, entry));
    CapOnlyEvicts(Upserted(cleaned, key, entry));
    assert after.entries[key] == entry;
  }

  /** A confirmation is accepted exactly for the tag and digest of a response that is still served. */
  lemma ConfirmExactly(entries: map<string, Entry>, key: string, etag: string, digest: string, now: int)
    ensures Confirms(entries, key, etag, digest, now) <==>
      key in entries && now < entries[key].expiresAt && entries[key].etag == etag && entries[key].digest == digest
  {
  }

  /** It then serves the same response for thirty days more, and touches no other row and no count. */
  lemma ConfirmedIsServed(c: Cache, key: string, etag: string, digest: string, t: int, after: Cache, now: int)
    requires Next(c, Confirm304(key, etag, digest, t), after) && Confirms(c.entries, key, etag, digest, t)
    ensures var was := c.entries[key];
      Found(after.entries, key, now) ==
        if now < t + 30 * 24 * 3600 * 1000
        then Some(Entry(was.etag, was.body, was.digest, was.responseAt, t, t + 30 * 24 * 3600 * 1000)) else None
    ensures after.entries.Keys == c.entries.Keys
    ensures forall k | k in c.entries && k != key :: after.entries[k] == c.entries[k]
    ensures after == c.(entries := after.entries)
  {
  }

  /** What is not accepted changes nothing. */
  lemma RefusedConfirmation(c: Cache, key: string, etag: string, digest: string, now: int, after: Cache)
    requires Next(c, Confirm304(key, etag, digest, now), after) && !Confirms(c.entries, key, etag, digest, now)
    ensures after == c
  {
  }

  /** So a response confirmed again and again with its own tag and digest, within thirty days each time, stays. */
  lemma {:induction false} KeptAlive(caches: seq<Cache>, key: string, times: seq<int>)
    requires |caches| == |times| && times != [] && key in caches[0].entries
    requires caches[0].entries[key].expiresAt == times[0] + 30 * 24 * 3600 * 1000
    requires forall i | 0 < i < |times| :: times[i-1] <= times[i] < times[i-1] + 30 * 24 * 3600 * 1000
    requires forall i | 0 < i < |times| ::
      Next(caches[i-1], Confirm304(key, caches[0].entries[key].etag, caches[0].entries[key].digest, times[i]), caches[i])
    ensures var n := |times| - 1;
      && key in caches[n].entries && caches[n].entries[key].expiresAt == times[n] + 30 * 24 * 3600 * 1000
      && caches[n].entries[key].etag == caches[0].entries[key].etag
      && caches[n].entries[key].body == caches[0].entries[key].body
      && caches[n].entries[key].digest == caches[0].entries[key].digest
  {
    var n := |times| - 1;
    if n > 0 {
      KeptAlive(caches[..n], key, times[..n]);
      var first := caches[0].entries[key];
      assert caches[..n][0] == caches[0];
      ConfirmExactly(caches[n-1].entries, key, first.etag, first.digest, times[n]);
      ConfirmedIsServed(caches[n-1], key, first.etag, first.digest, times[n], caches[n], times[n]);
    }
  }

  // ------------------------------------------------------------------ cleanup

  predicate Due(c: Cache, now: int) {
    c.lastCleanupAt.None? || now >= c.lastCleanupAt.value + 60 * 1000
  }

  function Expired(entries: map<string, Entry>, now: int): set<string> {
    set k | k in entries && entries[k].expiresAt <= now
  }

  /**
   Cleanup runs at most once a minute. It then deletes min(128, expired) rows, those that expired
   first, notes the time, and takes them off a count that is there.
   */
  lemma CleanupExactly(c: Cache, now: int, after: Cache)
    requires Cleaned(c, now, after)
    ensures if Due(c, now) then CleanedUp(c, now, after) else after == c
  {
    hide CleanupSet, WithoutExpired, CleanedUp;
    if Due(c, now) {
      var removed :| CleanupSet(c.entries, now, removed) && after == WithoutExpired(c, removed, now);
      RemovedFirst(c, now, removed);
    }
  }

  predicate CleanedUp(c: Cache, now: int, after: Cache) {
    var deleted := Min(128, |Expired(c.entries, now)|);
    && FirstExpiredGone(c.entries, after.entries, now) && |after.entries| == |c.entries| - deleted
    && after.entryCount == (if c.entryCount.None? then None else Some(c.entryCount.value - deleted))
    && after.lastCleanupAt == Some(now) && after.storesSinceCount == c.storesSinceCount
  }

  /** The rows left are as they were, and the rows gone had expired, none later than an expired row that is left. */
  predicate FirstExpiredGone(before: map<string, Entry>, after: map<string, Entry>, now: int) {
    && (forall k | k in after :: k in before && after[k] == before[k])
    && (forall k | k in before && k !in after :: before[k].expiresAt <= now)
    && (forall a, b | a in before && a !in after && b in after && before[b].expiresAt <= now ::
          before[a].expiresAt <= before[b].expiresAt)
  }

  lemma RemovedFirst(c: Cache, now: int, removed: set<string>)
    requires CleanupSet(c.entries, now, removed)
    ensures CleanedUp(c, now, WithoutExpired(c, removed, now))
  {
    assert ExpiredKeys(c.entries, now) == Expired(c.entries, now);
    RemovalCount(c.entries, removed);
  }

  // ------------------------------------------------------------------ recounts

  /** A store leaves a count, taken anew on the 64th store since the last one or when there was none. */
  lemma RecountExactly(c: Cache, key: string, entry: Entry, now: int, after: Cache)
    requires Counted(c) && Stored(c, key, entry, now, after)
    ensures after.entryCount == Some(|after.entries|)
    ensures after.storesSinceCount == if c.entryCount.None? || c.storesSinceCount >= 63 then 0 else c.storesSinceCount + 1
  {
    hide Oldest, CleanupSet, Evicted;
    var cleaned :| Cleaned(c, now, cleaned) && after == Capped(Upserted(cleaned, key, entry));
    CleanupExactly(c, now, cleaned);
    CleanupKeepsCount(c, now, cleaned);
    UpsertKeepsCount(cleaned, key, entry);
    CapLaw(Upserted(cleaned, key, entry));
  }

  /** So at most 64 stores go by between two counts, over every run. */
  lemma {:induction false} RecountsOften(caches: seq<Cache>, steps: seq<Step>)
    requires Behaviour(caches, steps)
    ensures caches[|steps|].storesSinceCount < 64 && |caches[|steps|].entries| <= 2048
  {
    hide Counted, Cleaned, Stored, Confirms;
    RunLaw(caches, steps);
    if steps != [] {
      var n := |steps| - 1;
      RecountsOften(caches[..n+1], steps[..n]);
      RunLaw(caches[..n+1], steps[..n]);
      match steps[n]
      case Lookup(_, now) => CleanupExactly(caches[n], now, caches[n+1]);
      case Store200(key, entry, now) => RecountExactly(caches[n], key, entry, now, caches[n+1]);
      case FailedStore =>
      case Confirm304(_, _, _, _) =>
    }
  }

  /** A store that failed leaves the rows as they were, and the next one counts. */
  lemma FailureRecounts(c: Cache, failed: Cache)
    requires Next(c, FailedStore, failed)
    ensures failed.entries == c.entries && failed.lastCleanupAt == c.lastCleanupAt
    ensures failed.entryCount.None? && failed.storesSinceCount == 0
  {
  }
}
