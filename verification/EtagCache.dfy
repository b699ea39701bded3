/**
 The ETag response cache: a bounded table with a cached row count that is dropped, reused and
 reconciled. The laws say the cached count never misleads the eviction: every store does what a
 store that counted the table itself would do.
 */
module EtagCache {
  import opened Basics
  import opened SqlOrder

  datatype Entry = Entry(etag: string, body: Bytes, digest: string, responseAt: int, validatedAt: int, expiresAt: int)

  datatype Cache = Cache(
    entries: map<string, Entry>, entryCount: Option<int>, storesSinceCount: nat, lastCleanupAt: Option<int>)

  const EMPTY := Cache(map[], None, 0, None)

  const MAX_ENTRIES: nat := 2048
  const RETENTION_MS: int := 2592000000
  const CLEANUP_LIMIT: nat := 128
  const CLEANUP_INTERVAL_MS: int := 60000
  const RECONCILE_STORES: nat := 64

  // ------------------------------------------------------------------ cleanup

  function ExpiredKeys(entries: map<string, Entry>, now: int): set<string> {
    set k | k in entries && entries[k].expiresAt <= now
  }

  /** What DELETE ... ORDER BY expires_at LIMIT 128 may delete: ties are the database's choice. */
  predicate CleanupSet(entries: map<string, Entry>, now: int, gone: set<string>) {
    && gone <= ExpiredKeys(entries, now)
    && |gone| == Min(CLEANUP_LIMIT, |ExpiredKeys(entries, now)|)
    && (forall a, b | a in gone && b in ExpiredKeys(entries, now) && b !in gone :: entries[a].expiresAt <= entries[b].expiresAt)
  }

  function ExpiryTimes(entries: map<string, Entry>): map<string, int> {
    map k | k in entries :: entries[k].expiresAt
  }

  lemma CleanupSetExists(entries: map<string, Entry>, now: int)
    ensures exists gone :: gone <= ExpiredKeys(entries, now) && CleanupSet(entries, now, gone)
  {
    hide FirstRows;
    var times, expired := ExpiryTimes(entries), ExpiredKeys(entries, now);
    ByTimeThenKeyTotal(times);
    assert times.Keys == entries.Keys;
    FirstRowsAreLeast(expired, ByTimeThenKey(times), CLEANUP_LIMIT);
    var gone := FirstRows(expired, ByTimeThenKey(times), CLEANUP_LIMIT);
    forall a, b | a in gone && b in expired && b !in gone ensures entries[a].expiresAt <= entries[b].expiresAt {
      assert ByTimeThenKey(times)(a, b);
    }
    assert CleanupSet(entries, now, gone);
  }

  predicate CleanupDue(c: Cache, now: int) {
    c.lastCleanupAt.None? || now - c.lastCleanupAt.value >= CLEANUP_INTERVAL_MS
  }

  function WithoutExpired(c: Cache, gone: set<string>, now: int): Cache {
    Cache(c.entries - gone, if c.entryCount.Some? then Some(c.entryCount.value - |gone|) else None,
          c.storesSinceCount, Some(now))
  }

  ghost predicate Cleaned(c: Cache, now: int, after: Cache) {
    if CleanupDue(c, now) then exists gone :: CleanupSet(c.entries, now, gone) && after == WithoutExpired(c, gone, now)
    else after == c
  }

  // ------------------------------------------------------------------ store

  function ValidationTimes(entries: map<string, Entry>): map<string, int> {
    map k | k in entries :: entries[k].validatedAt
  }

  /** ORDER BY validated_at, cache_key LIMIT n */
  function Oldest(entries: map<string, Entry>, n: nat): set<string> {
    FirstRows(entries.Keys, ByTimeThenKey(ValidationTimes(entries)), n)
  }

  function Upserted(c: Cache, key: string, entry: Entry): Cache {
    c.(entries := c.entries[key := entry],
       entryCount := if c.entryCount.Some? && key !in c.entries then Some(c.entryCount.value + 1) else c.entryCount)
  }

  /** The count the cap goes by: the cached one, reconciled when there is none or every 64 stores. */
  function Recounted(c: Cache): (recounted: Cache)
    ensures recounted.entryCount.Some?
  {
    if c.entryCount.None? || c.storesSinceCount + 1 >= RECONCILE_STORES
    then c.(entryCount := Some(|c.entries|), storesSinceCount := 0)
    else c.(storesSinceCount := c.storesSinceCount + 1)
  }

  function Capped(c: Cache): Cache {
    var r := Recounted(c);
    var overflow := Max(0, r.entryCount.value - MAX_ENTRIES);
    if overflow == 0 then r
    else r.(entries := r.entries - Oldest(r.entries, overflow), entryCount := Some(r.entryCount.value - overflow))
  }

  function NewEntry(etag: string, body: Bytes, digest: string, now: int): Entry {
    Entry(etag, body, digest, now, now, now + RETENTION_MS)
  }

  ghost predicate Stored(c: Cache, key: string, entry: Entry, now: int, after: Cache) {
    exists cleaned :: Cleaned(c, now, cleaned) && after == Capped(Upserted(cleaned, key, entry))
  }

  /** A store whose transaction failed: the table as before, the count forgotten. */
  function RolledBack(c: Cache): Cache {
    c.(entryCount := None, storesSinceCount := 0)
  }

  // ------------------------------------------------------------------ lookup and confirmation

  function Found(entries: map<string, Entry>, key: string, now: int): Option<Entry> {
    if key in entries && entries[key].expiresAt > now then Some(entries[key]) else None
  }

  predicate Confirms(entries: map<string, Entry>, key: string, etag: string, digest: string, now: int) {
    var found := Found(entries, key, now);
    found.Some? && found.value.etag == etag && found.value.digest == digest
  }

  function Confirmed(c: Cache, key: string, now: int): Cache
    requires key in c.entries
  {
    c.(entries := c.entries[key := c.entries[key].(validatedAt := now, expiresAt := now + RETENTION_MS)])
  }

  datatype Step =
    | Lookup(key: string, now: int)
    | Store200(key: string, entry: Entry, now: int)
    | FailedStore
    | Confirm304(key: string, etag: string, digest: string, now: int)

  ghost predicate Next(c: Cache, step: Step, after: Cache) {
    match step
    case Lookup(_, now) => Cleaned(c, now, after)
    case Store200(key, entry, now) => Stored(c, key, entry, now, after)
    case FailedStore => after == RolledBack(c)
    case Confirm304(key, etag, digest, now) =>
      after == if Confirms(c.entries, key, etag, digest, now) then Confirmed(c, key, now) else c
  }

  // ------------------------------------------------------------------ the count refines the table

  /** The cached count, when there is one, is the number of rows. */
  predicate Counted(c: Cache) {
    c.entryCount.None? || c.entryCount.value == |c.entries|
  }

  lemma KeysCount(entries: map<string, Entry>)
    ensures |entries| == |entries.Keys|
  {
  }

  lemma RemovalCount(entries: map<string, Entry>, gone: set<string>)
    requires gone <= entries.Keys
    ensures |entries - gone| == |entries| - |gone|
  {
    assert (entries - gone).Keys == entries.Keys - gone;
    KeysCount(entries);
    KeysCount(entries - gone);
  }

  lemma CleanupKeepsCount(c: Cache, now: int, after: Cache)
    requires Counted(c) && Cleaned(c, now, after)
    ensures Counted(after) && after.entries.Keys <= c.entries.Keys && |after.entries| <= |c.entries|
    ensures forall k | k in after.entries :: after.entries[k] == c.entries[k]
    ensures forall k | k in c.entries && c.entries[k].expiresAt > now :: k in after.entries
  {
    if CleanupDue(c, now) {
      var gone :| CleanupSet(c.entries, now, gone) && after == WithoutExpired(c, gone, now);
      RemovalCount(c.entries, gone);
    }
  }

  lemma UpsertKeepsCount(c: Cache, key: string, entry: Entry)
    requires Counted(c)
    ensures Counted(Upserted(c, key, entry)) && |Upserted(c, key, entry).entries| <= |c.entries| + 1
  {
    var after := c.entries[key := entry];
    assert after.Keys == c.entries.Keys + {key};
    KeysCount(after);
    KeysCount(c.entries);
  }

  /** Evict by the actual size: what the cap is meant to do. */
  function Evicted(entries: map<string, Entry>): map<string, Entry> {
    entries - Oldest(entries, Max(0, |entries| - MAX_ENTRIES))
  }

  lemma OldestLaw(entries: map<string, Entry>, n: nat)
    ensures var first := Oldest(entries, n);
      && first <= entries.Keys && |first| == Min(n, |entries|)
      && (forall a, b | a in first && b in entries && b !in first :: ByTimeThenKey(ValidationTimes(entries))(a, b))
  {
    ByTimeThenKeyTotal(ValidationTimes(entries));
    assert ValidationTimes(entries).Keys == entries.Keys;
    KeysCount(entries);
    FirstRowsAreLeast(entries.Keys, ByTimeThenKey(ValidationTimes(entries)), n);
  }

  /** The cap by the cached count is the cap by the size, and ends within it. */
  lemma CapLaw(c: Cache)
    requires Counted(c)
    ensures Capped(c).entries == Evicted(c.entries)
    ensures Counted(Capped(c)) && |Capped(c).entries| == Min(MAX_ENTRIES, |c.entries|)
  {
    hide Oldest;
    var overflow := Max(0, |c.entries| - MAX_ENTRIES);
    assert Recounted(c).entryCount == Some(|c.entries|);
    OldestLaw(c.entries, overflow);
    RemovalCount(c.entries, Oldest(c.entries, overflow));
    assert overflow == 0 ==> c.entries - Oldest(c.entries, overflow) == c.entries;
  }

  lemma CapOnlyEvicts(c: Cache)
    ensures forall k | k in Capped(c).entries :: k in c.entries && Capped(c).entries[k] == c.entries[k]
  {
    hide Oldest;
  }

  /**
   A store leaves exactly what a store that counts its rows would leave: the cleaned table with the
   new row, less the oldest rows beyond the cap.
   */
  lemma StoreLaw(c: Cache, key: string, entry: Entry, now: int, after: Cache)
    requires Counted(c) && Stored(c, key, entry, now, after)
    ensures Counted(after) && |after.entries| <= MAX_ENTRIES
    ensures exists cleaned :: Cleaned(c, now, cleaned) && after.entries == Evicted(cleaned.entries[key := entry])
  {
    hide Cleaned, Capped, Counted, Evicted;
    var cleaned :| Cleaned(c, now, cleaned) && after == Capped(Upserted(cleaned, key, entry));
    CleanupKeepsCount(c, now, cleaned);
    UpsertKeepsCount(cleaned, key, entry);
    CapLaw(Upserted(cleaned, key, entry));
  }

  lemma NextLaw(c: Cache, step: Step, after: Cache)
    requires Counted(c) && Next(c, step, after)
    ensures Counted(after)
    ensures |c.entries| <= MAX_ENTRIES || step.Store200? ==> |after.entries| <= MAX_ENTRIES
  {
    hide Cleaned, Stored, Found;
    match step
    case Lookup(_, now) => CleanupKeepsCount(c, now, after);
    case Store200(key, entry, now) => StoreLaw(c, key, entry, now, after);
    case FailedStore =>
    case Confirm304(key, etag, digest, now) =>
      if Confirms(c.entries, key, etag, digest, now) {
        assert after.entries.Keys == c.entries.Keys by { ConfirmKeys(c, key, now, etag, digest); }
        KeysCount(c.entries);
        KeysCount(after.entries);
      }
  }

  lemma ConfirmKeys(c: Cache, key: string, now: int, etag: string, digest: string)
    requires Confirms(c.entries, key, etag, digest, now)
    ensures Confirmed(c, key, now).entries.Keys == c.entries.Keys
  {
  }

  ghost predicate Behaviour(caches: seq<Cache>, steps: seq<Step>) {
    |caches| == |steps| + 1 && caches[0] == EMPTY
    && forall i | 0 <= i < |steps| :: Next(caches[i], steps[i], caches[i+1])
  }

  /** In every reachable state the count is right and the table within its cap, rolled-back stores included. */
  lemma {:induction false} RunLaw(caches: seq<Cache>, steps: seq<Step>)
    requires Behaviour(caches, steps)
    ensures Counted(caches[|steps|]) && |caches[|steps|].entries| <= MAX_ENTRIES
  {
    hide Next, Counted;
    if steps == [] {
      EmptyCounted();
    } else {
      var n := |steps| - 1;
      RunLaw(caches[..n+1], steps[..n]);
      NextLaw(caches[n], steps[n], caches[n+1]);
    }
  }

  lemma EmptyCounted()
    ensures Counted(EMPTY) && |EMPTY.entries| == 0
  {
  }

  /**
   Within the cap at most one row is evicted, so the row just stored is still there unless the table
   was full and every other row comes after it: validated later, or at the same time under a greater key.
   */
  lemma StoredRowSurvives(entries: map<string, Entry>, key: string, entry: Entry)
    requires |entries| <= MAX_ENTRIES
    ensures var all := entries[key := entry];
      key in Evicted(all) <==>
        |all| <= MAX_ENTRIES || exists k :: k in all && k != key && ByTimeThenKey(ValidationTimes(all))(k, key)
  {
    var all := entries[key := entry];
    assert all.Keys == entries.Keys + {key};
    KeysCount(all);
    KeysCount(entries);
    var n := Max(0, |all| - MAX_ENTRIES);
    OldestLaw(all, n);
    var first := Oldest(all, n);
    ByTimeThenKeyTotal(ValidationTimes(all));
    hide Oldest, ByTimeThenKey;
    if n == 1 {
      var x :| x in first;
      assert first == {x} by { SingletonIs(first, x); }
      assert x != key ==> ByTimeThenKey(ValidationTimes(all))(x, key);
    }
  }

  /** n rows under the keys b, bb, bbb and so on, all with the same entry. */
  function Crowd(n: nat, entry: Entry): map<string, Entry> {
    if n == 0 then map[] else Crowd(n - 1, entry)[seq(n, _ => 'b') := entry]
  }

  lemma {:induction false} CrowdLaw(n: nat, entry: Entry)
    ensures |Crowd(n, entry)| == n
    ensures forall k | k in Crowd(n, entry) :: 0 < |k| <= n && k[0] == 'b' && Crowd(n, entry)[k] == entry
  {
    if n > 0 {
      CrowdLaw(n - 1, entry);
      var key := seq(n, _ => 'b');
      assert key !in Crowd(n - 1, entry);
      assert Crowd(n, entry).Keys == Crowd(n - 1, entry).Keys + {key};
      KeysCount(Crowd(n - 1, entry));
      KeysCount(Crowd(n, entry));
    }
  }

  /** It takes no clock running back: a full table validated in one millisecond evicts a lesser new key. */
  lemma StoredRowEvicted(entry: Entry)
    ensures var full := Crowd(MAX_ENTRIES, entry);
      |full| == MAX_ENTRIES && "a" !in full && "a" !in Evicted(full["a" := entry])
  {
    hide Evicted, Crowd;
    var full := Crowd(MAX_ENTRIES, entry);
    var all := full["a" := entry];
    CrowdLaw(MAX_ENTRIES, entry);
    StoredRowSurvives(full, "a", entry);
    assert all.Keys == full.Keys + {"a"};
    KeysCount(full);
    KeysCount(all);
    forall k | k in all && k != "a" ensures !ByTimeThenKey(ValidationTimes(all))(k, "a") {
      assert k in full && k[0] == 'b';
    }
  }

  lemma EntryDigest(etag: string, body: Bytes, digest: string, now: int)
    ensures NewEntry(etag, body, digest, now).digest == digest && NewEntry(etag, body, digest, now).body == body
  {
  }

  lemma SingletonIs(s: set<string>, x: string)
    requires |s| == 1 && x in s
    ensures s == {x}
  {
    assert |s - {x}| == 0;
    assert s == {x} + (s - {x});
  }

  // ------------------------------------------------------------------ the store

  class GithubEtagResponseStore {
    const sha256: Bytes -> string
    var entries: map<string, Entry>
    var entryCount: Option<int>
    var storesSinceCount: nat
    var lastCleanupAt: Option<int>

    function Contents(): Cache
      reads this
    {
      Cache(entries, entryCount, storesSinceCount, lastCleanupAt)
    }

    ghost predicate Valid()
      reads this
    {
      && Counted(Contents()) && |entries| <= MAX_ENTRIES
      && (forall k | k in entries :: entries[k].digest == sha256(entries[k].body))
    }

    constructor (hash: Bytes -> string)
      ensures Valid() && sha256 == hash && Contents() == EMPTY
    {
      sha256 := hash;
      entries, entryCount, storesSinceCount, lastCleanupAt := map[], None, 0, None;
    }

    method DeleteExpired(now: int)
      requires Counted(Contents())
      modifies this`entries, this`entryCount, this`lastCleanupAt
      ensures Cleaned(old(Contents()), now, Contents())
    {
      if lastCleanupAt.Some? && now - lastCleanupAt.value < CLEANUP_INTERVAL_MS {
        return;
      }
      CleanupSetExists(entries, now);
      var gone :| gone <= ExpiredKeys(entries, now) && CleanupSet(entries, now, gone);
      entries := entries - gone;
      if entryCount.Some? {
        entryCount := Some(entryCount.value - |gone|);
      }
      lastCleanupAt := Some(now);
      assert Contents() == WithoutExpired(old(Contents()), gone, now);
    }

    method LookupEntry(key: string, now: int) returns (found: Option<Entry>)
      requires Valid()
      modifies this
      ensures Valid() && Next(old(Contents()), Lookup(key, now), Contents())
      ensures found == Found(entries, key, now) == Found(old(entries), key, now)
    {
      hide CleanupSet;
      ghost var before := Contents();
      DeleteExpired(now);
      CleanupKeepsCount(before, now, Contents());
      found := Found(entries, key, now);
    }

    /** `fails` is a statement of the transaction raising an error, which rolls the tables back. */
    method StoreEntry(key: string, etag: string, body: Bytes, now: int, fails: bool) returns (stored: Option<Entry>)
      requires Valid()
      modifies this
      ensures Valid() && (stored.None? <==> fails)
      ensures stored.Some? ==>
        && stored.value == NewEntry(etag, body, sha256(body), now)
        && Next(old(Contents()), Store200(key, stored.value, now), Contents())
      ensures fails ==> Contents() == RolledBack(old(Contents()))
    {
      hide Stored, Cleaned, NewEntry;
      var savedEntries, savedCleanupAt := entries, lastCleanupAt;
      var entry := NewEntry(etag, body, sha256(body), now);
      StoreInTransaction(key, entry, now);
      if fails {
        entries, entryCount, storesSinceCount, lastCleanupAt := savedEntries, None, 0, savedCleanupAt;
        return None;
      }
      assert entry.digest == sha256(entry.body) by { EntryDigest(etag, body, sha256(body), now); }
      return Some(entry);
    }

    method StoreInTransaction(key: string, entry: Entry, now: int)
      requires Counted(Contents())
      modifies this
      ensures Stored(old(Contents()), key, entry, now, Contents())
      ensures Counted(Contents()) && |entries| <= MAX_ENTRIES
      ensures forall k | k in entries ::
        if k == key then entries[k] == entry else k in old(entries) && entries[k] == old(entries)[k]
    {
      hide Cleaned, Capped, Counted, Evicted;
      ghost var before := Contents();
      DeleteExpired(now);
      CleanupKeepsCount(before, now, Contents());
      ghost var cleaned := Contents();
      Upsert(key, entry);
      EnforceEntryCap();
      StoreLaw(before, key, entry, now, Contents());
    }

    method Upsert(key: string, entry: Entry)
      modifies this`entries, this`entryCount
      ensures Contents() == Upserted(old(Contents()), key, entry)
    {
      var existing := entryCount.Some? && key in entries;
      entries := entries[key := entry];
      if entryCount.Some? && !existing {
        entryCount := Some(entryCount.value + 1);
      }
    }

    method EnforceEntryCap()
      modifies this`entries, this`entryCount, this`storesSinceCount
      ensures Contents() == Capped(old(Contents()))
      ensures forall k | k in entries :: k in old(entries) && entries[k] == old(entries)[k]
    {
      hide Oldest, Recounted;
      CapOnlyEvicts(Contents());
      Reconcile();
      var overflow := Max(0, entryCount.value - MAX_ENTRIES);
      if overflow != 0 {
        entries := entries - Oldest(entries, overflow);
        entryCount := Some(entryCount.value - overflow);
      }
    }

    method Reconcile()
      modifies this`entryCount, this`storesSinceCount
      ensures Contents() == Recounted(old(Contents())) && entryCount.Some?
    {
      storesSinceCount := storesSinceCount + 1;
      if entryCount.None? || storesSinceCount >= RECONCILE_STORES {
        entryCount := Some(|entries|);
        storesSinceCount := 0;
      }
    }

    /** A confirmed answer carries the very bytes the caller's digest names. */
    method Confirm(key: string, etag: string, digest: string, now: int) returns (body: Option<Bytes>)
      requires Valid()
      modifies this`entries
      ensures Valid() && Next(old(Contents()), Confirm304(key, etag, digest, now), Contents())
      ensures body.Some? <==> Confirms(old(entries), key, etag, digest, now)
      ensures body.Some? ==> sha256(body.value) == digest && entries[key].body == body.value
    {
      ghost var before := Contents();
      var found := Found(entries, key, now);
      if found.None? || found.value.etag != etag || found.value.digest != digest {
        return None;
      }
      entries := entries[key := found.value.(validatedAt := now, expiresAt := now + RETENTION_MS)];
      NextLaw(before, Confirm304(key, etag, digest, now), Contents());
      return Some(found.value.body);
    }
  }
}
