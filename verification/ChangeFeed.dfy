/**
 The paged export of the record index, and the reader that pages it while writers go on: when a
 pass ends, the reader's replica is exactly the exported part of the store at that moment, and a
 later pass may start from the watermark of any page the reader has seen.
 */
module ChangeFeed {
  import opened Basics
  import opened SqlOrder
  import opened Blobs
  import opened RecordTables
  import opened DirectPublication
  import opened PublicationLaws

  datatype Scope = Scope(repo: string, sections: set<Section>)

  predicate InScope(k: RecordKey, scope: Scope) {
    k.repo == scope.repo && k.section in scope.sections
  }

  type Replica = map<RecordKey, Entry>

  /** The exported part of the store: every row in scope, tombstones included. */
  function Snapshot(r: Records, scope: Scope): Replica {
    map k | k in r.index && InScope(k, scope) && EntryOf(r, k).Some? :: EntryOf(r, k).value
  }

  /** ORDER BY store_revision */
  function FeedOrder(snapshot: Replica): (RecordKey, RecordKey) -> bool {
    (a: RecordKey, b: RecordKey) => a in snapshot && b in snapshot && snapshot[a].storeRevision < snapshot[b].storeRevision
  }

  function RowsAfter(snapshot: Replica, after: nat): set<RecordKey> {
    set k | k in snapshot && snapshot[k].storeRevision > after
  }

  /** The entries past a store revision, in store revision order. */
  function Feed(snapshot: Replica, after: nat): seq<Entry> {
    var keys := OrderBy(RowsAfter(snapshot, after), FeedOrder(snapshot));
    seq(|keys|, i requires 0 <= i < |keys| => snapshot[keys[i]])
  }

  datatype Page = Page(records: seq<Entry>, nextCursor: Option<nat>, watermark: nat)

  /**
   A page is a nonempty prefix of the feed it answers with (empty only when the feed is), and says
   where to go on exactly when rows remain.
   */
  predicate PageOf(feed: seq<Entry>, counter: nat, page: Page) {
    && page.records <= feed && (feed != [] ==> page.records != [])
    && page.nextCursor ==
       (if |page.records| < |feed| then Some(page.records[|page.records|-1].storeRevision) else None)
    && page.watermark == counter
  }

  predicate IsPage(snapshot: Replica, counter: nat, after: nat, page: Page) {
    PageOf(Feed(snapshot, after), counter, page)
  }

  // ------------------------------------------------------------------ snapshots

  /** Keys name their entries, and store revisions identify them, up to the counter. */
  ghost predicate WellFormed(snapshot: Replica, counter: nat) {
    && (forall k | k in snapshot :: snapshot[k].key == k && 1 <= snapshot[k].storeRevision <= counter)
    && (forall a, b | a in snapshot && b in snapshot && a != b :: snapshot[a].storeRevision != snapshot[b].storeRevision)
  }

  lemma EntryShowsRow(r: Records, k: RecordKey)
    requires Coherent(r) && k in r.index
    ensures EntryOf(r, k).Some? && EntryOf(r, k).value.key == k
    ensures 1 <= EntryOf(r, k).value.storeRevision == r.index[k].storeRevision <= r.counter
  {
    hide SourceContent;
    EntryDefined(r, k);
    assert IndexCoherent(r, k);
  }

  lemma SnapshotWellFormed(r: Records, scope: Scope)
    requires Coherent(r)
    ensures WellFormed(Snapshot(r, scope), r.counter)
    ensures forall k :: k in Snapshot(r, scope) <==> k in r.index && InScope(k, scope)
    ensures forall k | k in Snapshot(r, scope) :: Snapshot(r, scope)[k].storeRevision == r.index[k].storeRevision
  {
    hide Coherent, EntryOf;
    CoherentRevisions(r);
    forall k | k in r.index
      ensures EntryOf(r, k).Some? && EntryOf(r, k).value.key == k
      ensures 1 <= EntryOf(r, k).value.storeRevision == r.index[k].storeRevision <= r.counter
    {
      EntryShowsRow(r, k);
    }
  }

  lemma CoherentRevisions(r: Records)
    requires Coherent(r)
    ensures DistinctRevisions(r.index)
  {
  }

  /** Rows only change by moving past the counter, and never disappear. */
  ghost predicate Moves(before: Replica, counter: nat, after: Replica) {
    && (forall k | k in before :: k in after && (after[k] == before[k] || after[k].storeRevision > counter))
    && (forall k | k in after && k !in before :: after[k].storeRevision > counter)
  }

  lemma SnapshotMoves(before: Records, after: Records, scope: Scope)
    requires Coherent(before) && Coherent(after) && Advances(before, after)
    ensures Moves(Snapshot(before, scope), before.counter, Snapshot(after, scope))
  {
    hide Coherent, EntryOf, WellFormed;
    SnapshotWellFormed(before, scope);
    SnapshotWellFormed(after, scope);
  }

  /** All rows past `after`, each as the snapshot has it, by ascending store revision. */
  ghost predicate IsFeed(feed: seq<Entry>, snapshot: Replica, after: nat) {
    && (forall k | k in snapshot && snapshot[k].storeRevision > after :: snapshot[k].key == k && snapshot[k] in feed)
    && (forall e | e in feed :: e.key in snapshot && snapshot[e.key] == e && e.storeRevision > after)
    && (forall i, j | 0 <= i < j < |feed| :: feed[i].storeRevision < feed[j].storeRevision)
  }

  lemma FeedLists(snapshot: Replica, counter: nat, after: nat)
    requires WellFormed(snapshot, counter)
    ensures IsFeed(Feed(snapshot, after), snapshot, after)
  {
    var rows := RowsAfter(snapshot, after);
    var keys := OrderBy(rows, FeedOrder(snapshot));
    OrderByLists(rows, FeedOrder(snapshot));
    ListedEntries(snapshot, counter, after, keys);
  }

  lemma ListedEntries(snapshot: Replica, counter: nat, after: nat, keys: seq<RecordKey>)
    requires WellFormed(snapshot, counter) && Lists(keys, RowsAfter(snapshot, after), FeedOrder(snapshot))
    ensures IsFeed(seq(|keys|, i requires 0 <= i < |keys| => snapshot[keys[i]]), snapshot, after)
  {
    var feed := seq(|keys|, i requires 0 <= i < |keys| => snapshot[keys[i]]);
    forall k | k in RowsAfter(snapshot, after) ensures snapshot[k] in feed {
      var i :| 0 <= i < |keys| && keys[i] == k;
      assert feed[i] == snapshot[k];
    }
  }

  /** The rows of a feed after its n-th one are the feed past that row's store revision. */
  lemma RestLists(feed: seq<Entry>, snapshot: Replica, after: nat, n: nat)
    requires IsFeed(feed, snapshot, after) && 0 < n <= |feed|
    ensures IsFeed(feed[n..], snapshot, feed[n-1].storeRevision)
  {
    assert feed[n-1] in feed;
    forall k | k in snapshot && snapshot[k].storeRevision > feed[n-1].storeRevision ensures snapshot[k] in feed[n..] {
      var i :| 0 <= i < |feed| && feed[i] == snapshot[k];
      assert feed[n..][i - n] == snapshot[k];
    }
  }

  lemma PrefixComplete(feed: seq<Entry>, snapshot: Replica, after: nat, n: nat)
    requires IsFeed(feed, snapshot, after) && 0 < n <= |feed|
    ensures forall k | k in snapshot && after < snapshot[k].storeRevision <= feed[n-1].storeRevision :: snapshot[k] in feed[..n]
  {
    forall k | k in snapshot && after < snapshot[k].storeRevision <= feed[n-1].storeRevision ensures snapshot[k] in feed[..n] {
      var i :| 0 <= i < |feed| && feed[i] == snapshot[k];
      assert feed[..n][i] == snapshot[k];
    }
  }

  /** A snapshot has one feed past each revision. */
  lemma FeedUnique(a: seq<Entry>, b: seq<Entry>, snapshot: Replica, after: nat)
    requires IsFeed(a, snapshot, after) && IsFeed(b, snapshot, after)
    ensures a == b
  {
    SameAscending(a, b);
  }

  lemma {:induction false} SameAscending(a: seq<Entry>, b: seq<Entry>)
    requires forall e :: e in a <==> e in b
    requires forall i, j | 0 <= i < j < |a| :: a[i].storeRevision < a[j].storeRevision
    requires forall i, j | 0 <= i < j < |b| :: b[i].storeRevision < b[j].storeRevision
    ensures a == b
  {
    assert |a| > 0 ==> a[0] in a;
    assert |b| > 0 ==> b[0] in b;
    if a != [] && b != [] {
      assert a[0] == b[0];
      assert a == [a[0]] + a[1..] && b == [b[0]] + b[1..];
      forall e ensures e in a[1..] <==> e in a && e != a[0]
               ensures e in b[1..] <==> e in b && e != b[0] {}
      SameAscending(a[1..], b[1..]);
    }
  }

  // ------------------------------------------------------------------ the reader

  /** The reader keeps the entry with the newest store revision. */
  function Absorb(replica: Replica, records: seq<Entry>): Replica {
    if records == [] then replica else
    var before := Absorb(replica, records[..|records|-1]);
    var entry := records[|records|-1];
    if entry.key !in before || before[entry.key].storeRevision < entry.storeRevision then before[entry.key := entry] else before
  }

  /** The replica holds every row up to `bound` as the store has it, and nothing the store lacks. */
  ghost predicate Covers(replica: Replica, snapshot: Replica, bound: nat) {
    && (forall k | k in replica ::
          && k in snapshot && replica[k].storeRevision <= snapshot[k].storeRevision
          && (replica[k].storeRevision == snapshot[k].storeRevision ==> replica[k] == snapshot[k]))
    && (forall k | k in snapshot && snapshot[k].storeRevision <= bound :: k in replica && replica[k] == snapshot[k])
  }

  /** Writes never invalidate what was covered. */
  lemma CoversStable(replica: Replica, before: Replica, counter: nat, after: Replica, bound: nat)
    requires WellFormed(before, counter) && Moves(before, counter, after)
    requires Covers(replica, before, bound) && bound <= counter
    ensures Covers(replica, after, bound)
  {
  }

  lemma {:induction false} AbsorbCurrent(replica: Replica, snapshot: Replica, records: seq<Entry>, bound: nat)
    requires Covers(replica, snapshot, bound)
    requires forall i | 0 <= i < |records| :: records[i].key in snapshot && snapshot[records[i].key] == records[i]
    ensures Covers(Absorb(replica, records), snapshot, bound)
    ensures forall i | 0 <= i < |records| ::
      records[i].key in Absorb(replica, records) && Absorb(replica, records)[records[i].key] == records[i]
  {
    if records != [] {
      AbsorbCurrent(replica, snapshot, records[..|records|-1], bound);
    }
  }

  /** Absorbing the first n rows of a feed covers the store up to the n-th one, or all of it. */
  lemma AbsorbPrefix(replica: Replica, snapshot: Replica, after: nat, feed: seq<Entry>, n: nat, bound: nat)
    requires Covers(replica, snapshot, after) && IsFeed(feed, snapshot, after) && n <= |feed|
    requires n == |feed| || (n > 0 && bound == feed[n-1].storeRevision)
    ensures Covers(Absorb(replica, feed[..n]), snapshot, bound)
  {
    var records := feed[..n];
    assert forall i | 0 <= i < n :: records[i] in feed;
    AbsorbCurrent(replica, snapshot, records, after);
    if n < |feed| { PrefixComplete(feed, snapshot, after, n); } else { assert records == feed; }
    forall k | k in snapshot && after < snapshot[k].storeRevision <= bound
      ensures k in Absorb(replica, records) && Absorb(replica, records)[k] == snapshot[k]
    {
      var i :| 0 <= i < n && records[i] == snapshot[k];
      assert records[i].key == k;
    }
  }

  /** One page moves the covered bound to its cursor, or, on the last page, to the whole store. */
  lemma AbsorbPage(replica: Replica, snapshot: Replica, counter: nat, after: nat, page: Page)
    requires WellFormed(snapshot, counter) && Covers(replica, snapshot, after) && IsPage(snapshot, counter, after, page)
    ensures Covers(Absorb(replica, page.records), snapshot,
                   if page.nextCursor.Some? then page.nextCursor.value else counter)
    ensures page.nextCursor.Some? ==> after < page.nextCursor.value <= counter
  {
    var feed, n := Feed(snapshot, after), |page.records|;
    FeedLists(snapshot, counter, after);
    assert page.records == feed[..n];
    AbsorbPrefix(replica, snapshot, after, feed, n, if page.nextCursor.Some? then page.nextCursor.value else counter);
    if page.nextCursor.Some? {
      assert feed[n-1] in feed;
    }
  }

  lemma CoveringAllIsEqual(replica: Replica, snapshot: Replica, counter: nat)
    requires WellFormed(snapshot, counter) && Covers(replica, snapshot, counter)
    ensures replica == snapshot
  {
  }

  // ------------------------------------------------------------------ passes under writes

  /** A reader in a pass from `since`; `cursor` is None once the last page has arrived. */
  datatype Reader = Reader(replica: Replica, since: nat, cursor: Option<nat>, watermarks: seq<nat>)

  function StartPass(replica: Replica, since: nat): Reader {
    Reader(replica, since, Some(0), [])
  }

  function Receive(reader: Reader, page: Page): Reader {
    Reader(Absorb(reader.replica, page.records), reader.since, page.nextCursor, reader.watermarks + [page.watermark])
  }

  datatype World = World(store: Store, reader: Reader)

  datatype Event = Wrote(step: Step) | Fetched(page: Page)

  predicate Enabled(w: World, scope: Scope, event: Event) {
    match event
    case Wrote(step) => ValidStep(step)
    case Fetched(page) =>
      w.reader.cursor.Some?
      && IsPage(Snapshot(w.store.records, scope), w.store.records.counter, Max(w.reader.since, w.reader.cursor.value), page)
  }

  function After(w: World, event: Event): World
    requires event.Wrote? ==> ValidStep(event.step)
  {
    match event
    case Wrote(step) => w.(store := Next(w.store, step))
    case Fetched(page) => w.(reader := Receive(w.reader, page))
  }

  /** Writes and page fetches in any interleaving. */
  ghost predicate Behaviour(scope: Scope, worlds: seq<World>, events: seq<Event>) {
    && |worlds| == |events| + 1
    && (forall i | 0 <= i < |events| ::
          Enabled(worlds[i], scope, events[i]) && worlds[i+1] == After(worlds[i], events[i]))
  }

  /** How far the replica is known to be right: the cursor, or the last page's watermark. */
  function Bound(reader: Reader): nat {
    match reader.cursor
    case Some(c) => Max(reader.since, c)
    case None => if reader.watermarks == [] then 0 else reader.watermarks[|reader.watermarks|-1]
  }

  ghost predicate ReaderCorrect(reader: Reader, snapshot: Replica, counter: nat) {
    && Bound(reader) <= counter
    && Covers(reader.replica, snapshot, Bound(reader))
    && (forall w | w in reader.watermarks :: w <= counter)
    && (reader.cursor.None? ==> forall w | w in reader.watermarks :: w <= Bound(reader))
  }

  ghost predicate InPass(w: World, scope: Scope) {
    && StoreInvariant(w.store)
    && ReaderCorrect(w.reader, Snapshot(w.store.records, scope), w.store.records.counter)
  }

  lemma PageKeepsReader(reader: Reader, snapshot: Replica, counter: nat, page: Page)
    requires WellFormed(snapshot, counter) && ReaderCorrect(reader, snapshot, counter)
    requires reader.cursor.Some? && IsPage(snapshot, counter, Max(reader.since, reader.cursor.value), page)
    ensures ReaderCorrect(Receive(reader, page), snapshot, counter)
    ensures page.nextCursor.None? ==> Receive(reader, page).replica == snapshot
  {
    hide Feed, Covers, WellFormed, Absorb;
    AbsorbPage(reader.replica, snapshot, counter, Bound(reader), page);
    if page.nextCursor.None? {
      CoveringAllIsEqual(Receive(reader, page).replica, snapshot, counter);
    }
  }

  lemma EventKeepsInPass(w: World, scope: Scope, event: Event)
    requires InPass(w, scope) && Enabled(w, scope, event)
    ensures InPass(After(w, event), scope)
  {
    SnapshotWellFormed(w.store.records, scope);
    match event
    case Wrote(step) =>
      NextLaw(w.store, step);
      SnapshotMoves(w.store.records, Next(w.store, step).records, scope);
      CoversStable(w.reader.replica, Snapshot(w.store.records, scope), w.store.records.counter,
                   Snapshot(Next(w.store, step).records, scope), Bound(w.reader));
    case Fetched(page) =>
      PageKeepsReader(w.reader, Snapshot(w.store.records, scope), w.store.records.counter, page);
  }

  lemma {:induction false} BehaviourKeepsInPass(scope: Scope, worlds: seq<World>, events: seq<Event>)
    requires Behaviour(scope, worlds, events) && InPass(worlds[0], scope)
    ensures InPass(worlds[|events|], scope)
  {
    if events != [] {
      var n := |events| - 1;
      BehaviourKeepsInPass(scope, worlds[..n+1], events[..n]);
      EventKeepsInPass(worlds[n], scope, events[n]);
    }
  }

  /**
   Convergence: from an empty replica and revision 0, under any interleaving of writes, a pass
   that ends with this page ends with the replica equal to the store's scope.
   */
  lemma PassConverges(scope: Scope, worlds: seq<World>, events: seq<Event>, page: Page)
    requires Behaviour(scope, worlds, events) && Enabled(worlds[|events|], scope, Fetched(page))
    requires StoreInvariant(worlds[0].store) && worlds[0].reader == StartPass(map[], 0)
    requires page.nextCursor.None?
    ensures Receive(worlds[|events|].reader, page).replica == Snapshot(worlds[|events|].store.records, scope)
  {
    StartIsInPass(worlds[0], scope);
    BehaviourKeepsInPass(scope, worlds, events);
    LastPageIsExact(worlds[|events|], scope, page);
  }

  /**
   In the store's own terms: the reader then holds exactly the records and commits of its
   repository and sections, each record as the store reads it, its deletion included.
   */
  lemma ReplicaReads(scope: Scope, worlds: seq<World>, events: seq<Event>, page: Page, k: RecordKey)
    requires Behaviour(scope, worlds, events) && Enabled(worlds[|events|], scope, Fetched(page))
    requires StoreInvariant(worlds[0].store) && worlds[0].reader == StartPass(map[], 0)
    requires page.nextCursor.None?
    ensures var replica, r := Receive(worlds[|events|].reader, page).replica, worlds[|events|].store.records;
      && (k in replica <==> k in r.index && k.repo == scope.repo && k.section in scope.sections)
      && (k in replica && k in r.canonical ==>
            && ReadCanonical(r, k).Found? && var record, entry := ReadCanonical(r, k).record, replica[k];
            && entry.key == k && entry.content == record.content && entry.digest == record.digest
            && entry.revision == record.revision && entry.updatedAt == record.updatedAt && entry.deleted == record.deleted)
      && (k in replica && k in r.backfill && k.section == Commits ==>
            && replica[k].key == k && !replica[k].deleted && replica[k].digest == Some(r.backfill[k].digest)
            && replica[k].content == ReadBlob(r.backfillChunks, k, r.backfill[k].blob))
  {
    hide Coherent, EntryOf, ReadCanonical, ReadBlob, WellFormed, Receive, IsPage, Next, Exclusive, ReaderCorrect;
    PassConverges(scope, worlds, events, page);
    StartIsInPass(worlds[0], scope);
    BehaviourKeepsInPass(scope, worlds, events);
    var r := worlds[|events|].store.records;
    if k in r.index { EntryDefined(r, k); }
    if k in r.canonical { EntryIsRecord(r, k); }
    if k in r.backfill && k.section == Commits { EntryIsCommit(r, k); }
  }

  lemma StartIsInPass(w: World, scope: Scope)
    requires StoreInvariant(w.store) && w.reader == StartPass(map[], 0)
    ensures InPass(w, scope)
  {
    SnapshotWellFormed(w.store.records, scope);
  }

  lemma LastPageIsExact(w: World, scope: Scope, page: Page)
    requires InPass(w, scope) && Enabled(w, scope, Fetched(page)) && page.nextCursor.None?
    ensures Receive(w.reader, page).replica == Snapshot(w.store.records, scope)
  {
    SnapshotWellFormed(w.store.records, scope);
    PageKeepsReader(w.reader, Snapshot(w.store.records, scope), w.store.records.counter, page);
  }

  /**
   Replay: a finished pass may be followed, after any further writes, by a pass from the watermark
   of any of its pages (the first page's is what the snapshot builder keeps), and that pass again
   ends equal to the store.
   */
  lemma ReplayConverges(
      scope: Scope, idle: seq<World>, writes: seq<Event>, watermark: nat,
      worlds: seq<World>, events: seq<Event>, page: Page)
    requires Behaviour(scope, idle, writes) && InPass(idle[0], scope)
    requires idle[0].reader.cursor.None? && watermark in idle[0].reader.watermarks
    requires Behaviour(scope, worlds, events) && Enabled(worlds[|events|], scope, Fetched(page))
    requires worlds[0] == World(idle[|writes|].store, StartPass(idle[|writes|].reader.replica, watermark))
    requires page.nextCursor.None?
    ensures Receive(worlds[|events|].reader, page).replica == Snapshot(worlds[|events|].store.records, scope)
  {
    hide Snapshot, Coherent, Exclusive, WellFormed;
    BehaviourKeepsInPass(scope, idle, writes);
    FinishedPassIsIdle(scope, idle, writes);
    SnapshotWellFormed(worlds[0].store.records, scope);
    BehaviourKeepsInPass(scope, worlds, events);
    LastPageIsExact(worlds[|events|], scope, page);
  }

  /**
   From an empty replica through two passes: one that ends with the page `last`, then any writes,
   then one from the watermark of any page of the first.
   */
  lemma SecondPassConverges(
      scope: Scope, first: seq<World>, firstEvents: seq<Event>, last: Page, idle: seq<World>, writes: seq<Event>,
      watermark: nat, worlds: seq<World>, events: seq<Event>, page: Page)
    requires Behaviour(scope, first, firstEvents) && Enabled(first[|firstEvents|], scope, Fetched(last))
    requires StoreInvariant(first[0].store) && first[0].reader == StartPass(map[], 0) && last.nextCursor.None?
    requires Behaviour(scope, idle, writes) && idle[0] == After(first[|firstEvents|], Fetched(last))
    requires watermark in idle[0].reader.watermarks
    requires Behaviour(scope, worlds, events) && Enabled(worlds[|events|], scope, Fetched(page))
    requires worlds[0] == World(idle[|writes|].store, StartPass(idle[|writes|].reader.replica, watermark))
    requires page.nextCursor.None?
    ensures Receive(worlds[|events|].reader, page).replica == Snapshot(worlds[|events|].store.records, scope)
  {
    hide Snapshot, Coherent, Exclusive, WellFormed, Next, IsPage;
    StartIsInPass(first[0], scope);
    BehaviourKeepsInPass(scope, first, firstEvents);
    EventKeepsInPass(first[|firstEvents|], scope, Fetched(last));
    ReplayConverges(scope, idle, writes, watermark, worlds, events, page);
  }

  lemma {:induction false} FinishedPassIsIdle(scope: Scope, worlds: seq<World>, events: seq<Event>)
    requires Behaviour(scope, worlds, events) && worlds[0].reader.cursor.None?
    ensures worlds[|events|].reader == worlds[0].reader
  {
    if events != [] {
      var n := |events| - 1;
      FinishedPassIsIdle(scope, worlds[..n+1], events[..n]);
    }
  }

  // ------------------------------------------------------------------ a quiet store

  /** Consecutive pages of an unchanging store from a cursor on, whether or not they reach the last one. */
  predicate Chain(snapshot: Replica, counter: nat, after: nat, pages: seq<Page>)
    decreases |pages|
  {
    pages == []
    || (IsPage(snapshot, counter, after, pages[0])
        && (match pages[0].nextCursor
            case None => |pages| == 1
            case Some(cursor) => Chain(snapshot, counter, cursor, pages[1..])))
  }

  predicate Finished(pages: seq<Page>) {
    pages != [] && pages[|pages|-1].nextCursor.None?
  }

  function AllRecords(pages: seq<Page>): seq<Entry> {
    if pages == [] then [] else pages[0].records + AllRecords(pages[1..])
  }

  /**
   With no writes, paging comes to an end: it takes at most one page a row, each page continues the
   feed where the last one stopped, and all of it has been returned exactly when no cursor is left.
   */
  lemma {:induction false} QuietPassIsTheFeed(snapshot: Replica, counter: nat, after: nat, pages: seq<Page>)
    requires WellFormed(snapshot, counter) && Chain(snapshot, counter, after, pages)
    ensures |pages| <= Max(1, |Feed(snapshot, after)|)
    ensures AllRecords(pages) <= Feed(snapshot, after)
    ensures pages != [] ==> (Finished(pages) <==> AllRecords(pages) == Feed(snapshot, after))
    decreases |pages|
  {
    hide Feed, WellFormed;
    if pages != [] {
      var feed, n, rest := Feed(snapshot, after), |pages[0].records|, pages[1..];
      assert pages[0].records == feed[..n];
      assert feed == feed[..n] + feed[n..];
      if pages[0].nextCursor.Some? {
        FeedAfterCursor(snapshot, counter, after, n);
        QuietPassIsTheFeed(snapshot, counter, feed[n-1].storeRevision, rest);
        assert Finished(pages) <==> Finished(rest);
      } else {
        assert rest == [];
      }
    }
  }

  /** The feed past the n-th row is the rest of the feed. */
  lemma FeedAfterCursor(snapshot: Replica, counter: nat, after: nat, n: nat)
    requires WellFormed(snapshot, counter) && 0 < n <= |Feed(snapshot, after)|
    ensures Feed(snapshot, Feed(snapshot, after)[n-1].storeRevision) == Feed(snapshot, after)[n..]
  {
    var feed := Feed(snapshot, after);
    var cursor := feed[n-1].storeRevision;
    FeedLists(snapshot, counter, after);
    FeedLists(snapshot, counter, cursor);
    RestLists(feed, snapshot, after, n);
    FeedUnique(Feed(snapshot, cursor), feed[n..], snapshot, cursor);
  }

  lemma MoreRowsExactly(snapshot: Replica, counter: nat, after: nat, n: nat)
    requires WellFormed(snapshot, counter) && 0 < n <= |Feed(snapshot, after)|
    ensures var feed := Feed(snapshot, after); RowsAfter(snapshot, feed[n-1].storeRevision) != {} <==> n < |feed|
    ensures Feed(snapshot, after)[n-1].storeRevision > after
  {
    var feed := Feed(snapshot, after);
    var last := feed[n-1].storeRevision;
    FeedLists(snapshot, counter, after);
    FeedAfterCursor(snapshot, counter, after, n);
    FeedLists(snapshot, counter, last);
    assert feed[n-1] in feed;
    assert n < |feed| ==> feed[n..][0] in feed[n..];
  }
}
