/**
 Automerge product metrics: sessions projected from an event ledger, counted into time buckets,
 outcomes and repair classes, with nearest-rank percentiles.
 */
module Automerge {
  import opened Basics
  import opened Counting

  datatype Phase = Activated | RepairDispatched | RepairCompleted | StateChanged | Terminal

  datatype Event = Event(session: string, phase: Phase, at: int, outcome: Option<string>, baseSync: bool)

  datatype Session = Session(
    id: string, activatedAt: Option<int>, terminalAt: Option<int>, outcome: Option<string>, lastEventAt: int, baseSyncs: nat)

  // ------------------------------------------------------------------ sessions

  function RowsOf(events: seq<Event>, id: string): seq<Event> {
    if events == [] then []
    else RowsOf(events[..|events|-1], id) + if events[|events|-1].session == id then [events[|events|-1]] else []
  }

  /** Behind every row that is not later: the step of a stable sort. */
  function Insert(sorted: seq<Event>, e: Event): seq<Event> {
    if sorted != [] && e.at < sorted[|sorted|-1].at then Insert(sorted[..|sorted|-1], e) + [sorted[|sorted|-1]]
    else sorted + [e]
  }

  function SortedByTime(rows: seq<Event>): seq<Event> {
    if rows == [] then [] else Insert(SortedByTime(rows[..|rows|-1]), rows[|rows|-1])
  }

  function FirstOf(rows: seq<Event>, phase: Phase): Option<Event> {
    if rows == [] then None
    else if FirstOf(rows[..|rows|-1], phase).Some? then FirstOf(rows[..|rows|-1], phase)
    else if rows[|rows|-1].phase == phase then Some(rows[|rows|-1]) else None
  }

  predicate SyncedRepair(e: Event) {
    e.phase == RepairCompleted && e.baseSync
  }

  function At(e: Option<Event>): Option<int> {
    if e.Some? then Some(e.value.at) else None
  }

  function Project(id: string, rows: seq<Event>): Session
    requires rows != []
  {
    var sorted := SortedByTime(rows);
    SortKeeps(rows);
    var terminal := FirstOf(sorted, Terminal);
    Session(id, At(FirstOf(sorted, Activated)), At(terminal), if terminal.Some? then terminal.value.outcome else None,
            sorted[|sorted|-1].at, Count(sorted, SyncedRepair))
  }

  function Ids(events: seq<Event>): seq<string> {
    if events == [] then [] else
    var before := Ids(events[..|events|-1]);
    if events[|events|-1].session in before then before else before + [events[|events|-1].session]
  }

  lemma {:induction false} IdsHaveRows(events: seq<Event>)
    ensures forall id :: id in Ids(events) <==> RowsOf(events, id) != []
    ensures forall i, j | 0 <= i < j < |Ids(events)| :: Ids(events)[i] != Ids(events)[j]
  {
    if events != [] { IdsHaveRows(events[..|events|-1]); }
  }

  function Sessions(events: seq<Event>): seq<Session> {
    IdsHaveRows(events);
    var ids := Ids(events);
    seq(|ids|, i requires 0 <= i < |ids| => Project(ids[i], RowsOf(events, ids[i])))
  }

  /** The sessions of these events and the rows of each. */
  ghost predicate Groups(grouped: map<string, seq<Event>>, ids: seq<string>, events: seq<Event>) {
    && ids == Ids(events) && (forall id :: id in grouped <==> id in ids)
    && (forall id | id in grouped :: grouped[id] == RowsOf(events, id))
  }

  lemma GroupOneMore(grouped: map<string, seq<Event>>, ids: seq<string>, events: seq<Event>, e: Event)
    requires Groups(grouped, ids, events)
    ensures var rows := if e.session in grouped then grouped[e.session] else [];
      Groups(grouped[e.session := rows + [e]], if e.session in grouped then ids else ids + [e.session], events + [e])
  {
    assert (events + [e])[..|events|] == events;
    IdsHaveRows(events);
  }

  /** Groups the events by session in order of first appearance, then projects each group. */
  method ProjectSessions(events: seq<Event>) returns (sessions: seq<Session>)
    ensures sessions == Sessions(events)
  {
    hide Ids, RowsOf, Project;
    var grouped: map<string, seq<Event>> := map[];
    var ids: seq<string> := [];
    NoGroups();
    for i := 0 to |events|
      invariant Groups(grouped, ids, events[..i])
    {
      GroupOneMore(grouped, ids, events[..i], events[i]);
      assert events[..i+1] == events[..i] + [events[i]];
      var id := events[i].session;
      if id !in grouped {
        ids := ids + [id];
      }
      grouped := grouped[id := (if id in grouped then grouped[id] else []) + [events[i]]];
    }
    assert events[..|events|] == events;
    IdsHaveRows(events);
    sessions := [];
    for i := 0 to |ids|
      invariant |sessions| == i && forall k | 0 <= k < i :: sessions[k] == Sessions(events)[k]
    {
      sessions := sessions + [Project(ids[i], grouped[ids[i]])];
    }
  }

  lemma NoGroups()
    ensures forall events: seq<Event> | events == [] :: Groups(map[], [], events)
  {
  }

  // ------------------------------------------------------------------ the first terminal event

  predicate Ascending(rows: seq<Event>) {
    forall i, j | 0 <= i < j < |rows| :: rows[i].at <= rows[j].at
  }

  lemma AppendLater(rows: seq<Event>, last: Event)
    requires Ascending(rows) && forall x | x in rows :: x.at <= last.at
    ensures Ascending(rows + [last])
  {
    forall i | 0 <= i < |rows| ensures rows[i].at <= last.at { assert rows[i] in rows; }
  }

  lemma AppendMembers(rows: seq<Event>, last: Event)
    ensures forall x :: x in rows + [last] <==> x in rows || x == last
  {
  }

  lemma {:induction false} InsertAscends(sorted: seq<Event>, e: Event)
    requires Ascending(sorted)
    ensures Ascending(Insert(sorted, e)) && forall x :: x in Insert(sorted, e) <==> x in sorted || x == e
  {
    hide Ascending;
    if sorted != [] && e.at < sorted[|sorted|-1].at {
      var init, last := sorted[..|sorted|-1], sorted[|sorted|-1];
      assert sorted == init + [last];
      LastIsLatest(sorted);
      InsertAscends(init, e);
      AppendMembers(init, last);
      AppendMembers(Insert(init, e), last);
      AppendLater(Insert(init, e), last);
    } else {
      AppendMembers(sorted, e);
      if sorted != [] { LastIsLatest(sorted); }
      AppendLater(sorted, e);
    }
  }

  lemma LastIsLatest(sorted: seq<Event>)
    requires Ascending(sorted) && sorted != []
    ensures Ascending(sorted[..|sorted|-1]) && forall x | x in sorted :: x.at <= sorted[|sorted|-1].at
  {
  }

  lemma {:induction false} InsertPermutes(sorted: seq<Event>, e: Event)
    ensures multiset(Insert(sorted, e)) == multiset(sorted) + multiset{e} && |Insert(sorted, e)| == |sorted| + 1
  {
    if sorted != [] && e.at < sorted[|sorted|-1].at {
      var init, last := sorted[..|sorted|-1], sorted[|sorted|-1];
      InsertPermutes(init, e);
      assert sorted == init + [last];
    }
  }

  /** Sorting is a permutation into ascending time. */
  lemma {:induction false} SortKeeps(rows: seq<Event>)
    ensures Ascending(SortedByTime(rows)) && multiset(SortedByTime(rows)) == multiset(rows)
    ensures |SortedByTime(rows)| == |rows|
  {
    hide Insert, Ascending;
    if rows == [] {
      EmptyAscends();
    } else {
      var init, last := rows[..|rows|-1], rows[|rows|-1];
      SortKeeps(init);
      InsertAscends(SortedByTime(init), last);
      InsertPermutes(SortedByTime(init), last);
      assert rows == init + [last];
    }
  }

  lemma EmptyAscends()
    ensures Ascending([])
  {
  }

  /** The earlier of two candidates, the left one on ties. */
  function Earlier(a: Option<Event>, b: Option<Event>): Option<Event> {
    if b.None? then a else if a.None? || b.value.at < a.value.at then b else a
  }

  function IfPhase(e: Event, phase: Phase): Option<Event> {
    if e.phase == phase then Some(e) else None
  }

  /** The earliest event of a phase, the first delivered on ties, straight from the ledger. */
  function Earliest(rows: seq<Event>, phase: Phase): Option<Event> {
    if rows == [] then None else Earlier(Earliest(rows[..|rows|-1], phase), IfPhase(rows[|rows|-1], phase))
  }

  lemma {:induction false} FirstAfterInsert(sorted: seq<Event>, e: Event, phase: Phase)
    requires Ascending(sorted)
    ensures FirstOf(Insert(sorted, e), phase) == Earlier(FirstOf(sorted, phase), IfPhase(e, phase))
  {
    hide FirstOf;
    FirstIsMember(sorted, phase);
    if sorted != [] && e.at < sorted[|sorted|-1].at {
      var init, last := sorted[..|sorted|-1], sorted[|sorted|-1];
      FirstAfterInsert(init, e, phase);
      FirstAppend(Insert(init, e), last, phase);
      FirstAppend(init, last, phase);
      assert sorted == init + [last];
    } else {
      FirstAppend(sorted, e, phase);
    }
  }

  lemma FirstAppend(rows: seq<Event>, e: Event, phase: Phase)
    ensures FirstOf(rows + [e], phase) == if FirstOf(rows, phase).Some? then FirstOf(rows, phase) else IfPhase(e, phase)
  {
    assert (rows + [e])[..|rows|] == rows;
  }

  lemma {:induction false} FirstIsMember(rows: seq<Event>, phase: Phase)
    ensures FirstOf(rows, phase).Some? ==> FirstOf(rows, phase).value in rows && FirstOf(rows, phase).value.phase == phase
  {
    if rows != [] { FirstIsMember(rows[..|rows|-1], phase); }
  }

  /** Sorting and taking the first is taking the earliest delivery. */
  lemma {:induction false} FirstIsEarliest(rows: seq<Event>, phase: Phase)
    ensures FirstOf(SortedByTime(rows), phase) == Earliest(rows, phase)
  {
    if rows != [] {
      FirstIsEarliest(rows[..|rows|-1], phase);
      SortKeeps(rows[..|rows|-1]);
      FirstAfterInsert(SortedByTime(rows[..|rows|-1]), rows[|rows|-1], phase);
    }
  }

  lemma {:induction false} EarliestConcat(a: seq<Event>, b: seq<Event>, phase: Phase)
    ensures Earliest(a + b, phase) == Earlier(Earliest(a, phase), Earliest(b, phase))
  {
    if b == [] {
      assert a + b == a;
    } else {
      var init := b[..|b|-1];
      EarliestConcat(a, init, phase);
      assert (a + b)[..|a + b|-1] == a + init;
    }
  }

  /**
   A late event never rewrites history: an event put anywhere into a session's deliveries leaves
   its terminal time and outcome alone unless it is a terminal event ahead of the first one (by
   time, or at the same time but delivered before it).
   */
  lemma TerminalIsImmutable(id: string, a: seq<Event>, e: Event, b: seq<Event>)
    requires a + b != []
    requires e.phase != Terminal
      || (Earliest(a, Terminal).Some? && Earliest(a, Terminal).value.at <= e.at)
      || (Earliest(a + b, Terminal).Some? && Earliest(a + b, Terminal).value.at < e.at)
    ensures Project(id, a + [e] + b).terminalAt == Project(id, a + b).terminalAt
    ensures Project(id, a + [e] + b).outcome == Project(id, a + b).outcome
  {
    FirstIsEarliest(a + b, Terminal);
    FirstIsEarliest(a + [e] + b, Terminal);
    EarliestConcat(a, b, Terminal);
    EarliestConcat(a + [e], b, Terminal);
    EarliestConcat(a, [e], Terminal);
    assert [e][..0] == [];
  }

  lemma {:induction false} InsertCounts(sorted: seq<Event>, e: Event, p: Event -> bool)
    ensures Count(Insert(sorted, e), p) == Count(sorted, p) + if p(e) then 1 else 0
  {
    if sorted != [] && e.at < sorted[|sorted|-1].at {
      var init, last := sorted[..|sorted|-1], sorted[|sorted|-1];
      InsertCounts(init, e, p);
      assert (Insert(init, e) + [last])[..|Insert(init, e)|] == Insert(init, e);
    } else {
      assert (sorted + [e])[..|sorted|] == sorted;
    }
  }

  lemma {:induction false} SortCounts(rows: seq<Event>, p: Event -> bool)
    ensures Count(SortedByTime(rows), p) == Count(rows, p)
  {
    if rows != [] {
      SortCounts(rows[..|rows|-1], p);
      InsertCounts(SortedByTime(rows[..|rows|-1]), rows[|rows|-1], p);
    }
  }

  /**
   A session straight from its events, in whatever order they were delivered: activated and ended at
   the earliest such events, with the outcome of that end, last seen at the latest event, and with a
   base sync for each repair completed with one.
   */
  lemma ProjectExactly(id: string, rows: seq<Event>)
    requires rows != []
    ensures var s := Project(id, rows);
      && s.id == id
      && s.activatedAt == (match Earliest(rows, Activated) case None => None case Some(e) => Some(e.at))
      && s.terminalAt == (match Earliest(rows, Terminal) case None => None case Some(e) => Some(e.at))
      && s.outcome == (match Earliest(rows, Terminal) case None => None case Some(e) => e.outcome)
      && (forall e | e in rows :: e.at <= s.lastEventAt) && (exists e | e in rows :: e.at == s.lastEventAt)
      && s.baseSyncs == Count(rows, (e: Event) => e.phase == RepairCompleted && e.baseSync)
  {
    hide Insert, FirstOf, Earliest, Count;
    var sorted := SortedByTime(rows);
    FirstIsEarliest(rows, Activated);
    FirstIsEarliest(rows, Terminal);
    SortKeeps(rows);
    LastIsLatest(sorted);
    forall e | e in rows ensures e in sorted { assert e in multiset(rows); }
    assert sorted[|sorted|-1] in multiset(sorted);
    SortCounts(rows, SyncedRepair);
    CountSame(rows, SyncedRepair, (e: Event) => e.phase == RepairCompleted && e.baseSync);
  }

  // ------------------------------------------------------------------ buckets

  datatype Bucket = Bucket(start: int, end: int, terminalCount: nat, mergedCount: nat)

  predicate InBucket(at: int, start: int, end: int, now: int) {
    at >= start && (at < end || (end == now && at == end))
  }

  /** Terminal sessions of the range. */
  predicate InRange(s: Session, rangeStart: int, now: int) {
    s.terminalAt.Some? && rangeStart <= s.terminalAt.value <= now
  }

  predicate Merged(s: Session) {
    s.outcome == Some("merged")
  }

  function CountIn(sessions: seq<Session>, start: int, end: int, now: int): nat {
    Count(sessions, (s: Session) => s.terminalAt.Some? && InBucket(s.terminalAt.value, start, end, now))
  }

  function CountMergedIn(sessions: seq<Session>, start: int, end: int, now: int): nat {
    Count(sessions, (s: Session) => s.terminalAt.Some? && InBucket(s.terminalAt.value, start, end, now) && Merged(s))
  }

  function Buckets(sessions: seq<Session>, start: int, now: int, width: int): seq<Bucket>
    requires width > 0
    decreases now - start
  {
    if start >= now then [] else
    var end := Min(start + width, now);
    [Bucket(start, end, CountIn(sessions, start, end, now), CountMergedIn(sessions, start, end, now))]
      + Buckets(sessions, start + width, now, width)
  }

  method FillBuckets(sessions: seq<Session>, rangeStart: int, now: int, width: int) returns (buckets: seq<Bucket>)
    requires width > 0
    ensures buckets == Buckets(sessions, rangeStart, now, width)
  {
    buckets := [];
    var start := rangeStart;
    while start < now
      invariant buckets + Buckets(sessions, start, now, width) == Buckets(sessions, rangeStart, now, width)
      decreases now - start
    {
      var end := Min(start + width, now);
      buckets := buckets + [Bucket(start, end, CountIn(sessions, start, end, now), CountMergedIn(sessions, start, end, now))];
      start := start + width;
    }
  }

  function TerminalSum(buckets: seq<Bucket>): nat {
    if buckets == [] then 0 else buckets[0].terminalCount + TerminalSum(buckets[1..])
  }

  function MergedSum(buckets: seq<Bucket>): nat {
    if buckets == [] then 0 else buckets[0].mergedCount + MergedSum(buckets[1..])
  }

  /** The buckets from `start` on count exactly what ends between `start` and now. */
  lemma {:induction false} BucketSums(sessions: seq<Session>, start: int, now: int, width: int)
    requires width > 0 && start < now
    ensures TerminalSum(Buckets(sessions, start, now, width)) == Count(sessions, (s: Session) => InRange(s, start, now))
    ensures MergedSum(Buckets(sessions, start, now, width))
      == Count(sessions, (s: Session) => InRange(s, start, now) && Merged(s))
    decreases now - start
  {
    var end, next := Min(start + width, now), start + width;
    var buckets := Buckets(sessions, start, now, width);
    assert buckets[1..] == Buckets(sessions, next, now, width);
    var all := (s: Session) => InRange(s, start, now);
    var merged := (s: Session) => InRange(s, start, now) && Merged(s);
    var here := (s: Session) => s.terminalAt.Some? && InBucket(s.terminalAt.value, start, end, now);
    var hereMerged := (s: Session) => s.terminalAt.Some? && InBucket(s.terminalAt.value, start, end, now) && Merged(s);
    if next < now {
      BucketSums(sessions, next, now, width);
      CountSplit(sessions, all, here, (s: Session) => InRange(s, next, now));
      CountSplit(sessions, merged, hereMerged, (s: Session) => InRange(s, next, now) && Merged(s));
    } else {
      CountSame(sessions, all, here);
      CountSame(sessions, merged, hereMerged);
    }
  }

  /** Each moment of the range lies in exactly one bucket. */
  lemma {:induction false} ExactlyOneBucket(sessions: seq<Session>, start: int, now: int, width: int, at: int)
    requires width > 0 && start < now
    ensures Count(Buckets(sessions, start, now, width), (b: Bucket) => InBucket(at, b.start, b.end, now))
      == if start <= at <= now then 1 else 0
    decreases now - start
  {
    hide Count, CountIn, CountMergedIn;
    var first, rest := Buckets(sessions, start, now, width)[0], Buckets(sessions, start + width, now, width);
    var here := (b: Bucket) => InBucket(at, b.start, b.end, now);
    CountConcat([first], rest, here);
    CountSingle(first, here);
    if start + width < now {
      ExactlyOneBucket(sessions, start + width, now, width, at);
    } else {
      CountNone(rest, here);
    }
  }

  // ------------------------------------------------------------------ outcome and repair counts

  function OutcomeOf(s: Session): string {
    if s.outcome.Some? then s.outcome.value else "unknown"
  }

  /** A merged session is one whose outcome is counted as merged; without an outcome it is unknown. */
  lemma MergedIsOutcome(s: Session)
    ensures Merged(s) <==> OutcomeOf(s) == "merged"
    ensures s.outcome.None? ==> OutcomeOf(s) == "unknown"
  {
    assert "unknown"[0] != "merged"[0];
  }

  /** Each outcome is counted as often as it occurs, so the counts sum to the sessions. */
  method CountOutcomes(terminal: seq<Session>) returns (outcomes: map<string, nat>)
    ensures forall o :: (if o in outcomes then outcomes[o] else 0) == Count(terminal, (s: Session) => OutcomeOf(s) == o)
    ensures Total(outcomes) == |terminal|
  {
    outcomes := map[];
    for i := 0 to |terminal|
      invariant forall o ::
        (if o in outcomes then outcomes[o] else 0) == Count(terminal[..i], (s: Session) => OutcomeOf(s) == o)
      invariant Total(outcomes) == i
    {
      assert terminal[..i+1][..i] == terminal[..i];
      var o := OutcomeOf(terminal[i]);
      var seen := if o in outcomes then outcomes[o] else 0;
      TotalUpdate(outcomes, o, seen + 1);
      outcomes := outcomes[o := seen + 1];
    }
    assert terminal[..|terminal|] == terminal;
  }

  /** Zero, one and several base syncs partition the terminal sessions. */
  lemma RepairClassesPartition(terminal: seq<Session>)
    ensures Count(terminal, (s: Session) => s.baseSyncs == 0) + Count(terminal, (s: Session) => s.baseSyncs == 1)
      + Count(terminal, (s: Session) => s.baseSyncs >= 2) == |terminal|
  {
    CountAll(terminal, (s: Session) => true);
    CountSplit(terminal, (s: Session) => true, (s: Session) => s.baseSyncs == 0, (s: Session) => s.baseSyncs >= 1);
    CountSplit(terminal, (s: Session) => s.baseSyncs >= 1, (s: Session) => s.baseSyncs == 1, (s: Session) => s.baseSyncs >= 2);
  }

  // ------------------------------------------------------------------ percentiles

  function InsertInt(sorted: seq<int>, x: int): seq<int> {
    if sorted != [] && x < sorted[|sorted|-1] then InsertInt(sorted[..|sorted|-1], x) + [sorted[|sorted|-1]] else sorted + [x]
  }

  function SortedInts(values: seq<int>): seq<int> {
    if values == [] then [] else InsertInt(SortedInts(values[..|values|-1]), values[|values|-1])
  }

  /** ceil(quantile * n), the quantile in tenths. */
  function Rank(tenths: nat, n: nat): nat {
    (tenths * n + 9) / 10
  }

  function Percentile(values: seq<int>, tenths: nat): Option<int>
    requires tenths <= 10
  {
    if values == [] then None else
    SortedIntsKeeps(values);
    RankMonotone(tenths, 10, |values|);
    Some(SortedInts(values)[Max(0, Rank(tenths, |values|) - 1)])
  }

  predicate AscendingInts(s: seq<int>) {
    forall i, j | 0 <= i < j < |s| :: s[i] <= s[j]
  }

  lemma {:induction false} InsertIntKeeps(sorted: seq<int>, x: int)
    ensures |InsertInt(sorted, x)| == |sorted| + 1
    ensures forall y :: y in InsertInt(sorted, x) <==> y in sorted || y == x
    ensures AscendingInts(sorted) ==> AscendingInts(InsertInt(sorted, x))
  {
    if sorted != [] && x < sorted[|sorted|-1] {
      var init, last := sorted[..|sorted|-1], sorted[|sorted|-1];
      InsertIntKeeps(init, x);
      assert sorted == init + [last];
      assert forall y :: y in sorted <==> y in init || y == last;
      assert InsertInt(sorted, x) == InsertInt(init, x) + [last];
      if AscendingInts(sorted) {
        forall y | y in InsertInt(init, x) ensures y <= last { assert y in init || y == x; }
        AppendAscending(InsertInt(init, x), last);
      }
    }
  }

  lemma AppendAscending(s: seq<int>, last: int)
    requires AscendingInts(s) && forall y | y in s :: y <= last
    ensures AscendingInts(s + [last])
  {
    forall i | 0 <= i < |s| ensures s[i] <= last { assert s[i] in s; }
  }

  lemma {:induction false} SortedIntsKeeps(values: seq<int>)
    ensures AscendingInts(SortedInts(values)) && |SortedInts(values)| == |values|
    ensures forall y :: y in SortedInts(values) <==> y in values
  {
    if values != [] {
      SortedIntsKeeps(values[..|values|-1]);
      InsertIntKeeps(SortedInts(values[..|values|-1]), values[|values|-1]);
    }
  }

  lemma {:induction false} InsertIntCounts(sorted: seq<int>, x: int, p: int -> bool)
    ensures Count(InsertInt(sorted, x), p) == Count(sorted, p) + if p(x) then 1 else 0
  {
    if sorted != [] && x < sorted[|sorted|-1] {
      var init, last := sorted[..|sorted|-1], sorted[|sorted|-1];
      InsertIntCounts(init, x, p);
      assert (InsertInt(init, x) + [last])[..|InsertInt(init, x)|] == InsertInt(init, x);
    } else {
      assert (sorted + [x])[..|sorted|] == sorted;
    }
  }

  /** Sorting changes no count: it is a permutation. */
  lemma {:induction false} SortedIntsCounts(values: seq<int>, p: int -> bool)
    ensures Count(SortedInts(values), p) == Count(values, p)
  {
    if values != [] {
      SortedIntsCounts(values[..|values|-1], p);
      InsertIntCounts(SortedInts(values[..|values|-1]), values[|values|-1], p);
    }
  }

  /** Around position k of an ascending list. */
  lemma RankCounts(sorted: seq<int>, k: nat)
    requires AscendingInts(sorted) && k < |sorted|
    ensures Count(sorted, (x: int) => x <= sorted[k]) >= k + 1
    ensures Count(sorted, (x: int) => x < sorted[k]) <= k
  {
    hide Count;
    CountAround(sorted, k + 1, (x: int) => x <= sorted[k]);
    CountAround(sorted, k, (x: int) => x < sorted[k]);
  }

  /**
   Nearest rank: the percentile is one of the values; at least the rank of them are no larger, and
   fewer than the rank are smaller.
   */
  lemma PercentileIsNearestRank(values: seq<int>, tenths: nat)
    requires 1 <= tenths <= 10 && values != []
    ensures var v, rank := Percentile(values, tenths).value, Rank(tenths, |values|);
      && v in values && 1 <= rank <= |values|
      && Count(values, (x: int) => x <= v) >= rank
      && Count(values, (x: int) => x < v) < rank
  {
    hide SortedInts, Rank, Count;
    var sorted, rank := SortedInts(values), Rank(tenths, |values|);
    SortedIntsKeeps(values);
    RankBounds(tenths, |values|);
    var v := sorted[rank-1];
    RankCounts(sorted, rank - 1);
    SortedIntsCounts(values, (x: int) => x <= v);
    SortedIntsCounts(values, (x: int) => x < v);
  }

  /** A higher quantile is never smaller: p50 is at most p90. */
  lemma PercentilesAscend(values: seq<int>, low: nat, high: nat)
    requires low <= high <= 10 && values != []
    ensures Percentile(values, low).value <= Percentile(values, high).value
  {
    hide SortedInts, Rank;
    SortedIntsKeeps(values);
    RankMonotone(low, high, |values|);
    RankMonotone(high, 10, |values|);
  }

  lemma {:induction false} RankMonotone(low: nat, high: nat, n: nat)
    requires low <= high
    ensures Rank(low, n) <= Rank(high, n)
    ensures Rank(10, n) == n
    decreases high - low
  {
    if low < high {
      RankMonotone(low, high - 1, n);
      assert high * n == (high - 1) * n + n;
    }
  }

  lemma RankBounds(tenths: nat, n: nat)
    requires 1 <= tenths <= 10 && n > 0
    ensures 1 <= Rank(tenths, n) <= n
  {
    RankMonotone(1, tenths, n);
    RankMonotone(tenths, 10, n);
  }
}
