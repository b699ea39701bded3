/**
 The review coverage projection: canonical records classified per repository, reconciled with an
 inventory of open items. Nothing is counted twice or lost.
 */
module Coverage {
  import opened Basics
  import opened Counting

  /** The front matter of a record: labels in lower case, and no date where it cannot be parsed. */
  datatype Row = Row(slug: string, labels: seq<string>, status: string, reviewedAt: Option<int>)

  /** The time of a report, and for how long a review counts as recent. */
  datatype Clock = Clock(now: int, windowMs: int)

  datatype RecordClass = IsExcluded | IsReviewed | IsStale | IsFailed | IsExpired | IsUnreviewed

  datatype Fleet = Fleet(
    tracked: nat, reviewed: nat, stale: nat, failed: nat, expired: nat, unreviewed: nat, excluded: nat)

  const NO_FLEETS: map<string, Fleet> := map[]

  const NO_RECORDS := Fleet(0, 0, 0, 0, 0, 0, 0)

  datatype Inventory = Inventory(openIssues: nat, openPullRequests: nat)

  datatype Projection = Projection(
    tracked: nat, open: nat, reviewable: nat, reviewed: nat, stale: nat, failed: nat, expired: nat, unreviewed: nat,
    untrackedOpen: nat, pending: nat, excluded: nat, unschedulable: nat, drift: nat, schedulable: bool)

  // ------------------------------------------------------------------ the class of a record

  /** The close-protected labels other than maintainer. */
  predicate IsProtected(name: string) {
    name == "security" || name == "beta-blocker" || name == "release-blocker"
  }

  predicate Excluded(r: Row) {
    exists name | name in r.labels :: IsProtected(name)
  }

  predicate IsComplete(status: string) {
    status == "complete"
  }

  predicate StaleStatus(status: string) {
    "stale_" <= status
  }

  predicate FailedStatus(status: string) {
    status == "failed"
  }

  /** Reviewed, not in the future, and less than the window ago. */
  predicate Fresh(r: Row, t: Clock) {
    IsComplete(r.status) && r.reviewedAt.Some? && r.reviewedAt.value <= t.now && t.now - r.reviewedAt.value < t.windowMs
  }

  function ClassOf(r: Row, t: Clock): RecordClass {
    if Excluded(r) then IsExcluded
    else if Fresh(r, t) then IsReviewed
    else if StaleStatus(r.status) then IsStale
    else if FailedStatus(r.status) then IsFailed
    else if IsComplete(r.status) && r.reviewedAt.Some? then IsExpired
    else IsUnreviewed
  }

  lemma CompleteIsNotStale(status: string)
    requires IsComplete(status)
    ensures !StaleStatus(status) && !FailedStatus(status)
  {
    assert status[0] == 'c';
  }

  /** Whether the review is dated within the window that ends now. */
  predicate InWindow(r: Row, t: Clock) {
    r.reviewedAt.Some? && t.now - t.windowMs < r.reviewedAt.value <= t.now
  }

  /**
   Protected labels exclude a record whatever its review; otherwise its status alone decides, for a
   complete one together with its date. The order of the tests makes no difference.
   */
  lemma ClassExactly(r: Row, t: Clock)
    ensures ClassOf(r, t) == IsExcluded <==>
      "security" in r.labels || "beta-blocker" in r.labels || "release-blocker" in r.labels
    ensures ClassOf(r, t) != IsExcluded ==>
      && (ClassOf(r, t) == IsReviewed <==> r.status == "complete" && InWindow(r, t))
      && (ClassOf(r, t) == IsExpired <==> r.status == "complete" && r.reviewedAt.Some? && !InWindow(r, t))
      && (ClassOf(r, t) == IsStale <==> "stale_" <= r.status)
      && (ClassOf(r, t) == IsFailed <==> r.status == "failed")
  {
    StatusesDiffer(r.status);
    ProtectedLabels(r);
    hide Excluded;
  }

  lemma ProtectedLabels(r: Row)
    ensures Excluded(r) <==> "security" in r.labels || "beta-blocker" in r.labels || "release-blocker" in r.labels
  {
    if Excluded(r) {
      var name :| name in r.labels && IsProtected(name);
    }
    assert IsProtected("security") && IsProtected("beta-blocker") && IsProtected("release-blocker");
  }

  lemma StatusesDiffer(status: string)
    ensures !(status == "complete" && "stale_" <= status) && !(status == "complete" && status == "failed")
    ensures !("stale_" <= status && status == "failed")
  {
    assert "complete"[0] == 'c' && "failed"[0] == 'f';
    if "stale_" <= status { assert status[0] == 's'; }
  }

  /**
   Time alone moves a record only between reviewed and expired: it is reviewed from its review date
   until the window has passed, and expired before, when dated in the future, and ever after.
   */
  lemma RecordAges(r: Row, t: Clock, later: Clock)
    requires t.windowMs == later.windowMs
    ensures var first, second := ClassOf(r, t), ClassOf(r, later);
      first == second || (first == IsReviewed && second == IsExpired) || (first == IsExpired && second == IsReviewed)
    ensures ClassOf(r, t) == IsReviewed || ClassOf(r, t) == IsExpired ==>
      r.reviewedAt.Some? && var at := r.reviewedAt.value;
      ClassOf(r, later) == if at <= later.now < at + t.windowMs then IsReviewed else IsExpired
  {
    hide StaleStatus, FailedStatus, IsComplete, Excluded;
    if IsComplete(r.status) { CompleteIsNotStale(r.status); }
  }

  predicate Has(r: Row, kind: Option<RecordClass>, t: Clock) {
    kind.None? || ClassOf(r, t) == kind.value
  }

  function ClassCount(rows: seq<Row>, kind: Option<RecordClass>, t: Clock): nat {
    Count(rows, (r: Row) => Has(r, kind, t))
  }

  predicate OnlyExpires(before: RecordClass, after: RecordClass) {
    before == after || (before == IsReviewed && after == IsExpired)
  }

  /**
   With nothing published between two reports and no review dated ahead of the first, reviews can
   only expire: what leaves the reviewed class is in the expired one, and no other class changes.
   */
  lemma CoverageAges(rows: seq<Row>, t: Clock, later: Clock)
    requires t.windowMs == later.windowMs && t.now <= later.now
    requires forall r | r in rows :: r.reviewedAt.Some? ==> r.reviewedAt.value <= t.now
    ensures ClassCount(rows, Some(IsReviewed), later) <= ClassCount(rows, Some(IsReviewed), t)
    ensures ClassCount(rows, Some(IsReviewed), later) + ClassCount(rows, Some(IsExpired), later)
         == ClassCount(rows, Some(IsReviewed), t) + ClassCount(rows, Some(IsExpired), t)
    ensures forall kind | kind != IsReviewed && kind != IsExpired ::
              ClassCount(rows, Some(kind), later) == ClassCount(rows, Some(kind), t)
  {
    hide ClassOf, Count;
    forall r | r in rows ensures OnlyExpires(ClassOf(r, t), ClassOf(r, later)) {
      RecordAges(r, t, later);
      RecordAges(r, t, t);
    }
    CountAtMost(rows, (r: Row) => Has(r, Some(IsReviewed), later), (r: Row) => Has(r, Some(IsReviewed), t));
    var either := (r: Row, at: Clock) => Has(r, Some(IsReviewed), at) || Has(r, Some(IsExpired), at);
    CountSplit(rows, (r: Row) => either(r, t),
               (r: Row) => Has(r, Some(IsReviewed), t), (r: Row) => Has(r, Some(IsExpired), t));
    CountSplit(rows, (r: Row) => either(r, later),
               (r: Row) => Has(r, Some(IsReviewed), later), (r: Row) => Has(r, Some(IsExpired), later));
    CountSame(rows, (r: Row) => either(r, t), (r: Row) => either(r, later));
    forall kind | kind != IsReviewed && kind != IsExpired
      ensures ClassCount(rows, Some(kind), later) == ClassCount(rows, Some(kind), t)
    {
      CountSame(rows, (r: Row) => Has(r, Some(kind), later), (r: Row) => Has(r, Some(kind), t));
    }
  }

  // ------------------------------------------------------------------ counting per repository

  function Tally(fleet: Fleet, kind: RecordClass): Fleet {
    var f := fleet.(tracked := fleet.tracked + 1);
    match kind
    case IsExcluded => f.(excluded := f.excluded + 1)
    case IsReviewed => f.(reviewed := f.reviewed + 1)
    case IsStale => f.(stale := f.stale + 1)
    case IsFailed => f.(failed := f.failed + 1)
    case IsExpired => f.(expired := f.expired + 1)
    case IsUnreviewed => f.(unreviewed := f.unreviewed + 1)
  }

  /** Every tracked record is in exactly one class. */
  predicate Classified(f: Fleet) {
    f.tracked == f.excluded + f.reviewed + f.stale + f.failed + f.expired + f.unreviewed
  }

  /** A counter of a fleet: one class, or all tracked records. */
  function Part(f: Fleet, kind: Option<RecordClass>): nat {
    match kind
    case None => f.tracked
    case Some(IsExcluded) => f.excluded
    case Some(IsReviewed) => f.reviewed
    case Some(IsStale) => f.stale
    case Some(IsFailed) => f.failed
    case Some(IsExpired) => f.expired
    case Some(IsUnreviewed) => f.unreviewed
  }

  /** The rows of a repository in a class. */
  function RowCount(rows: seq<Row>, slug: string, kind: Option<RecordClass>, t: Clock): nat {
    Count(rows, (r: Row) => r.slug == slug && Has(r, kind, t))
  }

  /** The rows in a class outside some repositories. */
  function OtherCount(rows: seq<Row>, slugs: set<string>, kind: Option<RecordClass>, t: Clock): nat {
    Count(rows, (r: Row) => r.slug !in slugs && Has(r, kind, t))
  }

  function PartsOf(fleets: map<string, Fleet>, kind: Option<RecordClass>): map<string, nat> {
    map slug | slug in fleets :: Part(fleets[slug], kind)
  }

  lemma TallyLaw(f: Fleet, kind: RecordClass)
    requires Classified(f)
    ensures Classified(Tally(f, kind))
    ensures forall c :: Part(Tally(f, kind), c) == Part(f, c) + if c.None? || c.value == kind then 1 else 0
  {
  }

  lemma SetFleet(fleets: map<string, Fleet>, slug: string, f: Fleet, c: Option<RecordClass>)
    ensures Total(PartsOf(fleets[slug := f], c))
      == Total(PartsOf(fleets, c)) - (if slug in fleets then Part(fleets[slug], c) else 0) + Part(f, c)
  {
    TotalUpdate(PartsOf(fleets, c), slug, Part(f, c));
    assert PartsOf(fleets[slug := f], c) == PartsOf(fleets, c)[slug := Part(f, c)];
  }

  function FleetAt(fleets: map<string, Fleet>, slug: string): Fleet {
    if slug in fleets then fleets[slug] else NO_RECORDS
  }

  /** The fleets count these rows: repository by repository, class by class, and every row once. */
  ghost predicate Reads(fleets: map<string, Fleet>, rows: seq<Row>, t: Clock) {
    && (forall slug | slug in fleets :: Classified(fleets[slug]))
    && (forall slug, c :: Part(FleetAt(fleets, slug), c) == RowCount(rows, slug, c, t))
    && (forall slugs, c :: Total(PartsOf(fleets - slugs, c)) == OtherCount(rows, slugs, c, t))
  }

  method ClassifyRows(rows: seq<Row>, t: Clock) returns (fleets: map<string, Fleet>)
    ensures Reads(fleets, rows, t)
  {
    hide Reads, Excluded, Fresh, StaleStatus, FailedStatus, IsComplete;
    fleets := NO_FLEETS;
    NothingRead(t);
    for i := 0 to |rows|
      invariant Reads(fleets, rows[..i], t)
    {
      ReadOneMore(fleets, rows[..i], rows[i], t);
      assert rows[..i+1] == rows[..i] + [rows[i]];
      var row := rows[i];
      var kind;
      if Excluded(row) { kind := IsExcluded; }
      else if Fresh(row, t) { kind := IsReviewed; }
      else if StaleStatus(row.status) { kind := IsStale; }
      else if FailedStatus(row.status) { kind := IsFailed; }
      else if IsComplete(row.status) && row.reviewedAt.Some? { kind := IsExpired; }
      else { kind := IsUnreviewed; }
      fleets := fleets[row.slug := Tally(if row.slug in fleets then fleets[row.slug] else NO_RECORDS, kind)];
    }
    assert rows[..|rows|] == rows;
  }

  lemma NothingRead(t: Clock)
    ensures forall rows: seq<Row> | rows == [] :: Reads(NO_FLEETS, rows, t)
  {
    forall slugs, c ensures Total(PartsOf(NO_FLEETS - slugs, c)) == 0 {
      EmptyTotal(c);
      assert NO_FLEETS - slugs == NO_FLEETS;
    }
  }

  lemma ReadOneMore(fleets: map<string, Fleet>, rows: seq<Row>, row: Row, t: Clock)
    requires Reads(fleets, rows, t)
    ensures Reads(fleets[row.slug := Tally(FleetAt(fleets, row.slug), ClassOf(row, t))], rows + [row], t)
  {
    hide Tally, Classified, PartsOf, Part, Total, RowCount, OtherCount, ClassOf;
    var fleet := Tally(FleetAt(fleets, row.slug), ClassOf(row, t));
    var after := fleets[row.slug := fleet];
    EmptyFleet();
    TallyLaw(FleetAt(fleets, row.slug), ClassOf(row, t));
    forall slug, c ensures Part(FleetAt(after, slug), c) == RowCount(rows + [row], slug, c, t) {
      OneMoreRow(rows, row, slug, {}, c, t);
    }
    forall slugs, c ensures Total(PartsOf(after - slugs, c)) == OtherCount(rows + [row], slugs, c, t) {
      OneMoreRow(rows, row, row.slug, slugs, c, t);
      if row.slug in slugs {
        assert after - slugs == fleets - slugs;
      } else {
        assert after - slugs == (fleets - slugs)[row.slug := fleet];
        SetFleet(fleets - slugs, row.slug, fleet, c);
      }
    }
  }

  lemma OneMoreRow(rows: seq<Row>, row: Row, slug: string, slugs: set<string>, c: Option<RecordClass>, t: Clock)
    ensures var one := if slug == row.slug && Has(row, c, t) then 1 else 0;
      RowCount(rows + [row], slug, c, t) == RowCount(rows, slug, c, t) + one
    ensures var one := if row.slug !in slugs && Has(row, c, t) then 1 else 0;
      OtherCount(rows + [row], slugs, c, t) == OtherCount(rows, slugs, c, t) + one
  {
    hide ClassOf;
    assert (rows + [row])[..|rows|] == rows;
  }

  lemma EmptyFleet()
    ensures Classified(NO_RECORDS) && forall c :: Part(NO_RECORDS, c) == 0
  {
  }

  lemma EmptyTotal(c: Option<RecordClass>)
    ensures Total(PartsOf(NO_FLEETS, c)) == 0
  {
    assert PartsOf(NO_FLEETS, c) == map[];
  }

  // ------------------------------------------------------------------ one fleet

  function Unschedulable(fleet: Fleet): Projection {
    Projection(fleet.tracked, 0, 0, 0, 0, 0, 0, 0, 0, 0, 0, fleet.tracked, 0, false)
  }

  /** A schedulable fleet's open items are all accounted for; any other fleet's records are set aside. */
  predicate Conserves(p: Projection) {
    if !p.schedulable then p.unschedulable == p.tracked else
    && p.open == p.excluded + p.reviewable && p.reviewable == p.reviewed + p.stale + p.failed + p.pending
    && p.pending == p.expired + p.unreviewed + p.untrackedOpen
    && p.open == p.tracked - p.drift + p.untrackedOpen && p.unschedulable == 0
  }

  /** Each class in turn gets what the classes before it left of the reviewable items. */
  predicate FilledInOrder(f: Fleet, p: Projection) {
    && p.excluded == Min(f.excluded, p.open)
    && p.reviewed == Min(f.reviewed, p.reviewable)
    && p.reviewed + p.stale == Min(f.reviewed + f.stale, p.reviewable)
    && p.reviewed + p.stale + p.failed == Min(f.reviewed + f.stale + f.failed, p.reviewable)
    && p.reviewed + p.stale + p.failed + p.expired == Min(f.reviewed + f.stale + f.failed + f.expired, p.reviewable)
    && p.reviewable - p.untrackedOpen == Min(f.tracked - f.excluded, p.reviewable)
  }

  /** With as many open items as records, the classes come through unclipped. */
  lemma UnclippedWhenAllOpen(f: Fleet, p: Projection)
    requires Classified(f) && FilledInOrder(f, p) && Conserves(p) && p.schedulable && p.open >= f.tracked
    ensures p.excluded == f.excluded && p.reviewed == f.reviewed && p.stale == f.stale && p.failed == f.failed
    ensures p.expired == f.expired && p.unreviewed == f.unreviewed
  {
  }

  function OpenItems(inventory: Inventory): nat {
    inventory.openIssues + inventory.openPullRequests
  }

  /**
   Takes the classes one after another out of what is open, so open = excluded + reviewed + stale +
   failed + pending and open = tracked - drift + untracked, never with both drift and untracked;
   without an inventory nothing is clipped.
   */
  method ProjectFleet(fleet: Fleet, inventory: Option<Inventory>, hasInventory: bool) returns (p: Projection)
    requires Classified(fleet)
    ensures !p.schedulable <==> hasInventory && inventory.None?
    ensures !p.schedulable ==> p == Unschedulable(fleet)
    ensures p.tracked == fleet.tracked && Conserves(p)
    ensures p.schedulable ==>
      && (p.drift == 0 || p.untrackedOpen == 0) && FilledInOrder(fleet, p)
      && (inventory.Some? ==> p.open == OpenItems(inventory.value))
    ensures p.schedulable && inventory.None? ==> p.drift == 0 && p.untrackedOpen == 0 && p.open == fleet.tracked
  {
    if hasInventory && inventory.None? {
      return Unschedulable(fleet);
    }
    var open := if inventory.Some? then inventory.value.openIssues + inventory.value.openPullRequests else fleet.tracked;
    var excluded := Min(fleet.excluded, open);
    var reviewable := Max(0, open - excluded);
    var remaining: nat := reviewable;
    var reviewed, stale, failed, expired, unreviewed;
    reviewed, remaining := Take(fleet.reviewed, remaining);
    stale, remaining := Take(fleet.stale, remaining);
    failed, remaining := Take(fleet.failed, remaining);
    expired, remaining := Take(fleet.expired, remaining);
    unreviewed, remaining := Take(fleet.unreviewed, remaining);
    p := Projection(fleet.tracked, open, reviewable, reviewed, stale, failed, expired, unreviewed, remaining,
                    expired + unreviewed + remaining, excluded, 0, Max(0, fleet.tracked - open), true);
  }

  method Take(count: nat, remaining: nat) returns (accepted: nat, left: nat)
    ensures accepted == Min(count, remaining) && left == remaining - accepted
  {
    accepted := Min(Max(0, count), remaining);
    left := remaining - accepted;
  }

  // ------------------------------------------------------------------ all fleets

  datatype Totals = Totals(
    open: nat, reviewable: nat, tracked: nat, reviewed: nat, stale: nat, failed: nat, expired: nat, unreviewed: nat,
    untrackedOpen: nat, pending: nat, excluded: nat, unschedulable: nat, drift: nat)

  const NO_TOTALS := Totals(0, 0, 0, 0, 0, 0, 0, 0, 0, 0, 0, 0, 0)

  predicate Balanced(t: Totals) {
    && t.open == t.excluded + t.reviewable && t.reviewable == t.reviewed + t.stale + t.failed + t.pending
    && t.pending == t.expired + t.unreviewed + t.untrackedOpen
    && t.open == t.tracked - t.drift + t.untrackedOpen
  }

  /** The total of a class. */
  function ClassTotal(t: Totals, kind: RecordClass): nat {
    match kind
    case IsExcluded => t.excluded
    case IsReviewed => t.reviewed
    case IsStale => t.stale
    case IsFailed => t.failed
    case IsExpired => t.expired
    case IsUnreviewed => t.unreviewed
  }

  /** The open items the inventory has for some repositories. */
  function OpenOf(inventory: map<string, Inventory>, slugs: set<string>): map<string, nat> {
    map slug | slug in inventory && slug in slugs :: OpenItems(inventory[slug])
  }

  /**
   The whole report. Its totals balance, and tracked plus unschedulable is every row read. With an
   inventory the open items are the inventory's and the unschedulable records those of repositories
   it does not have; without one every row is open and counted in its class.
   */
  method ReviewCoverage(rows: seq<Row>, t: Clock, inventory: Option<map<string, Inventory>>) returns (totals: Totals)
    ensures Balanced(totals)
    ensures totals.tracked + totals.unschedulable == |rows|
    ensures inventory.Some? ==>
      && totals.open == Total(OpenOf(inventory.value, inventory.value.Keys))
      && totals.unschedulable == OtherCount(rows, inventory.value.Keys, None, t)
    ensures inventory.None? ==>
      && totals.open == |rows| && totals.drift == totals.untrackedOpen == 0
      && forall kind :: ClassTotal(totals, kind) == ClassCount(rows, Some(kind), t)
  {
    hide Total, PartsOf, OpenOf, Classified, RowCount, Part, ClassCount, OtherCount;
    AllRows(rows, t);
    var fleets := ClassifyRows(rows, t);
    WholeFleet(fleets);
    if inventory.Some? {
      fleets := WithInventory(fleets, inventory.value.Keys);
    }
    totals := SumFleets(fleets, inventory);
    NothingLeft(fleets, inventory);
  }

  lemma WholeFleet(fleets: map<string, Fleet>)
    ensures fleets - {} == fleets
  {
  }

  lemma AllRows(rows: seq<Row>, t: Clock)
    ensures OtherCount(rows, {}, None, t) == |rows|
    ensures forall kind :: OtherCount(rows, {}, kind, t) == ClassCount(rows, kind, t)
  {
    hide ClassOf, Count;
    var none: set<string> := {};
    forall kind ensures OtherCount(rows, none, kind, t) == ClassCount(rows, kind, t) {
      CountSame(rows, (r: Row) => r.slug !in none && Has(r, kind, t), (r: Row) => Has(r, kind, t));
    }
    CountAll(rows, (r: Row) => Has(r, None, t));
  }

  /** The totals so far and the fleets still to come make up the whole. */
  ghost predicate SumsTo(
      t: Totals, rest: map<string, Fleet>, fleets: map<string, Fleet>, inventory: Option<map<string, Inventory>>)
  {
    && Balanced(t)
    && t.tracked + t.unschedulable + Total(PartsOf(rest, None)) == Total(PartsOf(fleets, None))
    && match inventory
       case None =>
         && t.unschedulable == t.drift == t.untrackedOpen == 0
         && (forall kind ::
               ClassTotal(t, kind) + Total(PartsOf(rest, Some(kind))) == Total(PartsOf(fleets, Some(kind))))
       case Some(known) =>
         && t.open + Total(OpenOf(known, rest.Keys)) == Total(OpenOf(known, fleets.Keys))
         && t.unschedulable + Total(PartsOf(rest - known.Keys, None)) == Total(PartsOf(fleets - known.Keys, None))
  }

  function Entry(inventory: Option<map<string, Inventory>>, slug: string): Option<Inventory> {
    if inventory.Some? && slug in inventory.value then Some(inventory.value[slug]) else None
  }

  /** What a fleet is projected to, as far as the sums go. */
  predicate Projected(p: Projection, f: Fleet, entry: Option<Inventory>, hasInventory: bool) {
    && Conserves(p) && p.tracked == f.tracked && (!p.schedulable <==> hasInventory && entry.None?)
    && (entry.Some? ==> p.open == OpenItems(entry.value))
    && (!hasInventory ==>
          && p.drift == p.untrackedOpen == 0 && p.excluded == f.excluded && p.reviewed == f.reviewed
          && p.stale == f.stale && p.failed == f.failed && p.expired == f.expired && p.unreviewed == f.unreviewed)
  }

  lemma OneMoreFleet(
      t: Totals, p: Projection, rest: map<string, Fleet>, slug: string, fleets: map<string, Fleet>,
      inventory: Option<map<string, Inventory>>)
    requires SumsTo(t, rest, fleets, inventory) && slug in rest
    requires Projected(p, rest[slug], Entry(inventory, slug), inventory.Some?)
    ensures SumsTo(AddFleet(t, p), rest - {slug}, fleets, inventory)
  {
    hide Total, PartsOf, OpenOf, Conserves, Balanced, Projected, AddFleet, ClassTotal;
    AddFleetLaw(t, p, rest[slug], Entry(inventory, slug), inventory.Some?);
    DropFleet(rest, slug);
    if inventory.Some? { DropKnown(rest, slug, inventory.value); }
  }

  /** The report's order of fleets does not matter to its sums. */
  method SumFleets(fleets: map<string, Fleet>, inventory: Option<map<string, Inventory>>) returns (totals: Totals)
    requires forall slug | slug in fleets :: Classified(fleets[slug])
    ensures SumsTo(totals, NO_FLEETS, fleets, inventory)
  {
    hide SumsTo, Classified, Conserves, FilledInOrder;
    NothingSummed(fleets, inventory);
    totals := NO_TOTALS;
    var rest := fleets;
    while rest != NO_FLEETS
      invariant forall slug | slug in rest :: Classified(rest[slug])
      invariant SumsTo(totals, rest, fleets, inventory)
      decreases |rest|
    {
      var slug :| slug in rest;
      var p := ProjectFleet(rest[slug], Entry(inventory, slug), inventory.Some?);
      if inventory.None? { UnclippedWhenAllOpen(rest[slug], p); }
      OneMoreFleet(totals, p, rest, slug, fleets, inventory);
      totals := AddFleet(totals, p);
      rest := rest - {slug};
    }
  }

  lemma NothingSummed(fleets: map<string, Fleet>, inventory: Option<map<string, Inventory>>)
    ensures SumsTo(NO_TOTALS, fleets, fleets, inventory)
  {
    hide Total, PartsOf, OpenOf;
  }

  lemma NothingLeft(fleets: map<string, Fleet>, inventory: Option<map<string, Inventory>>)
    ensures forall c :: Total(PartsOf(NO_FLEETS, c)) == 0
    ensures inventory.Some? ==>
      && Total(OpenOf(inventory.value, NO_FLEETS.Keys)) == 0
      && Total(PartsOf(NO_FLEETS - inventory.value.Keys, None)) == 0
      && (inventory.value.Keys <= fleets.Keys ==>
            OpenOf(inventory.value, fleets.Keys) == OpenOf(inventory.value, inventory.value.Keys))
  {
    forall c ensures Total(PartsOf(NO_FLEETS, c)) == 0 { EmptyTotal(c); }
    if inventory.Some? {
      assert OpenOf(inventory.value, {}) == map[];
      assert NO_FLEETS - inventory.value.Keys == NO_FLEETS;
    }
  }

  function AddFleet(totals: Totals, p: Projection): Totals {
    if !p.schedulable then totals.(unschedulable := totals.unschedulable + p.unschedulable) else
    Totals(
      totals.open + p.open, totals.reviewable + p.reviewable, totals.tracked + p.tracked, totals.reviewed + p.reviewed,
      totals.stale + p.stale, totals.failed + p.failed, totals.expired + p.expired, totals.unreviewed + p.unreviewed,
      totals.untrackedOpen + p.untrackedOpen, totals.pending + p.pending, totals.excluded + p.excluded,
      totals.unschedulable, totals.drift + p.drift)
  }

  lemma AddFleetLaw(totals: Totals, p: Projection, f: Fleet, entry: Option<Inventory>, hasInventory: bool)
    requires Balanced(totals) && Projected(p, f, entry, hasInventory)
    ensures var after := AddFleet(totals, p);
      && Balanced(after) && after.tracked + after.unschedulable == totals.tracked + totals.unschedulable + Part(f, None)
      && after.unschedulable == totals.unschedulable + (if hasInventory && entry.None? then Part(f, None) else 0)
      && (hasInventory ==> after.open == totals.open + if entry.Some? then OpenItems(entry.value) else 0)
      && (!hasInventory ==>
            && after.drift == totals.drift && after.untrackedOpen == totals.untrackedOpen
            && forall kind :: ClassTotal(after, kind) == ClassTotal(totals, kind) + Part(f, Some(kind)))
  {
  }

  lemma DropFleet(fleets: map<string, Fleet>, slug: string)
    requires slug in fleets
    ensures forall c :: Total(PartsOf(fleets, c)) == Part(fleets[slug], c) + Total(PartsOf(fleets - {slug}, c))
  {
    forall c ensures Total(PartsOf(fleets, c)) == Part(fleets[slug], c) + Total(PartsOf(fleets - {slug}, c)) {
      TotalRemove(PartsOf(fleets, c), slug);
      assert PartsOf(fleets - {slug}, c) == PartsOf(fleets, c) - {slug};
    }
  }

  /** Dropping a fleet drops its open items if the inventory has it, and its records if not. */
  lemma DropKnown(fleets: map<string, Fleet>, slug: string, known: map<string, Inventory>)
    requires slug in fleets
    ensures var items := if slug in known then OpenItems(known[slug]) else 0;
      Total(OpenOf(known, fleets.Keys)) == items + Total(OpenOf(known, (fleets - {slug}).Keys))
    ensures var records := if slug in known then 0 else Part(fleets[slug], None);
      Total(PartsOf(fleets - known.Keys, None)) == records + Total(PartsOf(fleets - {slug} - known.Keys, None))
  {
    hide Total, PartsOf, OpenItems;
    assert (fleets - {slug}).Keys == fleets.Keys - {slug};
    var open, rest := OpenOf(known, fleets.Keys), OpenOf(known, fleets.Keys - {slug});
    if slug in known {
      assert rest == open - {slug};
      TotalRemove(open, slug);
      assert fleets - {slug} - known.Keys == fleets - known.Keys;
    } else {
      assert rest == open;
      assert fleets - {slug} - known.Keys == fleets - known.Keys - {slug};
      DropFleet(fleets - known.Keys, slug);
    }
  }

  /** Empty fleets have been added for some of these repositories. */
  ghost predicate AddedFor(all: map<string, Fleet>, fleets: map<string, Fleet>, slugs: set<string>, some: set<string>) {
    && all.Keys == fleets.Keys + some && all - slugs == fleets - slugs
    && (forall slug | slug in all :: Classified(all[slug]))
    && Total(PartsOf(all, None)) == Total(PartsOf(fleets, None))
  }

  lemma NewFleet(
      all: map<string, Fleet>, fleets: map<string, Fleet>, slugs: set<string>, some: set<string>, next: string)
    requires AddedFor(all, fleets, slugs, some) && next in slugs
    ensures AddedFor(if next in all then all else all[next := NO_RECORDS], fleets, slugs, some + {next})
  {
    hide Total, PartsOf, Classified;
    EmptyFleet();
    if next in all {
      assert all.Keys == fleets.Keys + (some + {next});
    } else {
      var after := all[next := NO_RECORDS];
      SetFleet(all, next, NO_RECORDS, None);
      assert after - slugs == all - slugs;
      assert after.Keys == fleets.Keys + (some + {next});
    }
  }

  lemma NoFleetYet(fleets: map<string, Fleet>, slugs: set<string>)
    requires forall slug | slug in fleets :: Classified(fleets[slug])
    ensures AddedFor(fleets, fleets, slugs, {})
  {
  }

  /** Inventory repositories without records get an empty fleet; no record is added. */
  method WithInventory(fleets: map<string, Fleet>, slugs: set<string>) returns (all: map<string, Fleet>)
    requires forall slug | slug in fleets :: Classified(fleets[slug])
    ensures all.Keys == fleets.Keys + slugs && all - slugs == fleets - slugs
    ensures forall slug | slug in all :: Classified(all[slug])
    ensures Total(PartsOf(all, None)) == Total(PartsOf(fleets, None))
  {
    hide AddedFor, Classified, Total, PartsOf;
    NoFleetYet(fleets, slugs);
    all := fleets;
    var rest := slugs;
    ghost var seen: set<string> := {};
    while rest != {}
      invariant seen + rest == slugs && AddedFor(all, fleets, slugs, seen)
      decreases |rest|
    {
      var next :| next in rest;
      NewFleet(all, fleets, slugs, seen, next);
      if next !in all {
        all := all[next := NO_RECORDS];
      }
      seen := seen + {next};
      rest := rest - {next};
    }
    AllAdded(all, fleets, slugs);
  }

  lemma AllAdded(all: map<string, Fleet>, fleets: map<string, Fleet>, slugs: set<string>)
    requires AddedFor(all, fleets, slugs, slugs)
    ensures all.Keys == fleets.Keys + slugs && all - slugs == fleets - slugs
    ensures forall slug | slug in all :: Classified(all[slug])
    ensures Total(PartsOf(all, None)) == Total(PartsOf(fleets, None))
  {
  }
}
