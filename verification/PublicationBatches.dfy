/**
 Publication batches: a lease over a set of items, fenced by a claim generation per item key that
 outlives the batch. Each operation is one atomic transition on `Tables`.
 */
module PublicationBatches {
  import opened Basics
  import opened SqlOrder

  datatype LeaseState = Leased | Completed | Expired

  datatype Outcome = ItemPublished | ItemSuperseded | LeaseExpired

  datatype Stage =
    | PreparationStarted | PreparationFinished | StateWriterWait
    | StateWriterCommitted | FinalGithubApply | GithubThrottle

  datatype Batch = Batch(
    state: LeaseState, owner: string, expiresAt: int, size: int, createdAt: int, completedAt: Option<int>,
    commitSha: Option<string>, failure: Option<string>, observed: map<Stage, int>)

  /** Primary key of the membership table. */
  datatype MemberKey = MemberKey(batchId: string, itemKey: string)

  /** A membership; it owns its item while it has no outcome. */
  datatype Member = Member(revision: int, generation: nat, outcome: Option<Outcome>)

  datatype Tables = Tables(
    batches: map<string, Batch>, members: map<MemberKey, Member>, generations: map<string, nat>)

  const EMPTY := Tables(map[], map[], map[])

  /** What identifies one lease of one item. */
  datatype Fence = Fence(itemKey: string, revision: int, generation: int)

  /** A batch as reported to its owner, members by item key. */
  datatype View = View(batchId: string, batch: Batch, items: map<string, Member>)

  // ------------------------------------------------------------------ queries

  function MembersOf(s: Tables, b: string): set<MemberKey> {
    set mk | mk in s.members && mk.batchId == b
  }

  function UnfinishedOf(s: Tables, b: string): set<MemberKey> {
    set mk | mk in s.members && mk.batchId == b && s.members[mk].outcome.None?
  }

  function LeasedBatches(s: Tables): set<string> {
    set b | b in s.batches && s.batches[b].state == Leased
  }

  function ViewOf(s: Tables, b: string): View
    requires b in s.batches
  {
    View(b, s.batches[b], map k | k in (set mk | mk in MembersOf(s, b) :: mk.itemKey) :: s.members[MemberKey(b, k)])
  }

  function Generation(s: Tables, itemKey: string): nat {
    if itemKey in s.generations then s.generations[itemKey] else 0
  }

  /** Some membership of the item has no outcome. */
  predicate Owned(members: map<MemberKey, Member>, itemKey: string) {
    exists mk | mk in members :: mk.itemKey == itemKey && members[mk].outcome.None?
  }

  /** The batch has the membership the fence names. */
  predicate Matches(s: Tables, b: string, f: Fence) {
    var mk := MemberKey(b, f.itemKey);
    mk in s.members && s.members[mk].revision == f.revision && s.members[mk].generation == f.generation
  }

  /** The batch has it, and it is unfinished. */
  predicate Holds(s: Tables, b: string, f: Fence) {
    Matches(s, b, f) && s.members[MemberKey(b, f.itemKey)].outcome.None?
  }

  // ------------------------------------------------------------------ expiry

  predicate Lapsed(batch: Batch, now: int) {
    batch.state == Leased && batch.expiresAt <= now
  }

  function ReclaimedBatch(batch: Batch, now: int): Batch {
    if Lapsed(batch, now) then batch.(state := Expired, completedAt := Some(now)) else batch
  }

  function ReclaimedMember(s: Tables, mk: MemberKey, now: int): Member
    requires mk in s.members
  {
    if mk.batchId in s.batches && Lapsed(s.batches[mk.batchId], now) && s.members[mk].outcome.None?
    then s.members[mk].(outcome := Some(LeaseExpired)) else s.members[mk]
  }

  /** Every lapsed lease becomes an expired batch whose unfinished members are released. */
  function Reclaim(s: Tables, now: int): Tables {
    s.(batches := map b | b in s.batches :: ReclaimedBatch(s.batches[b], now),
       members := map mk | mk in s.members :: ReclaimedMember(s, mk, now))
  }

  // ------------------------------------------------------------------ claim

  datatype Candidate = Candidate(itemKey: string, revision: int)

  datatype ClaimRequest = ClaimRequest(
    batchId: string, owner: string, expiresAt: int, maxItems: int, maxConcurrent: Option<int>,
    candidates: seq<Candidate>)

  datatype ClaimOutcome = Granted(view: View) | Declined | ConstraintFailed

  /** INSERT OR IGNORE of one membership; the generation moves on even when the row is ignored. */
  function Enroll(s: Tables, b: string, c: Candidate): Tables {
    var mk, generation := MemberKey(b, c.itemKey), Generation(s, c.itemKey) + 1;
    var bumped := s.(generations := s.generations[c.itemKey := generation]);
    if mk in s.members || Owned(s.members, c.itemKey) || c.revision < 1 then bumped
    else bumped.(members := s.members[mk := Member(c.revision, generation, None)])
  }

  function EnrollAll(s: Tables, b: string, candidates: seq<Candidate>, maxItems: int): Tables
    decreases |candidates|
  {
    if candidates == [] || |UnfinishedOf(s, b)| >= maxItems then s
    else EnrollAll(Enroll(s, b, candidates[0]), b, candidates[1..], maxItems)
  }

  function Capacity(maxConcurrent: Option<int>): int {
    Max(1, if maxConcurrent.None? then 1 else maxConcurrent.value)
  }

  function NewBatch(req: ClaimRequest, now: int): Batch {
    Batch(Leased, req.owner, req.expiresAt, req.maxItems, now, None, None, None, map[])
  }

  function Claim(s: Tables, req: ClaimRequest, now: int): (Tables, ClaimOutcome) {
    var r := Reclaim(s, now);
    if req.batchId in r.batches then
      var existing := r.batches[req.batchId];
      (r, if existing.state == Leased && existing.owner == req.owner then Granted(ViewOf(r, req.batchId)) else Declined)
    else if |LeasedBatches(r)| >= Capacity(req.maxConcurrent) then (r, Declined)
    else if req.maxItems < 1 then (s, ConstraintFailed)
    else
      var filled := Filled(r, req, now);
      if MembersOf(filled, req.batchId) == {} then (filled.(batches := filled.batches - {req.batchId}), Declined)
      else (filled, Granted(ViewOf(filled, req.batchId)))
  }

  function Opened(r: Tables, req: ClaimRequest, now: int): Tables {
    r.(batches := r.batches[req.batchId := NewBatch(req, now)])
  }

  function Filled(r: Tables, req: ClaimRequest, now: int): (filled: Tables)
    ensures req.batchId in filled.batches
  {
    EnrollKeepsBatches(Opened(r, req, now), req.batchId, req.candidates, req.maxItems);
    EnrollAll(Opened(r, req, now), req.batchId, req.candidates, req.maxItems)
  }

  lemma {:induction false} EnrollKeepsBatches(s: Tables, b: string, candidates: seq<Candidate>, maxItems: int)
    ensures EnrollAll(s, b, candidates, maxItems).batches == s.batches
    decreases |candidates|
  {
    if candidates != [] && |UnfinishedOf(s, b)| < maxItems {
      EnrollKeepsBatches(Enroll(s, b, candidates[0]), b, candidates[1..], maxItems);
    }
  }

  // ------------------------------------------------------------------ heartbeat and observations

  predicate DistinctFences(fences: seq<Fence>) {
    forall i, j | 0 <= i < j < |fences| :: fences[i].itemKey != fences[j].itemKey
  }

  /** Every supplied fence names a member of the batch, and no unfinished member is left out. */
  predicate ProvesBatch(s: Tables, b: string, fences: seq<Fence>) {
    && DistinctFences(fences)
    && (forall f | f in fences :: Matches(s, b, f))
    && (forall mk | mk in UnfinishedOf(s, b) :: exists f | f in fences :: f.itemKey == mk.itemKey)
  }

  function Heartbeat(s: Tables, b: string, owner: string, fences: seq<Fence>, expiresAt: int, now: int)
    : (Tables, Option<View>)
  {
    var r := Reclaim(s, now);
    if b !in r.batches || r.batches[b].state != Leased || r.batches[b].owner != owner || !ProvesBatch(r, b, fences)
    then (r, None)
    else
      var extended := r.(batches := r.batches[b := r.batches[b].(expiresAt := Max(r.batches[b].expiresAt, expiresAt))]);
      (extended, Some(ViewOf(extended, b)))
  }

  /** COALESCE: the first observation of a stage stays. */
  function Observe(s: Tables, b: string, owner: string, stage: Stage, at: int): (Tables, Option<View>) {
    if b !in s.batches || s.batches[b].owner != owner then (s, None) else
    var observed := if stage in s.batches[b].observed then s.batches[b].observed else s.batches[b].observed[stage := at];
    var after := s.(batches := s.batches[b := s.batches[b].(observed := observed)]);
    (after, Some(ViewOf(after, b)))
  }

  // ------------------------------------------------------------------ reads

  predicate OwnsActiveFence(s: Tables, f: Fence) {
    exists b | b in s.batches :: s.batches[b].state == Leased && Holds(s, b, f)
  }

  /** The memberships the active lease snapshot lists: unfinished, in a lease that has not lapsed. */
  function ActiveMembers(s: Tables, now: int): set<MemberKey> {
    set mk | mk in s.members && s.members[mk].outcome.None? && mk.batchId in s.batches
             && s.batches[mk.batchId].state == Leased && s.batches[mk.batchId].expiresAt > now
  }

  /** The active leases: rows by item key, the number of batches among them, and the first to lapse. */
  datatype Snapshot = Snapshot(items: seq<MemberKey>, activeBatches: nat, nextLeaseExpiresAt: Option<int>)

  /** ORDER BY item_key. No two active rows of a sound table share one, so the batch id never decides. */
  function ByItemKey(): (MemberKey, MemberKey) -> bool {
    (a: MemberKey, b: MemberKey) =>
      TextBefore(a.itemKey, b.itemKey) || (a.itemKey == b.itemKey && TextBefore(a.batchId, b.batchId))
  }

  function BatchIds(members: set<MemberKey>): set<string> {
    set mk | mk in members :: mk.batchId
  }

  function Expiries(s: Tables, ids: set<string>): set<int> {
    set b | b in ids && b in s.batches :: s.batches[b].expiresAt
  }

  function SnapshotOf(s: Tables, now: int): Snapshot {
    var active := ActiveMembers(s, now);
    Snapshot(OrderBy(active, ByItemKey()), |BatchIds(active)|, Least(Expiries(s, BatchIds(active))))
  }

  // ------------------------------------------------------------------ completion

  datatype Completion = Completion(fence: Fence, outcome: Outcome)

  datatype Call = Call(
    batchId: string, owner: string, completions: seq<Completion>, commitSha: Option<string>, failure: Option<string>)

  datatype CompleteOutcome = Acknowledged(view: View, accepted: seq<Completion>) | Refused | HandoffFailed

  /** The completions whose fence is an unfinished member of the batch, repeats included. */
  function AcceptedOf(s: Tables, b: string, completions: seq<Completion>): seq<Completion> {
    if completions == [] then [] else
    (if Holds(s, b, completions[0].fence) then [completions[0]] else []) + AcceptedOf(s, b, completions[1..])
  }

  function FirstOutcome(completions: seq<Completion>, f: Fence): Option<Outcome> {
    if completions == [] then None
    else if completions[0].fence == f then Some(completions[0].outcome)
    else FirstOutcome(completions[1..], f)
  }

  function FenceOf(mk: MemberKey, member: Member): Fence {
    Fence(mk.itemKey, member.revision, member.generation)
  }

  function FinishedMember(s: Tables, b: string, completions: seq<Completion>, mk: MemberKey): Member
    requires mk in s.members
  {
    var member := s.members[mk];
    if mk.batchId == b && member.outcome.None?
    then member.(outcome := FirstOutcome(completions, FenceOf(mk, member))) else member
  }

  /** Each unfinished member of the batch takes the first outcome reported for its fence. */
  function Finish(s: Tables, b: string, completions: seq<Completion>): Tables {
    s.(members := map mk | mk in s.members :: FinishedMember(s, b, completions, mk))
  }

  function Coalesce<T>(first: Option<T>, second: Option<T>): Option<T> {
    if first.Some? then first else second
  }

  /** The batch row once `accepted` has been recorded; closed when no member is left unfinished. */
  function ClosedBatch(batch: Batch, call: Call, recorded: bool, allDone: bool, now: int): Batch {
    var noted := if recorded
      then batch.(commitSha := Coalesce(batch.commitSha, call.commitSha), failure := Coalesce(batch.failure, call.failure))
      else batch;
    if allDone then noted.(state := Completed, completedAt := Some(now)) else noted
  }

  /** `handoff` is whether the caller's callback on the accepted completions went through. */
  function Complete(s: Tables, call: Call, now: int, handoff: bool): (Tables, CompleteOutcome) {
    var r, b := Reclaim(s, now), call.batchId;
    if b !in r.batches || r.batches[b].owner != call.owner then (r, Refused)
    else if r.batches[b].state != Leased then
      (r, if forall c | c in call.completions :: Matches(r, b, c.fence) then Acknowledged(ViewOf(r, b), []) else Refused)
    else
      var accepted := AcceptedOf(r, b, call.completions);
      if !handoff then (s, HandoffFailed) else
      var after := Settle(r, call, now);
      (after, Acknowledged(ViewOf(after, b), accepted))
  }

  function Settle(r: Tables, call: Call, now: int): (after: Tables)
    requires call.batchId in r.batches
    ensures call.batchId in after.batches
  {
    var b := call.batchId;
    var finished := Finish(r, b, call.completions);
    finished.(batches := r.batches[b := ClosedBatch(
      r.batches[b], call, AcceptedOf(r, b, call.completions) != [], UnfinishedOf(finished, b) == {}, now)])
  }

  // ------------------------------------------------------------------ cleanup

  /** What stats reports, cleanup counters included. */
  datatype Report = Report(
    leased: nat, completed: nat, expired: nat, active: Snapshot, oldestActiveAt: Option<int>,
    reclaimedItemsRetained: nat, deleted: nat, remaining: nat, limit: int)

  function FinishTimes(s: Tables): map<string, int> {
    map b | b in s.batches && s.batches[b].completedAt.Some? :: s.batches[b].completedAt.value
  }

  function Eligible(s: Tables, cutoff: int): set<string> {
    set b | b in s.batches && s.batches[b].state != Leased && s.batches[b].completedAt.Some?
            && s.batches[b].completedAt.value <= cutoff
  }

  /** Oldest first, at most `limit` of them; SQL takes a negative limit as none. */
  function CleanupIds(s: Tables, cutoff: int, limit: int): set<string> {
    if limit < 0 then Eligible(s, cutoff)
    else FirstRows(Eligible(s, cutoff), ByTimeThenKey(FinishTimes(s)), limit)
  }

  function WithoutBatches(s: Tables, ids: set<string>): Tables {
    s.(batches := s.batches - ids,
       members := map mk | mk in s.members && mk.batchId !in ids :: s.members[mk])
  }

  function InState(s: Tables, state: LeaseState): set<string> {
    set b | b in s.batches && s.batches[b].state == state
  }

  function CreationTimes(s: Tables, ids: set<string>): set<int> {
    set b | b in ids && b in s.batches :: s.batches[b].createdAt
  }

  /** Memberships kept of leases that lapsed. */
  function ReclaimedItems(s: Tables): set<MemberKey> {
    set mk | mk in s.members && s.members[mk].outcome == Some(LeaseExpired)
  }

  function ReportOf(s: Tables, now: int, cutoff: int, deleted: nat, limit: int): Report {
    Report(|LeasedBatches(s)|, |InState(s, Completed)|, |InState(s, Expired)|, SnapshotOf(s, now),
           Least(CreationTimes(s, LeasedBatches(s))), |ReclaimedItems(s)|, deleted, |Eligible(s, cutoff)|, limit)
  }

  function Stats(s: Tables, now: int, ttl: int, limit: int): (Tables, Report) {
    var r := Reclaim(s, now);
    var ids := CleanupIds(r, now - ttl, limit);
    var after := WithoutBatches(r, ids);
    (after, ReportOf(after, now, now - ttl, |ids|, limit))
  }
}
