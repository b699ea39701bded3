/**
 The two write paths over canonical record tuples: revision-fenced plan acceptance and
 compare-and-set tuple mutation. Each is one atomic transition on `Store`.
 */
module DirectPublication {
  import opened Basics
  import opened SqlOrder
  import opened Blobs
  import opened RecordTables
  import opened TupleCompletion

  const RETENTION_MS: int := 604800000
  const PRUNE_LIMIT: nat := 256

  datatype StoredOperation = StoredOperation(key: RecordKey, bytes: nat, digest: Option<string>, deleted: bool)

  datatype Plan = Plan(
    targetKey: string, fenceKey: string, revision: nat, claimGeneration: nat,
    operations: seq<Operation>, totalBytes: nat, lifecycle: Option<string>)

  /** What a retry must repeat: everything but the claim generation. */
  datatype PlanBody = PlanBody(
    targetKey: string, fenceKey: string, revision: nat,
    operations: seq<StoredOperation>, totalBytes: nat, lifecycle: Option<string>)

  datatype PlanState = Pending | Committing | Retryable | PublishedPlan | SupersededPlan | FailedPlan

  datatype PlanKey = PlanKey(fence: string, revision: nat)

  datatype PlanRow = PlanRow(
    body: PlanBody, claimGeneration: nat, state: PlanState, updatedAt: int, canonicalRevision: Option<nat>)

  datatype Receipt = Receipt(fingerprint: string, revision: nat, receivedAt: int)

  datatype Store = Store(records: Records, plans: map<PlanKey, PlanRow>, receipts: map<string, Receipt>)

  const EMPTY_STORE := Store(EMPTY_RECORDS, map[], map[])

  function StoredOperationOf(op: Operation): StoredOperation {
    StoredOperation(op.key, if op.content.None? then 0 else |op.content.value|, op.digest, op.content.None?)
  }

  function BodyOf(plan: Plan): PlanBody {
    PlanBody(plan.targetKey, plan.fenceKey, plan.revision,
             seq(|plan.operations|, i requires 0 <= i < |plan.operations| => StoredOperationOf(plan.operations[i])),
             plan.totalBytes, plan.lifecycle)
  }

  predicate Settled(state: PlanState) {
    state.PublishedPlan? || state.SupersededPlan? || state.FailedPlan?
  }

  /** What the plan validator leaves. */
  predicate ValidPlan(plan: Plan) {
    ValidTuple(plan.operations) && 1 <= plan.revision <= MAX_SAFE_INTEGER
  }

  // ------------------------------------------------------------------ pruning receipts

  predicate PlanKeyBefore(a: PlanKey, b: PlanKey) {
    TextBefore(a.fence, b.fence) || (a.fence == b.fence && a.revision < b.revision)
  }

  function PlanOrder(plans: map<PlanKey, PlanRow>): (PlanKey, PlanKey) -> bool {
    (a: PlanKey, b: PlanKey) => a in plans && b in plans
      && (plans[a].updatedAt < plans[b].updatedAt || (plans[a].updatedAt == plans[b].updatedAt && PlanKeyBefore(a, b)))
  }

  function PrunablePlans(plans: map<PlanKey, PlanRow>, now: int): set<PlanKey> {
    set k | k in plans && Settled(plans[k].state) && plans[k].updatedAt <= now - RETENTION_MS
  }

  /** At most PRUNE_LIMIT settled plans past retention go, oldest first. */
  function PrunePlans(plans: map<PlanKey, PlanRow>, now: int): map<PlanKey, PlanRow> {
    plans - FirstRows(PrunablePlans(plans, now), PlanOrder(plans), PRUNE_LIMIT)
  }

  function ReceiptTimes(receipts: map<string, Receipt>): map<string, int> {
    map d | d in receipts :: receipts[d].receivedAt
  }

  function PrunableReceipts(receipts: map<string, Receipt>, now: int): set<string> {
    set d | d in receipts && receipts[d].receivedAt <= now - RETENTION_MS
  }

  function PruneReceipts(receipts: map<string, Receipt>, now: int): map<string, Receipt> {
    receipts - FirstRows(PrunableReceipts(receipts, now), ByTimeThenKey(ReceiptTimes(receipts)), PRUNE_LIMIT)
  }

  // ------------------------------------------------------------------ tuple revisions

  function RevisionAt(r: Records, k: RecordKey): nat {
    if k in r.canonical then r.canonical[k].revision else 0
  }

  function TupleRevision(r: Records, repo: string, id: RecordId): nat {
    Max(Max(RevisionAt(r, RecordKey(repo, Items, id)), RevisionAt(r, RecordKey(repo, Closed, id))),
        Max(RevisionAt(r, RecordKey(repo, Plans, id)), RevisionAt(r, RecordKey(repo, DecisionPackets, id))))
  }

  // ------------------------------------------------------------------ plan acceptance

  datatype AcceptOutcome =
    | Accepted(revision: nat)
    | Deduped
    | Superseded
    | ConflictingRetry
    | InvalidTuple
    | RevisionExhausted

  predicate NewerKnown(plans: map<PlanKey, PlanRow>, fence: string, revision: nat) {
    exists k | k in plans :: k.fence == fence && k.revision > revision
  }

  function Accept(s: Store, plan: Plan, now: int): (Store, AcceptOutcome)
    requires plan.operations != []
  {
    AcceptCompleted(s, plan, CompleteTuple(plan.operations), now)
  }

  function AcceptCompleted(s: Store, plan: Plan, completion: Completion, now: int): (Store, AcceptOutcome)
    requires completion.Completed? ==> completion.operations != []
  {
    if !completion.Completed? then (s, InvalidTuple) else
    var kept := PrunePlans(s.plans, now);
    var key := PlanKey(plan.fenceKey, plan.revision);
    if key in kept && Settled(kept[key].state) then
      if kept[key].body != BodyOf(plan) then (s, ConflictingRetry)
      else (s.(plans := kept), if kept[key].state.SupersededPlan? then Superseded else Deduped)
    else if NewerKnown(kept - {key}, plan.fenceKey, plan.revision) then
      (s.(plans := kept[key := RowOf(plan, SupersededPlan, now, None)]), Superseded)
    else
      var stamp := Stamp(plan.targetKey, plan.claimGeneration, now);
      var written := WriteTuple(s.records, plan.revision, completion.operations, stamp);
      if written.None? then (s, RevisionExhausted) else
      var (records, revision) := written.value;
      (Store(records, kept[key := RowOf(plan, PublishedPlan, now, Some(revision))], s.receipts), Accepted(revision))
  }

  function RowOf(plan: Plan, state: PlanState, now: int, canonicalRevision: Option<nat>): PlanRow {
    PlanRow(BodyOf(plan), plan.claimGeneration, state, now, canonicalRevision)
  }

  /**
   All operations at one new tuple revision, at least `minimum`; None when the revision or the
   export counter is exhausted.
   */
  function WriteTuple(r: Records, minimum: nat, ops: seq<Operation>, stamp: Stamp): Option<(Records, nat)>
    requires ops != []
  {
    var current := TupleRevision(r, ops[0].key.repo, ops[0].key.id);
    if current >= MAX_SAFE_INTEGER then None else
    var revision := Max(minimum, current + 1);
    match PutAll(r, ops, revision, stamp)
    case None => None
    case Some(records) => Some((records, revision))
  }

  // ------------------------------------------------------------------ compare-and-set mutation

  datatype Mutation = Mutation(
    deliveryId: string, key: string, repo: string, id: RecordId, operations: seq<Operation>,
    expected: map<Section, Option<string>>, fingerprint: string)

  /** All four sections of one item, at most one of them a live primary. */
  predicate ValidMutation(m: Mutation) {
    && ValidTuple(m.operations) && |m.operations| == 4
    && m.operations[0].key.repo == m.repo && m.operations[0].key.id == m.id
    && !BothLive(m.operations)
  }

  predicate BothLive(ops: seq<Operation>) {
    (exists a | a in ops :: a.key.section == Items && a.content.Some?)
    && (exists b | b in ops :: b.key.section == Closed && b.content.Some?)
  }

  /** The digest a compare-and-set is checked against: none when absent or deleted. */
  function LiveDigest(r: Records, k: RecordKey): Option<string> {
    if k in r.index && !r.index[k].deleted then r.index[k].digest else None
  }

  function Expected(m: Mutation, section: Section): Option<string> {
    if section in m.expected then m.expected[section] else None
  }

  predicate ExpectationsMet(r: Records, m: Mutation) {
    forall op | op in m.operations :: LiveDigest(r, op.key) == Expected(m, op.key.section)
  }

  /** What a refused caller is told about the tuple: its four sections, when they share a revision. */
  datatype TupleState = TupleState(
    revision: nat, items: CanonicalRecord, closed: CanonicalRecord, plans: CanonicalRecord, packets: CanonicalRecord)

  function CurrentTuple(r: Records, repo: string, id: RecordId): Option<TupleState> {
    match (ReadCanonical(r, RecordKey(repo, Items, id)), ReadCanonical(r, RecordKey(repo, Closed, id)),
           ReadCanonical(r, RecordKey(repo, Plans, id)), ReadCanonical(r, RecordKey(repo, DecisionPackets, id)))
    case (Found(items), Found(closed), Found(plans), Found(packets)) =>
      if items.revision == closed.revision == plans.revision == packets.revision
      then Some(TupleState(items.revision, items, closed, plans, packets)) else None
    case _ => None
  }

  datatype MutateOutcome =
    | Applied(revision: nat)
    | Repeated(revision: nat)
    | BoundToAnotherPayload
    | Changed(current: Option<TupleState>)
    | MutationExhausted

  function Mutate(s: Store, m: Mutation, now: int): (Store, MutateOutcome)
    requires m.operations != []
  {
    var kept := PruneReceipts(s.receipts, now);
    if m.deliveryId in kept then
      if kept[m.deliveryId].fingerprint != m.fingerprint then (s, BoundToAnotherPayload)
      else (s.(receipts := kept), Repeated(kept[m.deliveryId].revision))
    else if !ExpectationsMet(s.records, m) then (s, Changed(CurrentTuple(s.records, m.repo, m.id)))
    else
      var written := WriteTuple(s.records, 0, m.operations, Stamp(m.key, 1, now));
      if written.None? then (s, MutationExhausted) else
      var (records, revision) := written.value;
      (Store(records, s.plans, kept[m.deliveryId := Receipt(m.fingerprint, revision, now)]), Applied(revision))
  }
}
