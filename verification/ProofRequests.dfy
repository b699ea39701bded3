/**
 Command proof requests: one record per human command version, at most one of them active, with a
 cursor over the proofs of a batch. Each operation is one atomic transition on the record table.
 */
module ProofRequests {
  import opened Basics
  import opened SqlOrder

  datatype Scenario = WebUiChat | TelegramBot | TelegramQa

  /** A timestamp as written and as parsed. */
  datatype Timestamp = Timestamp(text: string, at: int)

  /** What a proof of the same human command on the same change has in common with its anchor. */
  datatype Anchor = Anchor(
    repository: string, repositoryId: string, pullRequest: nat, headSha: string, baseSha: string, bodySha: string,
    targetBranch: string, commentId: string, commentAt: Timestamp, commentBodySha: string)

  datatype Claim = Claim(requestId: string, anchor: Anchor, scenario: Scenario, workflow: string)

  /** The human command version: the unique target key. */
  datatype TargetKey = TargetKey(repositoryId: string, pullRequest: nat, commentId: string, at: int, bodySha: string)

  datatype Plan = Plan(scenarios: seq<Scenario>, missingProof: string)

  datatype Proof = Proof(pass: bool, digest: string, context: string, runId: string, runAttempt: nat)

  datatype BatchResult = NoProof(reason: string) | Proved(proof: Proof)

  datatype Batch = Batch(plan: Option<Plan>, claims: seq<Claim>, index: nat, started: bool, results: seq<BatchResult>)

  datatype State = DispatchClaimed | ReviewPending | Completed | Inconclusive

  datatype Record = Record(
    batch: Option<Batch>, claim: Claim, state: State, createdAt: int, expiresAt: int, reason: Option<string>,
    runId: Option<string>, notified: bool, nextAttemptAt: Option<int>, result: Option<Proof>)

  type Table = map<string, Record>

  const LIFETIME_MS: int := 3600000
  const DAY_MS: int := 86400000
  const RETENTION_MS: int := 30 * DAY_MS
  const SKEW_MS: int := 60000
  const DEADLINE: string := "proof_deadline_expired"

  predicate Active(record: Record) {
    record.state == DispatchClaimed || record.state == ReviewPending
  }

  function Key(claim: Claim): TargetKey {
    var a := claim.anchor;
    TargetKey(a.repositoryId, a.pullRequest, a.commentId, a.commentAt.at, a.commentBodySha)
  }

  // ------------------------------------------------------------------ expiry

  function ExpiredRecord(record: Record, now: int): Record {
    if Active(record) && record.expiresAt <= now
    then record.(state := Inconclusive, reason := Some(DEADLINE), nextAttemptAt := None) else record
  }

  function Expire(table: Table, now: int): Table {
    map id | id in table && table[id].expiresAt >= now - RETENTION_MS :: ExpiredRecord(table[id], now)
  }

  // ------------------------------------------------------------------ claim

  datatype ClaimOutcome =
    | Accepted(dispatch: bool, record: Record)
    | OldClaim
    | IdentityConflict
    | BindingChanged
    | CapacityBusy

  predicate InTime(claim: Claim, now: int) {
    now - DAY_MS <= claim.anchor.commentAt.at <= now + SKEW_MS
  }

  function NewRecord(claim: Claim, now: int, batch: bool): Record {
    Record(if batch then Some(Batch(None, [], 0, false, [])) else None, claim, DispatchClaimed, now, now + LIFETIME_MS,
           None, None, false, None, None)
  }

  function TargetIds(table: Table, claim: Claim): set<string> {
    set id | id in table && Key(table[id].claim) == Key(claim)
  }

  /** A record of this target (LIMIT 1; the target key is unique, so there is but one). */
  function TargetId(table: Table, claim: Claim): (id: string)
    requires TargetIds(table, claim) != {}
    ensures id in TargetIds(table, claim)
  {
    TextOrderTotal();
    OrderByLists(TargetIds(table, claim), TextBefore);
    OrderBy(TargetIds(table, claim), TextBefore)[0]
  }

  predicate AnyActive(table: Table) {
    exists id | id in table :: Active(table[id])
  }

  function Claimed(table: Table, claim: Claim, now: int, batch: bool): (Table, ClaimOutcome) {
    if !InTime(claim, now) then (table, OldClaim) else
    var live := Expire(table, now);
    if claim.requestId in live then
      (live, if live[claim.requestId].claim == claim then Accepted(false, live[claim.requestId]) else IdentityConflict)
    else if TargetIds(live, claim) != {} then
      var previous := live[TargetId(live, claim)];
      (live, if previous.claim.(requestId := claim.requestId) == claim then Accepted(false, previous) else BindingChanged)
    else if AnyActive(live) then (live, CapacityBusy)
    else
      var record := NewRecord(claim, now, batch);
      (live[claim.requestId := record], Accepted(true, record))
  }

  // ------------------------------------------------------------------ update

  /** Payloads that fail their format check arrive as Malformed. */
  datatype Operation =
    | DeferUntil(retryAt: int)
    | Notified
    | Dispatched(index: Option<int>, run: string)
    | PlanReady(plan: Plan, claims: seq<Claim>)
    | BatchStart(index: Option<int>)
    | BatchResultReady(index: Option<int>, result: BatchResult)
    | BatchEnqueued
    | GiveUp(reason: string)
    | Verified(proof: Proof)
    | Enqueued(digest: Option<string>)
    | Malformed

  predicate PlanClaimsMatch(anchor: Claim, claims: seq<Claim>, plan: Plan) {
    && |claims| == |plan.scenarios|
    && (forall i | 0 <= i < |claims| :: claims[i].scenario == plan.scenarios[i] && claims[i].anchor == anchor.anchor)
    && (forall i, j | 0 <= i < j < |claims| :: claims[i].requestId != claims[j].requestId)
  }

  predicate AtCursor(batch: Batch, index: Option<int>) {
    index == Some(batch.index) && batch.index < |batch.claims|
  }

  function NoScenario(plan: Plan): string {
    "No supported scenario covers this change. " + plan.missingProof
  }

  function WithPlan(record: Record, plan: Plan, claims: seq<Claim>): Record
    requires record.batch.Some?
  {
    var planned := record.(batch := Some(record.batch.value.(plan := Some(plan), claims := claims)));
    if plan.scenarios != [] then planned
    else planned.(state := Inconclusive, reason := Some(NoScenario(plan)))
  }

  function WithResult(record: Record, result: BatchResult): Record
    requires record.batch.Some?
  {
    var b := record.batch.value;
    var after := b.(results := b.results + [result], index := b.index + 1, started := false);
    record.(batch := Some(after), runId := None, nextAttemptAt := None,
            state := if after.index == |after.claims| then ReviewPending else record.state)
  }

  /** The effect of an operation on an active record; None is the refusal. */
  function ActiveUpdate(record: Record, op: Operation): Option<Record> {
    match op
    case PlanReady(plan, claims) =>
      if record.batch.None? || record.batch.value.plan.Some? || !PlanClaimsMatch(record.claim, claims, plan) then None
      else Some(WithPlan(record, plan, claims))
    case BatchStart(index) =>
      if record.batch.None? || record.batch.value.plan.None?
         || !AtCursor(record.batch.value, index) || record.batch.value.started then None
      else Some(record.(batch := Some(record.batch.value.(started := true))))
    case BatchResultReady(index, result) =>
      if record.batch.None? || record.batch.value.plan.None?
         || !AtCursor(record.batch.value, index) || !record.batch.value.started then None
      else Some(WithResult(record, result))
    case BatchEnqueued =>
      if record.batch.None? || record.batch.value.plan.None? || record.state != ReviewPending then None
      else Some(record.(state := Completed, notified := true))
    case Dispatched(index, run) =>
      if record.batch.Some? && !(index == Some(record.batch.value.index) && record.batch.value.started) then None
      else if record.runId.Some? && record.runId.value != run then None
      else Some(record.(runId := Some(run)))
    case GiveUp(reason) => Some(record.(state := Inconclusive, reason := Some(reason)))
    case Verified(proof) =>
      if record.batch.Some? || (record.result.Some? && record.result.value != proof) then None
      else Some(record.(result := Some(proof), state := ReviewPending))
    case Enqueued(digest) =>
      if record.state == ReviewPending && digest == (if record.result.Some? then Some(record.result.value.digest) else None)
      then Some(record.(state := Completed, notified := true)) else None
    case _ => None
  }

  /** The answer, and the record written back with it when there is one. */
  function Updated(record: Record, op: Operation, now: int): Option<Record> {
    if op.DeferUntil? && op.retryAt > now then Some(record.(nextAttemptAt := Some(op.retryAt)))
    else if !Active(record) then Some(if op.Notified? then record.(notified := true) else record)
    else ActiveUpdate(record, op)
  }

  function Update(table: Table, id: string, op: Operation, now: int): (Table, Option<Record>) {
    var live := Expire(table, now);
    if id !in live then (live, None) else
    match Updated(live[id], op, now)
    case None => (live, None)
    case Some(record) => (live[record.claim.requestId := record], Some(record))
  }

  // ------------------------------------------------------------------ admission of the review

  /** The review decision as far as it is compared with the claim. */
  datatype Review = Review(
    fromProof: bool, repository: string, pullRequest: nat, headSha: string, targetBranch: string,
    commentId: string, commentAt: string, commentBodySha: string)

  predicate ReviewOf(review: Review, claim: Claim) {
    var a := claim.anchor;
    review == Review(true, a.repository, a.pullRequest, a.headSha, a.targetBranch,
                     a.commentId, a.commentAt.text, a.commentBodySha)
  }

  predicate ResultsComplete(record: Record, digest: string) {
    match record.batch
    case Some(b) => b.plan.Some? && b.claims != [] && |b.results| == |b.claims|
    case None => record.result.Some? && record.result.value.digest == digest
  }

  predicate ReviewCompletes(record: Record, digest: string, review: Review) {
    && ReviewOf(review, record.claim)
    && (record.state == ReviewPending || (record.state == Inconclusive && record.reason == Some(DEADLINE)))
    && ResultsComplete(record, digest)
  }

  function CompleteReview(table: Table, id: string, digest: string, review: Review): Table {
    if id !in table || !ReviewCompletes(table[id], digest, review) then table else
    table[id := table[id].(state := Completed, notified := true, reason := None, nextAttemptAt := None)]
  }
}
