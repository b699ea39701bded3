/**
 What the proof request table keeps over every run: one active record, cursors that match their
 results, no way back from a terminal state, and one dispatch per human command version.
 */
module ProofLaws {
  import opened Basics
  import opened ProofRequests

  // ------------------------------------------------------------------ the invariant

  /** A batch has one result per index; it is under way only between a start and its result. */
  ghost predicate BatchSound(record: Record, b: Batch) {
    && |b.results| == b.index <= |b.claims|
    && (b.started ==> b.index < |b.claims|)
    && (b.plan.None? ==> b.claims == [])
    && (b.plan.Some? ==> PlanClaimsMatch(record.claim, b.claims, b.plan.value))
  }

  /** Review is reached only with every result in: one per claim of the plan, or the one proof. */
  ghost predicate RecordSound(record: Record) {
    && record.expiresAt == record.createdAt + LIFETIME_MS
    && record.claim.anchor.commentAt.at <= record.createdAt + SKEW_MS
    && (record.batch.Some? ==> BatchSound(record, record.batch.value) && record.result.None?)
    && (record.state == ReviewPending || record.state == Completed ==>
          if record.batch.Some? then record.batch.value.index == |record.batch.value.claims| > 0 else record.result.Some?)
  }

  ghost predicate UniqueTargets(table: Table) {
    forall a, b | a in table && b in table && Key(table[a].claim) == Key(table[b].claim) :: a == b
  }

  ghost predicate OneActive(table: Table) {
    forall a, b | a in table && b in table && Active(table[a]) && Active(table[b]) :: a == b
  }

  ghost predicate Sound(table: Table) {
    && (forall id | id in table :: table[id].claim.requestId == id && RecordSound(table[id]))
    && UniqueTargets(table) && OneActive(table)
  }

  // ------------------------------------------------------------------ what time may change

  ghost predicate BatchLater(before: Batch, after: Batch) {
    && (before.plan.Some? ==> after.plan == before.plan && after.claims == before.claims)
    && before.results <= after.results
  }

  /** Identity and deadline are fixed, results are only added to, a terminal state is never left for an active one. */
  ghost predicate RecordLater(before: Record, after: Record) {
    && after.claim == before.claim && after.createdAt == before.createdAt && after.expiresAt == before.expiresAt
    && (Active(after) ==> Active(before))
    && (before.state == Completed ==> after.state == Completed)
    && (before.state == ReviewPending ==> after.state != DispatchClaimed)
    && (before.batch.Some? <==> after.batch.Some?)
    && (before.batch.Some? ==> BatchLater(before.batch.value, after.batch.value))
    && (before.result.Some? ==> after.result == before.result)
    && (before.notified ==> after.notified)
  }

  // ------------------------------------------------------------------ single records

  lemma ExpiredSound(record: Record, now: int)
    requires RecordSound(record)
    ensures RecordSound(ExpiredRecord(record, now)) && RecordLater(record, ExpiredRecord(record, now))
    ensures Active(ExpiredRecord(record, now)) ==> now < record.expiresAt
  {
  }

  lemma PlannedSound(record: Record, plan: Plan, claims: seq<Claim>)
    requires RecordSound(record) && Active(record) && record.batch.Some? && record.batch.value.plan.None?
    requires PlanClaimsMatch(record.claim, claims, plan)
    ensures RecordSound(WithPlan(record, plan, claims)) && RecordLater(record, WithPlan(record, plan, claims))
  {
    hide PlanClaimsMatch, NoScenario;
    ClaimsOfPlan(record.claim, claims, plan);
  }

  lemma ClaimsOfPlan(anchor: Claim, claims: seq<Claim>, plan: Plan)
    requires PlanClaimsMatch(anchor, claims, plan)
    ensures |claims| == |plan.scenarios|
  {
  }

  lemma AnsweredSound(record: Record, result: BatchResult)
    requires RecordSound(record) && Active(record) && record.batch.Some? && record.batch.value.plan.Some?
    requires record.batch.value.index < |record.batch.value.claims|
    ensures RecordSound(WithResult(record, result)) && RecordLater(record, WithResult(record, result))
  {
    hide PlanClaimsMatch;
  }

  lemma UpdatedSound(record: Record, op: Operation, now: int)
    requires RecordSound(record) && Updated(record, op, now).Some?
    ensures RecordSound(Updated(record, op, now).value) && RecordLater(record, Updated(record, op, now).value)
  {
    hide PlanClaimsMatch, WithPlan, WithResult;
    if Active(record) && !(op.DeferUntil? && op.retryAt > now) {
      if op.PlanReady? { PlannedSound(record, op.plan, op.claims); }
      if op.BatchResultReady? { AnsweredSound(record, op.result); }
    }
  }

  lemma NewSound(claim: Claim, now: int, batch: bool)
    requires InTime(claim, now)
    ensures RecordSound(NewRecord(claim, now, batch))
  {
  }

  lemma CompletedSound(record: Record, digest: string, review: Review)
    requires RecordSound(record) && ReviewCompletes(record, digest, review)
    ensures var after := record.(state := Completed, notified := true, reason := None, nextAttemptAt := None);
      RecordSound(after) && RecordLater(record, after)
  {
  }

  // ------------------------------------------------------------------ steps

  datatype Step =
    | ClaimStep(claim: Claim, now: int, batch: bool)
    | UpdateStep(id: string, op: Operation, now: int)
    | ExpireStep(now: int)
    | ReviewStep(id: string, digest: string, review: Review)

  function Next(table: Table, step: Step): Table {
    match step
    case ClaimStep(claim, now, batch) => Claimed(table, claim, now, batch).0
    case UpdateStep(id, op, now) => Update(table, id, op, now).0
    case ExpireStep(now) => Expire(table, now)
    case ReviewStep(id, digest, review) => CompleteReview(table, id, digest, review)
  }

  /** Every record of `after` that was in `before` under its id is that record, later. */
  ghost predicate Advances(before: Table, after: Table) {
    forall id | id in before && id in after :: RecordLater(before[id], after[id])
  }

  /** Records are dropped only past their retention. */
  ghost predicate Retains(before: Table, after: Table, now: int) {
    forall id | id in before && before[id].expiresAt >= now - RETENTION_MS :: id in after
  }

  lemma ExpireKeepsTargets(table: Table, now: int)
    requires UniqueTargets(table)
    ensures UniqueTargets(Expire(table, now))
  {
    forall id | id in Expire(table, now) ensures id in table && Expire(table, now)[id].claim == table[id].claim {}
  }

  lemma ExpireSound(table: Table, now: int)
    requires Sound(table)
    ensures var live := Expire(table, now);
      Sound(live) && Advances(table, live) && Retains(table, live, now)
      && forall id | id in live :: Active(live[id]) ==> now < live[id].expiresAt
  {
    hide RecordSound, RecordLater, ExpiredRecord;
    ExpireKeepsTargets(table, now);
    forall id | id in table
      ensures RecordSound(ExpiredRecord(table[id], now)) && RecordLater(table[id], ExpiredRecord(table[id], now))
      ensures Active(ExpiredRecord(table[id], now)) ==> now < table[id].expiresAt
    {
      ExpiredSound(table[id], now);
    }
    LaterFacts();
  }

  lemma LaterFacts()
    ensures forall before, after | RecordLater(before, after) ::
      after.claim == before.claim && after.expiresAt == before.expiresAt && (Active(after) ==> Active(before))
  {
  }

  lemma ReplaceSound(table: Table, id: string, record: Record)
    requires Sound(table) && id in table && RecordSound(record) && RecordLater(table[id], record)
    ensures Sound(table[id := record]) && Advances(table, table[id := record])
  {
    hide RecordSound;
    forall x | x in table ensures RecordLater(table[x], table[x]) {}
  }

  lemma UpdateSound(table: Table, id: string, op: Operation, now: int)
    requires Sound(table)
    ensures var after := Update(table, id, op, now).0;
      Sound(after) && Advances(table, after) && Retains(table, after, now)
  {
    hide RecordSound, RecordLater, Updated, Expire, UniqueTargets, OneActive;
    var live := Expire(table, now);
    ExpireSound(table, now);
    if id in live && Updated(live[id], op, now).Some? {
      UpdatedSound(live[id], op, now);
      LaterFacts();
      ReplaceSound(live, id, Updated(live[id], op, now).value);
      AdvancesTransitive(table, live, Update(table, id, op, now).0);
    }
  }

  lemma LaterTransitive(a: Record, b: Record, c: Record)
    requires RecordLater(a, b) && RecordLater(b, c)
    ensures RecordLater(a, c)
  {
  }

  lemma AdvancesTransitive(a: Table, b: Table, c: Table)
    requires Advances(a, b) && Advances(b, c)
    requires forall id | id in a && id in c :: id in b
    ensures Advances(a, c)
  {
    hide RecordLater;
    forall id | id in a && id in c ensures RecordLater(a[id], c[id]) { LaterTransitive(a[id], b[id], c[id]); }
  }

  lemma InsertSound(live: Table, claim: Claim, now: int, batch: bool)
    requires Sound(live) && InTime(claim, now) && claim.requestId !in live && TargetIds(live, claim) == {} && !AnyActive(live)
    ensures Sound(live[claim.requestId := NewRecord(claim, now, batch)])
  {
    hide RecordSound;
    NewSound(claim, now, batch);
    forall id | id in live ensures Key(live[id].claim) != Key(claim) { assert id !in TargetIds(live, claim); }
  }

  lemma ClaimSound(table: Table, claim: Claim, now: int, batch: bool)
    requires Sound(table)
    ensures Sound(Claimed(table, claim, now, batch).0) && Retains(table, Claimed(table, claim, now, batch).0, now)
    ensures forall id | id in table && table[id].expiresAt >= now - RETENTION_MS ::
      RecordLater(table[id], Claimed(table, claim, now, batch).0[id])
  {
    hide RecordSound, RecordLater, InTime, NewRecord, Expire, OneActive, UniqueTargets;
    var live := Expire(table, now);
    ExpireSound(table, now);
    SelfLater(table);
    if InTime(claim, now) && claim.requestId !in live && TargetIds(live, claim) == {} && !AnyActive(live) {
      InsertSound(live, claim, now, batch);
    }
  }

  lemma SelfLater(table: Table)
    ensures Advances(table, table)
  {
  }

  lemma ReviewSound(table: Table, id: string, digest: string, review: Review)
    requires Sound(table)
    ensures var after := CompleteReview(table, id, digest, review);
      Sound(after) && Advances(table, after) && after.Keys == table.Keys
  {
    hide RecordSound, RecordLater, ReviewCompletes, UniqueTargets, OneActive;
    SelfLater(table);
    if id in table && ReviewCompletes(table[id], digest, review) {
      CompletedSound(table[id], digest, review);
      ReplaceSound(table, id, table[id].(state := Completed, notified := true, reason := None, nextAttemptAt := None));
    }
  }

  /** The clock a step is called with; a review completion has none. */
  predicate By(step: Step, now: int) {
    step.ReviewStep? || step.now <= now
  }

  lemma NextLaw(table: Table, step: Step)
    requires Sound(table)
    ensures Sound(Next(table, step))
    ensures forall id, limit | id in table && By(step, limit) && limit <= table[id].expiresAt + RETENTION_MS ::
      id in Next(table, step) && RecordLater(table[id], Next(table, step)[id])
  {
    hide Sound, RecordLater, Claimed, Update, Expire, CompleteReview;
    match step
    case ClaimStep(claim, now, batch) => ClaimSound(table, claim, now, batch);
    case UpdateStep(id, op, now) => UpdateSound(table, id, op, now);
    case ExpireStep(now) => ExpireSound(table, now);
    case ReviewStep(id, digest, review) => ReviewSound(table, id, digest, review);
  }

  /** States of a run: each the next of the one before. */
  ghost predicate Behaviour(tables: seq<Table>, steps: seq<Step>) {
    && |tables| == |steps| + 1 && Sound(tables[0])
    && (forall i | 0 <= i < |steps| :: tables[i+1] == Next(tables[i], steps[i]))
  }

  /**
   At most one record is active in any reachable state, every batch cursor matches its results,
   and review or completion is reached only with all of them.
   */
  lemma {:induction false} RunSound(tables: seq<Table>, steps: seq<Step>)
    requires Behaviour(tables, steps)
    ensures Sound(tables[|steps|])
  {
    hide Sound, Next;
    if steps != [] {
      var n := |steps| - 1;
      RunSound(tables[..n+1], steps[..n]);
      NextLaw(tables[n], steps[n]);
    }
  }

  /** Until its retention ends a record is kept and only moves forward; it never becomes active again. */
  lemma {:induction false} RunRetains(tables: seq<Table>, steps: seq<Step>, id: string, limit: int)
    requires Behaviour(tables, steps) && id in tables[0]
    requires limit <= tables[0][id].expiresAt + RETENTION_MS && forall step | step in steps :: By(step, limit)
    ensures id in tables[|steps|] && RecordLater(tables[0][id], tables[|steps|][id])
  {
    hide Sound, Next, RecordLater;
    if steps == [] {
      SelfLater(tables[0]);
    } else {
      var n := |steps| - 1;
      RunRetains(tables[..n+1], steps[..n], id, limit);
      RunSound(tables[..n+1], steps[..n]);
      LaterFacts();
      NextLaw(tables[n], steps[n]);
      assert By(steps[n], limit);
      LaterTransitive(tables[0][id], tables[n][id], tables[n+1][id]);
    }
  }

  // ------------------------------------------------------------------ one dispatch

  /** A request is told to dispatch exactly when its record is created. */
  lemma DispatchCreates(table: Table, claim: Claim, now: int, batch: bool)
    requires Sound(table) && Claimed(table, claim, now, batch).1.Accepted? && Claimed(table, claim, now, batch).1.dispatch
    ensures var after := Claimed(table, claim, now, batch).0;
      && claim.requestId in after && after[claim.requestId] == NewRecord(claim, now, batch)
      && claim.anchor.commentAt.at <= now + SKEW_MS && TargetIds(Expire(table, now), claim) == {}
  {
  }

  lemma KnownTargetIsNotDispatched(table: Table, id: string, claim: Claim, now: int, batch: bool)
    requires Sound(table) && id in table && Key(table[id].claim) == Key(claim)
    requires now <= table[id].expiresAt + RETENTION_MS
    ensures Claimed(table, claim, now, batch).1.Accepted? ==> !Claimed(table, claim, now, batch).1.dispatch
  {
    hide Sound, Expire, TargetIds, NewRecord, TargetId;
    KnownIsKept(table, id, claim, now);
  }

  lemma KnownIsKept(table: Table, id: string, claim: Claim, now: int)
    requires id in table && Key(table[id].claim) == Key(claim) && now <= table[id].expiresAt + RETENTION_MS
    ensures id in TargetIds(Expire(table, now), claim)
  {
  }

  /**
   A human command version is dispatched at most once, ever: while its record is retained a second
   claim of it is answered from the record, and once the record may be gone the command is too old
   to be claimed. The clock of the second claim is not behind the calls before it.
   */
  lemma DispatchedOnce(
      table: Table, claim: Claim, t: int, batch: bool, tables: seq<Table>, steps: seq<Step>,
      again: Claim, now: int, againBatch: bool)
    requires Sound(table) && Claimed(table, claim, t, batch).1.Accepted? && Claimed(table, claim, t, batch).1.dispatch
    requires Behaviour(tables, steps) && tables[0] == Claimed(table, claim, t, batch).0
    requires forall step | step in steps :: By(step, now)
    requires Key(again) == Key(claim)
    ensures Claimed(tables[|steps|], again, now, againBatch).1.Accepted? ==>
      !Claimed(tables[|steps|], again, now, againBatch).1.dispatch
  {
    hide Sound, Next, Claimed, RecordLater;
    DispatchCreates(table, claim, t, batch);
    if now <= t + SKEW_MS + DAY_MS {
      RunRetains(tables, steps, claim.requestId, now);
      RunSound(tables, steps);
      LaterFacts();
      KnownTargetIsNotDispatched(tables[|steps|], claim.requestId, again, now, againBatch);
    } else {
      TooOld(tables[|steps|], again, now, againBatch);
    }
  }

  lemma TooOld(table: Table, claim: Claim, now: int, batch: bool)
    requires claim.anchor.commentAt.at < now - DAY_MS
    ensures Claimed(table, claim, now, batch).1 == OldClaim
  {
  }

  // ------------------------------------------------------------------ a batch from plan to review

  /** The record after the first n claims were each started and answered. */
  function Delivered(record: Record, results: seq<BatchResult>, n: nat, now: int): Option<Record>
    requires n <= |results|
  {
    if n == 0 then Some(record) else
    var before := Delivered(record, results, n - 1, now);
    if before.None? then None else
    var started := Updated(before.value, BatchStart(Some(n - 1)), now);
    if started.None? then None else Updated(started.value, BatchResultReady(Some(n - 1), results[n - 1]), now)
  }

  lemma StartAndResult(record: Record, i: nat, result: BatchResult, now: int)
    requires record.state == DispatchClaimed && record.batch.Some? && record.batch.value.plan.Some?
    requires record.batch.value.index == i < |record.batch.value.claims| && !record.batch.value.started
    ensures var started := Updated(record, BatchStart(Some(i)), now);
      started.Some? && var after := Updated(started.value, BatchResultReady(Some(i), result), now);
      && after.Some? && after.value.batch.Some? && after.value.claim == record.claim
      && after.value.batch.value == record.batch.value.(index := i + 1, results := record.batch.value.results + [result])
      && after.value.state == (if i + 1 == |record.batch.value.claims| then ReviewPending else DispatchClaimed)
  {
  }

  /**
   A planned batch runs through: started and answered claim by claim it keeps every result in order
   and is in review after the last one, not before.
   */
  lemma {:induction false} BatchRunsThrough(record: Record, results: seq<BatchResult>, n: nat, now: int)
    requires record.state == DispatchClaimed && record.batch.Some? && record.batch.value.plan.Some?
    requires record.batch.value.index == 0 && !record.batch.value.started && record.batch.value.results == []
    requires n <= |results| == |record.batch.value.claims|
    ensures var done := Delivered(record, results, n, now);
      && done.Some? && done.value.batch.Some? && done.value.claim == record.claim
      && done.value.batch.value == record.batch.value.(index := n, results := results[..n])
      && done.value.state == (if n == |results| > 0 then ReviewPending else DispatchClaimed)
  {
    hide Updated, WithResult;
    if n > 0 {
      BatchRunsThrough(record, results, n - 1, now);
      StartAndResult(Delivered(record, results, n - 1, now).value, n - 1, results[n-1], now);
      assert results[..n-1] + [results[n-1]] == results[..n];
    }
  }

  /** A result counts once: delivered again, or out of turn, it is refused. */
  lemma ResultOnce(record: Record, i: nat, result: BatchResult, again: BatchResult, now: int)
    requires RecordSound(record) && Active(record) && Updated(record, BatchResultReady(Some(i), result), now).Some?
    ensures var after := Updated(record, BatchResultReady(Some(i), result), now).value;
      && record.batch.Some? && record.batch.value.index == i && record.batch.value.started
      && Updated(after, BatchResultReady(Some(i), again), now).None?
      && Updated(after, BatchResultReady(Some(i + 1), again), now).None?
  {
  }

  // ------------------------------------------------------------------ what the table stands for

  /** An active record is less than an hour old at every call that starts by expiring. */
  lemma ActiveIsYoung(table: Table, now: int, id: string)
    requires Sound(table) && id in Expire(table, now) && Active(Expire(table, now)[id])
    ensures now < Expire(table, now)[id].createdAt + LIFETIME_MS
  {
    hide RecordLater, ExpiredRecord;
    ExpireSound(table, now);
    assert RecordSound(Expire(table, now)[id]);
  }

  /** Completed batches have exactly one result per scenario of their plan, in the plan's order. */
  lemma CompletedBatchIsWhole(table: Table, id: string)
    requires Sound(table) && id in table && table[id].batch.Some?
    requires table[id].state == ReviewPending || table[id].state == Completed
    ensures var b := table[id].batch.value;
      && b.plan.Some? && 0 < |b.results| == |b.claims| == |b.plan.value.scenarios| && !b.started
      && (forall i | 0 <= i < |b.claims| :: b.claims[i].scenario == b.plan.value.scenarios[i])
  {
    assert RecordSound(table[id]);
  }
}
