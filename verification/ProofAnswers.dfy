/**
 What a proof request answers to each operation, exactly: which claims are dispatched, which
 reports move a record and where to, and the whole way of a single proof and of a batch from the
 claim to completion.
 */
module ProofAnswers {
  import opened Basics
  import opened ProofRequests
  import opened ProofLaws

  // ------------------------------------------------------------------ claims

  /** Records go thirty days after their deadline; active ones end at it, without a retry time. */
  lemma ExpireAnswer(table: Table, now: int, id: string)
    ensures id in Expire(table, now) <==> id in table && now <= table[id].expiresAt + 30 * 24 * 3600 * 1000
    ensures id in Expire(table, now) ==>
      var active := table[id].state == DispatchClaimed || table[id].state == ReviewPending;
      Expire(table, now)[id] ==
        if active && table[id].expiresAt <= now
        then table[id].(state := Inconclusive, reason := Some(DEADLINE), nextAttemptAt := None) else table[id]
  {
  }

  /** The same command bound in the same way, under whichever request id. */
  predicate SameBinding(a: Claim, b: Claim) {
    a.anchor == b.anchor && a.scenario == b.scenario && a.workflow == b.workflow
  }

  /** A claim of a known request is answered from its record, and only when nothing else changed. */
  lemma KnownRequestAnswer(table: Table, claim: Claim, now: int, batch: bool)
    requires claim.requestId in Expire(table, now)
    requires now - 24 * 3600 * 1000 <= claim.anchor.commentAt.at <= now + 60 * 1000
    ensures var live := Expire(table, now);
      var known := live[claim.requestId];
      && Claimed(table, claim, now, batch).0 == live
      && Claimed(table, claim, now, batch).1 == if known.claim == claim then Accepted(false, known) else IdentityConflict
  {
    hide Expire, TargetId;
  }

  /** So is a new request for a known command version, by the one record that version has. */
  lemma KnownTargetAnswer(table: Table, claim: Claim, now: int, batch: bool, id: string)
    requires Sound(table) && claim.requestId !in Expire(table, now)
    requires id in Expire(table, now) && Key(Expire(table, now)[id].claim) == Key(claim)
    requires now - 24 * 3600 * 1000 <= claim.anchor.commentAt.at <= now + 60 * 1000
    ensures var live := Expire(table, now);
      var known := live[id];
      && Claimed(table, claim, now, batch).0 == live
      && Claimed(table, claim, now, batch).1 ==
         if SameBinding(known.claim, claim) then Accepted(false, known) else BindingChanged
  {
    hide Expire, RecordSound, RecordLater, OneActive, Key, Active, NewRecord, TargetId;
    ExpireSound(table, now);
    var live := Expire(table, now);
    assert id in TargetIds(live, claim);
    assert TargetId(live, claim) in TargetIds(live, claim);
    assert TargetId(live, claim) == id;
  }

  /** A command version has the same key exactly when these five agree. */
  lemma SameTargetExactly(a: Claim, b: Claim)
    ensures Key(a) == Key(b) <==>
      && a.anchor.repositoryId == b.anchor.repositoryId && a.anchor.pullRequest == b.anchor.pullRequest
      && a.anchor.commentId == b.anchor.commentId && a.anchor.commentAt.at == b.anchor.commentAt.at
      && a.anchor.commentBodySha == b.anchor.commentBodySha
  {
  }

  /** Anything else is dispatched, unless its command is too old or ahead of the clock, or one is active. */
  lemma NewTargetAnswer(table: Table, claim: Claim, now: int, batch: bool)
    requires claim.requestId !in Expire(table, now)
    requires forall id | id in Expire(table, now) :: Key(Expire(table, now)[id].claim) != Key(claim)
    requires now - 24 * 3600 * 1000 <= claim.anchor.commentAt.at <= now + 60 * 1000
    ensures var live := Expire(table, now);
      var busy := exists id | id in live :: live[id].state == DispatchClaimed || live[id].state == ReviewPending;
      var none := if batch then Some(Batch(None, [], 0, false, [])) else None;
      var record := Record(none, claim, DispatchClaimed, now, now + 3600 * 1000, None, None, false, None, None);
      && (busy ==> Claimed(table, claim, now, batch) == (live, CapacityBusy))
      && (!busy ==> Claimed(table, claim, now, batch) == (live[claim.requestId := record], Accepted(true, record)))
  {
    hide Expire, Key, TargetId;
    var live := Expire(table, now);
    assert TargetIds(live, claim) == {};
    assert AnyActive(live) <==> exists id | id in live :: live[id].state == DispatchClaimed || live[id].state == ReviewPending;
  }

  /** A command older than a day, or more than a minute ahead, is refused before anything is looked at. */
  lemma OldClaimExactly(table: Table, claim: Claim, now: int, batch: bool)
    ensures var (after, outcome) := Claimed(table, claim, now, batch);
      && (outcome.OldClaim? <==>
            claim.anchor.commentAt.at < now - 24 * 3600 * 1000 || claim.anchor.commentAt.at > now + 60 * 1000)
      && (outcome.OldClaim? ==> after == table)
  {
    hide Expire, TargetId;
  }

  // ------------------------------------------------------------------ deferrals and settled records

  /** A deferral to a later time is always granted, and writes nothing but that time. */
  lemma DeferAnswer(record: Record, retryAt: int, now: int)
    requires retryAt > now
    ensures Updated(record, DeferUntil(retryAt), now) == Some(record.(nextAttemptAt := Some(retryAt)))
  {
  }

  /** A settled record answers everything else with itself, and takes note of its notification. */
  lemma SettledAnswer(record: Record, op: Operation, now: int)
    requires record.state == Completed || record.state == Inconclusive
    requires op.DeferUntil? ==> op.retryAt <= now
    ensures Updated(record, op, now) == Some(record.(notified := record.notified || op.Notified?))
  {
  }

  /** An active record refuses notifications, stale deferrals and payloads that fail their checks. */
  lemma ActiveRefuses(record: Record, op: Operation, now: int)
    requires record.state == DispatchClaimed || record.state == ReviewPending
    requires op.Notified? || op.Malformed? || (op.DeferUntil? && op.retryAt <= now)
    ensures Updated(record, op, now).None?
  {
  }

  // ------------------------------------------------------------------ reports on an active record

  /** A run is taken once: by a batch only for the claim under way, and never in place of another run. */
  lemma DispatchedAnswer(record: Record, index: Option<int>, run: string, now: int)
    requires record.state == DispatchClaimed || record.state == ReviewPending
    ensures var underWay := record.batch.Some? ==> record.batch.value.started && index == Some(record.batch.value.index);
      Updated(record, Dispatched(index, run), now) ==
        if underWay && (record.runId.None? || record.runId == Some(run)) then Some(record.(runId := Some(run))) else None
  {
  }

  /** Giving up ends an active record, with the reason given. */
  lemma GiveUpAnswer(record: Record, reason: string, now: int)
    requires record.state == DispatchClaimed || record.state == ReviewPending
    ensures Updated(record, GiveUp(reason), now) == Some(record.(state := Inconclusive, reason := Some(reason)))
  {
  }

  /** A plan is taken by a batch without one, and only with a claim of its own for each scenario. */
  lemma PlanAnswer(record: Record, plan: Plan, claims: seq<Claim>, now: int)
    requires record.state == DispatchClaimed || record.state == ReviewPending
    ensures var updated := Updated(record, PlanReady(plan, claims), now);
      && (updated.Some? <==>
            && record.batch.Some? && record.batch.value.plan.None? && |claims| == |plan.scenarios|
            && (forall i | 0 <= i < |claims| ::
                  claims[i].scenario == plan.scenarios[i] && claims[i].anchor == record.claim.anchor)
            && (forall i, j | 0 <= i < j < |claims| :: claims[i].requestId != claims[j].requestId))
      && (updated.Some? ==>
            var planned := record.(batch := Some(record.batch.value.(plan := Some(plan), claims := claims)));
            updated.value == if plan.scenarios != [] then planned
                             else planned.(state := Inconclusive, reason := Some(NoScenario(plan))))
  {
    hide NoScenario;
  }

  /** A claim of the batch is started at the cursor, once. */
  lemma BatchStartAnswer(record: Record, index: Option<int>, now: int)
    requires record.state == DispatchClaimed || record.state == ReviewPending
    ensures var updated := Updated(record, BatchStart(index), now);
      && (updated.Some? <==>
            record.batch.Some? && record.batch.value.plan.Some? && !record.batch.value.started
            && index == Some(record.batch.value.index) && record.batch.value.index < |record.batch.value.claims|)
      && (updated.Some? ==> updated.value == record.(batch := Some(record.batch.value.(started := true))))
  {
  }

  /** Its result is taken while it is under way, clears the run for the next, and the last one leads to review. */
  lemma BatchResultAnswer(record: Record, index: Option<int>, result: BatchResult, now: int)
    requires record.state == DispatchClaimed || record.state == ReviewPending
    ensures var updated := Updated(record, BatchResultReady(index, result), now);
      && (updated.Some? <==>
            record.batch.Some? && record.batch.value.plan.Some? && record.batch.value.started
            && index == Some(record.batch.value.index) && record.batch.value.index < |record.batch.value.claims|)
      && (updated.Some? ==>
            var b := record.batch.value;
            var advanced := b.(index := b.index + 1, started := false, results := b.results + [result]);
            var state := if b.index + 1 == |b.claims| then ReviewPending else record.state;
            updated.value == record.(batch := Some(advanced), runId := None, nextAttemptAt := None, state := state))
  {
  }

  /** A proof leads a request without a batch to review, and may be reported again but not changed. */
  lemma VerifiedAnswer(record: Record, proof: Proof, now: int)
    requires record.state == DispatchClaimed || record.state == ReviewPending
    ensures Updated(record, Verified(proof), now) ==
      if record.batch.None? && (record.result.None? || record.result == Some(proof))
      then Some(record.(result := Some(proof), state := ReviewPending)) else None
  {
  }

  /** Handing a review on completes the record: the proof's by its digest, a batch's once planned. */
  lemma EnqueuedAnswer(record: Record, digest: Option<string>, now: int)
    requires record.state == DispatchClaimed || record.state == ReviewPending
    ensures var completed := record.(state := Completed, notified := true);
      && (var proved := match record.result { case Some(proof) => digest == Some(proof.digest) case None => digest.None? };
          Updated(record, Enqueued(digest), now) ==
            if record.state == ReviewPending && proved then Some(completed) else None)
      && (var planned := record.batch.Some? && record.batch.value.plan.Some?;
          Updated(record, BatchEnqueued, now) ==
            if record.state == ReviewPending && planned then Some(completed) else None)
  {
  }

  /** What is answered is what is written, at the record's own key, and nothing else moves. */
  lemma UpdateAnswer(table: Table, id: string, op: Operation, now: int)
    requires Sound(table)
    ensures var live := Expire(table, now);
      var (after, answer) := Update(table, id, op, now);
      && (answer.Some? <==> id in live && Updated(live[id], op, now).Some?)
      && (answer.Some? ==> answer == Updated(live[id], op, now) && after == live[id := answer.value])
      && (answer.None? ==> after == live)
  {
    hide Updated, Expire, RecordSound, RecordLater, UniqueTargets, OneActive;
    ExpireSound(table, now);
    if id in Expire(table, now) && Updated(Expire(table, now)[id], op, now).Some? {
      UpdatedSound(Expire(table, now)[id], op, now);
      LaterFacts();
    }
  }

  // ------------------------------------------------------------------ whole ways

  /** The record a request has once its calls at `now` are through, after the one before it. */
  function Answered(record: Option<Record>, op: Operation, now: int): Option<Record> {
    if record.None? then None else Updated(record.value, op, now)
  }

  /**
   A single proof from its claim to completion: dispatched, verified, and completed exactly by the
   digest of the proof that was verified.
   */
  lemma SingleProofRun(
      table: Table, claim: Claim, t: int, run: string, proof: Proof, again: Proof, digest: Option<string>, now: int)
    requires Sound(table) && Claimed(table, claim, t, false).1.Accepted? && Claimed(table, claim, t, false).1.dispatch
    ensures var claimed := Claimed(table, claim, t, false).1.record;
      var dispatched := Updated(claimed, Dispatched(None, run), now);
      var verified := Answered(dispatched, Verified(proof), now);
      var done := Answered(verified, Enqueued(digest), now);
      && verified.Some? && verified.value.state == ReviewPending && verified.value.result == Some(proof)
      && (Answered(verified, Verified(again), now).Some? <==> again == proof)
      && (done.Some? <==> digest == Some(proof.digest))
      && (done.Some? ==>
            done.value == claimed.(state := Completed, notified := true, runId := Some(run), result := Some(proof)))
      && Answered(dispatched, Enqueued(digest), now).None?
  {
    hide Updated, Expire, TargetId;
    var claimed := Claimed(table, claim, t, false).1.record;
    DispatchedAnswer(claimed, None, run, now);
    var dispatched := claimed.(runId := Some(run));
    VerifiedAnswer(dispatched, proof, now);
    EnqueuedAnswer(dispatched, digest, now);
    var verified := dispatched.(result := Some(proof), state := ReviewPending);
    VerifiedAnswer(verified, again, now);
    EnqueuedAnswer(verified, digest, now);
  }

  /** A batch from its plan to completion: every claim started and answered in turn, then handed on. */
  lemma BatchRun(record: Record, plan: Plan, claims: seq<Claim>, results: seq<BatchResult>, n: nat, now: int)
    requires record.state == DispatchClaimed && record.batch == Some(Batch(None, [], 0, false, []))
    requires PlanClaimsMatch(record.claim, claims, plan) && n <= |results| == |claims| && claims != []
    ensures var planned := Updated(record, PlanReady(plan, claims), now);
      && planned.Some? && var delivered := Delivered(planned.value, results, n, now);
      && delivered.Some? && delivered.value.batch.Some? && delivered.value.batch.value.results == results[..n]
      && (Updated(delivered.value, BatchEnqueued, now).Some? <==> n == |claims|)
      && (n == |claims| ==>
            var done := Updated(delivered.value, BatchEnqueued, now).value;
            done.state == Completed && done.notified && done.batch == Some(Batch(Some(plan), claims, n, false, results)))
  {
    hide Updated, Delivered, PlanClaimsMatch;
    PlannedBatch(record, plan, claims, now);
    var planned := Updated(record, PlanReady(plan, claims), now).value;
    BatchRunsThrough(planned, results, n, now);
    EnqueuedAnswer(Delivered(planned, results, n, now).value, None, now);
    assert n == |results| ==> results[..n] == results;
  }

  lemma PlannedBatch(record: Record, plan: Plan, claims: seq<Claim>, now: int)
    requires record.state == DispatchClaimed && record.batch == Some(Batch(None, [], 0, false, []))
    requires PlanClaimsMatch(record.claim, claims, plan) && claims != []
    ensures Updated(record, PlanReady(plan, claims), now)
         == Some(record.(batch := Some(Batch(Some(plan), claims, 0, false, []))))
  {
    hide NoScenario;
  }

  // ------------------------------------------------------------------ the review

  /** The decision is about this very command on this very change. */
  predicate Concerns(review: Review, claim: Claim) {
    && review.fromProof && review.repository == claim.anchor.repository && review.pullRequest == claim.anchor.pullRequest
    && review.headSha == claim.anchor.headSha && review.targetBranch == claim.anchor.targetBranch
    && review.commentId == claim.anchor.commentId && review.commentAt == claim.anchor.commentAt.text
    && review.commentBodySha == claim.anchor.commentBodySha
  }

  /**
   An admitted review completes a record waiting for it, or one that only its deadline ended, when
   it concerns the record's command and the results are in; otherwise it changes nothing.
   */
  lemma ReviewAnswer(table: Table, id: string, digest: string, review: Review)
    ensures var after := CompleteReview(table, id, digest, review);
      var waiting := id in table && Concerns(review, table[id].claim)
        && (table[id].state == ReviewPending
            || (table[id].state == Inconclusive && table[id].reason == Some(DEADLINE)));
      var ready := waiting && match table[id].batch
        { case None => table[id].result.Some? && table[id].result.value.digest == digest
          case Some(b) => b.plan.Some? && 0 < |b.claims| == |b.results| };
      && (!ready ==> after == table)
      && (ready ==> after == table[id := table[id].(state := Completed, notified := true, reason := None, nextAttemptAt := None)])
  {
  }
}
