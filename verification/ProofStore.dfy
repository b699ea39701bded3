/**
 The proof request store: its table as a field, the record under update changed in place and
 written back, proved against the transitions of `ProofRequests`.
 */
module ProofStore {
  import opened Basics
  import opened ProofRequests
  import opened ProofLaws

  class CommandProofRequestStore {
    var records: Table

    ghost predicate Valid()
      reads this
    {
      Sound(records)
    }

    constructor ()
      ensures records == map[] && Valid()
    {
      records := map[];
    }

    method ExpireRecords(now: int)
      requires Valid()
      modifies this
      ensures records == Expire(old(records), now) && Valid()
    {
      hide Sound, RecordLater, Active;
      ExpireSound(records, now);
      records := map id | id in records :: ExpiredRecord(records[id], now);
      records := map id | id in records && records[id].expiresAt >= now - RETENTION_MS :: records[id];
      assert records == Expire(old(records), now);
    }

    method Claim(claim: ProofRequests.Claim, now: int, batch: bool) returns (outcome: ClaimOutcome)
      requires Valid()
      modifies this
      ensures Valid() && (records, outcome) == Claimed(old(records), claim, now, batch)
      ensures outcome.Accepted? && outcome.dispatch ==> records[claim.requestId] == outcome.record
    {
      hide RecordSound, OneActive, Expire;
      ClaimSound(records, claim, now, batch);
      if !InTime(claim, now) {
        return OldClaim;
      }
      ExpireRecords(now);
      if claim.requestId in records {
        var sameId := records[claim.requestId];
        return if sameId.claim == claim then Accepted(false, sameId) else IdentityConflict;
      }
      if TargetIds(records, claim) != {} {
        var previous := records[TargetId(records, claim)];
        return if previous.claim.(requestId := claim.requestId) == claim then Accepted(false, previous) else BindingChanged;
      }
      if AnyActive(records) {
        return CapacityBusy;
      }
      var record := NewRecord(claim, now, batch);
      records := records[claim.requestId := record];
      return Accepted(true, record);
    }

    /** None is the refusal; otherwise the record as written back. */
    method Update(id: string, op: Operation, now: int) returns (answer: Option<Record>)
      requires Valid()
      modifies this
      ensures Valid() && (records, answer) == ProofRequests.Update(old(records), id, op, now)
    {
      hide RecordSound, OneActive, Expire, ActiveUpdate;
      UpdateSound(records, id, op, now);
      ExpireRecords(now);
      if id !in records {
        return None;
      }
      var record := records[id];
      if op.DeferUntil? && op.retryAt > now {
        record := record.(nextAttemptAt := Some(op.retryAt));
      } else if !Active(record) {
        if op.Notified? {
          record := record.(notified := true);
        }
      } else {
        var changed := Apply(record, op);
        if changed.None? {
          return None;
        }
        record := changed.value;
      }
      records := records[record.claim.requestId := record];
      return Some(record);
    }

    /** One operation on an active record, in the order the store tries them. */
    method Apply(original: Record, op: Operation) returns (changed: Option<Record>)
      ensures changed == ActiveUpdate(original, op)
    {
      var record := original;
      if record.batch.Some? && op.Dispatched?
         && (op.index != Some(record.batch.value.index) || !record.batch.value.started) {
        return None;
      }
      if op.PlanReady? && record.batch.Some? && record.batch.value.plan.None? {
        if !PlanClaimsMatch(record.claim, op.claims, op.plan) {
          return None;
        }
        record := record.(batch := Some(record.batch.value.(plan := Some(op.plan), claims := op.claims)));
        if op.plan.scenarios == [] {
          record := record.(state := Inconclusive,
                            reason := Some(NoScenario(op.plan)));
        }
      } else if op.BatchStart? && record.batch.Some? && record.batch.value.plan.Some? {
        if !AtCursor(record.batch.value, op.index) || record.batch.value.started {
          return None;
        }
        record := record.(batch := Some(record.batch.value.(started := true)));
      } else if op.BatchResultReady? && record.batch.Some? && record.batch.value.plan.Some? {
        if !AtCursor(record.batch.value, op.index) || !record.batch.value.started {
          return None;
        }
        var b := record.batch.value;
        b := b.(results := b.results + [op.result]);
        b := b.(index := b.index + 1, started := false);
        record := record.(batch := Some(b), runId := None, nextAttemptAt := None);
        if b.index == |b.claims| {
          record := record.(state := ReviewPending);
        }
      } else if op.BatchEnqueued? && record.batch.Some? && record.batch.value.plan.Some? && record.state == ReviewPending {
        record := record.(state := Completed, notified := true);
      } else if op.Dispatched? {
        if record.runId.Some? && record.runId.value != op.run {
          return None;
        }
        record := record.(runId := Some(op.run));
      } else if op.GiveUp? {
        record := record.(state := Inconclusive, reason := Some(op.reason));
      } else if op.Verified? {
        if record.batch.Some? || (record.result.Some? && record.result.value != op.proof) {
          return None;
        }
        record := record.(result := Some(op.proof), state := ReviewPending);
      } else if op.Enqueued? && record.state == ReviewPending
                && op.digest == (if record.result.Some? then Some(record.result.value.digest) else None) {
        record := record.(state := Completed, notified := true);
      } else {
        return None;
      }
      return Some(record);
    }

    method CompleteAdmittedReview(id: string, digest: string, review: Review)
      requires Valid()
      modifies this
      ensures Valid() && records == CompleteReview(old(records), id, digest, review)
    {
      ReviewSound(records, id, digest, review);
      if id !in records || !ReviewCompletes(records[id], digest, review) {
        return;
      }
      var record := records[id];
      record := record.(state := Completed, notified := true);
      record := record.(reason := None, nextAttemptAt := None);
      records := records[record.claim.requestId := record];
    }
  }
}
