/**
 The command intake store: its five tables as fields and each operation statement by statement,
 proved against the transitions of `CommandIntake`.
 */
module IntakeStore {
  import opened Basics
  import opened CommandIntake
  import opened IntakeLaws

  class ExactReviewCommandIntakeStore {
    var queue: map<Version, Queued>
    var watermarks: map<CommentKey, Watermark>
    var receipts: map<Version, Receipt>
    var journeys: map<Version, string>
    var revisions: map<string, int>

    function Contents(): Tables
      reads this
    {
      Tables(queue, watermarks, receipts, journeys, revisions)
    }

    ghost predicate Valid()
      reads this
    {
      Sound(Contents())
    }

    constructor ()
      ensures Contents() == EMPTY && Valid()
    {
      queue, watermarks, receipts, journeys, revisions := map[], map[], map[], map[], map[];
    }

    method SupersedeOthers(key: CommentKey, but: Option<Version>, now: int, detail: string)
      modifies this`receipts, this`queue
      ensures Contents() == Supersede(old(Contents()), key, but, now, detail)
    {
      receipts := SupersedeReceipts(receipts, key, but, now, detail);
      queue := DropQueued(queue, key, but);
    }

    /** Fails where a plain insert would hit an existing row; the invariant says it never does. */
    method Admit(intake: Intake, now: int) returns (admission: Admission)
      requires Valid()
      modifies this
      ensures (Contents(), admission) == CommandIntake.Admit(old(Contents()), intake, now)
      ensures Valid() && admission != InsertCollision
    {
      hide Sound, Supersede, Enqueue, Lookup, ReceiptText, HasJourney, RejectionDetail, RejectionReason, NewerVersion;
      ghost var before := Contents();
      AdmitSound(before, intake, now);
      NoInsertCollision(before, intake, now);
      var v, key := intake.version, intake.Key();
      if v in receipts {
        var receipt := receipts[v];
        if receipt.outcome == Rejected || receipt.outcome == Superseded {
          return Refused(ReceiptText(receipt));
        }
        return Admitted(true, Lookup(journeys, v));
      }
      if key in watermarks {
        var sameVersion := watermarks[key].version == v && watermarks[key].at == v.at;
        if watermarks[key].at > v.at || sameVersion {
          receipts := receipts[v := Receipt(key, Rejected, now, Some(RejectionDetail(sameVersion)))];
          return Refused(RejectionReason(sameVersion));
        }
        if watermarks[key].at < v.at {
          SupersedeOthers(key, None, now, NewerVersion());
        }
      }
      InsertPending(intake, now);
      return Admitted(false, if HasJourney(intake) then intake.journey else None);
    }

    method InsertPending(intake: Intake, now: int)
      modifies this
      ensures Contents() == Enqueue(old(Contents()), intake, now)
    {
      var v, key := intake.version, intake.Key();
      watermarks := RaiseWatermark(watermarks, key, v);
      receipts := receipts[v := Receipt(key, Pending, now, None)];
      if HasJourney(intake) {
        journeys := journeys[v := intake.journey.value];
      }
      queue := queue[v := Queued(key, NewRecord(intake, now))];
    }

    method MarkVerified(intake: Intake, now: int) returns (ok: bool)
      modifies this`watermarks, this`receipts, this`queue
      ensures (Contents(), ok) == CommandIntake.MarkVerified(old(Contents()), intake, now)
      ensures old(Valid()) ==> Valid()
    {
      hide Sound, Supersede;
      ghost var before := Contents();
      if Sound(before) { MarkVerifiedSound(before, intake, now); }
      var key, v := intake.Key(), intake.version;
      if key in watermarks && watermarks[key].at > v.at {
        return false;
      }
      if key in watermarks && watermarks[key].at == v.at {
        watermarks := watermarks[key := watermarks[key].(version := v)];
      }
      SupersedeOthers(key, Some(v), now, VerifiedSibling());
      return true;
    }

    method WriteRecord(record: Record)
      modifies this`queue
      ensures Contents() == Write(old(Contents()), record.intake.version, record)
    {
      var v := record.intake.version;
      if v in queue {
        queue := queue[v := queue[v].(record := record)];
      }
    }

    method Advance(v: Version, stage: Stage, now: int, decision: string)
      requires Valid()
      modifies this`queue
      ensures Contents() == CommandIntake.Advance(old(Contents()), v, stage, now, decision) && Valid()
    {
      ghost var before := Contents();
      if v !in queue {
        return;
      }
      assert QueuedSound(before, v);
      hide Sound;
      var next := queue[v].record.(stage := stage, attempts := 0, nextAttemptAt := now, decision := Some(decision));
      WriteRecord(next);
      WriteRewrites(before, v, next);
      RewriteSound(before, Contents());
    }

    method Finish(v: Version, outcome: Outcome, now: int, detail: Option<string>)
      requires Valid() && outcome != Pending
      modifies this`receipts, this`queue
      ensures Contents() == CommandIntake.Finish(old(Contents()), v, outcome, now, detail) && Valid()
    {
      FinishSound(Contents(), v, outcome, now, detail);
      if v in receipts {
        receipts := receipts[v := receipts[v].(outcome := outcome, observedAt := now, detail := detail)];
      }
      queue := queue - {v};
    }

    /** `record` is the caller's copy; the stored one wins when there is one. */
    method Defer(record: Record, now: int, detail: string, requestedRetryAt: Option<int>, incrementAttempts: bool)
      requires Valid()
      modifies this`receipts, this`queue
      ensures Contents() == CommandIntake.Defer(
        old(Contents()), record.intake.version, now, detail, requestedRetryAt, incrementAttempts)
      ensures Valid()
    {
      hide Sound, Delay, DeferUntil, Note;
      ghost var before := Contents();
      NextLaw(before, DeferStep(record.intake.version, now, detail, requestedRetryAt, incrementAttempts));
      var current := StoredOr(record);
      var attempts := if incrementAttempts then current.attempts + 1 else current.attempts;
      WriteRecord(current.(attempts := attempts, nextAttemptAt := DeferUntil(attempts, now, requestedRetryAt)));
      receipts := Note(receipts, record.intake.version, now, detail);
    }

    method RetryVerification(record: Record, now: int, detail: string)
      requires Valid()
      modifies this`receipts, this`queue
      ensures Contents() == CommandIntake.RetryVerification(old(Contents()), record.intake.version, now, detail) && Valid()
    {
      hide Sound, Delay, Note;
      ghost var before := Contents();
      NextLaw(before, RetryStep(record.intake.version, now, detail));
      var current := StoredOr(record);
      var attempts := current.attempts + 1;
      WriteRecord(current.(stage := VerifyPending, attempts := attempts,
                           nextAttemptAt := now + Delay(attempts), decision := None));
      receipts := Note(receipts, record.intake.version, now, detail);
    }

    method StoredOr(record: Record) returns (current: Record)
      requires Valid()
      ensures current.intake.version == record.intake.version
      ensures current == if record.intake.version in queue then queue[record.intake.version].record else record
    {
      var v := record.intake.version;
      assert v in queue ==> QueuedSound(Contents(), v);
      current := if v in queue then queue[v].record else record;
    }

    method PruneTerminalReceipts(now: int)
      requires Valid()
      modifies this`receipts, this`journeys
      ensures Contents() == Prune(old(Contents()), now) && Valid()
    {
      PruneSound(Contents(), now);
      receipts := map v | v in receipts
        && (receipts[v].outcome == Pending || receipts[v].observedAt > now - RETENTION_MS) :: receipts[v];
      journeys := map v | v in journeys && v in receipts :: journeys[v];
    }

    /** None is the allocation error. */
    method AllocateItemRevision(itemKey: string, minimum: int, lifecycle: int, publication: int)
      returns (revision: Option<int>)
      modifies this`revisions
      ensures (Contents(), revision) == Allocate(old(Contents()), itemKey, minimum, lifecycle, publication)
    {
      var floor := Floor(minimum, lifecycle, publication);
      revisions := revisions[itemKey := if itemKey in revisions then Max(revisions[itemKey], floor) else floor];
      var next := revisions[itemKey] + 1;
      revisions := revisions[itemKey := next];
      assert revisions == old(revisions)[itemKey := next];
      return if next > MAX_SAFE_INTEGER || next < minimum then None else Some(next);
    }
  }
}
