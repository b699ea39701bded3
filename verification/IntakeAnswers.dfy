/**
 What the command intake answers and writes, row by row: the text a refusal carries, what an
 admission displaces, when a verification succeeds, and when a command is tried again.
 */
module IntakeAnswers {
  import opened Basics
  import opened CommandIntake
  import opened IntakeLaws

  // ------------------------------------------------------------------ admission

  /** A version with a receipt is answered from it: its journey while it stands, its detail once refused. */
  lemma KnownVersionAnswer(s: Tables, intake: Intake, now: int)
    requires intake.version in s.receipts
    ensures var v := intake.version;
      var receipt := s.receipts[v];
      var outcome := Admit(s, intake, now).1;
      && Admit(s, intake, now).0 == s
      && (receipt.outcome == Pending || receipt.outcome == Completed ==>
            outcome == Admitted(true, if v in s.journeys then Some(s.journeys[v]) else None))
      && (receipt.outcome == Rejected || receipt.outcome == Superseded ==>
            && outcome.Refused?
            && (receipt.detail.Some? && receipt.detail.value != "" ==> outcome.reason == receipt.detail.value)
            && (receipt.detail.None? || receipt.detail.value == "" ==>
                  outcome.reason == if receipt.outcome == Rejected then "rejected" else "superseded"))
  {
    hide AdmitNew;
  }

  /** One below its comment's watermark, or at it without a receipt, is refused and remembered as rejected. */
  lemma StaleVersionAnswer(s: Tables, intake: Intake, now: int)
    requires intake.version !in s.receipts && intake.Key() in s.watermarks
    requires var mark := s.watermarks[intake.Key()];
      mark.at > intake.version.at || (mark.at == intake.version.at && mark.version == intake.version)
    ensures var mark := s.watermarks[intake.Key()];
      var observed := mark.at == intake.version.at && mark.version == intake.version;
      var detail := if observed then "already_observed" else "older_comment_version";
      var reason := if observed then "semantic command version already observed" else "older comment version";
      Admit(s, intake, now) ==
        (s.(receipts := s.receipts[intake.version := Receipt(intake.Key(), Rejected, now, Some(detail))]), Refused(reason))
  {
    hide AdmitNew;
  }

  predicate IsNewer(s: Tables, intake: Intake) {
    intake.Key() in s.watermarks && s.watermarks[intake.Key()].at < intake.version.at
  }

  /** What becomes of another version's receipt when its comment is taken over. */
  function Displaced(receipt: Receipt, now: int, detail: string): Receipt {
    if receipt.outcome == Pending then Receipt(receipt.key, Superseded, now, Some(detail)) else receipt
  }

  lemma AdmittedRows(s: Tables, intake: Intake, now: int)
    requires Sound(s) && FreshlyAdmissible(s, intake)
    ensures Admit(s, intake, now).0 == Enqueue(Cleared(s, intake, now), intake, now)
    ensures Admit(s, intake, now).1 == Admitted(false, if HasJourney(intake) then intake.journey else None)
  {
    hide Enqueue, Cleared, HasJourney, QueuedSound, WatermarkSound;
    ClearedFacts(s, intake, now);
    NoInsertCollision(s, intake, now);
  }

  /**
   A fresh version is queued for verification at once, with its journey if it names one. A newer
   one displaces every pending version of its comment and takes the watermark; one at the
   watermark's time joins them and leaves it.
   */
  lemma FreshVersionAnswer(s: Tables, intake: Intake, now: int)
    requires Sound(s) && FreshlyAdmissible(s, intake)
    ensures var v, key := intake.version, intake.Key();
      var (after, outcome) := Admit(s, intake, now);
      var journey := if intake.journey.Some? && intake.journey.value != "" then intake.journey else None;
      && outcome == Admitted(false, journey) && after.revisions == s.revisions
      && after.watermarks == (if key in s.watermarks && !IsNewer(s, intake) then s.watermarks
                              else s.watermarks[key := Watermark(v.at, v)])
      && after.journeys == (if journey.Some? then s.journeys[v := journey.value] else s.journeys)
      && (forall x :: x in after.receipts <==> x in s.receipts || x == v)
      && after.receipts[v] == Receipt(key, Pending, now, None)
      && (forall x | x in s.receipts ::
            after.receipts[x] == if IsNewer(s, intake) && s.receipts[x].key == key
                                 then Displaced(s.receipts[x], now, "newer_comment_version") else s.receipts[x])
      && (forall x :: x in after.queue <==> x == v || (x in s.queue && !(IsNewer(s, intake) && s.queue[x].key == key)))
      && after.queue[v] == Queued(key, Record(intake, VerifyPending, 0, now, now, None))
      && (forall x | x in after.queue && x != v :: after.queue[x] == s.queue[x])
  {
    hide Sound, Admit;
    AdmittedRows(s, intake, now);
    FreshIsNew(s, intake);
    ClearedRows(s, intake, now);
    var cleared := Cleared(s, intake, now);
    hide Cleared;
  }

  lemma FreshIsNew(s: Tables, intake: Intake)
    requires Sound(s) && FreshlyAdmissible(s, intake)
    ensures intake.version !in s.receipts && intake.version !in s.queue
  {
    assert intake.version in s.queue ==> QueuedSound(s, intake.version);
  }

  lemma ClearedRows(s: Tables, intake: Intake, now: int)
    ensures var c, key := Cleared(s, intake, now), intake.Key();
      && c.watermarks == s.watermarks && c.journeys == s.journeys && c.revisions == s.revisions
      && c.receipts.Keys == s.receipts.Keys
      && (forall x | x in s.receipts ::
            c.receipts[x] == if IsNewer(s, intake) && s.receipts[x].key == key
                             then Displaced(s.receipts[x], now, "newer_comment_version") else s.receipts[x])
      && (forall x :: x in c.queue <==> x in s.queue && !(IsNewer(s, intake) && s.queue[x].key == key))
      && (forall x | x in c.queue :: c.queue[x] == s.queue[x])
  {
  }

  // ------------------------------------------------------------------ verification

  /** Verification fails exactly when the comment has moved on to a later time, and then writes nothing. */
  lemma VerifiedExactly(s: Tables, intake: Intake, now: int)
    ensures var (after, verified) := MarkVerified(s, intake, now);
      && (verified <==> (intake.Key() in s.watermarks ==> s.watermarks[intake.Key()].at <= intake.version.at))
      && (!verified ==> after == s)
  {
    hide Supersede;
  }

  /** What a successful one writes: the watermark's version, and the other pending versions of the comment. */
  lemma VerifiedRows(s: Tables, intake: Intake, now: int)
    requires MarkVerified(s, intake, now).1
    ensures var v, key, after := intake.version, intake.Key(), MarkVerified(s, intake, now).0;
      && after.journeys == s.journeys && after.revisions == s.revisions
      && after.watermarks == (if key in s.watermarks && s.watermarks[key].at == v.at
                              then s.watermarks[key := Watermark(v.at, v)] else s.watermarks)
      && after.receipts.Keys == s.receipts.Keys
      && (forall x | x in s.receipts ::
            after.receipts[x] == if x != v && s.receipts[x].key == key
                                 then Displaced(s.receipts[x], now, "verified_sibling_version") else s.receipts[x])
      && (forall x :: x in after.queue <==> x in s.queue && (x == v || s.queue[x].key != key))
      && (forall x | x in after.queue :: after.queue[x] == s.queue[x])
  {
    hide Supersede, Displaced;
    var key, v := intake.Key(), intake.version;
    SiblingRows(s, key, v, now);
    SiblingRows(s.(watermarks := s.watermarks[key := Watermark(v.at, v)]), key, v, now);
  }

  lemma SiblingRows(s: Tables, key: CommentKey, v: Version, now: int)
    ensures var after := Supersede(s, key, Some(v), now, VerifiedSibling());
      && after.watermarks == s.watermarks && after.journeys == s.journeys && after.revisions == s.revisions
      && after.receipts.Keys == s.receipts.Keys
      && (forall x | x in s.receipts ::
            after.receipts[x] == if x != v && s.receipts[x].key == key
                                 then Displaced(s.receipts[x], now, "verified_sibling_version") else s.receipts[x])
      && (forall x :: x in after.queue <==> x in s.queue && (x == v || s.queue[x].key != key))
      && (forall x | x in after.queue :: after.queue[x] == s.queue[x])
  {
  }

  /** A queued command is always verified: it takes its comment's watermark and stays queued and pending. */
  lemma QueuedIsVerified(s: Tables, v: Version, now: int)
    requires Sound(s) && v in s.queue
    ensures var intake := s.queue[v].record.intake;
      var (after, verified) := MarkVerified(s, intake, now);
      && verified && after.watermarks[intake.Key()] == Watermark(v.at, v)
      && v in after.queue && after.queue[v] == s.queue[v]
      && v in after.receipts && after.receipts[v].outcome == Pending
      && IsCurrent(after, after.queue[v].record)
  {
    hide Supersede, ReceiptSound, WatermarkSound;
    assert QueuedSound(s, v);
    VerifiedExactly(s, s.queue[v].record.intake, now);
    VerifiedRows(s, s.queue[v].record.intake, now);
  }

  /** Another version is current no longer, once it was past verification. */
  lemma VerifiedAlone(s: Tables, v: Version, now: int, other: Record)
    requires Sound(s) && v in s.queue && other.stage != VerifyPending
    requires other.intake.Key() == s.queue[v].key && other.intake.version != v
    ensures !IsCurrent(MarkVerified(s, s.queue[v].record.intake, now).0, other)
  {
    hide MarkVerified, Sound;
    QueuedIsVerified(s, v, now);
    QueuedKey(s, v);
  }

  lemma QueuedKey(s: Tables, v: Version)
    requires Sound(s) && v in s.queue
    ensures s.queue[v].record.intake.Key() == s.queue[v].key && s.queue[v].record.intake.version == v
  {
    assert QueuedSound(s, v);
  }

  // ------------------------------------------------------------------ progress

  /** Only this version's row, its record included, and its receipt may differ. */
  ghost predicate OnlyTouches(s: Tables, after: Tables, v: Version) {
    && after.watermarks == s.watermarks && after.journeys == s.journeys && after.revisions == s.revisions
    && (forall x | x != v :: (x in after.queue <==> x in s.queue) && (x in s.queue ==> after.queue[x] == s.queue[x]))
    && (forall x | x != v ::
          (x in after.receipts <==> x in s.receipts) && (x in s.receipts ==> after.receipts[x] == s.receipts[x]))
  }

  /** An advance moves the queued record to its stage with the decision, to be tried at once, with no attempts. */
  lemma AdvanceAnswer(s: Tables, v: Version, stage: Stage, now: int, decision: string)
    ensures var after := Advance(s, v, stage, now, decision);
      && OnlyTouches(s, after, v) && after.receipts == s.receipts && (v in after.queue <==> v in s.queue)
      && (v in s.queue ==>
            var was := s.queue[v].record;
            after.queue[v] == Queued(s.queue[v].key, Record(was.intake, stage, 0, now, was.admittedAt, Some(decision))))
  {
  }

  /** A finish takes the version off the queue and settles its receipt, if it has one. */
  lemma FinishAnswer(s: Tables, v: Version, outcome: Outcome, now: int, detail: Option<string>)
    ensures var after := Finish(s, v, outcome, now, detail);
      && OnlyTouches(s, after, v) && v !in after.queue && (v in after.receipts <==> v in s.receipts)
      && (v in s.receipts ==> after.receipts[v] == Receipt(s.receipts[v].key, outcome, now, detail))
  {
  }

  /** A text of 500 characters or less stays whole, of a longer one the first 500 are kept. */
  function FirstPart(detail: string): (part: string)
    ensures part <= detail && |part| <= 500 && (part == detail || |part| == 500)
  {
    if |detail| <= 500 then detail else detail[..500]
  }

  /** What a pending receipt says after a deferral. */
  predicate Noted(s: Tables, after: Tables, v: Version, now: int, detail: string) {
    && (v in after.receipts <==> v in s.receipts)
    && (v in s.receipts ==>
          after.receipts[v] == if s.receipts[v].outcome == Pending
                               then Receipt(s.receipts[v].key, Pending, now, Some(FirstPart(detail))) else s.receipts[v])
  }

  lemma NoteRow(s: Tables, v: Version, now: int, detail: string)
    ensures var after := s.(receipts := Note(s.receipts, v, now, detail));
      OnlyTouches(s, after, v) && Noted(s, after, v, now, detail) && after.queue == s.queue
  {
    assert Cut(detail) == FirstPart(detail);
  }

  lemma NotedWrite(s: Tables, v: Version, now: int, detail: string, record: Record)
    requires v in s.queue
    ensures var after := Write(s.(receipts := Note(s.receipts, v, now, detail)), v, record);
      && OnlyTouches(s, after, v) && Noted(s, after, v, now, detail)
      && v in after.queue && after.queue[v] == Queued(s.queue[v].key, record)
  {
    hide Note, Noted;
    NoteRow(s, v, now, detail);
    SameNote(s, s.(receipts := Note(s.receipts, v, now, detail)),
             Write(s.(receipts := Note(s.receipts, v, now, detail)), v, record), v, now, detail);
  }

  lemma SameNote(s: Tables, noted: Tables, after: Tables, v: Version, now: int, detail: string)
    requires Noted(s, noted, v, now, detail) && after.receipts == noted.receipts
    ensures Noted(s, after, v, now, detail)
  {
  }

  /** Sending a command back to verification drops its decision and counts as a failed attempt. */
  lemma RetryAnswer(s: Tables, v: Version, now: int, detail: string)
    ensures var after := RetryVerification(s, v, now, detail);
      && OnlyTouches(s, after, v) && Noted(s, after, v, now, detail) && (v in after.queue <==> v in s.queue)
      && (v in s.queue ==>
            var was := s.queue[v].record;
            after.queue[v] == Queued(s.queue[v].key, Record(
              was.intake, VerifyPending, was.attempts + 1, now + Delay(was.attempts + 1), was.admittedAt, None)))
  {
    hide Delay, Write, Note, OnlyTouches, Noted;
    NoteRow(s, v, now, detail);
    if v in s.queue {
      var was := s.queue[v].record;
      NotedWrite(s, v, now, detail, was.(stage := VerifyPending, attempts := was.attempts + 1,
                                         nextAttemptAt := now + Delay(was.attempts + 1), decision := None));
    }
  }

  /** A deferral keeps stage and decision and moves only the attempts, the note and the retry time. */
  lemma DeferAnswer(s: Tables, v: Version, now: int, detail: string, requestedRetryAt: Option<int>, incrementAttempts: bool)
    ensures var after := Defer(s, v, now, detail, requestedRetryAt, incrementAttempts);
      && OnlyTouches(s, after, v) && Noted(s, after, v, now, detail) && (v in after.queue <==> v in s.queue)
      && (v in s.queue ==>
            var was := s.queue[v].record;
            var attempts := if incrementAttempts then was.attempts + 1 else was.attempts;
            after.queue[v] == Queued(s.queue[v].key, was.(
              attempts := attempts, nextAttemptAt := DeferUntil(attempts, now, requestedRetryAt))))
  {
    hide DeferUntil, Write, Note, OnlyTouches, Noted;
    NoteRow(s, v, now, detail);
    if v in s.queue {
      var was := s.queue[v].record;
      var attempts := if incrementAttempts then was.attempts + 1 else was.attempts;
      NotedWrite(s, v, now, detail,
                 was.(attempts := attempts, nextAttemptAt := DeferUntil(attempts, now, requestedRetryAt)));
    }
  }

  // ------------------------------------------------------------------ retry times

  /** Fifteen seconds after the first failure, then twice as long each time, up to fifteen minutes. */
  lemma DelayDoubles(attempts: int)
    ensures attempts <= 1 ==> Delay(attempts) == 15 * 1000
    ensures attempts >= 1 ==> Delay(attempts + 1) == Min(15 * 60 * 1000, 2 * Delay(attempts))
  {
    if attempts >= 9 {
      DelayBounds(attempts, attempts + 1);
    }
  }

  /** The time asked for is granted when it is between the backoff and fifteen minutes from now. */
  lemma DeferUntilExactly(attempts: int, now: int, requestedRetryAt: Option<int>)
    requires now >= 0
    ensures var earliest, latest := now + Delay(attempts), now + 15 * 60 * 1000;
      var granted := DeferUntil(attempts, now, requestedRetryAt);
      && earliest <= latest
      && (requestedRetryAt.None? || requestedRetryAt.value <= earliest ==> granted == earliest)
      && (requestedRetryAt.Some? && earliest <= requestedRetryAt.value <= latest ==> granted == requestedRetryAt.value)
      && (requestedRetryAt.Some? && requestedRetryAt.value >= latest ==> granted == latest)
  {
    hide Delay;
    DelayBounds(attempts, attempts);
  }

  // ------------------------------------------------------------------ retention and revisions

  /** Pruning drops exactly the settled receipts that are thirty days old, and the journeys without one. */
  lemma PruneAnswer(s: Tables, now: int)
    ensures var after := Prune(s, now);
      && after.queue == s.queue && after.watermarks == s.watermarks && after.revisions == s.revisions
      && (forall v :: v in after.receipts <==>
            && v in s.receipts
            && (s.receipts[v].outcome == Pending || now < s.receipts[v].observedAt + 30 * 24 * 3600 * 1000))
      && (forall v | v in after.receipts :: after.receipts[v] == s.receipts[v])
      && (forall v :: v in after.journeys <==> v in s.journeys && v in after.receipts)
      && (forall v | v in after.journeys :: after.journeys[v] == s.journeys[v])
  {
  }

  /** The revision allocated is the least one above the last and every floor, and is written in any case. */
  lemma LeastRevision(s: Tables, itemKey: string, minimum: int, lifecycle: int, publication: int, other: int)
    requires other > LastRevision(s, itemKey) && other > lifecycle && other > publication && other >= minimum && other >= 1
    ensures var (after, revision) := Allocate(s, itemKey, minimum, lifecycle, publication);
      && after == s.(revisions := s.revisions[itemKey := after.revisions[itemKey]])
      && itemKey in after.revisions && after.revisions[itemKey] <= other
      && (other <= MAX_SAFE_INTEGER ==> revision == Some(after.revisions[itemKey]))
  {
    AllocateLaw(s, itemKey, minimum, lifecycle, publication);
  }
}
