/**
 What the command intake keeps over every run of its operations, in any order and with any
 (possibly stale) record: queue and receipts agree, only current versions are queued, and exactly
 which versions can be admitted again.
 */
module IntakeLaws {
  import opened Basics
  import opened CommandIntake

  // ------------------------------------------------------------------ the invariant

  ghost predicate QueuedSound(s: Tables, v: Version)
    requires v in s.queue
  {
    var q := s.queue[v];
    && q.record.intake.version == v && q.record.intake.Key() == q.key
    && v in s.receipts && s.receipts[v].outcome == Pending && s.receipts[v].key == q.key
    && q.key in s.watermarks && s.watermarks[q.key].at == v.at
  }

  ghost predicate ReceiptSound(s: Tables, v: Version)
    requires v in s.receipts
  {
    var receipt := s.receipts[v];
    && receipt.key.commentId == v.commentId
    && receipt.key in s.watermarks && v.at <= s.watermarks[receipt.key].at
    && (receipt.outcome == Pending ==> v in s.queue)
  }

  ghost predicate WatermarkSound(s: Tables, key: CommentKey)
    requires key in s.watermarks
  {
    var mark := s.watermarks[key];
    mark.version.at == mark.at && mark.version.commentId == key.commentId
  }

  /**
   A version is queued exactly when its receipt is pending, at the timestamp of its comment's
   watermark; every journey has a receipt.
   */
  ghost predicate Sound(s: Tables) {
    && (forall v | v in s.queue :: QueuedSound(s, v))
    && (forall v | v in s.receipts :: ReceiptSound(s, v))
    && (forall key | key in s.watermarks :: WatermarkSound(s, key))
    && s.journeys.Keys <= s.receipts.Keys
  }

  /** Watermarks never vanish or go back. */
  ghost predicate Rises(before: Tables, after: Tables) {
    forall key | key in before.watermarks :: key in after.watermarks && before.watermarks[key].at <= after.watermarks[key].at
  }

  lemma RisesTransitive(a: Tables, b: Tables, c: Tables)
    requires Rises(a, b) && Rises(b, c)
    ensures Rises(a, c)
  {
  }

  // ------------------------------------------------------------------ steps

  datatype Step =
    | AdmitStep(intake: Intake, now: int)
    | VerifiedStep(intake: Intake, now: int)
    | AdvanceStep(version: Version, stage: Stage, now: int, decision: string)
    | FinishStep(version: Version, outcome: Outcome, now: int, detail: Option<string>)
    | DeferStep(version: Version, now: int, text: string, requestedRetryAt: Option<int>, incrementAttempts: bool)
    | RetryStep(version: Version, now: int, text: string)
    | PruneStep(now: int)
    | AllocateStep(itemKey: string, minimum: int, lifecycle: int, publication: int)

  /** The operations' types: a finish outcome is terminal, an advance leaves verification. */
  predicate ValidStep(step: Step) {
    (step.FinishStep? ==> step.outcome != Pending) && (step.AdvanceStep? ==> step.stage != VerifyPending)
  }

  function Next(s: Tables, step: Step): Tables {
    match step
    case AdmitStep(intake, now) => Admit(s, intake, now).0
    case VerifiedStep(intake, now) => MarkVerified(s, intake, now).0
    case AdvanceStep(v, stage, now, decision) => Advance(s, v, stage, now, decision)
    case FinishStep(v, outcome, now, detail) => Finish(s, v, outcome, now, detail)
    case DeferStep(v, now, text, requestedRetryAt, incrementAttempts) =>
      Defer(s, v, now, text, requestedRetryAt, incrementAttempts)
    case RetryStep(v, now, text) => RetryVerification(s, v, now, text)
    case PruneStep(now) => Prune(s, now)
    case AllocateStep(itemKey, minimum, lifecycle, publication) => Allocate(s, itemKey, minimum, lifecycle, publication).0
  }

  function Run(s: Tables, steps: seq<Step>): Tables {
    if steps == [] then s else Next(Run(s, steps[..|steps|-1]), steps[|steps|-1])
  }

  predicate ValidSteps(steps: seq<Step>) {
    forall step | step in steps :: ValidStep(step)
  }

  lemma SupersedeQueue(s: Tables, key: CommentKey, but: Option<Version>, now: int, detail: string, v: Version)
    requires v in s.queue && QueuedSound(s, v)
    ensures var after := Supersede(s, key, but, now, detail); v in after.queue ==> QueuedSound(after, v)
  {
  }

  lemma SupersedeReceipt(s: Tables, key: CommentKey, but: Option<Version>, now: int, detail: string, v: Version)
    requires v in s.receipts && ReceiptSound(s, v) && (v in s.queue ==> QueuedSound(s, v))
    ensures ReceiptSound(Supersede(s, key, but, now, detail), v)
  {
  }

  lemma SupersedeSound(s: Tables, key: CommentKey, but: Option<Version>, now: int, detail: string)
    requires Sound(s)
    ensures Sound(Supersede(s, key, but, now, detail))
  {
    hide QueuedSound, ReceiptSound;
    var after := Supersede(s, key, but, now, detail);
    forall v | v in after.queue ensures QueuedSound(after, v) { SupersedeQueue(s, key, but, now, detail, v); }
    forall v | v in after.receipts ensures ReceiptSound(after, v) { SupersedeReceipt(s, key, but, now, detail, v); }
    forall k | k in after.watermarks ensures WatermarkSound(after, k) { assert WatermarkSound(s, k); }
  }

  /** Nothing of the comment stands above this version, and nothing older of it is queued. */
  ghost predicate ClearFor(s: Tables, intake: Intake) {
    intake.Key() in s.watermarks ==>
      s.watermarks[intake.Key()].at == intake.version.at
      || (s.watermarks[intake.Key()].at < intake.version.at && forall v | v in s.queue :: s.queue[v].key != intake.Key())
  }

  lemma EnqueueQueue(s: Tables, intake: Intake, now: int, v: Version)
    requires v in s.queue ==> QueuedSound(s, v)
    requires intake.version !in s.receipts && ClearFor(s, intake) && v in Enqueue(s, intake, now).queue
    ensures QueuedSound(Enqueue(s, intake, now), v)
  {
  }

  lemma EnqueueReceipt(s: Tables, intake: Intake, now: int, v: Version)
    requires v in s.receipts ==> ReceiptSound(s, v)
    requires ClearFor(s, intake) && v in Enqueue(s, intake, now).receipts
    ensures ReceiptSound(Enqueue(s, intake, now), v)
  {
  }

  lemma EnqueueSound(s: Tables, intake: Intake, now: int)
    requires Sound(s) && intake.version !in s.receipts && ClearFor(s, intake)
    ensures Sound(Enqueue(s, intake, now)) && Rises(s, Enqueue(s, intake, now))
  {
    hide QueuedSound, ReceiptSound, ClearFor;
    var after := Enqueue(s, intake, now);
    forall v | v in after.queue ensures QueuedSound(after, v) { EnqueueQueue(s, intake, now, v); }
    forall v | v in after.receipts ensures ReceiptSound(after, v) { EnqueueReceipt(s, intake, now, v); }
    forall k | k in after.watermarks ensures WatermarkSound(after, k) { assert k in s.watermarks ==> WatermarkSound(s, k); }
  }

  /** The plain inserts of an admission cannot hit an existing row. */
  lemma NoInsertCollision(s: Tables, intake: Intake, now: int)
    requires Sound(s)
    ensures Admit(s, intake, now).1 != InsertCollision
  {
    assert intake.version in s.queue ==> QueuedSound(s, intake.version);
  }

  lemma AdmitSound(s: Tables, intake: Intake, now: int)
    requires Sound(s)
    ensures Sound(Admit(s, intake, now).0) && Rises(s, Admit(s, intake, now).0)
  {
    hide Sound, Supersede, Enqueue;
    if FreshlyAdmissible(s, intake) {
      SupersedeSound(s, intake.Key(), None, now, NewerVersion());
      ClearedFacts(s, intake, now);
      EnqueueSound(Cleared(s, intake, now), intake, now);
    } else {
      RefusalSound(s, intake, now);
    }
  }

  /** The exact guard of a fresh admission. */
  predicate FreshlyAdmissible(s: Tables, intake: Intake) {
    var v, key := intake.version, intake.Key();
    && v !in s.receipts
    && (key in s.watermarks ==>
          s.watermarks[key].at < v.at || (s.watermarks[key].at == v.at && s.watermarks[key].version != v))
  }

  lemma ClearedFacts(s: Tables, intake: Intake, now: int)
    requires Sound(s) && FreshlyAdmissible(s, intake)
    ensures var c := Cleared(s, intake, now);
      && intake.version !in c.receipts && c.watermarks == s.watermarks && ClearFor(c, intake)
      && Admit(s, intake, now).0 == Enqueue(c, intake, now)
      && Admit(s, intake, now).1.Admitted? && !Admit(s, intake, now).1.deduped
  {
    NoInsertCollision(s, intake, now);
  }

  lemma RejectionSound(s: Tables, v: Version, receipt: Receipt)
    requires Sound(s) && v !in s.receipts && receipt.outcome == Rejected && receipt.key.commentId == v.commentId
    requires receipt.key in s.watermarks && v.at <= s.watermarks[receipt.key].at
    ensures Sound(s.(receipts := s.receipts[v := receipt]))
  {
    var after := s.(receipts := s.receipts[v := receipt]);
    forall k | k in s.watermarks ensures WatermarkSound(after, k) { assert WatermarkSound(s, k); }
    forall x | x in s.queue ensures QueuedSound(after, x) { assert QueuedSound(s, x); }
    forall x | x in after.receipts ensures ReceiptSound(after, x) { assert x in s.receipts ==> ReceiptSound(s, x); }
  }

  lemma RefusalSound(s: Tables, intake: Intake, now: int)
    requires Sound(s) && !FreshlyAdmissible(s, intake)
    ensures Sound(Admit(s, intake, now).0) && Rises(s, Admit(s, intake, now).0)
    ensures Admit(s, intake, now).1.Admitted? ==> Admit(s, intake, now).1.deduped
    ensures Admit(s, intake, now).0.queue == s.queue
  {
    hide Sound, AdmitNew, ReceiptText, RejectionDetail, RejectionReason;
    var v, key := intake.version, intake.Key();
    MarksSound(s);
    if v !in s.receipts {
      var same := s.watermarks[key] == Watermark(v.at, v);
      RejectionSound(s, v, Receipt(key, Rejected, now, Some(RejectionDetail(same))));
    }
  }

  lemma MarksSound(s: Tables)
    requires Sound(s)
    ensures forall key | key in s.watermarks :: WatermarkSound(s, key)
  {
  }

  lemma MarkVerifiedSound(s: Tables, intake: Intake, now: int)
    requires Sound(s)
    ensures Sound(MarkVerified(s, intake, now).0) && Rises(s, MarkVerified(s, intake, now).0)
  {
    hide Supersede;
    var key, v := intake.Key(), intake.version;
    var marked := s.(watermarks := s.watermarks[key := Watermark(v.at, v)]);
    if key in s.watermarks && s.watermarks[key].at == v.at {
      forall x | x in s.queue ensures QueuedSound(marked, x) { assert QueuedSound(s, x); }
      forall x | x in s.receipts ensures ReceiptSound(marked, x) { assert ReceiptSound(s, x); }
      forall k | k in marked.watermarks ensures WatermarkSound(marked, k) { assert k != key ==> WatermarkSound(s, k); }
      assert Sound(marked);
      SupersedeSound(marked, key, Some(v), now, VerifiedSibling());
      SupersedeLeaves(marked, key, Some(v), now, VerifiedSibling());
    } else {
      SupersedeSound(s, key, Some(v), now, VerifiedSibling());
      SupersedeLeaves(s, key, Some(v), now, VerifiedSibling());
    }
  }

  lemma SupersedeLeaves(s: Tables, key: CommentKey, but: Option<Version>, now: int, detail: string)
    ensures Supersede(s, key, but, now, detail).watermarks == s.watermarks
    ensures forall v | v in Supersede(s, key, but, now, detail).queue && s.queue[v].key == key :: but == Some(v)
  {
  }

  /** Records and receipt notes rewritten in place: no row, key, intake or outcome changes. */
  ghost predicate Rewrites(s: Tables, after: Tables) {
    && after.watermarks == s.watermarks && after.journeys == s.journeys
    && after.queue.Keys == s.queue.Keys && after.receipts.Keys == s.receipts.Keys
    && (forall x | x in s.queue ::
          after.queue[x].key == s.queue[x].key && after.queue[x].record.intake == s.queue[x].record.intake)
    && (forall x | x in s.receipts ::
          after.receipts[x].key == s.receipts[x].key && after.receipts[x].outcome == s.receipts[x].outcome)
  }

  lemma RewriteSound(s: Tables, after: Tables)
    requires Sound(s) && Rewrites(s, after)
    ensures Sound(after)
  {
    forall x | x in after.queue ensures QueuedSound(after, x) { assert QueuedSound(s, x); }
    forall x | x in after.receipts ensures ReceiptSound(after, x) { assert ReceiptSound(s, x); }
    forall k | k in after.watermarks ensures WatermarkSound(after, k) { assert WatermarkSound(s, k); }
  }

  predicate IsProgress(step: Step) {
    step.AdvanceStep? || step.DeferStep? || step.RetryStep? || step.AllocateStep?
  }

  lemma WriteRewrites(s: Tables, v: Version, record: Record)
    requires v in s.queue ==> record.intake == s.queue[v].record.intake
    ensures Rewrites(s, Write(s, v, record))
  {
  }

  lemma NoteRewrites(s: Tables, v: Version, now: int, detail: string)
    ensures Rewrites(s, s.(receipts := Note(s.receipts, v, now, detail)))
  {
  }

  lemma RewritesTransitive(a: Tables, b: Tables, c: Tables)
    requires Rewrites(a, b) && Rewrites(b, c)
    ensures Rewrites(a, c)
  {
  }

  lemma NotedWriteRewrites(s: Tables, v: Version, now: int, detail: string, record: Record)
    requires v in s.queue && record.intake == s.queue[v].record.intake
    ensures Rewrites(s, Write(s.(receipts := Note(s.receipts, v, now, detail)), v, record))
  {
    hide Rewrites, Write, Note;
    var noted := s.(receipts := Note(s.receipts, v, now, detail));
    NoteRewrites(s, v, now, detail);
    WriteRewrites(noted, v, record);
    RewritesTransitive(s, noted, Write(noted, v, record));
  }

  lemma ProgressRewrites(s: Tables, step: Step)
    requires IsProgress(step)
    ensures Rewrites(s, Next(s, step))
  {
    hide Rewrites, Write, Note, Delay, DeferUntil;
    match step
    case AdvanceStep(v, stage, now, decision) =>
      if v in s.queue {
        WriteRewrites(s, v, s.queue[v].record.(stage := stage, attempts := 0, nextAttemptAt := now, decision := Some(decision)));
      } else {
        SameRewrites(s, s);
      }
    case DeferStep(v, now, text, requestedRetryAt, incrementAttempts) =>
      NoteRewrites(s, v, now, text);
      if v in s.queue {
        var current := s.queue[v].record;
        var attempts := if incrementAttempts then current.attempts + 1 else current.attempts;
        NotedWriteRewrites(s, v, now, text,
          current.(attempts := attempts, nextAttemptAt := DeferUntil(attempts, now, requestedRetryAt)));
      }
    case RetryStep(v, now, text) =>
      NoteRewrites(s, v, now, text);
      if v in s.queue {
        var current := s.queue[v].record;
        NotedWriteRewrites(s, v, now, text,
          current.(stage := VerifyPending, attempts := current.attempts + 1,
                   nextAttemptAt := now + Delay(current.attempts + 1), decision := None));
      }
    case AllocateStep(_, _, _, _) => SameRewrites(s, Next(s, step));
  }

  lemma SameRewrites(s: Tables, after: Tables)
    requires after == s.(revisions := after.revisions)
    ensures Rewrites(s, after)
  {
  }

  lemma FinishQueued(s: Tables, v: Version, outcome: Outcome, now: int, detail: Option<string>, x: Version)
    requires x in s.queue && x != v && QueuedSound(s, x)
    ensures QueuedSound(Finish(s, v, outcome, now, detail), x)
  {
  }

  lemma FinishReceipt(s: Tables, v: Version, outcome: Outcome, now: int, detail: Option<string>, x: Version)
    requires x in s.receipts && ReceiptSound(s, x) && outcome != Pending
    ensures ReceiptSound(Finish(s, v, outcome, now, detail), x)
  {
  }

  lemma SameMark(s: Tables, after: Tables, key: CommentKey)
    requires key in s.watermarks && WatermarkSound(s, key) && after.watermarks == s.watermarks
    ensures WatermarkSound(after, key)
  {
  }

  lemma FinishSound(s: Tables, v: Version, outcome: Outcome, now: int, detail: Option<string>)
    requires Sound(s) && outcome != Pending
    ensures Sound(Finish(s, v, outcome, now, detail))
  {
    hide QueuedSound, ReceiptSound, WatermarkSound;
    var after := Finish(s, v, outcome, now, detail);
    forall x | x in s.queue && x != v ensures QueuedSound(after, x) { FinishQueued(s, v, outcome, now, detail, x); }
    forall x | x in s.receipts ensures ReceiptSound(after, x) { FinishReceipt(s, v, outcome, now, detail, x); }
    forall k | k in s.watermarks ensures WatermarkSound(after, k) { SameMark(s, after, k); }
  }

  lemma PruneSound(s: Tables, now: int)
    requires Sound(s)
    ensures Sound(Prune(s, now))
  {
    var after := Prune(s, now);
    forall x | x in after.queue ensures QueuedSound(after, x) { assert QueuedSound(s, x); }
    forall x | x in after.receipts ensures ReceiptSound(after, x) { assert ReceiptSound(s, x); }
    forall k | k in after.watermarks ensures WatermarkSound(after, k) { assert WatermarkSound(s, k); }
  }

  lemma NextLaw(s: Tables, step: Step)
    requires Sound(s) && ValidStep(step)
    ensures Sound(Next(s, step)) && Rises(s, Next(s, step))
  {
    hide Sound, Admit, MarkVerified, Advance, Defer, RetryVerification, Allocate;
    match step
    case AdmitStep(intake, now) => AdmitSound(s, intake, now);
    case VerifiedStep(intake, now) => MarkVerifiedSound(s, intake, now);
    case FinishStep(v, outcome, now, detail) => FinishSound(s, v, outcome, now, detail);
    case PruneStep(now) => PruneSound(s, now);
    case _ =>
      ProgressRewrites(s, step);
      RewriteSound(s, Next(s, step));
  }

  /** The invariant holds, and watermarks never go back, over every run. */
  lemma {:induction false} RunLaw(s: Tables, steps: seq<Step>)
    requires Sound(s) && ValidSteps(steps)
    ensures Sound(Run(s, steps)) && Rises(s, Run(s, steps))
  {
    hide Sound, Next;
    if steps != [] {
      var init := steps[..|steps|-1];
      RunLaw(s, init);
      NextLaw(Run(s, init), steps[|steps|-1]);
      RisesTransitive(s, Run(s, init), Run(s, steps));
    }
  }

  /** In particular for every state reachable from the empty store. */
  lemma Reachable(steps: seq<Step>)
    requires ValidSteps(steps)
    ensures Sound(Run(EMPTY, steps))
  {
    hide Run, Next;
    RunLaw(EMPTY, steps);
  }

  // ------------------------------------------------------------------ currency

  /** A queued version still to be verified is current; so is the verified one at any stage. */
  lemma QueuedIsCurrent(s: Tables, v: Version)
    requires Sound(s) && v in s.queue
    ensures s.queue[v].key in s.watermarks
    ensures IsCurrent(s, s.queue[v].record) <==>
      s.queue[v].record.stage == VerifyPending || s.watermarks[s.queue[v].key].version == v
  {
    assert QueuedSound(s, v);
  }

  /** Successful verification leaves no other version of the comment queued or pending. */
  lemma VerifiedIsSole(s: Tables, intake: Intake, now: int)
    requires Sound(s) && MarkVerified(s, intake, now).1
    ensures var after := MarkVerified(s, intake, now).0;
      && (forall v | v in after.queue && after.queue[v].key == intake.Key() :: v == intake.version)
      && (forall v | v in after.receipts && after.receipts[v].key == intake.Key() && after.receipts[v].outcome == Pending ::
            v == intake.version)
      && (intake.version in after.queue && after.queue[intake.version].key == intake.Key() ==>
            after.watermarks[intake.Key()].version == intake.version)
  {
    assert intake.version in s.queue ==> QueuedSound(s, intake.version);
  }

  /** A newer version displaces all others: right after its admission it is the only one queued. */
  lemma NewerIsSole(s: Tables, intake: Intake, now: int)
    requires Sound(s) && FreshlyAdmissible(s, intake)
    requires intake.Key() in s.watermarks && s.watermarks[intake.Key()].at < intake.version.at
    ensures var after := Admit(s, intake, now).0;
      && intake.version in after.queue
      && (forall v | v in after.queue && after.queue[v].key == intake.Key() :: v == intake.version)
      && (forall v | v in s.queue && s.queue[v].key == intake.Key() ::
            v in after.receipts && after.receipts[v].outcome == Superseded)
  {
    hide WatermarkSound;
    NoInsertCollision(s, intake, now);
    forall v | v in s.queue && s.queue[v].key == intake.Key()
      ensures v in s.receipts && s.receipts[v].outcome == Pending && s.receipts[v].key == intake.Key()
    {
      assert QueuedSound(s, v);
    }
  }

  // ------------------------------------------------------------------ admission, and admission again

  /** Fresh admission, with the version queued and pending, happens exactly under the guard. */
  lemma AdmitLaw(s: Tables, intake: Intake, now: int)
    requires Sound(s)
    ensures var (after, admission) := Admit(s, intake, now);
      && (admission.Admitted? && !admission.deduped <==> FreshlyAdmissible(s, intake))
      && (FreshlyAdmissible(s, intake) ==>
            intake.version in after.queue && after.queue[intake.version].record == NewRecord(intake, now))
      && (!FreshlyAdmissible(s, intake) ==> after.queue == s.queue)
  {
    hide Sound, Supersede;
    if FreshlyAdmissible(s, intake) {
      ClearedFacts(s, intake, now);
    } else {
      RefusalSound(s, intake, now);
    }
  }

  /** A version older than its comment's watermark is never admitted again, whatever is pruned. */
  lemma OlderIsRefusedForever(s: Tables, steps: seq<Step>, intake: Intake, now: int)
    requires Sound(s) && ValidSteps(steps)
    requires intake.Key() in s.watermarks && intake.version.at < s.watermarks[intake.Key()].at
    ensures var (after, admission) := Admit(Run(s, steps), intake, now);
      after.queue == Run(s, steps).queue && (admission.Admitted? ==> admission.deduped)
  {
    hide Sound, Admit, Run;
    RunLaw(s, steps);
    AdmitLaw(Run(s, steps), intake, now);
  }

  /**
   Once admitted, a version is admitted afresh again exactly when its receipt has been pruned and
   its comment's watermark is still at its timestamp but belongs to another version.
   */
  lemma ReadmissionExactly(s: Tables, intake: Intake, t: int, steps: seq<Step>, now: int)
    requires Sound(s) && ValidSteps(steps) && FreshlyAdmissible(s, intake)
    ensures var later, key := Run(Admit(s, intake, t).0, steps), intake.Key();
      var admission := Admit(later, intake, now).1;
      && key in later.watermarks
      && (admission.Admitted? && !admission.deduped <==>
            && intake.version !in later.receipts
            && later.watermarks[key].at == intake.version.at && later.watermarks[key].version != intake.version)
  {
    hide Sound, Run, Admit, Supersede;
    var admitted := Admit(s, intake, t).0;
    AdmitSound(s, intake, t);
    ClearedFacts(s, intake, t);
    RunLaw(admitted, steps);
    AdmitLaw(Run(admitted, steps), intake, now);
    assert admitted.watermarks[intake.Key()].at >= intake.version.at;
  }

  /**
   And that does happen: of two versions with one timestamp the second never takes the watermark,
   so after it is rejected and its receipt pruned the same version is admitted a second time.
   */
  lemma ReadmissionHappens(first: Intake, second: Intake, t: int)
    requires first.Key() == second.Key() && first.version.at == second.version.at && first.version != second.version
    ensures var steps := [AdmitStep(first, t), AdmitStep(second, t), FinishStep(second.version, Rejected, t, None),
                          PruneStep(t + RETENTION_MS)];
      && ValidSteps(steps)
      && FreshlyAdmissible(Run(EMPTY, steps), second)
  {
    hide RejectionDetail, RejectionReason, NewerVersion, Lookup, ReceiptText, NewRecord, HasJourney, SupersedeReceipts, Run;
    RunFour(EMPTY, AdmitStep(first, t), AdmitStep(second, t), FinishStep(second.version, Rejected, t, None),
            PruneStep(t + RETENTION_MS));
    var one := Next(EMPTY, AdmitStep(first, t));
    assert one.watermarks == map[first.Key() := Watermark(first.version.at, first.version)];
    assert one.receipts.Keys == {first.version};
    var two := Next(one, AdmitStep(second, t));
    assert two.watermarks == one.watermarks && second.version in two.receipts;
  }

  lemma RunFour(s: Tables, a: Step, b: Step, c: Step, d: Step)
    ensures Run(s, [a, b, c, d]) == Next(Next(Next(Next(s, a), b), c), d)
  {
    hide Next;
    RunThree(s, a, b, c);
    assert [a, b, c, d][..3] == [a, b, c];
  }

  // ------------------------------------------------------------------ receipts that last

  predicate NoPrune(steps: seq<Step>) {
    forall step | step in steps :: !step.PruneStep?
  }

  ghost predicate Terminal(s: Tables, v: Version) {
    v in s.receipts && s.receipts[v].outcome != Pending
  }

  lemma ClearedKeepsTerminal(s: Tables, intake: Intake, now: int, v: Version)
    requires Terminal(s, v)
    ensures var after := Cleared(s, intake, now); v in after.receipts && after.receipts[v] == s.receipts[v]
  {
  }

  lemma AdmitNewKeepsTerminal(s: Tables, intake: Intake, now: int, v: Version)
    requires Terminal(s, v) && v != intake.version
    ensures var after := AdmitNew(s, intake, now).0; v in after.receipts && after.receipts[v] == s.receipts[v]
  {
    hide Cleared, RaiseWatermark, NewRecord;
    ClearedKeepsTerminal(s, intake, now, v);
  }

  lemma AdmitKeepsTerminal(s: Tables, intake: Intake, now: int, v: Version)
    requires Terminal(s, v)
    ensures v in Admit(s, intake, now).0.receipts && Admit(s, intake, now).0.receipts[v] == s.receipts[v]
  {
    hide AdmitNew, Lookup, ReceiptText, RejectionDetail, RejectionReason;
    if v != intake.version { AdmitNewKeepsTerminal(s, intake, now, v); }
  }

  lemma StepKeepsTerminal(s: Tables, step: Step, v: Version)
    requires ValidStep(step) && !step.PruneStep? && Terminal(s, v)
    ensures Terminal(Next(s, step), v)
  {
    hide Admit, Advance, Defer, RetryVerification, Allocate, DropQueued;
    if IsProgress(step) {
      ProgressRewrites(s, step);
    } else if step.AdmitStep? {
      AdmitKeepsTerminal(s, step.intake, step.now, v);
    }
  }

  /** Until it is pruned, a terminal receipt stays terminal and its version is not queued again. */
  lemma {:induction false} TerminalStaysTerminal(s: Tables, steps: seq<Step>, v: Version)
    requires Sound(s) && ValidSteps(steps) && NoPrune(steps) && Terminal(s, v)
    ensures Terminal(Run(s, steps), v) && v !in Run(s, steps).queue
  {
    hide QueuedSound, ReceiptSound, WatermarkSound, Next;
    RunLaw(s, steps);
    if steps != [] {
      var init := Run(s, steps[..|steps|-1]);
      RunLaw(s, steps[..|steps|-1]);
      TerminalStaysTerminal(s, steps[..|steps|-1], v);
      StepKeepsTerminal(init, steps[|steps|-1], v);
    }
    QueuedIsPending(Run(s, steps), v);
  }

  lemma QueuedIsPending(s: Tables, v: Version)
    requires Sound(s)
    ensures v in s.queue <==> v in s.receipts && s.receipts[v].outcome == Pending
  {
    assert v in s.queue ==> QueuedSound(s, v);
    assert v in s.receipts ==> ReceiptSound(s, v);
  }

  /** This step settles the version's receipt with another outcome than it has. */
  predicate Overwrites(step: Step, v: Version, outcome: Outcome) {
    step.FinishStep? && step.version == v && step.outcome != outcome
  }

  /** A terminal outcome is replaced by exactly the finishes that name another one. */
  lemma OutcomeKeptExactly(s: Tables, step: Step, v: Version)
    requires ValidStep(step) && !step.PruneStep? && Terminal(s, v)
    ensures v in Next(s, step).receipts
    ensures Next(s, step).receipts[v].outcome == s.receipts[v].outcome <==> !Overwrites(step, v, s.receipts[v].outcome)
  {
    hide Admit, Advance, Defer, RetryVerification, Allocate, DropQueued;
    if IsProgress(step) {
      ProgressRewrites(s, step);
    } else if step.AdmitStep? {
      AdmitKeepsTerminal(s, step.intake, step.now, v);
    }
  }

  /** Over a run without a prune the outcome stays as long as no finish names another one. */
  lemma {:induction false} OutcomeStays(s: Tables, steps: seq<Step>, v: Version)
    requires ValidSteps(steps) && NoPrune(steps) && Terminal(s, v)
    requires forall step | step in steps :: !Overwrites(step, v, s.receipts[v].outcome)
    ensures v in Run(s, steps).receipts && Run(s, steps).receipts[v].outcome == s.receipts[v].outcome
  {
    hide Next;
    if steps != [] {
      OutcomeStays(s, steps[..|steps|-1], v);
      OutcomeKeptExactly(Run(s, steps[..|steps|-1]), steps[|steps|-1], v);
    }
  }

  /** And one does replace the other: a rejected command finished again as completed. */
  lemma OutcomeOverwritten(intake: Intake, t: int)
    ensures var rejected := [AdmitStep(intake, t), FinishStep(intake.version, Rejected, t, None)];
      var completed := rejected + [FinishStep(intake.version, Completed, t, None)];
      && ValidSteps(completed)
      && intake.version in Run(EMPTY, rejected).receipts && intake.version in Run(EMPTY, completed).receipts
      && Run(EMPTY, rejected).receipts[intake.version].outcome == Rejected
      && Run(EMPTY, completed).receipts[intake.version].outcome == Completed
  {
    hide RejectionDetail, RejectionReason, NewerVersion, Lookup, ReceiptText, NewRecord, HasJourney, SupersedeReceipts;
    var a, b := AdmitStep(intake, t), FinishStep(intake.version, Rejected, t, None);
    var c := FinishStep(intake.version, Completed, t, None);
    assert [a, b] + [c] == [a, b, c];
    RunThree(EMPTY, a, b, c);
  }

  lemma RunThree(s: Tables, a: Step, b: Step, c: Step)
    ensures Run(s, [a, b]) == Next(Next(s, a), b)
    ensures Run(s, [a, b, c]) == Next(Next(Next(s, a), b), c)
  {
    hide Next;
    assert [a, b, c][..2] == [a, b] && [a, b][..1] == [a] && [a][..0] == [];
    assert Run(s, [a]) == Next(s, a);
    assert Run(s, [a, b]) == Next(Run(s, [a]), b);
  }

  // ------------------------------------------------------------------ redelivery

  /** The receipt is there and the journey is the one handed out. */
  ghost predicate Remembers(s: Tables, v: Version, journey: Option<string>) {
    v in s.receipts && Lookup(s.journeys, v) == journey
  }

  lemma AdmitNewRemembers(s: Tables, intake: Intake, now: int, v: Version, journey: Option<string>)
    requires Remembers(s, v, journey) && v != intake.version
    ensures Remembers(AdmitNew(s, intake, now).0, v, journey)
  {
    hide Cleared, RaiseWatermark, NewRecord;
    ClearedRemembers(s, intake, now);
  }

  lemma ClearedRemembers(s: Tables, intake: Intake, now: int)
    ensures Cleared(s, intake, now).receipts.Keys == s.receipts.Keys && Cleared(s, intake, now).journeys == s.journeys
  {
  }

  lemma AdmitRemembers(s: Tables, intake: Intake, now: int, v: Version, journey: Option<string>)
    requires Remembers(s, v, journey)
    ensures Remembers(Admit(s, intake, now).0, v, journey)
  {
    hide AdmitNew, ReceiptText, RejectionDetail, RejectionReason;
    if v != intake.version { AdmitNewRemembers(s, intake, now, v, journey); }
  }

  lemma StepRemembers(s: Tables, step: Step, v: Version, journey: Option<string>)
    requires Remembers(s, v, journey) && !step.PruneStep?
    ensures Remembers(Next(s, step), v, journey)
  {
    hide Admit, Advance, Defer, RetryVerification, Allocate, DropQueued, Lookup;
    if IsProgress(step) {
      ProgressRewrites(s, step);
    } else if step.AdmitStep? {
      AdmitRemembers(s, step.intake, step.now, v, journey);
    }
  }

  lemma {:induction false} RunRemembers(s: Tables, steps: seq<Step>, v: Version, journey: Option<string>)
    requires Remembers(s, v, journey) && NoPrune(steps)
    ensures Remembers(Run(s, steps), v, journey)
  {
    hide Remembers, Next;
    if steps != [] {
      RunRemembers(s, steps[..|steps|-1], v, journey);
      StepRemembers(Run(s, steps[..|steps|-1]), steps[|steps|-1], v, journey);
    }
  }

  /**
   Until its receipt is pruned, a command delivered again changes nothing: it is refused once
   rejected or superseded, and otherwise answered with the journey of its admission.
   */
  lemma RedeliveredCommand(s: Tables, intake: Intake, t: int, steps: seq<Step>, now: int)
    requires Sound(s) && FreshlyAdmissible(s, intake) && NoPrune(steps)
    ensures var later, v := Run(Admit(s, intake, t).0, steps), intake.version;
      var (after, admission) := Admit(later, intake, now);
      && after == later && v in later.receipts
      && (later.receipts[v].outcome == Rejected || later.receipts[v].outcome == Superseded ==> admission.Refused?)
      && (later.receipts[v].outcome == Pending || later.receipts[v].outcome == Completed ==>
            admission == Admitted(true, Admit(s, intake, t).1.journey))
  {
    hide Sound, Supersede, Run, ReceiptText;
    ClearedFacts(s, intake, t);
    FreshJourney(s, intake, t);
    RunRemembers(Admit(s, intake, t).0, steps, intake.version, Admit(s, intake, t).1.journey);
  }

  lemma FreshJourney(s: Tables, intake: Intake, now: int)
    requires Sound(s) && FreshlyAdmissible(s, intake)
    ensures Admit(s, intake, now).1.Admitted?
    ensures Remembers(Admit(s, intake, now).0, intake.version, Admit(s, intake, now).1.journey)
  {
    NoInsertCollision(s, intake, now);
  }

  // ------------------------------------------------------------------ retry times

  /** The backoff grows with the attempts, from 15 seconds to at most 15 minutes, reached by the seventh. */
  lemma DelayBounds(attempts: int, more: int)
    requires attempts <= more
    ensures RETRY_BASE_MS <= Delay(attempts) <= Delay(more) <= RETRY_MAX_MS
    ensures attempts <= 1 ==> Delay(attempts) == RETRY_BASE_MS
    ensures attempts >= 7 ==> Delay(attempts) == RETRY_MAX_MS
  {
    var m, n := Min(Max(0, attempts - 1), 8), Min(Max(0, more - 1), 8);
    Pow2Monotone(m, n);
    if attempts >= 7 {
      assert Pow2(6) == 64;
      Pow2Monotone(6, m);
    }
  }

  /** Whatever retry time was asked for, a deferred command waits 15 seconds to 15 minutes. */
  lemma DeferBounds(attempts: int, now: int, requestedRetryAt: Option<int>)
    requires now >= 0
    ensures now + RETRY_BASE_MS <= DeferUntil(attempts, now, requestedRetryAt) <= now + RETRY_MAX_MS
  {
    DelayBounds(attempts, attempts);
  }

  /** A deferral keeps the command queued and pending where it was, to be tried again within the bounds. */
  lemma DeferLaw(s: Tables, v: Version, now: int, text: string, requestedRetryAt: Option<int>, incrementAttempts: bool)
    requires Sound(s) && v in s.queue && now >= 0
    ensures var after := Defer(s, v, now, text, requestedRetryAt, incrementAttempts);
      && v in after.queue && v in after.receipts && after.receipts[v].outcome == Pending && after.receipts[v].observedAt == now
      && after.queue[v].record.stage == s.queue[v].record.stage && after.queue[v].record.decision == s.queue[v].record.decision
      && after.queue[v].record.attempts == s.queue[v].record.attempts + (if incrementAttempts then 1 else 0)
      && now + RETRY_BASE_MS <= after.queue[v].record.nextAttemptAt <= now + RETRY_MAX_MS
      && (forall other | other in s.queue && other != v :: other in after.queue && after.queue[other] == s.queue[other])
  {
    hide Delay, DeferUntil, ReceiptSound, WatermarkSound;
    assert QueuedSound(s, v);
    var current := s.queue[v].record;
    DeferBounds(if incrementAttempts then current.attempts + 1 else current.attempts, now, requestedRetryAt);
  }

  // ------------------------------------------------------------------ item revisions

  function LastRevision(s: Tables, itemKey: string): int {
    if itemKey in s.revisions then s.revisions[itemKey] else 0
  }

  /** A new revision is above every floor it was given; it fails only past the safe integers. */
  lemma AllocateLaw(s: Tables, itemKey: string, minimum: int, lifecycle: int, publication: int)
    ensures var (after, revision) := Allocate(s, itemKey, minimum, lifecycle, publication);
      && (revision.Some? ==>
            && revision.value == after.revisions[itemKey]
            && revision.value > LastRevision(s, itemKey) && revision.value >= minimum && revision.value >= 1
            && revision.value > lifecycle && revision.value > publication)
      && (revision.None? <==> Max(LastRevision(s, itemKey), Floor(minimum, lifecycle, publication)) >= MAX_SAFE_INTEGER)
  {
  }

  lemma StepKeepsRevisions(s: Tables, step: Step, itemKey: string)
    ensures LastRevision(s, itemKey) <= LastRevision(Next(s, step), itemKey)
  {
    hide Delay, DeferUntil, SupersedeReceipts, DropQueued, Note, RaiseWatermark, Lookup, ReceiptText, NewRecord, HasJourney,
      RejectionDetail, RejectionReason, NewerVersion, VerifiedSibling;
  }

  lemma {:induction false} RunKeepsRevisions(s: Tables, steps: seq<Step>, itemKey: string)
    ensures LastRevision(s, itemKey) <= LastRevision(Run(s, steps), itemKey)
  {
    hide Next;
    if steps != [] {
      RunKeepsRevisions(s, steps[..|steps|-1], itemKey);
      StepKeepsRevisions(Run(s, steps[..|steps|-1]), steps[|steps|-1], itemKey);
    }
  }

  /** Revisions of one item strictly increase, whatever happens between two allocations. */
  lemma RevisionsIncrease(
      s: Tables, itemKey: string, m1: int, l1: int, p1: int, steps: seq<Step>, m2: int, l2: int, p2: int)
    requires Allocate(s, itemKey, m1, l1, p1).1.Some?
    requires Allocate(Run(Allocate(s, itemKey, m1, l1, p1).0, steps), itemKey, m2, l2, p2).1.Some?
    ensures Allocate(s, itemKey, m1, l1, p1).1.value
      < Allocate(Run(Allocate(s, itemKey, m1, l1, p1).0, steps), itemKey, m2, l2, p2).1.value
  {
    hide Run;
    var first := Allocate(s, itemKey, m1, l1, p1).0;
    AllocateLaw(s, itemKey, m1, l1, p1);
    RunKeepsRevisions(first, steps, itemKey);
    AllocateLaw(Run(first, steps), itemKey, m2, l2, p2);
  }
}
