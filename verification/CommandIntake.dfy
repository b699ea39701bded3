/**
 Command intake: a queue of comment versions, a receipt per version, a watermark per comment and
 the journey ids handed out with admissions. Each operation is one atomic transition on `Tables`.
 */
module CommandIntake {
  import opened Basics

  /** The identity of a command: which comment, its edit time, the digest of its body. */
  datatype Version = Version(commentId: nat, at: int, digest: string)

  /** repo:commentId */
  datatype CommentKey = CommentKey(repo: string, commentId: nat)

  /** A validated intake; its version names the comment it came from. */
  datatype Intake = Intake(version: Version, repo: string, journey: Option<string>) {
    function Key(): CommentKey {
      CommentKey(repo, version.commentId)
    }
  }

  datatype Stage = VerifyPending | EnqueuePending | EffectsPending

  datatype Record = Record(
    intake: Intake, stage: Stage, attempts: nat, nextAttemptAt: int, admittedAt: int, decision: Option<string>)

  datatype Queued = Queued(key: CommentKey, record: Record)

  datatype Watermark = Watermark(at: int, version: Version)

  datatype Outcome = Pending | Completed | Rejected | Superseded

  datatype Receipt = Receipt(key: CommentKey, outcome: Outcome, observedAt: int, detail: Option<string>)

  datatype Tables = Tables(
    queue: map<Version, Queued>, watermarks: map<CommentKey, Watermark>, receipts: map<Version, Receipt>,
    journeys: map<Version, string>, revisions: map<string, int>)

  const EMPTY := Tables(map[], map[], map[], map[], map[])

  const RETRY_BASE_MS: int := 15000
  const RETRY_MAX_MS: int := 900000
  const RETENTION_MS: int := 2592000000

  // ------------------------------------------------------------------ shared updates

  /** UPDATE receipts SET outcome = 'superseded' of the comment's pending versions, but one. */
  function SupersedeReceipts(receipts: map<Version, Receipt>, key: CommentKey, but: Option<Version>, now: int, detail: string)
    : map<Version, Receipt>
  {
    map v | v in receipts ::
      if receipts[v].key == key && receipts[v].outcome == Pending && but != Some(v)
      then receipts[v].(outcome := Superseded, observedAt := now, detail := Some(detail)) else receipts[v]
  }

  function NewerVersion(): string {
    "newer_comment_version"
  }

  function VerifiedSibling(): string {
    "verified_sibling_version"
  }

  function DropQueued(queue: map<Version, Queued>, key: CommentKey, but: Option<Version>): map<Version, Queued> {
    map v | v in queue && (queue[v].key != key || but == Some(v)) :: queue[v]
  }

  function Supersede(s: Tables, key: CommentKey, but: Option<Version>, now: int, detail: string): Tables {
    s.(receipts := SupersedeReceipts(s.receipts, key, but, now, detail), queue := DropQueued(s.queue, key, but))
  }

  // ------------------------------------------------------------------ admit

  datatype Admission =
    | Admitted(deduped: bool, journey: Option<string>)
    | Refused(reason: string)
    | InsertCollision

  function Lookup(journeys: map<Version, string>, v: Version): Option<string> {
    if v in journeys then Some(journeys[v]) else None
  }

  function ReceiptText(receipt: Receipt): string {
    if receipt.detail.Some? && receipt.detail.value != "" then receipt.detail.value
    else if receipt.outcome == Rejected then "rejected" else "superseded"
  }

  function NewRecord(intake: Intake, now: int): Record {
    Record(intake, VerifyPending, 0, now, now, None)
  }

  /** The watermark upsert: a later timestamp replaces the row, any other leaves it. */
  function RaiseWatermark(watermarks: map<CommentKey, Watermark>, key: CommentKey, v: Version): map<CommentKey, Watermark> {
    if key in watermarks && v.at <= watermarks[key].at then watermarks else watermarks[key := Watermark(v.at, v)]
  }

  function Admit(s: Tables, intake: Intake, now: int): (Tables, Admission) {
    var v, key := intake.version, intake.Key();
    if v in s.receipts then
      if s.receipts[v].outcome == Rejected || s.receipts[v].outcome == Superseded
      then (s, Refused(ReceiptText(s.receipts[v])))
      else (s, Admitted(true, Lookup(s.journeys, v)))
    else if key in s.watermarks && (s.watermarks[key].at > v.at || s.watermarks[key] == Watermark(v.at, v)) then
      var same := s.watermarks[key] == Watermark(v.at, v);
      (s.(receipts := s.receipts[v := Receipt(key, Rejected, now, Some(RejectionDetail(same)))]), Refused(RejectionReason(same)))
    else AdmitNew(s, intake, now)
  }

  function RejectionDetail(same: bool): string {
    if same then "already_observed" else "older_comment_version"
  }

  function RejectionReason(same: bool): string {
    if same then "semantic command version already observed" else "older comment version"
  }

  /** A version above the watermark, or beside it, is queued; above it, in place of all others. */
  function AdmitNew(s: Tables, intake: Intake, now: int): (Tables, Admission) {
    var cleared := Cleared(s, intake, now);
    if intake.version in cleared.queue || (HasJourney(intake) && intake.version in cleared.journeys) then (s, InsertCollision)
    else (Enqueue(cleared, intake, now), Admitted(false, if HasJourney(intake) then intake.journey else None))
  }

  function Cleared(s: Tables, intake: Intake, now: int): Tables {
    if intake.Key() in s.watermarks && s.watermarks[intake.Key()].at < intake.version.at
    then Supersede(s, intake.Key(), None, now, NewerVersion()) else s
  }

  /** An empty journey id counts as none. */
  predicate HasJourney(intake: Intake) {
    intake.journey.Some? && intake.journey.value != ""
  }

  function Enqueue(s: Tables, intake: Intake, now: int): Tables {
    var v, key := intake.version, intake.Key();
    s.(watermarks := RaiseWatermark(s.watermarks, key, v),
       receipts := s.receipts[v := Receipt(key, Pending, now, None)],
       journeys := if HasJourney(intake) then s.journeys[v := intake.journey.value] else s.journeys,
       queue := s.queue[v := Queued(key, NewRecord(intake, now))])
  }

  // ------------------------------------------------------------------ verification

  predicate IsCurrent(s: Tables, record: Record) {
    var key, v := record.intake.Key(), record.intake.version;
    key in s.watermarks && s.watermarks[key].at == v.at
    && (record.stage == VerifyPending || s.watermarks[key].version == v)
  }

  function MarkVerified(s: Tables, intake: Intake, now: int): (Tables, bool) {
    var key, v := intake.Key(), intake.version;
    if key in s.watermarks && s.watermarks[key].at > v.at then (s, false) else
    var marked := if key in s.watermarks && s.watermarks[key].at == v.at
      then s.(watermarks := s.watermarks[key := Watermark(v.at, v)]) else s;
    (Supersede(marked, key, Some(v), now, VerifiedSibling()), true)
  }

  // ------------------------------------------------------------------ progress

  function Write(s: Tables, v: Version, record: Record): Tables {
    if v in s.queue then s.(queue := s.queue[v := s.queue[v].(record := record)]) else s
  }

  function Advance(s: Tables, v: Version, stage: Stage, now: int, decision: string): Tables {
    if v !in s.queue then s else
    Write(s, v, s.queue[v].record.(stage := stage, attempts := 0, nextAttemptAt := now, decision := Some(decision)))
  }

  function Finish(s: Tables, v: Version, outcome: Outcome, now: int, detail: Option<string>): Tables {
    s.(receipts := if v in s.receipts
         then s.receipts[v := s.receipts[v].(outcome := outcome, observedAt := now, detail := detail)] else s.receipts,
       queue := s.queue - {v})
  }

  /** The backoff before the retry that follows `attempts` failures. */
  function Delay(attempts: int): int {
    Min(RETRY_MAX_MS, RETRY_BASE_MS * Pow2(Min(Max(0, attempts - 1), 8)))
  }

  function DeferUntil(attempts: int, now: int, requestedRetryAt: Option<int>): int {
    var bounded := if requestedRetryAt.Some? && requestedRetryAt.value != 0
      then Min(requestedRetryAt.value, now + RETRY_MAX_MS) else 0;
    Max(now + Max(1000, Delay(attempts)), bounded)
  }

  /** A note is cut to 500 characters. */
  function Cut(detail: string): string {
    detail[..Min(500, |detail|)]
  }

  /** UPDATE receipts SET observed_at, detail of a version that is still pending. */
  function Note(receipts: map<Version, Receipt>, v: Version, now: int, detail: string): map<Version, Receipt> {
    if v in receipts && receipts[v].outcome == Pending
    then receipts[v := receipts[v].(observedAt := now, detail := Some(Cut(detail)))] else receipts
  }

  function Defer(
      s: Tables, v: Version, now: int, detail: string, requestedRetryAt: Option<int>, incrementAttempts: bool): Tables
  {
    var noted := s.(receipts := Note(s.receipts, v, now, detail));
    if v !in s.queue then noted else
    var current := s.queue[v].record;
    var attempts := if incrementAttempts then current.attempts + 1 else current.attempts;
    Write(noted, v, current.(attempts := attempts, nextAttemptAt := DeferUntil(attempts, now, requestedRetryAt)))
  }

  function RetryVerification(s: Tables, v: Version, now: int, detail: string): Tables {
    var noted := s.(receipts := Note(s.receipts, v, now, detail));
    if v !in s.queue then noted else
    var current := s.queue[v].record;
    var attempts := current.attempts + 1;
    Write(noted, v, current.(stage := VerifyPending, attempts := attempts,
                             nextAttemptAt := now + Delay(attempts), decision := None))
  }

  // ------------------------------------------------------------------ retention and revisions

  function Prune(s: Tables, now: int): Tables {
    var receipts := map v | v in s.receipts
      && (s.receipts[v].outcome == Pending || s.receipts[v].observedAt > now - RETENTION_MS) :: s.receipts[v];
    s.(receipts := receipts, journeys := map v | v in s.journeys && v in receipts :: s.journeys[v])
  }

  function Floor(minimum: int, lifecycle: int, publication: int): int {
    Max(Max(0, minimum - 1), Max(lifecycle, publication))
  }

  /** The row is bumped even when the revision is refused. */
  function Allocate(s: Tables, itemKey: string, minimum: int, lifecycle: int, publication: int): (Tables, Option<int>) {
    var floor := Floor(minimum, lifecycle, publication);
    var revision := (if itemKey in s.revisions then Max(s.revisions[itemKey], floor) else floor) + 1;
    (s.(revisions := s.revisions[itemKey := revision]),
     if revision > MAX_SAFE_INTEGER || revision < minimum then None else Some(revision))
  }
}
