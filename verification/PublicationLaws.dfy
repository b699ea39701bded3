/**
 What plan acceptance and tuple mutation keep in every reachable state, and what one accepted
 call says about every later one.
 */
module PublicationLaws {
  import opened Basics
  import opened SqlOrder
  import opened Blobs
  import opened RecordTables
  import opened TupleCompletion
  import opened DirectPublication

  // ------------------------------------------------------------------ writing a whole tuple

  predicate Writes(ops: seq<Operation>, k: RecordKey) {
    exists op | op in ops :: op.key == k
  }

  /** `after` is `before` with exactly the records of `ops` replaced, all at one revision. */
  ghost predicate TupleWritten(before: Records, after: Records, ops: seq<Operation>, revision: nat, now: int) {
    && after.counter == before.counter + |ops|
    && (forall op | op in ops ::
          && ReadCanonical(after, op.key) ==
             Found(CanonicalRecord(op.content, op.digest, revision, now, op.content.None?))
          && RevisionAt(after, op.key) == revision
          && LiveDigest(after, op.key) == op.digest)
    && (forall k | !Writes(ops, k) ::
          && ReadCanonical(after, k) == ReadCanonical(before, k)
          && RevisionAt(after, k) == RevisionAt(before, k)
          && LiveDigest(after, k) == LiveDigest(before, k))
  }

  /** What one write leaves at any key: the new record at its own, the old one elsewhere. */
  lemma PutLooksLike(r: Records, op: Operation, revision: nat, stamp: Stamp, k: RecordKey)
    requires ValidOperation(op) && PutRecord(r, op, revision, stamp).Some?
    ensures var after := PutRecord(r, op, revision, stamp).value;
      && after.counter == r.counter + 1
      && (k == op.key ==>
            && ReadCanonical(after, k) == Found(CanonicalRecord(op.content, op.digest, revision, stamp.now, op.content.None?))
            && RevisionAt(after, k) == revision && LiveDigest(after, k) == op.digest)
      && (k != op.key ==>
            && ReadCanonical(after, k) == ReadCanonical(r, k)
            && RevisionAt(after, k) == RevisionAt(r, k) && LiveDigest(after, k) == LiveDigest(r, k))
  {
    hide ReadCanonical;
    PutIsAMapUpdate(r, op, revision, stamp, k);
  }

  /** The last write of a list, after the writes before it. */
  lemma LastWrite(r: Records, mid: Records, init: seq<Operation>, last: Operation, revision: nat, stamp: Stamp)
    requires TupleWritten(r, mid, init, revision, stamp.now) && PutRecord(mid, last, revision, stamp).Some?
    requires ValidOperation(last) && forall op | op in init :: op.key != last.key
    ensures TupleWritten(r, PutRecord(mid, last, revision, stamp).value, init + [last], revision, stamp.now)
  {
    hide ReadCanonical, RevisionAt, LiveDigest, PutRecord;
    PutLooksLike(mid, last, revision, stamp, last.key);
    var after, ops := PutRecord(mid, last, revision, stamp).value, init + [last];
    forall k ensures k != last.key ==>
      ReadCanonical(after, k) == ReadCanonical(mid, k) && RevisionAt(after, k) == RevisionAt(mid, k)
      && LiveDigest(after, k) == LiveDigest(mid, k)
    {
      PutLooksLike(mid, last, revision, stamp, k);
    }
    assert forall k :: Writes(ops, k) <==> Writes(init, k) || k == last.key;
  }

  lemma {:induction false} PutAllWrites(r: Records, ops: seq<Operation>, revision: nat, stamp: Stamp)
    requires DistinctSections(ops) && forall op | op in ops :: ValidOperation(op)
    requires r.counter <= MAX_SAFE_INTEGER
    ensures PutAll(r, ops, revision, stamp).Some? <==> r.counter + |ops| <= MAX_SAFE_INTEGER
    ensures PutAll(r, ops, revision, stamp).Some? ==>
      TupleWritten(r, PutAll(r, ops, revision, stamp).value, ops, revision, stamp.now)
  {
    hide RevisionAt, LiveDigest, ReadCanonical;
    if ops != [] {
      var init, last := ops[..|ops|-1], ops[|ops|-1];
      assert ops == init + [last];
      PutAllWrites(r, init, revision, stamp);
      if PutAll(r, ops, revision, stamp).Some? {
        LastWrite(r, PutAll(r, init, revision, stamp).value, init, last, revision, stamp);
      }
    }
  }

  // ------------------------------------------------------------------ the invariant

  ghost predicate Live(r: Records, repo: string, section: Section, id: RecordId) {
    var k := RecordKey(repo, section, id);
    k in r.canonical && !r.canonical[k].deleted
  }

  /** No item is both open and closed. */
  ghost predicate Exclusive(r: Records) {
    forall repo, id :: !(Live(r, repo, Items, id) && Live(r, repo, Closed, id))
  }

  ghost predicate StoreInvariant(s: Store) {
    Coherent(s.records) && Exclusive(s.records)
  }

  /** A live primary is written together with a deletion of the other one. */
  ghost predicate SettlesPrimaries(ops: seq<Operation>) {
    forall a | a in ops && PrimaryWrite(a) ::
      exists b :: b in ops && b.content.None? && b.key.section == (if a.key.section == Items then Closed else Items)
  }

  lemma CompletionSummary(ops: seq<Operation>)
    requires ValidTuple(ops)
    ensures CompleteTuple(ops).Completed? <==> !BothPrimariesLive(ops)
    ensures CompleteTuple(ops).Completed? ==>
      var all := CompleteTuple(ops).operations;
      ValidTuple(all) && all[0] == ops[0] && SettlesPrimaries(all)
  {
    CompletionLaw(ops);
    if CompleteTuple(ops).Completed? {
      CompletionSettlesPrimaries(ops);
    }
  }

  lemma CompletionSettlesPrimaries(ops: seq<Operation>)
    requires ValidTuple(ops) && CompleteTuple(ops).Completed?
    ensures SettlesPrimaries(CompleteTuple(ops).operations)
  {
    hide ValidTuple, CompleteTuple, OnlyAddsDeletes, BothPrimariesLive;
    ValidIsDistinct(ops);
    CompletionLaw(ops);
    var all := CompleteTuple(ops).operations;
    OnlyDeletesAdded(ops, all);
    forall a | a in all && PrimaryWrite(a)
      ensures exists b :: b in all && b.content.None? && b.key.section == (if a.key.section == Items then Closed else Items)
    {
      assert a in ops && Settles(all, a);
      var b :| b in all && b.key.section == (if a.key.section == Items then Closed else Items);
      if b in ops && PrimaryWrite(b) { BothWritten(ops, a, b); }
    }
  }

  lemma OnlyDeletesAdded(ops: seq<Operation>, all: seq<Operation>)
    requires OnlyAddsDeletes(ops, all)
    ensures forall op | op in all :: op in ops || op.content.None?
  {
  }

  lemma BothWritten(ops: seq<Operation>, a: Operation, b: Operation)
    requires a in ops && b in ops && PrimaryWrite(a) && PrimaryWrite(b) && a.key.section != b.key.section
    ensures BothPrimariesLive(ops)
  {
  }

  lemma FourCoverAll(ops: seq<Operation>)
    requires ValidTuple(ops) && |ops| == 4
    ensures forall section | section != Commits :: section in SectionsOf(ops)
  {
    hide SectionsOf, DistinctSections, ValidTuple;
    ValidIsDistinct(ops);
    SectionCount(ops);
    TupleSections(ops);
    var all := {Items, Closed, Plans, DecisionPackets};
    assert |all| == 4;
    assert all == SectionsOf(ops) + (all - SectionsOf(ops));
  }

  lemma TupleSections(ops: seq<Operation>)
    requires ValidTuple(ops)
    ensures SectionsOf(ops) <= {Items, Closed, Plans, DecisionPackets}
  {
    hide DistinctSections;
  }

  lemma MutationCoversTuple(m: Mutation)
    requires ValidMutation(m)
    ensures forall section :: section != Commits ==> Writes(m.operations, RecordKey(m.repo, section, m.id))
  {
    hide BothLive, ValidOperation, DistinctSections;
    FourCoverAll(m.operations);
    forall section | section != Commits ensures Writes(m.operations, RecordKey(m.repo, section, m.id)) {
      assert section in SectionsOf(m.operations);
      var op :| op in m.operations && op.key.section == section;
      assert op.key == RecordKey(m.repo, section, m.id);
    }
  }

  lemma MutationSettlesPrimaries(m: Mutation)
    requires ValidMutation(m)
    ensures SettlesPrimaries(m.operations)
    ensures forall section :: section != Commits ==> Writes(m.operations, RecordKey(m.repo, section, m.id))
  {
    hide ValidTuple;
    MutationCoversTuple(m);
    var ops := m.operations;
    forall a | a in ops && PrimaryWrite(a)
      ensures exists b :: b in ops && b.content.None? && b.key.section == (if a.key.section == Items then Closed else Items)
    {
      var opposite := if a.key.section == Items then Closed else Items;
      assert Writes(ops, RecordKey(m.repo, opposite, m.id));
      var b :| b in ops && b.key.section == opposite;
      assert b.content.None?;
    }
  }

  lemma LiveIsReadable(r: Records, k: RecordKey)
    requires Coherent(r)
    ensures (k in r.canonical && !r.canonical[k].deleted)
      <==> (ReadCanonical(r, k).Found? && ReadCanonical(r, k).record.content.Some?)
  {
    if k in r.canonical { assert RowCoherent(r, k); }
  }

  lemma TupleBasics(r: Records, ops: seq<Operation>)
    requires Coherent(r) && ValidTuple(ops)
    ensures ops != [] && DistinctSections(ops) && r.counter <= MAX_SAFE_INTEGER
    ensures forall op | op in ops :: ValidOperation(op)
  {
  }

  lemma TupleWriteKeepsInvariant(r: Records, ops: seq<Operation>, revision: nat, stamp: Stamp)
    requires Coherent(r) && Exclusive(r) && ValidTuple(ops) && SettlesPrimaries(ops)
    requires PutAll(r, ops, revision, stamp).Some?
    ensures var after := PutAll(r, ops, revision, stamp).value; Coherent(after) && Exclusive(after) && Advances(r, after)
  {
    hide Coherent, Advances, PutAll, ReadCanonical, RevisionAt, LiveDigest;
    var after := PutAll(r, ops, revision, stamp).value;
    TupleBasics(r, ops);
    PutAllCoherent(r, ops, revision, stamp);
    PutAllWrites(r, ops, revision, stamp);
    forall repo, id ensures !(Live(after, repo, Items, id) && Live(after, repo, Closed, id)) {
      var open, closed := RecordKey(repo, Items, id), RecordKey(repo, Closed, id);
      LiveIsReadable(r, open); LiveIsReadable(r, closed);
      LiveIsReadable(after, open); LiveIsReadable(after, closed);
      assert !(Live(r, repo, Items, id) && Live(r, repo, Closed, id));
      WriteSettles(ops, open, closed);
      WriteSettles(ops, closed, open);
    }
  }

  /** If `ops` makes `k` live, it deletes the other primary of the same item. */
  lemma WriteSettles(ops: seq<Operation>, k: RecordKey, other: RecordKey)
    requires ValidTuple(ops) && SettlesPrimaries(ops)
    requires IsPrimary(k.section) && other == k.(section := if k.section == Items then Closed else Items)
    ensures forall a | a in ops && a.key == k && a.content.Some? ::
      exists b :: b in ops && b.key == other && b.content.None?
  {
    forall a | a in ops && a.key == k && a.content.Some?
      ensures exists b :: b in ops && b.key == other && b.content.None?
    {
      assert PrimaryWrite(a);
      var b :| b in ops && b.content.None? && b.key.section == other.section;
      assert b.key == other;
    }
  }

  // ------------------------------------------------------------------ the common write

  /**
   Writing a tuple succeeds exactly while revisions remain; it then stamps every operation with
   one revision above all the tuple ever held.
   */
  lemma WriteTupleLaw(r: Records, minimum: nat, ops: seq<Operation>, stamp: Stamp)
    requires Coherent(r) && Exclusive(r) && ValidTuple(ops) && SettlesPrimaries(ops)
    ensures var written := WriteTuple(r, minimum, ops, stamp);
      && (written.Some? <==>
            TupleRevision(r, ops[0].key.repo, ops[0].key.id) < MAX_SAFE_INTEGER && r.counter + |ops| <= MAX_SAFE_INTEGER)
      && (written.Some? ==>
            var (after, revision) := written.value;
            && minimum <= revision
            && (forall section :: RevisionAt(r, ops[0].key.(section := section)) < revision)
            && TupleWritten(r, after, ops, revision, stamp.now)
            && Coherent(after) && Exclusive(after) && Advances(r, after))
  {
    hide Coherent, Exclusive, TupleWritten, SettlesPrimaries, Advances, ValidTuple, TupleRevision, RevisionAt, PutAll;
    TupleBasics(r, ops);
    var revision := Max(minimum, TupleRevision(r, ops[0].key.repo, ops[0].key.id) + 1);
    PutAllWrites(r, ops, revision, stamp);
    RevisionsBounded(r, ops[0].key);
    if PutAll(r, ops, revision, stamp).Some? {
      TupleWriteKeepsInvariant(r, ops, revision, stamp);
    }
  }

  lemma RevisionsBounded(r: Records, k: RecordKey)
    requires Coherent(r)
    ensures forall section :: RevisionAt(r, k.(section := section)) <= TupleRevision(r, k.repo, k.id)
  {
    forall section ensures RevisionAt(r, k.(section := section)) <= TupleRevision(r, k.repo, k.id) {
      var other := k.(section := section);
      if other in r.canonical { assert RowCoherent(r, other); }
    }
  }

  // ------------------------------------------------------------------ acceptance

  /** What an accepted plan did: its completed tuple, at one revision above all earlier ones. */
  ghost predicate PlanApplied(s: Store, plan: Plan, completion: Completion, now: int, after: Store, revision: nat) {
    && completion.Completed? && completion.operations != []
    && plan.revision <= revision
    && (forall section :: RevisionAt(s.records, completion.operations[0].key.(section := section)) < revision)
    && TupleWritten(s.records, after.records, completion.operations, revision, now)
  }

  lemma AdvancesReflexive(r: Records)
    ensures Advances(r, r)
  {
  }

  lemma AcceptCompletedLaw(s: Store, plan: Plan, completion: Completion, now: int)
    requires StoreInvariant(s)
    requires completion.Completed? ==> ValidTuple(completion.operations) && SettlesPrimaries(completion.operations)
    ensures var (after, outcome) := AcceptCompleted(s, plan, completion, now);
      && after.receipts == s.receipts && (outcome.InvalidTuple? <==> !completion.Completed?)
      && (outcome.InvalidTuple? || outcome.ConflictingRetry? || outcome.RevisionExhausted? ==> after == s)
      && (outcome.Deduped? || outcome.Superseded? ==> after.records == s.records)
      && StoreInvariant(after) && Advances(s.records, after.records)
      && (outcome.Accepted? ==> PlanApplied(s, plan, completion, now, after, outcome.revision))
  {
    hide Coherent, Exclusive, TupleWritten, SettlesPrimaries, Advances, ValidTuple, WriteTuple, PrunePlans,
      BodyOf, NewerKnown, RowOf, RevisionAt;
    AdvancesReflexive(s.records);
    if completion.Completed? {
      TupleBasics(s.records, completion.operations);
      WriteTupleLaw(s.records, plan.revision, completion.operations, Stamp(plan.targetKey, plan.claimGeneration, now));
    }
  }

  /**
   Every outcome of a plan: only an accepted plan touches a record, index row or counter, a
   refusal leaves the whole store alone, and the only invalid tuple is one with two live primaries.
   */
  lemma AcceptLaw(s: Store, plan: Plan, now: int)
    requires StoreInvariant(s) && ValidPlan(plan)
    ensures var (after, outcome) := Accept(s, plan, now);
      && StoreInvariant(after) && Advances(s.records, after.records) && after.receipts == s.receipts
      && (outcome.InvalidTuple? <==> BothPrimariesLive(plan.operations))
      && (outcome.InvalidTuple? || outcome.ConflictingRetry? || outcome.RevisionExhausted? ==> after == s)
      && (outcome.Deduped? || outcome.Superseded? ==> after.records == s.records)
      && (outcome.Accepted? ==> PlanApplied(s, plan, CompleteTuple(plan.operations), now, after, outcome.revision))
  {
    hide AcceptCompleted, Coherent, Exclusive, TupleWritten, SettlesPrimaries, ValidTuple, CompleteTuple,
      BothPrimariesLive, PlanApplied;
    TupleBasics(s.records, plan.operations);
    CompletionSummary(plan.operations);
    AcceptCompletedLaw(s, plan, CompleteTuple(plan.operations), now);
  }

  // ------------------------------------------------------------------ mutation

  ghost predicate RoomToMutate(s: Store, m: Mutation) {
    TupleRevision(s.records, m.repo, m.id) < MAX_SAFE_INTEGER && s.records.counter + 4 <= MAX_SAFE_INTEGER
  }

  /**
   A mutation without a retained receipt is applied exactly when every section still has its
   expected digest (and revisions remain); then all four sections hold the new content at one
   revision above all earlier ones. Otherwise nothing changes. With a retained receipt the
   recorded revision is returned, or the delivery is refused, and no record changes.
   */
  lemma MutateLaw(s: Store, m: Mutation, now: int)
    requires StoreInvariant(s) && ValidMutation(m)
    ensures var (after, outcome) := Mutate(s, m, now);
      var receipts := PruneReceipts(s.receipts, now);
      && StoreInvariant(after) && Advances(s.records, after.records) && after.plans == s.plans
      && (m.deliveryId !in receipts ==>
            && (outcome.Applied? <==> ExpectationsMet(s.records, m) && RoomToMutate(s, m))
            && (outcome.Changed? <==> !ExpectationsMet(s.records, m))
            && !outcome.Repeated? && !outcome.BoundToAnotherPayload?)
      && (m.deliveryId in receipts ==>
            outcome == if receipts[m.deliveryId].fingerprint == m.fingerprint
                       then Repeated(receipts[m.deliveryId].revision) else BoundToAnotherPayload)
      && (outcome.Repeated? ==> after.records == s.records)
      && (!outcome.Applied? && !outcome.Repeated? ==> after == s)
      && (outcome.Applied? ==>
            && TupleWritten(s.records, after.records, m.operations, outcome.revision, now)
            && (forall section | section != Commits ::
                  && RevisionAt(s.records, RecordKey(m.repo, section, m.id)) < outcome.revision
                  && RevisionAt(after.records, RecordKey(m.repo, section, m.id)) == outcome.revision)
            && after.receipts == receipts[m.deliveryId := Receipt(m.fingerprint, outcome.revision, now)])
  {
    hide Coherent, Exclusive, SettlesPrimaries, WriteTuple, PruneReceipts, ExpectationsMet, CurrentTuple, ValidTuple;
    MutationSettlesPrimaries(m);
    WriteTupleLaw(s.records, 0, m.operations, Stamp(m.key, 1, now));
    forall section | section != Commits
      ensures Writes(m.operations, RecordKey(m.repo, section, m.id))
      ensures RecordKey(m.repo, section, m.id) == m.operations[0].key.(section := section)
    {
    }
  }

  /** The expectations a refused caller can read off the reported tuple. */
  function ExpectationsFrom(state: TupleState): map<Section, Option<string>> {
    map[Items := LiveOnly(state.items), Closed := LiveOnly(state.closed),
        Plans := LiveOnly(state.plans), DecisionPackets := LiveOnly(state.packets)]
  }

  function LiveOnly(record: CanonicalRecord): Option<string> {
    if record.deleted then None else record.digest
  }

  lemma DigestAgrees(r: Records, k: RecordKey)
    requires Coherent(r) && ReadCanonical(r, k).Found?
    ensures LiveDigest(r, k) == LiveOnly(ReadCanonical(r, k).record)
  {
    assert RowCoherent(r, k);
  }

  /** The reported state is what the next comparison will be made against. */
  lemma ReportedDigestsAreCurrent(r: Records, repo: string, id: RecordId, section: Section)
    requires Coherent(r) && CurrentTuple(r, repo, id).Some? && section != Commits
    ensures var expected := ExpectationsFrom(CurrentTuple(r, repo, id).value);
      section in expected && expected[section] == LiveDigest(r, RecordKey(repo, section, id))
  {
    hide Coherent, LiveOnly, LiveDigest, ReadCanonical;
    DigestAgrees(r, RecordKey(repo, section, id));
  }

  /** The state reported with a conflict is actionable: a resubmission that expects it is applied. */
  lemma ConflictStateIsActionable(s: Store, m: Mutation, now: int, again: Mutation, later: int)
    requires StoreInvariant(s) && ValidMutation(m) && ValidMutation(again)
    requires Mutate(s, m, now).1 == Changed(CurrentTuple(s.records, m.repo, m.id))
    requires CurrentTuple(s.records, m.repo, m.id).Some?
    requires again.repo == m.repo && again.id == m.id && RoomToMutate(s, again)
    requires again.expected == ExpectationsFrom(CurrentTuple(s.records, m.repo, m.id).value)
    requires again.deliveryId !in s.receipts
    ensures Mutate(Mutate(s, m, now).0, again, later).1.Applied?
  {
    MutateLaw(s, m, now);
    forall op | op in again.operations ensures LiveDigest(s.records, op.key) == Expected(again, op.key.section) {
      assert ValidOperation(op) && op.key == RecordKey(m.repo, op.key.section, m.id);
      ReportedDigestsAreCurrent(s.records, m.repo, m.id, op.key.section);
    }
    MutateLaw(s, again, later);
  }

  // ------------------------------------------------------------------ runs

  datatype Step =
    | AcceptStep(plan: Plan, now: int)
    | MutateStep(mutation: Mutation, now: int)
    | CommitStep(repo: string, inputs: seq<CommitInput>, now: int)

  predicate ValidStep(step: Step) {
    match step
    case AcceptStep(plan, _) => ValidPlan(plan)
    case MutateStep(mutation, _) => ValidMutation(mutation)
    case CommitStep(_, _, _) => true
  }

  predicate ValidSteps(steps: seq<Step>) {
    forall step | step in steps :: ValidStep(step)
  }

  function Next(s: Store, step: Step): Store
    requires ValidStep(step)
  {
    match step
    case AcceptStep(plan, now) => Accept(s, plan, now).0
    case MutateStep(mutation, now) => Mutate(s, mutation, now).0
    case CommitStep(repo, inputs, now) =>
      var publication := PublishCommits(s.records, repo, inputs, now);
      if publication.Published? then s.(records := publication.records) else s
  }

  function Run(s: Store, steps: seq<Step>): Store
    requires ValidSteps(steps)
  {
    if steps == [] then s else Next(Run(s, steps[..|steps|-1]), steps[|steps|-1])
  }

  lemma NextLaw(s: Store, step: Step)
    requires StoreInvariant(s) && ValidStep(step)
    ensures StoreInvariant(Next(s, step))
    ensures Advances(s.records, Next(s, step).records)
    ensures forall k :: RevisionAt(s.records, k) <= RevisionAt(Next(s, step).records, k)
  {
    match step
    case AcceptStep(plan, now) => AcceptKeepsRevisions(s, plan, now);
    case MutateStep(m, now) => MutateKeepsRevisions(s, m, now);
    case CommitStep(repo, inputs, now) => CommitsKeepRevisions(s.records, repo, inputs, now);
  }

  lemma CommitsKeepRevisions(r: Records, repo: string, inputs: seq<CommitInput>, now: int)
    requires Coherent(r) && Exclusive(r)
    ensures var publication := PublishCommits(r, repo, inputs, now);
      publication.Published? ==>
        && Coherent(publication.records) && Exclusive(publication.records) && Advances(r, publication.records)
        && (forall k :: RevisionAt(r, k) <= RevisionAt(publication.records, k))
  {
    if PublishCommits(r, repo, inputs, now).Published? {
      PublishCommitsCoherent(r, repo, inputs, now);
      CommitsLeaveCanonical(r, repo, inputs, now);
      assert forall repo', section, id ::
        Live(PublishCommits(r, repo, inputs, now).records, repo', section, id) == Live(r, repo', section, id);
    }
  }

  lemma AcceptKeepsRevisions(s: Store, plan: Plan, now: int)
    requires StoreInvariant(s) && ValidPlan(plan)
    ensures var after := Accept(s, plan, now).0;
      && StoreInvariant(after) && Advances(s.records, after.records)
      && (forall k :: RevisionAt(s.records, k) <= RevisionAt(after.records, k))
  {
    AcceptLaw(s, plan, now);
    CompletionSummary(plan.operations);
    var (after, outcome) := Accept(s, plan, now);
    if outcome.Accepted? {
      RevisionsOfTuple(s.records, after.records, CompleteTuple(plan.operations).operations, outcome.revision, now);
    }
  }

  lemma MutateKeepsRevisions(s: Store, m: Mutation, now: int)
    requires StoreInvariant(s) && ValidMutation(m)
    ensures var after := Mutate(s, m, now).0;
      && StoreInvariant(after) && Advances(s.records, after.records)
      && (forall k :: RevisionAt(s.records, k) <= RevisionAt(after.records, k))
  {
    MutateLaw(s, m, now);
    var (after, outcome) := Mutate(s, m, now);
    if outcome.Applied? {
      forall section ensures m.operations[0].key.(section := section) == RecordKey(m.repo, section, m.id) {}
      RevisionsOfTuple(s.records, after.records, m.operations, outcome.revision, now);
    }
  }

  lemma RevisionsOfTuple(r: Records, after: Records, ops: seq<Operation>, revision: nat, now: int)
    requires ValidTuple(ops) && TupleWritten(r, after, ops, revision, now)
    requires forall section | section != Commits :: RevisionAt(r, ops[0].key.(section := section)) < revision
    ensures forall k :: RevisionAt(r, k) <= RevisionAt(after, k)
  {
    forall k ensures RevisionAt(r, k) <= RevisionAt(after, k) {
      if Writes(ops, k) {
        var op :| op in ops && op.key == k;
        assert k == ops[0].key.(section := k.section) && ValidOperation(op);
      }
    }
  }

  lemma {:induction false} CommitsLeaveCanonical(r: Records, repo: string, inputs: seq<CommitInput>, now: int)
    requires PublishCommits(r, repo, inputs, now).Published?
    ensures PublishCommits(r, repo, inputs, now).records.canonical == r.canonical
    ensures PublishCommits(r, repo, inputs, now).records.chunks == r.chunks
  {
    if inputs != [] {
      CommitsLeaveCanonical(r, repo, inputs[..|inputs|-1], now);
    }
  }

  /** Coherence and exclusivity hold, and revisions never fall, over every run. */
  lemma {:induction false} RunLaw(s: Store, steps: seq<Step>)
    requires StoreInvariant(s) && ValidSteps(steps)
    ensures StoreInvariant(Run(s, steps))
    ensures Advances(s.records, Run(s, steps).records)
    ensures forall k :: RevisionAt(s.records, k) <= RevisionAt(Run(s, steps).records, k)
  {
    if steps != [] {
      var init, last := steps[..|steps|-1], steps[|steps|-1];
      RunLaw(s, init);
      NextLaw(Run(s, init), last);
      AdvancesTransitive(s.records, Run(s, init).records, Run(s, steps).records);
    }
  }

  /** In particular in every state reachable from the empty store. */
  lemma Reachable(steps: seq<Step>)
    requires ValidSteps(steps)
    ensures StoreInvariant(Run(EMPTY_STORE, steps))
  {
    hide Run, Next, Advances, RevisionAt;
    RunLaw(EMPTY_STORE, steps);
  }

  /** The revision a step stamped on the tuple (repo, id), if it wrote it. */
  function StampedRevision(s: Store, step: Step, repo: string, id: RecordId): Option<nat>
    requires ValidStep(step)
  {
    match step
    case AcceptStep(plan, now) =>
      var outcome := Accept(s, plan, now).1;
      if outcome.Accepted? && plan.operations[0].key.repo == repo && plan.operations[0].key.id == id
      then Some(outcome.revision) else None
    case MutateStep(m, now) =>
      var outcome := Mutate(s, m, now).1;
      if outcome.Applied? && m.repo == repo && m.id == id then Some(outcome.revision) else None
    case CommitStep(_, _, _) => None
  }

  /** A stamped revision is above all the tuple held, and some section now holds it. */
  lemma StampIsFresh(s: Store, step: Step, repo: string, id: RecordId)
    requires StoreInvariant(s) && ValidStep(step) && StampedRevision(s, step, repo, id).Some?
    ensures var revision := StampedRevision(s, step, repo, id).value;
      && (forall section | section != Commits :: RevisionAt(s.records, RecordKey(repo, section, id)) < revision)
      && (exists section | section != Commits :: RevisionAt(Next(s, step).records, RecordKey(repo, section, id)) == revision)
  {
    match step
    case AcceptStep(plan, now) =>
      AcceptLaw(s, plan, now);
      CompletionSummary(plan.operations);
      var first := CompleteTuple(plan.operations).operations[0];
      assert first in CompleteTuple(plan.operations).operations;
      assert first.key == RecordKey(repo, first.key.section, id) && ValidOperation(first);
      forall section ensures first.key.(section := section) == RecordKey(repo, section, id) {}
    case MutateStep(m, now) =>
      MutateLaw(s, m, now);
      assert RevisionAt(Next(s, step).records, RecordKey(repo, Items, id)) == StampedRevision(s, step, repo, id).value;
  }

  /** Two writes of one tuple, by either path and however far apart, carry increasing revisions. */
  lemma TupleRevisionsStrictlyIncrease(s: Store, first: Step, between: seq<Step>, second: Step, repo: string, id: RecordId)
    requires StoreInvariant(s) && ValidStep(first) && ValidSteps(between) && ValidStep(second)
    requires StampedRevision(s, first, repo, id).Some?
    requires StampedRevision(Run(Next(s, first), between), second, repo, id).Some?
    ensures StampedRevision(s, first, repo, id).value
      < StampedRevision(Run(Next(s, first), between), second, repo, id).value
  {
    StampIsFresh(s, first, repo, id);
    NextLaw(s, first);
    RunLaw(Next(s, first), between);
    StampIsFresh(Run(Next(s, first), between), second, repo, id);
  }

  // ------------------------------------------------------------------ retained receipts

  /** Every step is earlier than the moment a receipt taken at `t` may be pruned. */
  predicate WithinRetention(steps: seq<Step>, t: int) {
    forall step | step in steps :: step.now < t + RETENTION_MS
  }

  lemma PlanOrderTotal(plans: map<PlanKey, PlanRow>)
    ensures TotalOn(plans.Keys, PlanOrder(plans))
  {
    TextOrderTotal();
  }

  /** Settled plan receipts that are a week old. */
  function OldPlans(plans: map<PlanKey, PlanRow>, now: int): set<PlanKey> {
    set k | k in plans && plans[k].updatedAt + 7 * 24 * 3600 * 1000 <= now
            && plans[k].state != Pending && plans[k].state != Committing && plans[k].state != Retryable
  }

  /** Older, or as old and before it by fence and revision. */
  predicate PrunedBefore(plans: map<PlanKey, PlanRow>, a: PlanKey, b: PlanKey)
    requires a in plans && b in plans
  {
    plans[a].updatedAt < plans[b].updatedAt
    || (plans[a].updatedAt == plans[b].updatedAt
        && (TextBefore(a.fence, b.fence) || (a.fence == b.fence && a.revision < b.revision)))
  }

  /** Pruning deletes min(256, eligible) plan receipts, settled ones past retention, the oldest. */
  lemma PrunePlansLaw(plans: map<PlanKey, PlanRow>, now: int)
    ensures var kept, eligible := PrunePlans(plans, now), OldPlans(plans, now);
      && (forall k | k in kept :: k in plans && kept[k] == plans[k])
      && (forall k | k in plans && k !in eligible :: k in kept)
      && |plans.Keys - kept.Keys| == Min(256, |eligible|)
      && (forall gone, left | gone in plans && gone !in kept && left in kept && left in eligible ::
            PrunedBefore(plans, gone, left))
  {
    hide FirstRows, PrunablePlans, OldPlans, PlanOrder, PrunedBefore, TotalOn;
    var order := PlanOrder(plans);
    PrunableIsOld(plans, now);
    PlanOrderTotal(plans);
    TotalOnSubset(plans.Keys, PrunablePlans(plans, now), order);
    LimitedDelete(plans, PrunablePlans(plans, now), order, PRUNE_LIMIT);
    forall a, b | a in plans && b in plans && order(a, b) ensures PrunedBefore(plans, a, b) { PlanOrderShows(plans, a, b); }
  }

  lemma PrunableIsOld(plans: map<PlanKey, PlanRow>, now: int)
    ensures PrunablePlans(plans, now) == OldPlans(plans, now) && OldPlans(plans, now) <= plans.Keys
  {
  }

  lemma PlanOrderShows(plans: map<PlanKey, PlanRow>, a: PlanKey, b: PlanKey)
    requires a in plans && b in plans && PlanOrder(plans)(a, b)
    ensures PrunedBefore(plans, a, b)
  {
  }

  /** Deliveries received a week ago. */
  function OldReceipts(receipts: map<string, Receipt>, now: int): set<string> {
    set d | d in receipts && receipts[d].receivedAt + 7 * 24 * 3600 * 1000 <= now
  }

  /** Received earlier, or at the same time and before it by id. */
  predicate ReceivedBefore(receipts: map<string, Receipt>, a: string, b: string)
    requires a in receipts && b in receipts
  {
    receipts[a].receivedAt < receipts[b].receivedAt
    || (receipts[a].receivedAt == receipts[b].receivedAt && TextBefore(a, b))
  }

  /** Pruning deletes min(256, eligible) delivery receipts past retention, the oldest. */
  lemma PruneReceiptsLaw(receipts: map<string, Receipt>, now: int)
    ensures var kept, eligible := PruneReceipts(receipts, now), OldReceipts(receipts, now);
      && (forall d | d in kept :: d in receipts && kept[d] == receipts[d])
      && (forall d | d in receipts && d !in eligible :: d in kept)
      && |receipts.Keys - kept.Keys| == Min(256, |eligible|)
      && (forall gone, left | gone in receipts && gone !in kept && left in kept && left in eligible ::
            ReceivedBefore(receipts, gone, left))
  {
    hide FirstRows, PrunableReceipts, OldReceipts, ByTimeThenKey, ReceivedBefore, TotalOn;
    var order := ByTimeThenKey(ReceiptTimes(receipts));
    PrunableIsReceipt(receipts, now);
    ByTimeThenKeyTotal(ReceiptTimes(receipts));
    TotalOnSubset(receipts.Keys, PrunableReceipts(receipts, now), order);
    LimitedDelete(receipts, PrunableReceipts(receipts, now), order, PRUNE_LIMIT);
    forall a, b | a in receipts && b in receipts && order(a, b) ensures ReceivedBefore(receipts, a, b) {
      ReceiptOrderShows(receipts, a, b);
    }
  }

  lemma PrunableIsReceipt(receipts: map<string, Receipt>, now: int)
    ensures PrunableReceipts(receipts, now) <= ReceiptTimes(receipts).Keys == receipts.Keys
    ensures PrunableReceipts(receipts, now) == OldReceipts(receipts, now)
  {
  }

  lemma ReceiptOrderShows(receipts: map<string, Receipt>, a: string, b: string)
    requires a in receipts && b in receipts && ByTimeThenKey(ReceiptTimes(receipts))(a, b)
    ensures ReceivedBefore(receipts, a, b)
  {
  }

  lemma FreshPlanKept(plans: map<PlanKey, PlanRow>, now: int, key: PlanKey)
    requires key in plans && now < plans[key].updatedAt + RETENTION_MS
    ensures key in PrunePlans(plans, now) && PrunePlans(plans, now)[key] == plans[key]
  {
  }

  lemma AcceptRetainsPlan(s: Store, plan: Plan, completion: Completion, now: int, key: PlanKey)
    requires completion.Completed? ==> completion.operations != []
    requires key in s.plans && Settled(s.plans[key].state) && now < s.plans[key].updatedAt + RETENTION_MS
    ensures var after := AcceptCompleted(s, plan, completion, now).0;
      key in after.plans && after.plans[key] == s.plans[key]
  {
    FreshPlanKept(s.plans, now, key);
  }

  lemma StepRetainsPlan(s: Store, step: Step, key: PlanKey)
    requires ValidStep(step) && key in s.plans && Settled(s.plans[key].state)
    requires step.now < s.plans[key].updatedAt + RETENTION_MS
    ensures key in Next(s, step).plans && Next(s, step).plans[key] == s.plans[key]
  {
    match step
    case AcceptStep(plan, now) => AcceptRetainsPlan(s, plan, CompleteTuple(plan.operations), now, key);
    case MutateStep(_, _) =>
    case CommitStep(_, _, _) =>
  }

  lemma {:induction false} RunRetainsPlan(s: Store, steps: seq<Step>, key: PlanKey)
    requires ValidSteps(steps) && key in s.plans && Settled(s.plans[key].state)
    requires WithinRetention(steps, s.plans[key].updatedAt)
    ensures key in Run(s, steps).plans && Run(s, steps).plans[key] == s.plans[key]
  {
    if steps != [] {
      RunRetainsPlan(s, steps[..|steps|-1], key);
      StepRetainsPlan(Run(s, steps[..|steps|-1]), steps[|steps|-1], key);
    }
  }

  /** A settled receipt decides every further plan of its fence up to its own revision. */
  lemma SettledReceiptDecides(s: Store, plan: Plan, completion: Completion, now: int, key: PlanKey)
    requires completion.Completed? ==> completion.operations != []
    requires key in s.plans && Settled(s.plans[key].state) && now < s.plans[key].updatedAt + RETENTION_MS
    requires plan.fenceKey == key.fence
    ensures var (after, outcome) := AcceptCompleted(s, plan, completion, now);
      && (plan.revision <= key.revision ==> !outcome.Accepted?)
      && (plan.revision == key.revision && completion.Completed? ==>
            && (s.plans[key].body != BodyOf(plan) ==> outcome == ConflictingRetry && after == s)
            && (s.plans[key].body == BodyOf(plan) ==>
                  after.records == s.records && outcome == (if s.plans[key].state.SupersededPlan? then Superseded else Deduped)))
  {
    FreshPlanKept(s.plans, now, key);
    if plan.revision < key.revision {
      assert key in PrunePlans(s.plans, now) - {PlanKey(plan.fenceKey, plan.revision)};
    }
  }

  lemma AcceptedReceipt(s: Store, plan: Plan, completion: Completion, t: int)
    requires completion.Completed? ==> completion.operations != []
    requires AcceptCompleted(s, plan, completion, t).1.Accepted?
    ensures var key, after := PlanKey(plan.fenceKey, plan.revision), AcceptCompleted(s, plan, completion, t).0;
      && key in after.plans && after.plans[key].state == PublishedPlan
      && after.plans[key].updatedAt == t && after.plans[key].body == BodyOf(plan)
  {
  }

  /** While its receipt is retained, an accepted plan is followed only by higher accepted revisions. */
  lemma AcceptedRevisionsIncrease(s: Store, plan: Plan, t: int, between: seq<Step>, later: Plan, now: int)
    requires ValidPlan(plan) && ValidPlan(later) && ValidSteps(between)
    requires Accept(s, plan, t).1.Accepted? && later.fenceKey == plan.fenceKey
    requires WithinRetention(between, t) && now < t + RETENTION_MS
    requires Accept(Run(Accept(s, plan, t).0, between), later, now).1.Accepted?
    ensures plan.revision < later.revision
  {
    AcceptedReceipt(s, plan, CompleteTuple(plan.operations), t);
    RunRetainsPlan(Accept(s, plan, t).0, between, PlanKey(plan.fenceKey, plan.revision));
    SettledReceiptDecides(Run(Accept(s, plan, t).0, between), later, CompleteTuple(later.operations), now,
                          PlanKey(plan.fenceKey, plan.revision));
  }

  /**
   Redelivering a settled plan within retention, even under another claim generation, changes no
   record, index row or counter; a different plan at the same revision is refused outright.
   */
  lemma RedeliveryChangesNothing(s: Store, plan: Plan, t: int, between: seq<Step>, again: Plan, now: int)
    requires ValidPlan(plan) && ValidPlan(again) && ValidSteps(between)
    requires Accept(s, plan, t).1.Accepted?
    requires again.fenceKey == plan.fenceKey && again.revision == plan.revision
    requires WithinRetention(between, t) && now < t + RETENTION_MS
    requires !BothPrimariesLive(again.operations)
    ensures var store := Run(Accept(s, plan, t).0, between);
      var (after, outcome) := Accept(store, again, now);
      && (BodyOf(again) == BodyOf(plan) ==> outcome == Deduped && after.records == store.records)
      && (BodyOf(again) != BodyOf(plan) ==> outcome == ConflictingRetry && after == store)
  {
    AcceptedReceipt(s, plan, CompleteTuple(plan.operations), t);
    RunRetainsPlan(Accept(s, plan, t).0, between, PlanKey(plan.fenceKey, plan.revision));
    CompletionSummary(again.operations);
    SettledReceiptDecides(Run(Accept(s, plan, t).0, between), again, CompleteTuple(again.operations), now,
                          PlanKey(plan.fenceKey, plan.revision));
  }

  lemma MutateRetainsReceipt(s: Store, m: Mutation, now: int, id: string)
    requires m.operations != [] && id in s.receipts && now < s.receipts[id].receivedAt + RETENTION_MS
    ensures id in Mutate(s, m, now).0.receipts && Mutate(s, m, now).0.receipts[id] == s.receipts[id]
  {
    assert id in PruneReceipts(s.receipts, now);
  }

  lemma StepRetainsReceipt(s: Store, step: Step, id: string)
    requires ValidStep(step) && id in s.receipts && step.now < s.receipts[id].receivedAt + RETENTION_MS
    ensures id in Next(s, step).receipts && Next(s, step).receipts[id] == s.receipts[id]
  {
    match step
    case AcceptStep(plan, now) => AcceptLeavesReceipts(s, plan, CompleteTuple(plan.operations), now);
    case MutateStep(m, now) => MutateRetainsReceipt(s, m, now, id);
    case CommitStep(_, _, _) =>
  }

  lemma AcceptLeavesReceipts(s: Store, plan: Plan, completion: Completion, now: int)
    requires completion.Completed? ==> completion.operations != []
    ensures AcceptCompleted(s, plan, completion, now).0.receipts == s.receipts
  {
  }

  lemma {:induction false} RunRetainsReceipt(s: Store, steps: seq<Step>, id: string)
    requires ValidSteps(steps) && id in s.receipts && WithinRetention(steps, s.receipts[id].receivedAt)
    ensures id in Run(s, steps).receipts && Run(s, steps).receipts[id] == s.receipts[id]
  {
    if steps != [] {
      RunRetainsReceipt(s, steps[..|steps|-1], id);
      StepRetainsReceipt(Run(s, steps[..|steps|-1]), steps[|steps|-1], id);
    }
  }

  /** A delivery is applied at most once while its receipt is retained, whatever happened since. */
  lemma ReplayReturnsRecordedRevision(s: Store, m: Mutation, t: int, between: seq<Step>, again: Mutation, now: int)
    requires StoreInvariant(s) && ValidMutation(m) && ValidMutation(again) && ValidSteps(between)
    requires Mutate(s, m, t).1.Applied? && again.deliveryId == m.deliveryId
    requires WithinRetention(between, t) && now < t + RETENTION_MS
    ensures var store := Run(Mutate(s, m, t).0, between);
      var (after, outcome) := Mutate(store, again, now);
      && after.records == store.records
      && outcome == if again.fingerprint == m.fingerprint then Repeated(Mutate(s, m, t).1.revision) else BoundToAnotherPayload
  {
    MutateLaw(s, m, t);
    RunRetainsReceipt(Mutate(s, m, t).0, between, m.deliveryId);
    var store := Run(Mutate(s, m, t).0, between);
    assert m.deliveryId in PruneReceipts(store.receipts, now);
  }
}
