/**
 What the record store remembers over runs: a tuple reads as it was last written, and a published
 commit never changes.
 */
module RecordHistory {
  import opened Basics
  import opened Blobs
  import opened RecordTables
  import opened TupleCompletion
  import opened DirectPublication
  import opened PublicationLaws

  // ------------------------------------------------------------------ the last write of a tuple

  /** Every section of the item reads the same in both. */
  ghost predicate SameTupleRead(a: Records, b: Records, repo: string, id: RecordId) {
    forall section | section != Commits ::
      ReadCanonical(b, RecordKey(repo, section, id)) == ReadCanonical(a, RecordKey(repo, section, id))
  }

  lemma OtherTupleUntouched(
      a: Records, b: Records, ops: seq<Operation>, revision: nat, now: int, repo: string, id: RecordId)
    requires TupleWritten(a, b, ops, revision, now) && ValidTuple(ops)
    requires ops[0].key.repo != repo || ops[0].key.id != id
    ensures SameTupleRead(a, b, repo, id)
  {
    forall section ensures !Writes(ops, RecordKey(repo, section, id)) {
    }
  }

  lemma StepLeavesTuple(s: Store, step: Step, repo: string, id: RecordId)
    requires StoreInvariant(s) && ValidStep(step) && StampedRevision(s, step, repo, id).None?
    ensures SameTupleRead(s.records, Next(s, step).records, repo, id)
  {
    hide Coherent, Exclusive, ReadCanonical, Advances, WriteTuple, CompleteTuple, AcceptCompleted, Mutate, TupleWritten;
    match step
    case AcceptStep(plan, now) =>
      AcceptLaw(s, plan, now);
      PlanIsTuple(s, plan);
      if Accept(s, plan, now).1.Accepted? {
        CompletionSummary(plan.operations);
        OtherTupleUntouched(s.records, Next(s, step).records, CompleteTuple(plan.operations).operations,
                            Accept(s, plan, now).1.revision, now, repo, id);
      }
    case MutateStep(m, now) =>
      MutateLaw(s, m, now);
      if Mutate(s, m, now).1.Applied? {
        OtherTupleUntouched(s.records, Next(s, step).records, m.operations, Mutate(s, m, now).1.revision, now, repo, id);
      }
    case CommitStep(commitRepo, inputs, now) =>
      if PublishCommits(s.records, commitRepo, inputs, now).Published? {
        CommitsLeaveCanonical(s.records, commitRepo, inputs, now);
        CanonicalReads(s.records, Next(s, step).records);
      }
  }

  lemma PlanIsTuple(s: Store, plan: Plan)
    requires StoreInvariant(s) && ValidPlan(plan)
    ensures plan.operations != []
  {
  }

  lemma CanonicalReads(a: Records, b: Records)
    requires b.canonical == a.canonical && b.chunks == a.chunks
    ensures forall k :: ReadCanonical(b, k) == ReadCanonical(a, k)
  {
  }

  /** No step of the run writes the tuple. */
  ghost predicate LeavesAlone(s: Store, steps: seq<Step>, repo: string, id: RecordId)
    requires ValidSteps(steps)
  {
    forall i | 0 <= i < |steps| :: StampedRevision(Run(s, steps[..i]), steps[i], repo, id).None?
  }

  lemma {:induction false} RunLeavesTuple(s: Store, steps: seq<Step>, repo: string, id: RecordId)
    requires StoreInvariant(s) && ValidSteps(steps) && LeavesAlone(s, steps, repo, id)
    ensures SameTupleRead(s.records, Run(s, steps).records, repo, id)
  {
    hide StoreInvariant, ReadCanonical, Next, StampedRevision;
    if steps != [] {
      var init, last := steps[..|steps|-1], steps[|steps|-1];
      forall i | 0 <= i < |init| ensures StampedRevision(Run(s, init[..i]), init[i], repo, id).None? {
        assert init[..i] == steps[..i];
      }
      RunLeavesTuple(s, init, repo, id);
      RunLaw(s, init);
      assert StampedRevision(Run(s, steps[..|steps|-1]), last, repo, id).None?;
      StepLeavesTuple(Run(s, init), last, repo, id);
    }
  }

  /** What a step writes when it stamps a tuple: a plan's operations with the deletions completing them, or a mutation's. */
  function WrittenBy(step: Step): seq<Operation>
    requires ValidStep(step)
  {
    match step
    case AcceptStep(plan, _) =>
      ValidIsDistinct(plan.operations);
      if CompleteTuple(plan.operations).Completed? then CompleteTuple(plan.operations).operations else []
    case MutateStep(m, _) => m.operations
    case CommitStep(_, _, _) => []
  }

  /** A step that stamps a tuple leaves each of its operations readable as it is, under that revision. */
  lemma StampedReads(s: Store, step: Step, repo: string, id: RecordId, op: Operation)
    requires StoreInvariant(s) && ValidStep(step) && StampedRevision(s, step, repo, id).Some? && op in WrittenBy(step)
    ensures op.key.section != Commits && op.key == RecordKey(repo, op.key.section, id)
    ensures ReadCanonical(Next(s, step).records, op.key) == Found(CanonicalRecord(
      op.content, op.digest, StampedRevision(s, step, repo, id).value, step.now, op.content.None?))
  {
    hide Coherent, Exclusive, ReadCanonical, Advances, AcceptCompleted, CompleteTuple, Mutate, RevisionAt, LiveDigest;
    match step
    case AcceptStep(plan, now) =>
      AcceptLaw(s, plan, now);
      CompletionSummary(plan.operations);
      TupleKeys(CompleteTuple(plan.operations).operations, op);
    case MutateStep(m, now) =>
      MutateLaw(s, m, now);
      TupleKeys(m.operations, op);
  }

  lemma TupleKeys(ops: seq<Operation>, op: Operation)
    requires ValidTuple(ops) && op in ops
    ensures op.key.section != Commits && op.key == RecordKey(ops[0].key.repo, op.key.section, ops[0].key.id)
  {
    assert ValidOperation(op);
  }

  /**
   A record reads exactly as it was last written, by a plan, by the completion of a plan or by a
   mutation: content, digest, revision and deletion, however many other tuples and commits were
   written since, and however its bytes were chunked.
   */
  lemma LastWriteIsRead(s: Store, step: Step, repo: string, id: RecordId, op: Operation, steps: seq<Step>)
    requires StoreInvariant(s) && ValidStep(step) && ValidSteps(steps)
    requires StampedRevision(s, step, repo, id).Some? && op in WrittenBy(step)
    requires LeavesAlone(Next(s, step), steps, repo, id)
    ensures ReadCanonical(Run(Next(s, step), steps).records, op.key) == Found(CanonicalRecord(
      op.content, op.digest, StampedRevision(s, step, repo, id).value, step.now, op.content.None?))
  {
    hide StoreInvariant, ReadCanonical, Run, Next, StampedRevision, WrittenBy, LeavesAlone;
    StampedReads(s, step, repo, id, op);
    NextLaw(s, step);
    RunLeavesTuple(Next(s, step), steps, repo, id);
  }

  lemma {:induction false} PutAllCounter(r: Records, ops: seq<Operation>, revision: nat, stamp: Stamp)
    requires PutAll(r, ops, revision, stamp).Some?
    ensures PutAll(r, ops, revision, stamp).value.counter == r.counter + |ops|
  {
    if ops != [] { PutAllCounter(r, ops[..|ops|-1], revision, stamp); }
  }

  /** Where each record of a tuple write is in the feed: one after the other past all there was. */
  lemma {:induction false} PutAllEntries(r: Records, ops: seq<Operation>, revision: nat, stamp: Stamp, i: nat)
    requires DistinctSections(ops) && (forall op | op in ops :: ValidOperation(op)) && i < |ops|
    requires PutAll(r, ops, revision, stamp).Some?
    ensures ops[i].key in PutAll(r, ops, revision, stamp).value.index
    ensures EntryOf(PutAll(r, ops, revision, stamp).value, ops[i].key) == Some(Entry(
      ops[i].key, ops[i].content, ops[i].digest, revision, r.counter + 1 + i, stamp.now, ops[i].content.None?))
  {
    hide EntryOf, RowFor, PutChunks, ValidOperation;
    var n := |ops| - 1;
    var mid := PutAll(r, ops[..n], revision, stamp).value;
    if i < n {
      PutAllEntries(r, ops[..n], revision, stamp, i);
      PutKeepsEntry(mid, ops[n], revision, stamp, ops[i].key);
    } else {
      PutAllCounter(r, ops[..n], revision, stamp);
      PutEntry(mid, ops[n], revision, stamp);
    }
  }

  /**
   Each operation a step writes is exported as it was written: its content or tombstone and digest,
   under the stamped revision and the time of the step, in the order of the operations.
   */
  lemma StampedExports(s: Store, step: Step, repo: string, id: RecordId, i: nat)
    requires StoreInvariant(s) && ValidStep(step) && StampedRevision(s, step, repo, id).Some? && i < |WrittenBy(step)|
    ensures var op, after := WrittenBy(step)[i], Next(s, step).records;
      && op.key in after.index
      && EntryOf(after, op.key) == Some(Entry(
           op.key, op.content, op.digest, StampedRevision(s, step, repo, id).value, s.records.counter + 1 + i, step.now,
           op.content.None?))
  {
    hide Coherent, Exclusive, EntryOf, PutAll, TupleRevision, CompleteTuple, PrunePlans, NewerKnown, BodyOf, RowOf,
      PruneReceipts, ExpectationsMet, CurrentTuple, ValidTuple, SettlesPrimaries;
    match step
    case AcceptStep(plan, now) =>
      ValidIsDistinct(plan.operations);
      CompletionSummary(plan.operations);
      var ops := CompleteTuple(plan.operations).operations;
      TupleBasics(s.records, ops);
      PutAllEntries(s.records, ops, StampedRevision(s, step, repo, id).value,
                    Stamp(plan.targetKey, plan.claimGeneration, now), i);
    case MutateStep(m, now) =>
      TupleBasics(s.records, m.operations);
      PutAllEntries(s.records, m.operations, StampedRevision(s, step, repo, id).value, Stamp(m.key, 1, now), i);
  }

  /** And so it is exported, under whichever store revision, until the tuple is written again. */
  lemma LastWriteIsExported(s: Store, step: Step, repo: string, id: RecordId, op: Operation, steps: seq<Step>)
    requires StoreInvariant(s) && ValidStep(step) && ValidSteps(steps)
    requires StampedRevision(s, step, repo, id).Some? && op in WrittenBy(step)
    requires LeavesAlone(Next(s, step), steps, repo, id)
    ensures var later := Run(Next(s, step), steps).records;
      && op.key in later.index
      && EntryOf(later, op.key) == Some(Entry(
           op.key, op.content, op.digest, StampedRevision(s, step, repo, id).value,
           later.index[op.key].storeRevision, step.now, op.content.None?))
  {
    hide Coherent, Exclusive, ReadCanonical, EntryOf, Run, Next, StampedRevision, WrittenBy, LeavesAlone, RevisionAt, Advances;
    LastWriteIsRead(s, step, repo, id, op, steps);
    NextLaw(s, step);
    RunLaw(Next(s, step), steps);
    FoundIsCanonical(Run(Next(s, step), steps).records, op.key);
    EntryIsRecord(Run(Next(s, step), steps).records, op.key);
  }

  lemma FoundIsCanonical(r: Records, k: RecordKey)
    requires ReadCanonical(r, k).Found?
    ensures k in r.canonical
  {
  }

  /** The operations of an accepted plan are all among those written. */
  lemma PlanIsWritten(plan: Plan, now: int, op: Operation)
    requires ValidPlan(plan) && !BothPrimariesLive(plan.operations) && op in plan.operations
    ensures op in WrittenBy(AcceptStep(plan, now))
  {
    CompletionLaw(plan.operations);
    var i :| 0 <= i < |plan.operations| && plan.operations[i] == op;
    assert CompleteTuple(plan.operations).operations[i] == op;
  }

  // ------------------------------------------------------------------ commits are immutable

  lemma {:induction false} PutAllKeepsEntry(r: Records, ops: seq<Operation>, revision: nat, stamp: Stamp, k: RecordKey)
    requires PutAll(r, ops, revision, stamp).Some? && k in r.index && forall op | op in ops :: op.key != k
    ensures k in PutAll(r, ops, revision, stamp).value.index
    ensures EntryOf(PutAll(r, ops, revision, stamp).value, k) == EntryOf(r, k)
  {
    hide EntryOf;
    if ops != [] {
      PutAllKeepsEntry(r, ops[..|ops|-1], revision, stamp, k);
      PutKeepsEntry(PutAll(r, ops[..|ops|-1], revision, stamp).value, ops[|ops|-1], revision, stamp, k);
    }
  }

  lemma WriteKeepsCommit(r: Records, minimum: nat, ops: seq<Operation>, stamp: Stamp, k: RecordKey)
    requires ValidTuple(ops) && WriteTuple(r, minimum, ops, stamp).Some? && k in r.index && k.section == Commits
    ensures k in WriteTuple(r, minimum, ops, stamp).value.0.index
    ensures EntryOf(WriteTuple(r, minimum, ops, stamp).value.0, k) == EntryOf(r, k)
  {
    hide EntryOf, TupleRevision, PutAll;
    forall op | op in ops ensures op.key != k { assert ValidOperation(op); }
    PutAllKeepsEntry(r, ops, Max(minimum, TupleRevision(r, ops[0].key.repo, ops[0].key.id) + 1), stamp, k);
  }

  lemma {:induction false} CommitsKeepCommit(r: Records, repo: string, inputs: seq<CommitInput>, now: int, k: RecordKey)
    requires Coherent(r) && PublishCommits(r, repo, inputs, now).Published? && k in r.index
    ensures k in PublishCommits(r, repo, inputs, now).records.index
    ensures EntryOf(PublishCommits(r, repo, inputs, now).records, k) == EntryOf(r, k)
  {
    hide EntryOf, Coherent;
    if inputs != [] {
      var init, last := inputs[..|inputs|-1], inputs[|inputs|-1];
      CommitsKeepCommit(r, repo, init, now, k);
      PublishCommitsCoherent(r, repo, init, now);
      var done := PublishCommits(r, repo, init, now).records;
      if CommitKey(repo, last.sha) !in done.index {
        PutCommitKeepsEntry(done, repo, last, now, k);
      }
    }
  }

  lemma AcceptKeepsCommit(s: Store, plan: Plan, now: int, k: RecordKey)
    requires ValidPlan(plan) && k in s.records.index && k.section == Commits
    ensures k in Accept(s, plan, now).0.records.index
    ensures EntryOf(Accept(s, plan, now).0.records, k) == EntryOf(s.records, k)
  {
    hide EntryOf, WriteTuple, CompleteTuple, PrunePlans, NewerKnown, BodyOf, ValidTuple;
    ValidIsDistinct(plan.operations);
    CompletionSummary(plan.operations);
    var completion, stamp := CompleteTuple(plan.operations), Stamp(plan.targetKey, plan.claimGeneration, now);
    if completion.Completed? {
      ValidIsDistinct(completion.operations);
      if WriteTuple(s.records, plan.revision, completion.operations, stamp).Some? {
        WriteKeepsCommit(s.records, plan.revision, completion.operations, stamp, k);
      }
    }
  }

  lemma MutateKeepsCommit(s: Store, m: Mutation, now: int, k: RecordKey)
    requires ValidMutation(m) && k in s.records.index && k.section == Commits
    ensures k in Mutate(s, m, now).0.records.index
    ensures EntryOf(Mutate(s, m, now).0.records, k) == EntryOf(s.records, k)
  {
    hide EntryOf, WriteTuple, PruneReceipts, ExpectationsMet, CurrentTuple;
    if WriteTuple(s.records, 0, m.operations, Stamp(m.key, 1, now)).Some? {
      WriteKeepsCommit(s.records, 0, m.operations, Stamp(m.key, 1, now), k);
    }
  }

  /** A published commit is exported unchanged, under its first store revision, for ever. */
  lemma {:induction false} CommitIsImmutable(s: Store, steps: seq<Step>, k: RecordKey)
    requires StoreInvariant(s) && ValidSteps(steps) && k in s.records.index && k.section == Commits
    ensures k in Run(s, steps).records.index
    ensures EntryOf(Run(s, steps).records, k) == EntryOf(s.records, k)
  {
    hide EntryOf, Coherent, Exclusive, Accept, Mutate, PublishCommits;
    if steps != [] {
      var before, last := Run(s, steps[..|steps|-1]), steps[|steps|-1];
      CommitIsImmutable(s, steps[..|steps|-1], k);
      RunLaw(s, steps[..|steps|-1]);
      assert ValidStep(last);
      match last
      case AcceptStep(plan, now) => AcceptKeepsCommit(before, plan, now, k);
      case MutateStep(m, now) => MutateKeepsCommit(before, m, now, k);
      case CommitStep(repo, inputs, now) =>
        if PublishCommits(before.records, repo, inputs, now).Published? {
          CommitsKeepCommit(before.records, repo, inputs, now, k);
        }
    }
  }

  /**
   Publishing a commit again, after any run, is counted as matching and changes nothing when the
   digest agrees, and is a conflict when it does not.
   */
  lemma RepublishedCommit(
      s: Store, repo: string, input: CommitInput, now: int, steps: seq<Step>, again: CommitInput, later: int)
    requires StoreInvariant(s) && ValidSteps(steps) && again.sha == input.sha
    requires PublishCommit(s.records, repo, input, now).Published?
    ensures var published := s.(records := PublishCommit(s.records, repo, input, now).records);
      var t := Run(published, steps).records;
      PublishCommit(t, repo, again, later) == if again.digest == input.digest then Published(t, 0, 1) else ConflictingCommit
  {
    hide SourceContent, ExactChunks, BlobCoherent, Run;
    var published := s.(records := PublishCommit(s.records, repo, input, now).records);
    PublishOne(s, repo, input, now);
    CommitIsImmutable(published, steps, CommitKey(repo, input.sha));
    RunLaw(published, steps);
    EntryDefined(published.records, CommitKey(repo, input.sha));
  }

  lemma PublishOne(s: Store, repo: string, input: CommitInput, now: int)
    requires StoreInvariant(s) && PublishCommit(s.records, repo, input, now).Published?
    ensures var r, k := PublishCommit(s.records, repo, input, now).records, CommitKey(repo, input.sha);
      && StoreInvariant(s.(records := r)) && k in r.index && !r.index[k].deleted && r.index[k].digest == Some(input.digest)
  {
    hide Coherent, Exclusive;
    var inputs := [input];
    assert inputs[..0] == [];
    CommitsKeepRevisions(s.records, repo, inputs, now);
  }
}
