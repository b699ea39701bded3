/**
 The answer to every plan, mutation and commit list, exactly: from the receipts that pruning leaves,
 the revisions of the tuple and the room left for store revisions.
 */
module PlanAnswers {
  import opened Basics
  import opened Blobs
  import opened RecordTables
  import opened TupleCompletion
  import opened DirectPublication
  import opened PublicationLaws

  // ------------------------------------------------------------------ revisions

  /** The revision of a tuple is the greatest any of its sections holds, or none. */
  lemma TupleRevisionIsGreatest(r: Records, repo: string, id: RecordId)
    ensures forall section | section != Commits :: RevisionAt(r, RecordKey(repo, section, id)) <= TupleRevision(r, repo, id)
    ensures TupleRevision(r, repo, id) == 0
      || exists section | section != Commits :: RevisionAt(r, RecordKey(repo, section, id)) == TupleRevision(r, repo, id)
  {
    assert RevisionAt(r, RecordKey(repo, Items, id)) <= TupleRevision(r, repo, id);
    assert RevisionAt(r, RecordKey(repo, Closed, id)) <= TupleRevision(r, repo, id);
    assert RevisionAt(r, RecordKey(repo, Plans, id)) <= TupleRevision(r, repo, id);
    assert RevisionAt(r, RecordKey(repo, DecisionPackets, id)) <= TupleRevision(r, repo, id);
  }

  /** There is a revision left for the tuple and a store revision for each operation. */
  predicate HasRoom(r: Records, ops: seq<Operation>)
    requires ops != []
  {
    TupleRevision(r, ops[0].key.repo, ops[0].key.id) < MAX_SAFE_INTEGER && r.counter + |ops| <= MAX_SAFE_INTEGER
  }

  /** The least revision that is above all the tuple holds and at least the plan's. */
  function NextRevision(r: Records, ops: seq<Operation>, minimum: nat): nat
    requires ops != []
  {
    var next := TupleRevision(r, ops[0].key.repo, ops[0].key.id) + 1;
    if minimum > next then minimum else next
  }

  lemma WrittenExactly(r: Records, minimum: nat, ops: seq<Operation>, stamp: Stamp)
    requires Coherent(r) && Exclusive(r) && ValidTuple(ops) && SettlesPrimaries(ops)
    ensures ops != [] && (WriteTuple(r, minimum, ops, stamp).Some? <==> HasRoom(r, ops))
    ensures WriteTuple(r, minimum, ops, stamp).Some? ==>
      WriteTuple(r, minimum, ops, stamp).value.1 == NextRevision(r, ops, minimum)
  {
    hide Coherent, Exclusive, ValidTuple, SettlesPrimaries, PutAll, TupleRevision, TupleWritten, Advances;
    ValidIsDistinct(ops);
    WriteTupleLaw(r, minimum, ops, stamp);
  }

  // ------------------------------------------------------------------ plans

  /** Two plans are the same but for the claim they came from, which is what a retry must repeat. */
  lemma SameBodyExactly(a: Plan, b: Plan)
    ensures BodyOf(a) == BodyOf(b) <==>
      && a.targetKey == b.targetKey && a.fenceKey == b.fenceKey && a.revision == b.revision
      && a.totalBytes == b.totalBytes && a.lifecycle == b.lifecycle && |a.operations| == |b.operations|
      && (forall i | 0 <= i < |a.operations| :: SameOperation(a.operations[i], b.operations[i]))
  {
    var x, y := BodyOf(a).operations, BodyOf(b).operations;
    var same := forall i | 0 <= i < |a.operations| && i < |b.operations| :: SameOperation(a.operations[i], b.operations[i]);
    if |a.operations| == |b.operations| && same {
      assert forall i | 0 <= i < |x| :: x[i] == y[i];
      assert x == y;
    }
    if x == y {
      assert |x| == |y|;
      forall i | 0 <= i < |a.operations| ensures SameOperation(a.operations[i], b.operations[i]) { assert x[i] == y[i]; }
    }
  }

  /** The record, its deletion or size, and its digest agree. */
  predicate SameOperation(a: Operation, b: Operation) {
    && a.key == b.key && a.digest == b.digest && (a.content.None? <==> b.content.None?)
    && (a.content.Some? ==> |a.content.value| == |b.content.value|)
  }

  /** What a receipt keeps of each operation: its record, size, digest and whether it deletes. */
  lemma BodyShows(plan: Plan, i: nat)
    requires i < |plan.operations|
    ensures var op, stored := plan.operations[i], BodyOf(plan).operations[i];
      && stored.key == op.key && stored.digest == op.digest && (stored.deleted <==> op.content.None?)
      && (op.content.None? ==> stored.bytes == 0) && (op.content.Some? ==> stored.bytes == |op.content.value|)
  {
  }

  /** Receipts that pruning never takes and a plan replaces. */
  predicate Unsettled(state: PlanState) {
    state == Pending || state == Committing || state == Retryable
  }

  function KeyOf(plan: Plan): PlanKey {
    PlanKey(plan.fenceKey, plan.revision)
  }

  /** A plan with a settled receipt is answered from it, and refused when it is not the same plan. */
  lemma KnownPlanAnswer(s: Store, plan: Plan, now: int)
    requires ValidPlan(plan) && !BothPrimariesLive(plan.operations)
    requires KeyOf(plan) in PrunePlans(s.plans, now) && !Unsettled(PrunePlans(s.plans, now)[KeyOf(plan)].state)
    ensures plan.operations != []
    ensures var kept := PrunePlans(s.plans, now);
      var row, (after, outcome) := kept[KeyOf(plan)], Accept(s, plan, now);
      && (row.body != BodyOf(plan) ==> outcome == ConflictingRetry && after == s)
      && (row.body == BodyOf(plan) ==>
            after == s.(plans := kept) && outcome == if row.state == SupersededPlan then Superseded else Deduped)
  {
    hide CompleteTuple, ValidTuple, BothPrimariesLive, PrunePlans, BodyOf, WriteTuple, NewerKnown;
    ValidIsDistinct(plan.operations);
    CompletionSummary(plan.operations);
  }

  /**
   Any other plan is superseded exactly when a receipt of its fence has a greater revision, and
   otherwise accepted exactly while there is room for its completed tuple, at the least revision
   above what the tuple holds and not below its own. Either way its receipt says so.
   */
  lemma NewPlanAnswer(s: Store, plan: Plan, now: int)
    requires StoreInvariant(s) && ValidPlan(plan) && !BothPrimariesLive(plan.operations)
    requires KeyOf(plan) in PrunePlans(s.plans, now) ==> Unsettled(PrunePlans(s.plans, now)[KeyOf(plan)].state)
    ensures plan.operations != [] && CompleteTuple(plan.operations).Completed?
    ensures CompleteTuple(plan.operations).operations != []
    ensures var kept, all := PrunePlans(s.plans, now), CompleteTuple(plan.operations).operations;
      var newer := exists k :: k in kept && k.fence == plan.fenceKey && k.revision > plan.revision;
      var (after, outcome) := Accept(s, plan, now);
      && (outcome.Superseded? <==> newer)
      && (outcome.Accepted? <==> !newer && HasRoom(s.records, all))
      && (outcome.RevisionExhausted? <==> !newer && !HasRoom(s.records, all))
      && (outcome.Superseded? ==>
            after == s.(plans := kept[KeyOf(plan) := PlanRow(
              BodyOf(plan), plan.claimGeneration, SupersededPlan, now, None)]))
      && (outcome.Accepted? ==>
            && outcome.revision == NextRevision(s.records, all, plan.revision)
            && after.plans == kept[KeyOf(plan) := PlanRow(
                 BodyOf(plan), plan.claimGeneration, PublishedPlan, now, Some(outcome.revision))])
      && (outcome.RevisionExhausted? ==> after == s)
  {
    hide CompleteTuple, ValidTuple, BothPrimariesLive, PrunePlans, BodyOf, WriteTuple, NewerKnown, HasRoom, NextRevision,
      Coherent, Exclusive, SettlesPrimaries;
    ValidIsDistinct(plan.operations);
    CompletionSummary(plan.operations);
    var all := CompleteTuple(plan.operations).operations;
    ValidIsDistinct(all);
    WrittenExactly(s.records, plan.revision, all, Stamp(plan.targetKey, plan.claimGeneration, now));
    NewerExactly(PrunePlans(s.plans, now), KeyOf(plan));
  }

  lemma NewerExactly(plans: map<PlanKey, PlanRow>, key: PlanKey)
    ensures NewerKnown(plans - {key}, key.fence, key.revision) <==>
      exists k :: k in plans && k.fence == key.fence && k.revision > key.revision
  {
    if k :| k in plans && k.fence == key.fence && k.revision > key.revision {
      assert k in plans - {key};
    }
  }

  // ------------------------------------------------------------------ mutations

  /** Every section still has the digest its writer expects, none meaning absent or deleted. */
  predicate AsExpected(r: Records, m: Mutation) {
    forall op | op in m.operations ::
      var expected := if op.key.section in m.expected then m.expected[op.key.section] else None;
      expected == if op.key in r.index && !r.index[op.key].deleted then r.index[op.key].digest else None
  }

  /** A mutation is applied exactly while its expectations hold and there is room, at the tuple's next revision. */
  lemma AppliedExactly(s: Store, m: Mutation, now: int)
    requires StoreInvariant(s) && ValidMutation(m) && m.deliveryId !in PruneReceipts(s.receipts, now)
    ensures var (after, outcome) := Mutate(s, m, now);
      && (outcome.Applied? <==> AsExpected(s.records, m) && HasRoom(s.records, m.operations))
      && (outcome.Changed? <==> !AsExpected(s.records, m))
      && (outcome.Changed? ==> outcome.current == CurrentTuple(s.records, m.repo, m.id))
      && (outcome.Applied? ==> outcome.revision == TupleRevision(s.records, m.repo, m.id) + 1)
  {
    hide Coherent, Exclusive, SettlesPrimaries, WriteTuple, PruneReceipts, CurrentTuple, ValidTuple, HasRoom,
      TupleRevision, BothLive;
    MutationSettlesPrimaries(m);
    WrittenExactly(s.records, 0, m.operations, Stamp(m.key, 1, now));
  }

  /** A known delivery is answered with the revision it was given, or refused for another payload; it writes nothing. */
  lemma KnownDeliveryAnswer(s: Store, m: Mutation, now: int)
    requires m.operations != [] && m.deliveryId in PruneReceipts(s.receipts, now)
    ensures var kept := PruneReceipts(s.receipts, now);
      var receipt := kept[m.deliveryId];
      && (receipt.fingerprint == m.fingerprint ==>
            Mutate(s, m, now) == (s.(receipts := kept), Repeated(receipt.revision)))
      && (receipt.fingerprint != m.fingerprint ==> Mutate(s, m, now) == (s, BoundToAnotherPayload))
  {
    hide PruneReceipts;
  }

  /** A conflict reports the four sections as they are read, when all are there at one revision. */
  lemma ConflictReport(r: Records, repo: string, id: RecordId)
    ensures var current := CurrentTuple(r, repo, id);
      && (current.Some? <==> forall section | section != Commits :: AtOneRevision(r, repo, section, id))
      && (current.Some? ==>
            && ReadCanonical(r, RecordKey(repo, Items, id)) == Found(current.value.items)
            && ReadCanonical(r, RecordKey(repo, Closed, id)) == Found(current.value.closed)
            && ReadCanonical(r, RecordKey(repo, Plans, id)) == Found(current.value.plans)
            && ReadCanonical(r, RecordKey(repo, DecisionPackets, id)) == Found(current.value.packets)
            && current.value.revision == current.value.items.revision)
  {
    hide ReadCanonical;
    if forall section | section != Commits :: AtOneRevision(r, repo, section, id) {
      assert AtOneRevision(r, repo, Closed, id) && AtOneRevision(r, repo, Plans, id);
      assert AtOneRevision(r, repo, DecisionPackets, id);
    }
  }

  /** The section is there, at the revision of the open record. */
  predicate AtOneRevision(r: Records, repo: string, section: Section, id: RecordId) {
    var open, other := ReadCanonical(r, RecordKey(repo, Items, id)), ReadCanonical(r, RecordKey(repo, section, id));
    open.Found? && other.Found? && other.record.revision == open.record.revision
  }

  // ------------------------------------------------------------------ commits

  /** One commit: new ones are inserted at revision 1, known ones match by digest, others conflict. */
  lemma CommitAnswer(r: Records, repo: string, input: CommitInput, now: int)
    requires Coherent(r)
    ensures var k, answer := CommitKey(repo, input.sha), PublishCommit(r, repo, input, now);
      && (k in r.index ==>
            answer == if r.index[k].digest == Some(input.digest) then Published(r, 0, 1) else ConflictingCommit)
      && (k !in r.index ==>
            && (answer.Exhausted? <==> r.counter == MAX_SAFE_INTEGER) && !answer.ConflictingCommit?
            && (answer.Published? ==>
                  && answer.inserted == 1 && answer.matching == 0
                  && answer.records.index == r.index[k := IndexRow(
                       Some(input.digest), false, 1, r.counter + 1, Canonical, now)]))
  {
    hide PutChunks, ChunkRows, ChunkList, BlobOf, RowCoherent, BackfillCoherent, DistinctRevisions;
    var k := CommitKey(repo, input.sha);
    if k in r.index { assert IndexCoherent(r, k); }
  }

  lemma CommitAccounted(r: Records, repo: string, input: CommitInput, now: int)
    requires Coherent(r) && PublishCommit(r, repo, input, now).Published?
    ensures Accounted(r, repo, [input], PublishCommit(r, repo, input, now))
  {
    hide Coherent, PublishCommit;
    CommitAnswer(r, repo, input, now);
    var k := CommitKey(repo, input.sha);
    NewRow(r.index, k, IndexRow(Some(input.digest), false, 1, r.counter + 1, Canonical, now));
  }

  lemma NewRow(index: map<RecordKey, IndexRow>, k: RecordKey, row: IndexRow)
    ensures k !in index ==> |index[k := row]| == |index| + 1
  {
    assert index[k := row].Keys == index.Keys + {k};
    IndexKeys(index);
    IndexKeys(index[k := row]);
  }

  /** The published commits are all known, each inserted or matching, and no other row has changed. */
  predicate Accounted(r: Records, repo: string, inputs: seq<CommitInput>, answer: CommitPublication) {
    && answer.Published? && answer.inserted + answer.matching == |inputs|
    && answer.inserted == |answer.records.index| - |r.index|
    && (forall input | input in inputs ::
          var k := CommitKey(repo, input.sha);
          k in answer.records.index && answer.records.index[k].digest == Some(input.digest))
    && (forall k | k in r.index :: k in answer.records.index && answer.records.index[k] == r.index[k])
  }

  /** A published list accounts for each of its commits, inserted or matching, and all of them are then known. */
  lemma {:induction false} CommitsAccounted(r: Records, repo: string, inputs: seq<CommitInput>, now: int)
    requires Coherent(r) && PublishCommits(r, repo, inputs, now).Published?
    ensures Accounted(r, repo, inputs, PublishCommits(r, repo, inputs, now))
  {
    hide Coherent, PublishCommit, Advances;
    if inputs != [] {
      var init, last := inputs[..|inputs|-1], inputs[|inputs|-1];
      CommitsAccounted(r, repo, init, now);
      PublishCommitsCoherent(r, repo, init, now);
      CommitAccounted(PublishCommits(r, repo, init, now).records, repo, last, now);
      assert inputs == init + [last] && last in [last];
    }
  }

  lemma IndexKeys(index: map<RecordKey, IndexRow>)
    ensures |index| == |index.Keys|
  {
  }

  /** A list fails as its first commit to fail does, and then nothing of it is written. */
  lemma {:induction false} CommitsFailAsFirst(r: Records, repo: string, inputs: seq<CommitInput>, now: int)
    requires !PublishCommits(r, repo, inputs, now).Published?
    ensures exists i | 0 <= i < |inputs| :: FailsAt(r, repo, inputs, now, i)
  {
    if inputs != [] {
      var n := |inputs| - 1;
      if PublishCommits(r, repo, inputs[..n], now).Published? {
        assert FailsAt(r, repo, inputs, now, n);
      } else {
        CommitsFailAsFirst(r, repo, inputs[..n], now);
        var i :| 0 <= i < n && FailsAt(r, repo, inputs[..n], now, i);
        assert inputs[..n][..i] == inputs[..i];
        assert FailsAt(r, repo, inputs, now, i);
      }
    }
  }

  predicate FailsAt(r: Records, repo: string, inputs: seq<CommitInput>, now: int, i: nat)
    requires i < |inputs|
  {
    var before := PublishCommits(r, repo, inputs[..i], now);
    before.Published? && PublishCommit(before.records, repo, inputs[i], now) == PublishCommits(r, repo, inputs, now)
  }
}
