/**
 A live plan beside a live closed record: exactly which accepted plans and mutations leave one
 behind. Completion deletes an absent plan of a closing item, but keeps a plan that is written.
 */
module ClosedPlans {
  import opened Basics
  import opened Blobs
  import opened RecordTables
  import opened TupleCompletion
  import opened DirectPublication
  import opened PublicationLaws

  predicate WritesLive(ops: seq<Operation>, section: Section) {
    exists op | op in ops :: op.key.section == section && op.content.Some?
  }

  predicate TouchesPrimary(ops: seq<Operation>) {
    HasSection(ops, Items) || HasSection(ops, Closed)
  }

  lemma AddDeleteSections(ops: seq<Operation>, section: Section)
    requires ops != []
    ensures forall other :: HasSection(AddDelete(ops, section), other) <==> HasSection(ops, other) || other == section
  {
    var added := AddDelete(ops, section);
    if added != ops {
      assert added[|ops|].key.section == section;
      forall other ensures HasSection(added, other) <==> HasSection(ops, other) || other == section {
        if HasSection(ops, other) {
          var op :| op in ops && op.key.section == other;
          assert op in added;
        }
      }
    }
  }

  lemma SettledSections(ops: seq<Operation>, primary: Operation)
    requires ops != []
    ensures HasSection(SettledBy(ops, primary), Closed) <==> HasSection(ops, Closed) || primary.key.section == Items
    ensures HasSection(SettledBy(ops, primary), Items) <==> HasSection(ops, Items) || primary.key.section != Items
    ensures HasSection(SettledBy(ops, primary), Plans) <==> HasSection(ops, Plans) || primary.key.section == Closed
    ensures HasSection(SettledBy(ops, primary), DecisionPackets) <==>
      HasSection(ops, DecisionPackets) || !primary.referencesPacket
  {
    hide HasSection, AddDelete;
    var opposite := if primary.key.section == Items then Closed else Items;
    var other := AddDelete(ops, opposite);
    var planned := if primary.key.section == Closed then AddDelete(other, Plans) else other;
    AddDeleteSections(ops, opposite);
    AddDeleteSections(other, Plans);
    AddDeleteSections(planned, DecisionPackets);
  }

  lemma UnsettledSections(ops: seq<Operation>)
    requires ValidTuple(ops) && |PrimaryWrites(ops)| == 0
    ensures CompleteTuple(ops).Completed?
    ensures var all := CompleteTuple(ops).operations;
      && (HasSection(all, Closed) <==> HasSection(ops, Closed))
      && (HasSection(all, Items) <==> HasSection(ops, Items))
      && (HasSection(all, Plans) <==> HasSection(ops, Plans) || TouchesPrimary(ops))
      && (HasSection(all, DecisionPackets) <==> HasSection(ops, DecisionPackets) || TouchesPrimary(ops))
  {
    hide AddDelete, HasSection, ValidTuple, DistinctSections, PrimaryWrites, OnlyAddsDeletes, TouchesPrimary,
      PrimaryWrite;
    ValidIsDistinct(ops);
    CompletionWithoutPrimary(ops);
    PrimaryWritesLaw(ops);
    AddDeleteSections(ops, Plans);
    AddDeleteSections(AddDelete(ops, Plans), DecisionPackets);
    assert forall op | op in ops :: PrimaryWrite(op) ==> op in PrimaryWrites(ops);
    NoLivePrimary(ops);
  }

  lemma NoLivePrimary(ops: seq<Operation>)
    requires forall op | op in ops :: !PrimaryWrite(op)
    ensures (exists op | op in ops :: IsPrimary(op.key.section) && op.content.None?) <==> TouchesPrimary(ops)
  {
    if TouchesPrimary(ops) {
      var op :| op in ops && IsPrimary(op.key.section);
    }
  }

  /** A live primary is written that does not refer to its decision packet. */
  predicate DisownsPacket(ops: seq<Operation>) {
    exists op | op in ops :: PrimaryWrite(op) && !op.referencesPacket
  }

  /**
   Which sections a completed plan decides beyond those it names: the other primary of a live one,
   the plan unless an open record is written, the packet unless the primary refers to it.
   */
  lemma CompletedSections(ops: seq<Operation>)
    requires ValidTuple(ops) && CompleteTuple(ops).Completed?
    ensures var all := CompleteTuple(ops).operations;
      var open, closed := WritesLive(ops, Items), WritesLive(ops, Closed);
      && !(open && closed)
      && (HasSection(all, Closed) <==> HasSection(ops, Closed) || open)
      && (HasSection(all, Items) <==> HasSection(ops, Items) || closed)
      && (HasSection(all, Plans) <==> HasSection(ops, Plans) || (TouchesPrimary(ops) && !open))
      && (HasSection(all, DecisionPackets) <==>
            HasSection(ops, DecisionPackets) || DisownsPacket(ops) || (TouchesPrimary(ops) && !open && !closed))
      && (forall section :: WritesLive(all, section) <==> WritesLive(ops, section))
  {
    hide HasSection, AddDelete, ValidTuple, DistinctSections, CompleteTuple, SettledBy, OnlyAddsDeletes,
      BothPrimariesLive;
    ValidIsDistinct(ops);
    CompletionLaw(ops);
    AddedAreDeletes(ops, CompleteTuple(ops).operations);
    TwoPrimaryWrites(ops);
    PrimaryWritesLaw(ops);
    PrimariesLive(ops);
    if |PrimaryWrites(ops)| == 1 {
      CompletionWithPrimary(ops);
      SettledSections(ops, PrimaryWrites(ops)[0]);
    } else {
      UnsettledSections(ops);
    }
  }

  lemma AddedAreDeletes(ops: seq<Operation>, all: seq<Operation>)
    requires OnlyAddsDeletes(ops, all)
    ensures forall section :: WritesLive(all, section) <==> WritesLive(ops, section)
  {
    forall op | op in ops ensures op in all {
      var i :| 0 <= i < |ops| && ops[i] == op;
      assert all[i] == op;
    }
  }

  /** The live primary a plan writes, told from its list of primary writes. */
  lemma PrimariesLive(ops: seq<Operation>)
    requires DistinctSections(ops)
    ensures |PrimaryWrites(ops)| == 0 ==> !WritesLive(ops, Items) && !WritesLive(ops, Closed) && !DisownsPacket(ops)
    ensures |PrimaryWrites(ops)| == 1 ==>
      var section := PrimaryWrites(ops)[0].key.section;
      && IsPrimary(section) && HasSection(ops, section) && TouchesPrimary(ops)
      && (DisownsPacket(ops) <==> !PrimaryWrites(ops)[0].referencesPacket)
      && (WritesLive(ops, Items) <==> section == Items) && (WritesLive(ops, Closed) <==> section == Closed)
  {
    PrimaryWritesLaw(ops);
    var writes := PrimaryWrites(ops);
    forall op | op in ops && PrimaryWrite(op) ensures op in writes {}
    if |writes| == 1 {
      assert writes[0] in writes;
      forall op | op in writes ensures op == writes[0] {}
    }
  }

  // ------------------------------------------------------------------ liveness after a write

  lemma LiveAfterWrite(
      before: Records, after: Records, ops: seq<Operation>, revision: nat, now: int, section: Section)
    requires Coherent(before) && Coherent(after) && ValidTuple(ops) && TupleWritten(before, after, ops, revision, now)
    ensures var repo, id := ops[0].key.repo, ops[0].key.id;
      var live := if HasSection(ops, section) then WritesLive(ops, section) else Live(before, repo, section, id);
      Live(after, repo, section, id) <==> live
  {
    hide Coherent, ReadCanonical, RevisionAt, LiveDigest, ValidOperation;
    var k := RecordKey(ops[0].key.repo, section, ops[0].key.id);
    LiveIsReadable(before, k);
    LiveIsReadable(after, k);
    forall op | op in ops ensures op.key == RecordKey(ops[0].key.repo, op.key.section, ops[0].key.id) {}
    if HasSection(ops, section) {
      var op :| op in ops && op.key.section == section;
      assert op.key == k;
      forall other | other in ops && other.key.section == section ensures other == op { SameSection(ops, op, other); }
    }
  }

  lemma SameSection(ops: seq<Operation>, a: Operation, b: Operation)
    requires DistinctSections(ops) && a in ops && b in ops && a.key.section == b.key.section
    ensures a == b
  {
  }

  ghost predicate ClosedWithPlan(r: Records, repo: string, id: RecordId) {
    Live(r, repo, Closed, id) && Live(r, repo, Plans, id)
  }

  /** A closed record stays or becomes live under these operations. */
  ghost predicate ClosedStays(r: Records, ops: seq<Operation>, repo: string, id: RecordId) {
    if HasSection(ops, Closed) then WritesLive(ops, Closed) else !WritesLive(ops, Items) && Live(r, repo, Closed, id)
  }

  /** A plan that is not named goes with any decision on a primary. */
  ghost predicate PlanStays(r: Records, ops: seq<Operation>, repo: string, id: RecordId) {
    if HasSection(ops, Plans) then WritesLive(ops, Plans) else !TouchesPrimary(ops) && Live(r, repo, Plans, id)
  }

  /**
   An accepted plan leaves a live plan beside a live closed record exactly when it writes the plan,
   or leaves plan and primaries unmentioned where it was live, and the closed record is written or
   was live and is neither deleted nor replaced by an open one.
   */
  lemma AcceptedClosedPlan(s: Store, plan: Plan, now: int)
    requires StoreInvariant(s) && ValidPlan(plan) && plan.operations != [] && Accept(s, plan, now).1.Accepted?
    ensures var ops := plan.operations;
      var repo, id := ops[0].key.repo, ops[0].key.id;
      var both := ClosedWithPlan(Accept(s, plan, now).0.records, repo, id);
      both <==> ClosedStays(s.records, ops, repo, id) && PlanStays(s.records, ops, repo, id)
  {
    hide Coherent, Exclusive, Advances, AcceptCompleted, CompleteTuple, HasSection, WritesLive, TouchesPrimary,
      TupleWritten, Live, ValidTuple, BothPrimariesLive;
    AcceptLaw(s, plan, now);
    CompletionSummary(plan.operations);
    CompletedSections(plan.operations);
    var all, outcome := CompleteTuple(plan.operations).operations, Accept(s, plan, now).1;
    LiveAfterWrite(s.records, Accept(s, plan, now).0.records, all, outcome.revision, now, Closed);
    LiveAfterWrite(s.records, Accept(s, plan, now).0.records, all, outcome.revision, now, Plans);
    LiveNamesSection(plan.operations);
  }

  lemma LiveNamesSection(ops: seq<Operation>)
    ensures forall section | WritesLive(ops, section) :: HasSection(ops, section)
    ensures HasSection(ops, Closed) || WritesLive(ops, Items) ==> TouchesPrimary(ops)
  {
  }

  /** A mutation leaves one exactly when its own operations do, which its validator refuses. */
  lemma MutatedClosedPlan(s: Store, m: Mutation, now: int)
    requires StoreInvariant(s) && ValidMutation(m) && Mutate(s, m, now).1.Applied?
    ensures var both := ClosedWithPlan(Mutate(s, m, now).0.records, m.repo, m.id);
      both <==> WritesLive(m.operations, Closed) && WritesLive(m.operations, Plans)
  {
    hide Coherent, Exclusive, Advances, Mutate, TupleWritten, Live, BothLive, WritesLive;
    MutateLaw(s, m, now);
    FourCoverAll(m.operations);
    AllSectionsNamed(m.operations);
    LiveAfterWrite(s.records, Mutate(s, m, now).0.records, m.operations, Mutate(s, m, now).1.revision, now, Closed);
    LiveAfterWrite(s.records, Mutate(s, m, now).0.records, m.operations, Mutate(s, m, now).1.revision, now, Plans);
  }

  lemma AllSectionsNamed(ops: seq<Operation>)
    requires forall section | section != Commits :: section in SectionsOf(ops)
    ensures HasSection(ops, Closed) && HasSection(ops, Plans)
  {
    assert Closed in SectionsOf(ops) && Plans in SectionsOf(ops);
  }

  function ClosedPlan(target: string, fence: string, repo: string, n: nat, content: Bytes, digest: string): Plan {
    var put := (section: Section) => Operation(RecordKey(repo, section, ItemId(n)), Some(content), Some(digest), false);
    Plan(target, fence, 1, 1, [put(Closed), put(Plans)], 2 * |content|, None)
  }

  /** And a plan can: a closed record and its plan written together on the empty store. */
  lemma ClosedPlanHappens(target: string, fence: string, repo: string, n: nat, content: Bytes, digest: string, now: int)
    ensures var plan := ClosedPlan(target, fence, repo, n, content, digest);
      && ValidPlan(plan) && Accept(EMPTY_STORE, plan, now).1.Accepted?
      && ClosedWithPlan(Accept(EMPTY_STORE, plan, now).0.records, repo, ItemId(n))
  {
    hide Coherent, Exclusive, Live, Accept;
    var plan := ClosedPlan(target, fence, repo, n, content, digest);
    var ops := plan.operations;
    assert ops[0] in ops && ops[1] in ops;
    EmptyAccepts(plan, now);
    AcceptedClosedPlan(EMPTY_STORE, plan, now);
  }

  lemma EmptyAccepts(plan: Plan, now: int)
    requires ValidPlan(plan) && plan.operations != [] && !BothPrimariesLive(plan.operations)
    ensures StoreInvariant(EMPTY_STORE) && Accept(EMPTY_STORE, plan, now).1.Accepted?
  {
    hide CompleteTuple, WriteTuple, BodyOf, RowOf, ValidTuple, SettlesPrimaries, TupleWritten, Advances,
      BothPrimariesLive, PrunePlans;
    CompletionSummary(plan.operations);
    NothingToPrune(now);
    var all := CompleteTuple(plan.operations).operations;
    FourSections(all);
    WriteTupleLaw(EMPTY_RECORDS, plan.revision, all, Stamp(plan.targetKey, plan.claimGeneration, now));
  }

  lemma NothingToPrune(now: int)
    ensures PrunePlans(map[], now) == map[]
  {
  }
}
