/**
 What a publication plan does to the four sections of one item before it is written: absent
 sections that the new primary makes obsolete are deleted along with it.
 */
module TupleCompletion {
  import opened Basics
  import opened Blobs
  import opened RecordTables

  const MAX_FILES: nat := 4

  datatype Completion = Completed(operations: seq<Operation>) | BothPrimaries | FileLimit

  predicate IsPrimary(section: Section) {
    section == Items || section == Closed
  }

  predicate PrimaryWrite(op: Operation) {
    IsPrimary(op.key.section) && op.content.Some?
  }

  predicate HasSection(ops: seq<Operation>, section: Section) {
    exists op | op in ops :: op.key.section == section
  }

  function AddDelete(ops: seq<Operation>, section: Section): (added: seq<Operation>)
    requires ops != []
    ensures ops <= added && |added| <= |ops| + 1
  {
    if HasSection(ops, section) then ops
    else ops + [Operation(RecordKey(ops[0].key.repo, section, ops[0].key.id), None, None, false)]
  }

  function PrimaryWrites(ops: seq<Operation>): seq<Operation> {
    if ops == [] then [] else (if PrimaryWrite(ops[0]) then [ops[0]] else []) + PrimaryWrites(ops[1..])
  }

  function CompleteTuple(ops: seq<Operation>): (c: Completion)
    requires ops != []
    ensures c.Completed? ==> |ops| <= |c.operations| <= MAX_FILES
  {
    var writes := PrimaryWrites(ops);
    if |writes| > 1 then BothPrimaries else
    var completed :=
      if |writes| == 1 then
        var other := AddDelete(ops, if writes[0].key.section == Items then Closed else Items);
        var planned := if writes[0].key.section == Closed then AddDelete(other, Plans) else other;
        if writes[0].referencesPacket then planned else AddDelete(planned, DecisionPackets)
      else if exists op | op in ops :: IsPrimary(op.key.section) && op.content.None? then
        AddDelete(AddDelete(ops, Plans), DecisionPackets)
      else ops;
    if |completed| > MAX_FILES then FileLimit else Completed(completed)
  }

  predicate DistinctSections(ops: seq<Operation>) {
    forall i, j | 0 <= i < j < |ops| :: ops[i].key.section != ops[j].key.section
  }

  /** All operations belong to the tuple (repo, item). */
  predicate SameTuple(ops: seq<Operation>, repo: string, id: RecordId) {
    forall op | op in ops :: op.key.repo == repo && op.key.id == id
  }

  /** What the validators leave: one to four valid operations on distinct sections of one item. */
  predicate ValidTuple(ops: seq<Operation>) {
    && ops != []
    && (forall op | op in ops :: ValidOperation(op))
    && DistinctSections(ops)
    && SameTuple(ops, ops[0].key.repo, ops[0].key.id)
  }

  function SectionsOf(ops: seq<Operation>): set<Section> {
    set op | op in ops :: op.key.section
  }

  lemma SectionsAppend(ops: seq<Operation>, last: Operation)
    requires forall op | op in ops :: op.key.section != last.key.section
    ensures |SectionsOf(ops + [last])| == |SectionsOf(ops)| + 1
  {
    assert SectionsOf(ops + [last]) == SectionsOf(ops) + {last.key.section};
    assert last.key.section !in SectionsOf(ops);
  }

  lemma {:induction false} SectionCount(ops: seq<Operation>)
    requires DistinctSections(ops)
    ensures |SectionsOf(ops)| == |ops|
  {
    if ops == [] {
      assert SectionsOf(ops) == {};
    } else {
      hide SectionsOf;
      var init, last := ops[..|ops|-1], ops[|ops|-1];
      SectionCount(init);
      SectionsAppend(init, last);
      assert ops == init + [last];
    }
  }

  lemma FourSections(ops: seq<Operation>)
    requires ValidTuple(ops)
    ensures |ops| <= MAX_FILES
  {
    var all := {Items, Closed, Plans, DecisionPackets};
    SectionCount(ops);
    assert SectionsOf(ops) <= all;
    assert all == SectionsOf(ops) + (all - SectionsOf(ops));
    assert |all| == 4;
  }

  /** `all` extends the plan `ops` of the same tuple by deletions of further sections. */
  ghost predicate OnlyAddsDeletes(ops: seq<Operation>, all: seq<Operation>) {
    && ValidTuple(all)
    && 0 < |ops| <= |all| && (forall i | 0 <= i < |ops| :: all[i] == ops[i])
    && (forall op | op in all :: op in ops || op.content.None?)
  }

  lemma AddDeleteLaw(ops: seq<Operation>, mid: seq<Operation>, section: Section)
    requires OnlyAddsDeletes(ops, mid) && section != Commits
    ensures OnlyAddsDeletes(ops, AddDelete(mid, section))
    ensures HasSection(AddDelete(mid, section), section)
    ensures forall other | HasSection(mid, other) :: HasSection(AddDelete(mid, section), other)
  {
    var added := AddDelete(mid, section);
    assert mid[0] in mid;
    if added != mid {
      assert added[|mid|] in added && added[|mid|].key.section == section;
      forall other | HasSection(mid, other) ensures HasSection(added, other) {
        var op :| op in mid && op.key.section == other;
        assert op in added;
      }
    }
  }

  lemma {:induction false} PrimaryWritesLaw(ops: seq<Operation>)
    requires DistinctSections(ops)
    ensures forall op :: op in PrimaryWrites(ops) <==> op in ops && PrimaryWrite(op)
    ensures DistinctSections(PrimaryWrites(ops))
  {
    if ops != [] {
      var rest := ops[1..];
      assert ops == [ops[0]] + rest;
      assert forall i | 0 <= i < |rest| :: rest[i] == ops[i + 1];
      PrimaryWritesLaw(rest);
      forall op | op in PrimaryWrites(rest) ensures op.key.section != ops[0].key.section {
        assert op in rest;
      }
    }
  }

  /** A live primary comes with a decision on the other primary, and on the sidecars it disowns. */
  ghost predicate Settles(all: seq<Operation>, primary: Operation) {
    && HasSection(all, if primary.key.section == Items then Closed else Items)
    && (primary.key.section == Closed ==> HasSection(all, Plans))
    && (!primary.referencesPacket ==> HasSection(all, DecisionPackets))
  }

  /** The operations a single primary write grows to. */
  function SettledBy(ops: seq<Operation>, primary: Operation): seq<Operation>
    requires ops != []
  {
    var other := AddDelete(ops, if primary.key.section == Items then Closed else Items);
    var planned := if primary.key.section == Closed then AddDelete(other, Plans) else other;
    if primary.referencesPacket then planned else AddDelete(planned, DecisionPackets)
  }

  lemma SettledByLaw(ops: seq<Operation>, primary: Operation)
    requires ValidTuple(ops)
    ensures OnlyAddsDeletes(ops, SettledBy(ops, primary))
    ensures Settles(SettledBy(ops, primary), primary)
  {
    var opposite := if primary.key.section == Items then Closed else Items;
    var other := AddDelete(ops, opposite);
    var planned := if primary.key.section == Closed then AddDelete(other, Plans) else other;
    AddDeleteLaw(ops, ops, opposite);
    AddDeleteLaw(ops, other, Plans);
    AddDeleteLaw(ops, planned, DecisionPackets);
  }

  lemma ValidIsDistinct(ops: seq<Operation>)
    requires ValidTuple(ops)
    ensures ops != [] && DistinctSections(ops) && OnlyAddsDeletes(ops, ops)
  {
  }

  lemma CompletionWithPrimary(ops: seq<Operation>)
    requires ValidTuple(ops) && |PrimaryWrites(ops)| == 1
    ensures CompleteTuple(ops) == Completed(SettledBy(ops, PrimaryWrites(ops)[0]))
  {
    var primary := PrimaryWrites(ops)[0];
    SettledByLaw(ops, primary);
    FourSections(SettledBy(ops, primary));
  }

  lemma CompletionWithoutPrimary(ops: seq<Operation>)
    requires ValidTuple(ops) && |PrimaryWrites(ops)| == 0
    ensures CompleteTuple(ops).Completed?
    ensures OnlyAddsDeletes(ops, CompleteTuple(ops).operations)
    ensures (exists op | op in ops :: IsPrimary(op.key.section)) ==>
      HasSection(CompleteTuple(ops).operations, Plans) && HasSection(CompleteTuple(ops).operations, DecisionPackets)
  {
    hide OnlyAddsDeletes, ValidTuple, AddDelete, HasSection, PrimaryWrites, DistinctSections;
    ValidIsDistinct(ops);
    PrimaryWritesLaw(ops);
    assert forall op | op in ops :: PrimaryWrite(op) ==> op in PrimaryWrites(ops);
    AddDeleteLaw(ops, ops, Plans);
    AddDeleteLaw(ops, AddDelete(ops, Plans), DecisionPackets);
    FourSections(AddDelete(AddDelete(ops, Plans), DecisionPackets));
    FourSections(ops);
  }

  ghost predicate BothPrimariesLive(ops: seq<Operation>) {
    exists a, b :: a in ops && b in ops && PrimaryWrite(a) && PrimaryWrite(b) && a.key.section != b.key.section
  }

  lemma TwoPrimaryWrites(ops: seq<Operation>)
    requires DistinctSections(ops)
    ensures |PrimaryWrites(ops)| > 1 <==> BothPrimariesLive(ops)
  {
    PrimaryWritesLaw(ops);
    var writes := PrimaryWrites(ops);
    if |writes| > 1 {
      assert writes[0] in writes && writes[1] in writes;
      assert BothPrimariesLive(ops);
    } else {
      forall a, b | a in writes && b in writes ensures a == b {}
    }
  }

  /**
   Completing a validated plan fails exactly when it writes both primaries, and never on the file
   limit; otherwise it appends deletions only, and settles the live primary if there is one.
   */
  lemma CompletionLaw(ops: seq<Operation>)
    requires ValidTuple(ops)
    ensures CompleteTuple(ops) != FileLimit
    ensures CompleteTuple(ops) == BothPrimaries <==> BothPrimariesLive(ops)
    ensures CompleteTuple(ops).Completed? ==>
      var all := CompleteTuple(ops).operations;
      && OnlyAddsDeletes(ops, all)
      && (forall primary | primary in ops && PrimaryWrite(primary) :: Settles(all, primary))
  {
    hide OnlyAddsDeletes, ValidTuple, Settles, BothPrimariesLive, SettledBy, HasSection, AddDelete, DistinctSections;
    ValidIsDistinct(ops);
    TwoPrimaryWrites(ops);
    PrimaryWritesLaw(ops);
    var writes := PrimaryWrites(ops);
    if |writes| == 1 {
      CompletionWithPrimary(ops);
      SettledByLaw(ops, writes[0]);
      forall primary | primary in ops && PrimaryWrite(primary) ensures primary == writes[0] {
        assert primary in writes;
      }
    } else if |writes| == 0 {
      CompletionWithoutPrimary(ops);
    }
  }
}
