/**
 What the publication batches answer: who is granted which batch, whose heartbeat extends a lease,
 how a completed batch meets a repeated completion, and what the rows say afterwards.
 */
module BatchAnswers {
  import opened Basics
  import opened PublicationBatches
  import opened BatchLaws

  // ------------------------------------------------------------------ views

  /** A view is the batch row with exactly its members, each as it is stored. */
  lemma ViewShows(s: Tables, b: string)
    requires b in s.batches
    ensures var view := ViewOf(s, b);
      && view.batchId == b && view.batch == s.batches[b]
      && (forall k :: k in view.items <==> MemberKey(b, k) in s.members)
      && (forall k | k in view.items :: view.items[k] == s.members[MemberKey(b, k)])
  {
    forall k ensures k in ViewOf(s, b).items <==> MemberKey(b, k) in s.members {
      assert MemberKey(b, k) in s.members ==> MemberKey(b, k) in MembersOf(s, b);
      forall mk | mk in MembersOf(s, b) && mk.itemKey == k ensures mk == MemberKey(b, k) {}
    }
  }

  /** Reclaiming expires exactly the leases that have lapsed, and releases exactly their unfinished members. */
  lemma ReclaimRows(s: Tables, now: int)
    ensures var r := Reclaim(s, now);
      && r.generations == s.generations && r.batches.Keys == s.batches.Keys && r.members.Keys == s.members.Keys
      && (forall b | b in s.batches ::
            r.batches[b] == if s.batches[b].state == Leased && s.batches[b].expiresAt <= now
                            then s.batches[b].(state := Expired, completedAt := Some(now)) else s.batches[b])
      && (forall mk | mk in s.members ::
            var released := mk.batchId in s.batches && s.batches[mk.batchId].state == Leased
              && s.batches[mk.batchId].expiresAt <= now && s.members[mk].outcome.None?;
            r.members[mk] == if released then s.members[mk].(outcome := Some(LeaseExpired)) else s.members[mk])
  {
  }

  // ------------------------------------------------------------------ claims

  /** A claim that names an existing batch gets it exactly as its lessee, as it is, and changes nothing. */
  lemma ExistingBatchAnswer(s: Tables, req: ClaimRequest, now: int)
    requires req.batchId in s.batches
    ensures var r := Reclaim(s, now);
      var (after, outcome) := Claim(s, req, now);
      && req.batchId in r.batches && after == r
      && (outcome.Granted? <==> r.batches[req.batchId].state == Leased && r.batches[req.batchId].owner == req.owner)
      && (outcome.Granted? ==> outcome.view == ViewOf(r, req.batchId))
      && (!outcome.Granted? ==> outcome == Declined)
  {
    hide ViewOf, ReclaimedBatch, ReclaimedMember;
  }

  /** A new batch finds room only below the cap, which is at least one, and must allow for an item. */
  lemma NoRoomAnswer(s: Tables, req: ClaimRequest, now: int)
    requires req.batchId !in s.batches
    ensures var r := Reclaim(s, now);
      var cap := if req.maxConcurrent.Some? && req.maxConcurrent.value > 1 then req.maxConcurrent.value else 1;
      var (after, outcome) := Claim(s, req, now);
      && (|LeasedBatches(r)| >= cap ==> after == r && outcome == Declined)
      && (|LeasedBatches(r)| < cap && req.maxItems < 1 ==> after == s && outcome == ConstraintFailed)
      && (outcome.ConstraintFailed? ==> req.maxItems < 1)
  {
    hide Filled, ViewOf, MembersOf, LeasedBatches, ReclaimedBatch, ReclaimedMember;
  }

  /** The row a new batch is given: leased to its claimant as asked for. */
  function NewRow(req: ClaimRequest, now: int): Batch {
    Batch(Leased, req.owner, req.expiresAt, req.maxItems, now, None, None, None, map[])
  }

  /**
   With room a new batch takes its candidates, and is granted exactly when that leaves it a member;
   otherwise its row goes again and only the generations have moved. No other batch changes.
   */
  lemma NewBatchAnswer(s: Tables, req: ClaimRequest, now: int)
    requires req.batchId !in s.batches && req.maxItems >= 1
    requires |LeasedBatches(Reclaim(s, now))| <
      if req.maxConcurrent.Some? && req.maxConcurrent.value > 1 then req.maxConcurrent.value else 1
    ensures var r, b := Reclaim(s, now), req.batchId;
      var filled := EnrollAll(r.(batches := r.batches[b := NewRow(req, now)]), b, req.candidates, req.maxItems);
      var (after, outcome) := Claim(s, req, now);
      && b in filled.batches && filled.batches == r.batches[b := NewRow(req, now)]
      && (outcome.Granted? <==> exists mk :: mk in filled.members && mk.batchId == b)
      && (outcome.Granted? ==> after == filled && outcome == Granted(ViewOf(filled, b)))
      && (!outcome.Granted? ==> after == filled.(batches := r.batches) && outcome == Declined)
  {
    hide EnrollAll, ViewOf, LeasedBatches, ReclaimedBatch, ReclaimedMember;
    var r, b := Reclaim(s, now), req.batchId;
    EnrollKeepsBatches(Opened(r, req, now), b, req.candidates, req.maxItems);
    assert r.batches[b := NewRow(req, now)] - {b} == r.batches;
    HasMembers(Filled(r, req, now), b);
  }

  lemma HasMembers(s: Tables, b: string)
    ensures MembersOf(s, b) != {} <==> exists mk :: mk in s.members && mk.batchId == b
  {
    if mk :| mk in s.members && mk.batchId == b {
      assert mk in MembersOf(s, b);
    }
  }

  /** One candidate: its item's generation moves by one, and it joins the batch when nobody owns the item. */
  lemma EnrollRows(s: Tables, b: string, c: Candidate)
    ensures var after, mk := Enroll(s, b, c), MemberKey(b, c.itemKey);
      var joins := mk !in s.members && !Owned(s.members, c.itemKey) && c.revision >= 1;
      && after.batches == s.batches
      && after.generations == s.generations[c.itemKey := Generation(s, c.itemKey) + 1]
      && after.members == if joins
           then s.members[mk := Member(c.revision, Generation(s, c.itemKey) + 1, None)] else s.members
  {
  }

  /** The first n candidates one after the other. */
  function EnrollFirst(s: Tables, b: string, candidates: seq<Candidate>, n: nat): Tables
    requires n <= |candidates|
  {
    if n == 0 then s else Enroll(EnrollFirst(s, b, candidates, n - 1), b, candidates[n-1])
  }

  lemma {:induction false} EnrollFirstShifts(s: Tables, b: string, candidates: seq<Candidate>, n: nat)
    requires 0 < n <= |candidates|
    ensures EnrollFirst(s, b, candidates, n) == EnrollFirst(Enroll(s, b, candidates[0]), b, candidates[1..], n - 1)
  {
    hide Enroll;
    if n > 1 { EnrollFirstShifts(s, b, candidates, n - 1); }
  }

  /** Candidates are taken in order until the batch is full or none is left, and no generation moves after that. */
  lemma {:induction false} EnrollsUntilFull(s: Tables, b: string, candidates: seq<Candidate>, maxItems: int, n: nat)
    requires n <= |candidates|
    requires forall i | 0 <= i < n :: |UnfinishedOf(EnrollFirst(s, b, candidates, i), b)| < maxItems
    requires n == |candidates| || |UnfinishedOf(EnrollFirst(s, b, candidates, n), b)| >= maxItems
    ensures EnrollAll(s, b, candidates, maxItems) == EnrollFirst(s, b, candidates, n)
    decreases n
  {
    hide Enroll, UnfinishedOf;
    if n > 0 {
      assert EnrollFirst(s, b, candidates, 0) == s;
      var next, rest := Enroll(s, b, candidates[0]), candidates[1..];
      forall i | 0 < i <= n ensures EnrollFirst(s, b, candidates, i) == EnrollFirst(next, b, rest, i - 1) {
        EnrollFirstShifts(s, b, candidates, i);
      }
      forall i | 0 <= i < n - 1 ensures |UnfinishedOf(EnrollFirst(next, b, rest, i), b)| < maxItems {
        assert EnrollFirst(s, b, candidates, i + 1) == EnrollFirst(next, b, rest, i);
      }
      EnrollsUntilFull(next, b, rest, maxItems, n - 1);
    }
  }

  // ------------------------------------------------------------------ heartbeats

  /** These fences name members of the batch, one each, and leave no unfinished one out. */
  predicate NamesItsMembers(s: Tables, b: string, fences: seq<Fence>) {
    && (forall i, j | 0 <= i < j < |fences| :: fences[i].itemKey != fences[j].itemKey)
    && (forall f | f in fences ::
          var mk := MemberKey(b, f.itemKey);
          mk in s.members && s.members[mk].revision == f.revision && s.members[mk].generation == f.generation)
    && (forall mk | mk in s.members && mk.batchId == b && s.members[mk].outcome.None? ::
          exists f | f in fences :: f.itemKey == mk.itemKey)
  }

  /** A heartbeat succeeds exactly for the lessee of a running lease who names its members. */
  lemma HeartbeatAnswer(s: Tables, b: string, owner: string, fences: seq<Fence>, expiresAt: int, now: int)
    ensures var r := Reclaim(s, now);
      var (after, view) := Heartbeat(s, b, owner, fences, expiresAt, now);
      && (view.Some? <==>
            b in r.batches && r.batches[b].state == Leased && r.batches[b].owner == owner && NamesItsMembers(r, b, fences))
      && (view.None? ==> after == r)
      && (view.Some? ==>
            && after == r.(batches := r.batches[b := r.batches[b].(expiresAt := Max(r.batches[b].expiresAt, expiresAt))])
            && view == Some(ViewOf(after, b)))
  {
    hide ReclaimedBatch, ReclaimedMember, ViewOf, NamesItsMembers, ProvesBatch;
    ProvesExactly(Reclaim(s, now), b, fences);
  }

  lemma ProvesExactly(s: Tables, b: string, fences: seq<Fence>)
    ensures ProvesBatch(s, b, fences) <==> NamesItsMembers(s, b, fences)
  {
    if ProvesBatch(s, b, fences) {
      forall mk | mk in s.members && mk.batchId == b && s.members[mk].outcome.None?
        ensures exists f | f in fences :: f.itemKey == mk.itemKey
      {
        assert mk in UnfinishedOf(s, b);
      }
    }
    if NamesItsMembers(s, b, fences) {
      forall f | f in fences ensures Matches(s, b, f) {}
    }
  }

  /** Fences for exactly the members a batch has. */
  ghost predicate FencesOf(s: Tables, b: string, fences: seq<Fence>) {
    && (forall i, j | 0 <= i < j < |fences| :: fences[i].itemKey != fences[j].itemKey)
    && (forall f | f in fences :: Matches(s, b, f))
    && (forall mk | mk in MembersOf(s, b) :: exists f | f in fences :: f.itemKey == mk.itemKey)
  }

  /**
   The fences a batch was granted with keep its lease alive for as long as it runs: whatever was
   completed, observed or claimed since, its lessee's heartbeat fails only once the lease is over.
   */
  lemma GrantedFencesSuffice(
      s: Tables, steps: seq<Step>, b: string, fences: seq<Fence>, expiresAt: int, now: int)
    requires Sound(s) && Throughout(s, steps, b) && b in s.batches && FencesOf(s, b, fences)
    ensures var later := Run(s, steps);
      && b in later.batches
      && (Heartbeat(later, b, s.batches[b].owner, fences, expiresAt, now).1.Some? <==>
            later.batches[b].state == Leased && later.batches[b].expiresAt > now)
  {
    hide SoundBut, Follows, Run, Heartbeat, Throughout, NamesItsMembers, FencesOf, Reclaim;
    RunLaw(s, steps);
    var later := Run(s, steps);
    ReclaimRows(later, now);
    HeartbeatAnswer(later, b, s.batches[b].owner, fences, expiresAt, now);
    KeptFences(s, later, b, fences, now);
  }

  lemma KeptFences(s: Tables, later: Tables, b: string, fences: seq<Fence>, now: int)
    requires BatchKept(s, later, b) && FencesOf(s, b, fences)
    ensures NamesItsMembers(Reclaim(later, now), b, fences)
  {
    var r := Reclaim(later, now);
    forall f | f in fences
      ensures var mk := MemberKey(b, f.itemKey);
        mk in r.members && r.members[mk].revision == f.revision && r.members[mk].generation == f.generation
    {
      assert Matches(s, b, f) && MemberKey(b, f.itemKey) in MembersOf(s, b);
      assert MemberKey(b, f.itemKey) in MembersOf(later, b);
    }
    forall mk | mk in r.members && mk.batchId == b && r.members[mk].outcome.None?
      ensures exists f | f in fences :: f.itemKey == mk.itemKey
    {
      assert mk in MembersOf(later, b);
    }
  }

  // ------------------------------------------------------------------ observations

  /** The lessee's observation of a stage is noted once, whatever the state of the batch. */
  lemma ObserveAnswer(s: Tables, b: string, owner: string, stage: Stage, at: int)
    ensures var (after, view) := Observe(s, b, owner, stage, at);
      && (view.Some? <==> b in s.batches && s.batches[b].owner == owner)
      && (view.None? ==> after == s)
      && (view.Some? ==>
            var observed := s.batches[b].observed;
            && view == Some(ViewOf(after, b))
            && after == s.(batches := s.batches[b := s.batches[b].(
                 observed := if stage in observed then observed else observed[stage := at])]))
  {
    hide ViewOf;
  }

  // ------------------------------------------------------------------ completion

  /** A call by anyone but the lessee, or on an unknown batch, is refused. */
  lemma StrangerIsRefused(s: Tables, call: Call, now: int, handoff: bool)
    requires call.batchId !in s.batches || s.batches[call.batchId].owner != call.owner
    ensures Complete(s, call, now, handoff) == (Reclaim(s, now), Refused)
  {
    hide ReclaimedMember, ViewOf, AcceptedOf, Settle;
  }

  /** On a finished batch a call is acknowledged exactly when every fence it names is a member's, and changes nothing. */
  lemma FinishedBatchAnswer(s: Tables, call: Call, now: int, handoff: bool)
    requires call.batchId in s.batches && s.batches[call.batchId].owner == call.owner
    requires Reclaim(s, now).batches[call.batchId].state != Leased
    ensures var r := Reclaim(s, now);
      var (after, outcome) := Complete(s, call, now, handoff);
      var known := forall c | c in call.completions ::
        var mk := MemberKey(call.batchId, c.fence.itemKey);
        mk in r.members && r.members[mk].revision == c.fence.revision && r.members[mk].generation == c.fence.generation;
      after == r && outcome == if known then Acknowledged(ViewOf(r, call.batchId), []) else Refused
  {
    hide ViewOf, AcceptedOf, Settle, ReclaimedMember;
    forall c | c in call.completions
      ensures Matches(Reclaim(s, now), call.batchId, c.fence) <==>
        var mk, r := MemberKey(call.batchId, c.fence.itemKey), Reclaim(s, now);
        mk in r.members && r.members[mk].revision == c.fence.revision && r.members[mk].generation == c.fence.generation
    {
    }
  }

  /**
   On a running lease a call always comes back: with what it handed off and the settled batch, or,
   when the hand-off fails, with the tables as they were before the call, lapsed leases included.
   */
  lemma RunningBatchAnswer(s: Tables, call: Call, now: int, handoff: bool)
    requires call.batchId in s.batches && s.batches[call.batchId].owner == call.owner
    requires Reclaim(s, now).batches[call.batchId].state == Leased
    ensures var r := Reclaim(s, now);
      var (after, outcome) := Complete(s, call, now, handoff);
      && (!handoff ==> after == s && outcome == HandoffFailed)
      && (handoff ==>
            && call.batchId in after.batches && outcome.Acknowledged? && outcome.view == ViewOf(after, call.batchId)
            && outcome.accepted == AcceptedOf(r, call.batchId, call.completions)
            && after.generations == s.generations
            && after.batches == r.batches[call.batchId := after.batches[call.batchId]])
  {
    hide ViewOf, AcceptedOf, ReclaimedMember, FinishedMember, ClosedBatch;
  }

  /** What is handed off is what the batch holds of the call, in the order and as often as it was named. */
  lemma {:induction false} HandedOffInOrder(s: Tables, b: string, first: seq<Completion>, rest: seq<Completion>, c: Completion)
    ensures AcceptedOf(s, b, first + rest) == AcceptedOf(s, b, first) + AcceptedOf(s, b, rest)
    ensures AcceptedOf(s, b, [c]) == if Holds(s, b, c.fence) then [c] else []
  {
    hide Holds;
    assert AcceptedOf(s, b, [c][1..]) == [];
    if first == [] {
      assert first + rest == rest;
    } else {
      HandedOffInOrder(s, b, first[1..], rest, c);
      assert (first + rest)[1..] == first[1..] + rest && (first + rest)[0] == first[0];
    }
  }

  /** What the call leaves in the batch row: metadata only with a hand-off and only once, the close with the last member. */
  lemma SettledRow(s: Tables, call: Call, now: int)
    requires call.batchId in s.batches && s.batches[call.batchId].owner == call.owner
    requires Reclaim(s, now).batches[call.batchId].state == Leased
    ensures var b, after := call.batchId, Complete(s, call, now, true).0;
      var handedOff := AcceptedOf(Reclaim(s, now), b, call.completions) != [];
      && b in after.batches
      && var was, row, closed := s.batches[b], after.batches[b], UnfinishedOf(after, b) == {};
      && row.owner == was.owner && row.expiresAt == was.expiresAt && row.size == was.size
      && row.createdAt == was.createdAt && row.observed == was.observed
      && row.commitSha == (if handedOff && was.commitSha.None? then call.commitSha else was.commitSha)
      && row.failure == (if handedOff && was.failure.None? then call.failure else was.failure)
      && row.state == (if closed then Completed else Leased)
      && row.completedAt == (if closed then Some(now) else was.completedAt)
  {
    hide ViewOf, AcceptedOf, ReclaimedMember, FinishedMember;
    var r := Reclaim(s, now);
    SameUnfinished(r, call, now);
  }

  lemma SameUnfinished(r: Tables, call: Call, now: int)
    requires call.batchId in r.batches
    ensures UnfinishedOf(Settle(r, call, now), call.batchId)
         == UnfinishedOf(Finish(r, call.batchId, call.completions), call.batchId)
  {
    hide FinishedMember, AcceptedOf, ClosedBatch;
  }

  /** A fence is owned exactly while a leased batch has it as an unfinished member. */
  lemma OwnsExactly(s: Tables, f: Fence)
    ensures OwnsActiveFence(s, f) <==>
      exists b | b in s.batches ::
        && s.batches[b].state == Leased && MemberKey(b, f.itemKey) in s.members
        && s.members[MemberKey(b, f.itemKey)].outcome.None?
        && s.members[MemberKey(b, f.itemKey)].revision == f.revision
        && s.members[MemberKey(b, f.itemKey)].generation == f.generation
  {
  }

  // ------------------------------------------------------------------ reports

  /** Each count of the report is the number of batches or members it names, as they are after the cleanup. */
  lemma ReportCounts(s: Tables, now: int, ttl: int, limit: int)
    ensures var (after, report) := Stats(s, now, ttl, limit);
      && report.leased == |set b | b in after.batches && after.batches[b].state == Leased|
      && report.completed == |set b | b in after.batches && after.batches[b].state == Completed|
      && report.expired == |set b | b in after.batches && after.batches[b].state == Expired|
      && report.reclaimedItemsRetained == |set mk | mk in after.members && after.members[mk].outcome == Some(LeaseExpired)|
      && report.limit == limit && report.active == SnapshotOf(after, now)
  {
    hide SnapshotOf, Reclaim, CleanupIds, WithoutBatches;
  }

  /** What cleanup may delete: finished batches, by their time of finishing. */
  lemma EligibleExactly(s: Tables, cutoff: int, b: string)
    requires Sound(s)
    ensures b in Eligible(s, cutoff) <==>
      b in s.batches && s.batches[b].state != Leased && s.batches[b].completedAt.value <= cutoff
  {
    if b in s.batches { assert BatchSound(s, b); }
  }
}
