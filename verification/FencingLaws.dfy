/**
 What the fence of a lease is worth: who owns an item, which fences are dead for good, that an
 accepted completion is accepted once, and that replays are harmless.
 */
module FencingLaws {
  import opened Basics
  import opened Counting
  import opened SqlOrder
  import opened PublicationBatches
  import opened BatchLaws

  // ------------------------------------------------------------------ dead fences

  predicate Issued(s: Tables, f: Fence) {
    f.generation <= Generation(s, f.itemKey)
  }

  /** Some leased batch still has the membership, finished or not. */
  predicate Live(s: Tables, f: Fence) {
    exists b | b in s.batches :: s.batches[b].state == Leased && Matches(s, b, f)
  }

  /** An issued fence that is not live, or not owning, will not become so again. */
  lemma DeathIsFinal(before: Tables, after: Tables, f: Fence)
    requires Follows(before, after) && Issued(before, f)
    ensures Live(after, f) ==> Live(before, f)
    ensures OwnsActiveFence(after, f) ==> OwnsActiveFence(before, f)
    ensures Issued(after, f)
  {
    forall b | b in after.batches && after.batches[b].state == Leased && Matches(after, b, f)
      ensures b in before.batches && before.batches[b].state == Leased && Matches(before, b, f)
      ensures Holds(after, b, f) ==> Holds(before, b, f)
    {
      assert Continues(before, after, MemberKey(b, f.itemKey));
    }
  }

  /** A heartbeat or completion succeeds for a fence only while some leased batch has it. */
  lemma UsesNeedLife(s: Tables, f: Fence, now: int)
    requires Sound(s) && Issued(s, f) && !Live(s, f)
    ensures !OwnsActiveFence(Reclaim(s, now), f)
    ensures forall b, owner, fences, expiresAt | f in fences :: Heartbeat(s, b, owner, fences, expiresAt, now).1.None?
    ensures forall call, handoff | Complete(s, call, now, handoff).1.Acknowledged? ::
      forall c | c in Complete(s, call, now, handoff).1.accepted :: c.fence != f
  {
    hide SoundBut, Follows, Issued;
    var r := Reclaim(s, now);
    ReclaimLaw(s, now);
    DeathIsFinal(s, r, f);
    HoldingIsLive(r, f);
    forall b, owner, fences, expiresAt | f in fences
      ensures Heartbeat(s, b, owner, fences, expiresAt, now).1.None?
    {
      HeartbeatNeedsLife(s, b, owner, fences, expiresAt, now, f);
    }
    forall call, handoff | Complete(s, call, now, handoff).1.Acknowledged?
      ensures forall c | c in Complete(s, call, now, handoff).1.accepted :: c.fence != f
    {
      AcceptedHold(s, call, now, handoff);
    }
  }

  lemma HoldingIsLive(s: Tables, f: Fence)
    ensures OwnsActiveFence(s, f) ==> Live(s, f)
  {
  }

  lemma HeartbeatNeedsLife(
      s: Tables, b: string, owner: string, fences: seq<Fence>, expiresAt: int, now: int, f: Fence)
    requires f in fences && !Live(Reclaim(s, now), f)
    ensures Heartbeat(s, b, owner, fences, expiresAt, now).1.None?
  {
    hide Reclaim, Matches, DistinctFences;
  }

  lemma {:induction false} AcceptedOfAre(s: Tables, b: string, completions: seq<Completion>)
    ensures forall c :: c in AcceptedOf(s, b, completions) <==> c in completions && Holds(s, b, c.fence)
    ensures AcceptedOf(s, b, completions) == [] <==> forall c | c in completions :: !Holds(s, b, c.fence)
  {
    if completions != [] {
      AcceptedOfAre(s, b, completions[1..]);
      assert completions == [completions[0]] + completions[1..];
    }
  }

  /** What is handed off was owned, by a lease that had not lapsed. */
  lemma AcceptedHold(s: Tables, call: Call, now: int, handoff: bool)
    ensures Complete(s, call, now, handoff).1.Acknowledged? ==>
      forall c | c in Complete(s, call, now, handoff).1.accepted ::
        c in call.completions && OwnsActiveFence(Reclaim(s, now), c.fence)
  {
    hide Reclaim, Settle, ViewOf, Holds, AcceptedOf;
    var r := Reclaim(s, now);
    AcceptedOfAre(r, call.batchId, call.completions);
  }

  /**
   Once no leased batch has a fence, it is refused for good: it owns nothing, no heartbeat that
   names it succeeds and no completion of it is accepted, whatever happens in between.
   */
  lemma DeadFenceIsRefused(s: Tables, f: Fence, steps: seq<Step>, now: int)
    requires Sound(s) && Issued(s, f) && !Live(s, f)
    ensures var t := Run(s, steps);
      && !OwnsActiveFence(Reclaim(t, now), f)
      && (forall b, owner, fences, expiresAt | f in fences :: Heartbeat(t, b, owner, fences, expiresAt, now).1.None?)
      && (forall call, handoff | Complete(t, call, now, handoff).1.Acknowledged? ::
            forall c | c in Complete(t, call, now, handoff).1.accepted :: c.fence != f)
  {
    hide SoundBut, Follows, Issued, Live, Run, OwnsActiveFence, Heartbeat, Complete;
    RunLaw(s, steps);
    DeathIsFinal(s, Run(s, steps), f);
    UsesNeedLife(Run(s, steps), f, now);
  }

  // ------------------------------------------------------------------ one owner

  /** At most one fence owns an item. */
  lemma OwnersAreUnique(s: Tables, f: Fence, g: Fence)
    requires Sound(s) && OwnsActiveFence(s, f) && OwnsActiveFence(s, g) && f.itemKey == g.itemKey
    ensures f == g
  {
    var a :| a in s.batches && s.batches[a].state == Leased && Holds(s, a, f);
    var b :| b in s.batches && s.batches[b].state == Leased && Holds(s, b, g);
    assert s.members[MemberKey(a, f.itemKey)].outcome.None? && s.members[MemberKey(b, f.itemKey)].outcome.None?;
    assert MemberKey(a, f.itemKey) == MemberKey(b, f.itemKey);
  }

  /**
   An unfinished membership has the greatest generation its item was ever given: every membership
   that existed at any earlier moment, deleted since or not, is the same one or an older one.
   */
  lemma LatestLeaseOwns(s: Tables, earlier: MemberKey, steps: seq<Step>, owner: MemberKey)
    requires Sound(s) && earlier in s.members
    requires owner in Run(s, steps).members && Run(s, steps).members[owner].outcome.None?
    requires owner.itemKey == earlier.itemKey
    ensures s.members[earlier].generation <= Run(s, steps).members[owner].generation
    ensures s.members[earlier].generation == Run(s, steps).members[owner].generation ==> earlier == owner
  {
    hide Run, BatchSound, Occupied;
    RunLaw(s, steps);
    var t := Run(s, steps);
    assert MemberSound(s, earlier);
    assert Continues(s, t, owner) || t.members[owner].generation > Generation(s, owner.itemKey);
  }

  /** No two memberships ever created for one item, however far apart, share a generation. */
  lemma GenerationNamesOneMembership(s: Tables, earlier: MemberKey, steps: seq<Step>, later: MemberKey)
    requires Sound(s) && earlier in s.members && later in Run(s, steps).members
    requires earlier.itemKey == later.itemKey
    requires s.members[earlier].generation == Run(s, steps).members[later].generation
    ensures earlier == later && MemberLater(s.members[earlier], Run(s, steps).members[later])
  {
    hide Run, BatchSound, Occupied, BatchLater;
    RunLaw(s, steps);
    assert MemberSound(s, earlier);
    assert Continues(s, Run(s, steps), later);
  }

  // ------------------------------------------------------------------ accepted once

  lemma {:induction false} ReportedOutcome(completions: seq<Completion>, f: Fence)
    ensures FirstOutcome(completions, f).Some? <==> exists c :: c in completions && c.fence == f
  {
    if completions != [] {
      ReportedOutcome(completions[1..], f);
      assert completions == [completions[0]] + completions[1..];
    }
  }

  /** After a completion none of its fences owns its item through this batch. */
  lemma SettledMembers(r: Tables, call: Call, now: int, f: Fence)
    requires call.batchId in r.batches && (exists c :: c in call.completions && c.fence == f)
    ensures !Holds(Settle(r, call, now), call.batchId, f)
  {
    hide ClosedBatch, AcceptedOf, UnfinishedOf;
    ReportedOutcome(call.completions, f);
    var mk := MemberKey(call.batchId, f.itemKey);
    if mk in r.members && r.members[mk].outcome.None? && FenceOf(mk, r.members[mk]) == f {
      assert Settle(r, call, now).members[mk].outcome.Some?;
    }
  }

  /** The batch an issued fence owned its item through is the only one it can ever own it through. */
  lemma SettledIsReleased(r: Tables, call: Call, now: int, f: Fence)
    requires Sound(r) && call.batchId in r.batches && r.batches[call.batchId].state == Leased
    requires Holds(r, call.batchId, f) && exists c :: c in call.completions && c.fence == f
    ensures !OwnsActiveFence(Settle(r, call, now), f) && Issued(Settle(r, call, now), f)
  {
    hide ClosedBatch, AcceptedOf, UnfinishedOf, FirstOutcome, Occupied, BatchSound;
    var after := Settle(r, call, now);
    SettledMembers(r, call, now, f);
    assert MemberSound(r, MemberKey(call.batchId, f.itemKey));
    forall b | b != call.batchId ensures !Holds(after, b, f) {
      if MemberKey(b, f.itemKey) in r.members {
        assert r.members[MemberKey(b, f.itemKey)].generation != r.members[MemberKey(call.batchId, f.itemKey)].generation;
      }
    }
  }

  /** No completion is accepted twice: the hand-off of a fence happens in at most one transaction. */
  lemma AcceptedOnce(
      s: Tables, call: Call, now: int, done: Completion, steps: seq<Step>, again: Call, later: int, handoff: bool)
    requires Sound(s) && Complete(s, call, now, true).1.Acknowledged?
    requires done in Complete(s, call, now, true).1.accepted
    ensures var retry := Complete(Run(Complete(s, call, now, true).0, steps), again, later, handoff).1;
      retry.Acknowledged? ==> forall c | c in retry.accepted :: c.fence != done.fence
  {
    hide SoundBut, Follows, Settle, Run, Issued, OwnsActiveFence, Holds, ViewOf, AcceptedOf, Reclaim;
    var r := Reclaim(s, now);
    ReclaimLaw(s, now);
    AcceptedOfAre(r, call.batchId, call.completions);
    SettledIsReleased(r, call, now, done.fence);
    CompleteSound(s, call, now, true);
    var after := Complete(s, call, now, true).0;
    RunLaw(after, steps);
    var t := Run(after, steps);
    DeathIsFinal(after, t, done.fence);
    ReclaimLaw(t, later);
    DeathIsFinal(t, Reclaim(t, later), done.fence);
    AcceptedHold(t, again, later, handoff);
  }

  /** The outcome reported first for a fence. */
  lemma {:induction false} FirstOutcomeIs(completions: seq<Completion>, f: Fence, i: nat)
    requires i < |completions| && completions[i].fence == f && forall j | 0 <= j < i :: completions[j].fence != f
    ensures FirstOutcome(completions, f) == Some(completions[i].outcome)
  {
    if i > 0 {
      assert completions[0].fence != f;
      FirstOutcomeIs(completions[1..], f, i - 1);
    }
  }

  /**
   What an accepted call records: each unfinished member of the batch takes the outcome its fence
   was first given, all others stay; the batch closes exactly when that leaves no member unfinished.
   */
  lemma CompleteLaw(s: Tables, call: Call, now: int, mk: MemberKey)
    requires Sound(s) && mk in s.members && call.batchId in Reclaim(s, now).batches
    requires Reclaim(s, now).batches[call.batchId].state == Leased && Reclaim(s, now).batches[call.batchId].owner == call.owner
    ensures var r, after := Reclaim(s, now), Complete(s, call, now, true).0;
      var f := FenceOf(mk, s.members[mk]);
      && mk in r.members && mk in after.members && call.batchId in after.batches
      && (mk.batchId != call.batchId || r.members[mk].outcome.Some? ==> after.members[mk] == r.members[mk])
      && (mk.batchId == call.batchId && r.members[mk].outcome.None? ==>
            && (after.members[mk].outcome.None? <==> forall c | c in call.completions :: c.fence != f)
            && (forall i | 0 <= i < |call.completions| && call.completions[i].fence == f
                  && (forall j | 0 <= j < i :: call.completions[j].fence != f) ::
                  after.members[mk].outcome == Some(call.completions[i].outcome)))
      && (after.batches[call.batchId].state == Completed <==> UnfinishedOf(after, call.batchId) == {})
  {
    hide SoundBut, Follows, FirstOutcome, AcceptedOf, ViewOf;
    var f := FenceOf(mk, s.members[mk]);
    ReportedOutcome(call.completions, f);
    forall i | 0 <= i < |call.completions| && call.completions[i].fence == f
      && (forall j | 0 <= j < i :: call.completions[j].fence != f)
      ensures FirstOutcome(call.completions, f) == Some(call.completions[i].outcome)
    {
      FirstOutcomeIs(call.completions, f, i);
    }
    SettleUnfinished(Reclaim(s, now), call, now);
  }

  lemma SettleUnfinished(r: Tables, call: Call, now: int)
    requires call.batchId in r.batches
    ensures UnfinishedOf(Settle(r, call, now), call.batchId)
         == UnfinishedOf(Finish(r, call.batchId, call.completions), call.batchId)
  {
  }

  // ------------------------------------------------------------------ replays

  /** This owner can no longer complete this fence through this batch. */
  predicate Done(s: Tables, b: string, owner: string, f: Fence) {
    b in s.batches && s.batches[b].state == Leased && s.batches[b].owner == owner ==> !Holds(s, b, f)
  }

  lemma DoneIsFinal(before: Tables, after: Tables, b: string, owner: string, f: Fence)
    requires Follows(before, after) && Issued(before, f) && Done(before, b, owner, f)
    ensures Done(after, b, owner, f)
  {
    if b in after.batches && Holds(after, b, f) {
      assert Continues(before, after, MemberKey(b, f.itemKey));
    }
  }

  lemma CompleteIsDone(s: Tables, call: Call, now: int, f: Fence)
    requires exists c :: c in call.completions && c.fence == f
    ensures Done(Complete(s, call, now, true).0, call.batchId, call.owner, f)
  {
    hide Holds, Reclaim, Settle, AcceptedOf, ViewOf;
    var r := Reclaim(s, now);
    if call.batchId in r.batches {
      SettledMembers(r, call, now, f);
    }
  }

  /** Completing what is already done leaves the tables alone. */
  lemma SettleNothing(r: Tables, call: Call, now: int)
    requires Sound(r) && call.batchId in r.batches && r.batches[call.batchId].state == Leased
    requires forall c | c in call.completions :: !Holds(r, call.batchId, c.fence)
    ensures Settle(r, call, now) == r
  {
    hide Fenced, MemberSound, BatchSound;
    var b := call.batchId;
    AcceptedOfAre(r, b, call.completions);
    forall mk | mk in UnfinishedOf(r, b) ensures FirstOutcome(call.completions, FenceOf(mk, r.members[mk])).None? {
      ReportedOutcome(call.completions, FenceOf(mk, r.members[mk]));
      assert mk == MemberKey(b, mk.itemKey);
    }
    var finished := Finish(r, b, call.completions);
    assert finished.members == r.members by {
      forall mk | mk in r.members ensures finished.members[mk] == r.members[mk] {
        assert mk.batchId == b && r.members[mk].outcome.None? ==> mk in UnfinishedOf(r, b);
      }
    }
    assert UnfinishedOf(finished, b) == UnfinishedOf(r, b) && Occupied(r, b);
  }

  /**
   Repeating a completed call, whenever and under whatever metadata, does nothing but the reclaim
   every call starts with.
   */
  lemma ReplayChangesNothing(s: Tables, call: Call, now: int, steps: seq<Step>, again: Call, later: int)
    requires Sound(s) && forall c | c in call.completions :: Issued(s, c.fence)
    requires again.batchId == call.batchId && again.owner == call.owner && again.completions == call.completions
    ensures var t := Run(Complete(s, call, now, true).0, steps); Complete(t, again, later, true).0 == Reclaim(t, later)
  {
    hide SoundBut, Follows, Settle, Run, Issued, Holds, ViewOf, AcceptedOf, Reclaim;
    var after := Complete(s, call, now, true).0;
    var t := Run(after, steps);
    var r := Reclaim(t, later);
    CompleteSound(s, call, now, true);
    RunLaw(after, steps);
    ReclaimLaw(t, later);
    forall c | c in call.completions ensures Done(r, call.batchId, call.owner, c.fence) {
      CompleteIsDone(s, call, now, c.fence);
      DeathIsFinal(s, after, c.fence);
      DoneIsFinal(after, t, call.batchId, call.owner, c.fence);
      DeathIsFinal(after, t, c.fence);
      DoneIsFinal(t, r, call.batchId, call.owner, c.fence);
    }
    if again.batchId in r.batches && r.batches[again.batchId].state == Leased && r.batches[again.batchId].owner == again.owner {
      SettleNothing(r, again, later);
    }
  }

  // ------------------------------------------------------------------ what a claim takes

  /** A candidate the membership table would accept. */
  predicate Claimable(s: Tables, c: Candidate) {
    c.revision >= 1 && !Owned(s.members, c.itemKey)
  }

  lemma EnrollTakes(s: Tables, b: string, c: Candidate)
    ensures var after := Enroll(s, b, c);
      && (forall mk | mk in s.members :: mk in after.members && after.members[mk] == s.members[mk])
      && (forall mk | mk in after.members && mk !in s.members ::
            mk == MemberKey(b, c.itemKey) && after.members[mk].outcome.None? && Claimable(s, c)
            && after.members[mk].revision == c.revision)
      && (c.revision >= 1 ==> Owned(after.members, c.itemKey) || MemberKey(b, c.itemKey) in s.members)
  {
    assert MemberKey(b, c.itemKey).itemKey == c.itemKey;
  }

  /** Existing memberships stay; each new one takes a candidate nobody owned; the rest is owned or the batch is full. */
  lemma {:induction false} EnrollAllTakes(s: Tables, b: string, candidates: seq<Candidate>, maxItems: int)
    ensures var after := EnrollAll(s, b, candidates, maxItems);
      && (forall mk | mk in s.members :: mk in after.members && after.members[mk] == s.members[mk])
      && (forall mk | mk in after.members && mk !in s.members ::
            mk.batchId == b && after.members[mk].outcome.None?
            && exists c | c in candidates ::
                 Claimable(s, c) && mk.itemKey == c.itemKey && after.members[mk].revision == c.revision)
      && (|UnfinishedOf(after, b)| >= maxItems
          || forall c | c in candidates && c.revision >= 1 ::
               Owned(after.members, c.itemKey) || MemberKey(b, c.itemKey) in s.members)
    decreases |candidates|
  {
    hide Enroll, UnfinishedOf;
    if candidates != [] && |UnfinishedOf(s, b)| < maxItems {
      var next, rest := Enroll(s, b, candidates[0]), candidates[1..];
      EnrollTakes(s, b, candidates[0]);
      EnrollAllTakes(next, b, rest, maxItems);
      assert candidates == [candidates[0]] + rest;
      OwnedStays(s, next);
      OwnedStays(next, EnrollAll(next, b, rest, maxItems));
    }
  }

  lemma OwnedStays(s: Tables, after: Tables)
    requires forall mk | mk in s.members :: mk in after.members && after.members[mk] == s.members[mk]
    ensures forall k | Owned(s.members, k) :: Owned(after.members, k)
  {
    forall k | Owned(s.members, k) ensures Owned(after.members, k) {
      var mk :| mk in s.members && mk.itemKey == k && s.members[mk].outcome.None?;
      assert mk in after.members;
    }
  }

  lemma FilledTakes(r: Tables, req: ClaimRequest, now: int)
    requires Sound(r) && req.batchId !in r.batches && req.maxItems >= 1
    ensures var filled, b := Filled(r, req, now), req.batchId;
      && MembersOf(filled, b) == UnfinishedOf(filled, b) && |MembersOf(filled, b)| <= req.maxItems
      && (forall mk | mk in MembersOf(filled, b) ::
            exists c | c in req.candidates ::
              Claimable(r, c) && mk.itemKey == c.itemKey && filled.members[mk].revision == c.revision)
      && (|MembersOf(filled, b)| == req.maxItems || forall c | c in req.candidates :: !Claimable(filled, c))
      && (MembersOf(filled, b) == {} ==> filled.members == r.members)
      && filled.batches == Opened(r, req, now).batches
  {
    hide Fenced, MemberSound, Follows, EnrollAll, Occupied, Owned;
    var b := req.batchId;
    NoStrayMembers(r, b);
    EnrollAllTakes(Opened(r, req, now), b, req.candidates, req.maxItems);
    FilledSound(r, req, now);
    var filled := Filled(r, req, now);
    assert BatchSound(filled, b);
    forall mk | mk in filled.members ensures mk in MembersOf(filled, b) || mk in r.members {}
  }

  /**
   A claim under a new id with room for a batch is granted exactly when some candidate is free; it
   then takes up to maxItems free candidates, and leaves none unless the batch is full. A declined
   claim takes nothing (though generations have moved on).
   */
  lemma ClaimLaw(s: Tables, req: ClaimRequest, now: int)
    requires Sound(s) && req.batchId !in s.batches && req.maxItems >= 1
    requires |LeasedBatches(Reclaim(s, now))| < Capacity(req.maxConcurrent)
    ensures var r, b := Reclaim(s, now), req.batchId;
      var (after, outcome) := Claim(s, req, now);
      && (outcome.Granted? <==> exists c :: c in req.candidates && Claimable(r, c))
      && (outcome.Granted? ==>
            && MembersOf(after, b) == UnfinishedOf(after, b) && 1 <= |MembersOf(after, b)| <= req.maxItems
            && (forall mk | mk in MembersOf(after, b) ::
                  exists c | c in req.candidates ::
                    Claimable(r, c) && mk.itemKey == c.itemKey && after.members[mk].revision == c.revision)
            && (|MembersOf(after, b)| == req.maxItems || forall c | c in req.candidates :: !Claimable(after, c)))
      && (!outcome.Granted? ==> outcome == Declined && after.members == r.members && after.batches == r.batches)
  {
    hide SoundBut, Follows, EnrollAll, Reclaim, ViewOf, LeasedBatches, Owned, Filled, MembersOf, UnfinishedOf;
    var r, b := Reclaim(s, now), req.batchId;
    ReclaimLaw(s, now);
    ReclaimKeepsIds(s, now);
    FilledTakes(r, req, now);
    var filled := Filled(r, req, now);
    if MembersOf(filled, b) != {} {
      var mk :| mk in MembersOf(filled, b);
    }
  }

  /** While its lease runs, repeating a granted claim gives the same batch again and takes nothing more. */
  lemma ClaimRetry(s: Tables, req: ClaimRequest, now: int, later: int)
    requires Sound(s) && Claim(s, req, now).1.Granted? && later < Claim(s, req, now).1.view.batch.expiresAt
    ensures var first := Claim(s, req, now).0;
      && Claim(first, req, later).1 == Claim(s, req, now).1 && Claim(first, req, later).0 == Reclaim(first, later)
  {
    hide SoundBut, Follows, LeasedBatches, Filled;
    var first, b := Claim(s, req, now).0, req.batchId;
    FilledRow(Reclaim(s, now), req, now);
    assert b in first.batches && first.batches[b].state == Leased && first.batches[b].owner == req.owner;
    assert !Lapsed(first.batches[b], later);
    UntouchedView(first, b, later);
  }

  lemma FilledRow(r: Tables, req: ClaimRequest, now: int)
    ensures Filled(r, req, now).batches[req.batchId] == NewBatch(req, now)
  {
    EnrollKeepsBatches(Opened(r, req, now), req.batchId, req.candidates, req.maxItems);
  }

  lemma UntouchedView(s: Tables, b: string, now: int)
    requires b in s.batches && !Lapsed(s.batches[b], now)
    ensures ViewOf(Reclaim(s, now), b) == ViewOf(s, b)
  {
    var r := Reclaim(s, now);
    assert MembersOf(r, b) == MembersOf(s, b);
    assert ViewOf(r, b).items == ViewOf(s, b).items;
  }

  lemma ReclaimKeepsIds(s: Tables, now: int)
    ensures Reclaim(s, now).batches.Keys == s.batches.Keys
  {
  }

  lemma NoStrayMembers(s: Tables, b: string)
    requires Sound(s) && b !in s.batches
    ensures forall mk | mk in s.members :: mk.batchId != b
  {
    forall mk | mk in s.members ensures mk.batchId != b { assert MemberSound(s, mk); }
  }

  // ------------------------------------------------------------------ capacity

  predicate WithinCapacity(step: Step, cap: int) {
    step.ClaimStep? ==> Capacity(step.req.maxConcurrent) <= cap
  }

  lemma NextKeepsCapacity(s: Tables, step: Step, cap: int)
    requires |LeasedBatches(s)| <= cap && WithinCapacity(step, cap)
    ensures |LeasedBatches(Next(s, step))| <= cap
  {
    hide Fenced, MembersOf, UnfinishedOf, EnrollAll, ViewOf, ProvesBatch, AcceptedOf, Finish, CleanupIds, Eligible;
    if step.ClaimStep? {
      ClaimKeepsCapacity(s, step.req, step.now);
    } else {
      assert LeasedBatches(Next(s, step)) <= LeasedBatches(s);
      SubsetSize(LeasedBatches(Next(s, step)), LeasedBatches(s));
    }
  }

  lemma ReclaimLeases(s: Tables, now: int)
    ensures LeasedBatches(Reclaim(s, now)) <= LeasedBatches(s)
  {
  }

  lemma FilledLeases(r: Tables, req: ClaimRequest, now: int)
    ensures var filled, b := Filled(r, req, now), req.batchId;
      && LeasedBatches(filled) <= LeasedBatches(r) + {b}
      && LeasedBatches(filled.(batches := filled.batches - {b})) <= LeasedBatches(r) + {b}
  {
    hide EnrollAll;
    EnrollKeepsBatches(Opened(r, req, now), req.batchId, req.candidates, req.maxItems);
  }

  lemma ClaimKeepsCapacity(s: Tables, req: ClaimRequest, now: int)
    ensures |LeasedBatches(Claim(s, req, now).0)| <= Max(|LeasedBatches(s)|, Capacity(req.maxConcurrent))
  {
    hide LeasedBatches, Reclaim, Filled, MembersOf, ViewOf, Capacity;
    var r := Reclaim(s, now);
    var filled, leased := Filled(r, req, now), LeasedBatches(r);
    ReclaimLeases(s, now);
    SubsetSize(leased, LeasedBatches(s));
    FilledLeases(r, req, now);
    SubsetSize(LeasedBatches(filled), leased + {req.batchId});
    SubsetSize(LeasedBatches(filled.(batches := filled.batches - {req.batchId})), leased + {req.batchId});
  }

  /** Under a fixed cap there are never more leased batches than the cap. */
  lemma {:induction false} CapacityLaw(s: Tables, steps: seq<Step>, cap: int)
    requires |LeasedBatches(s)| <= cap && forall step | step in steps :: WithinCapacity(step, cap)
    ensures |LeasedBatches(Run(s, steps))| <= cap
  {
    if steps != [] {
      CapacityLaw(s, steps[..|steps|-1], cap);
      NextKeepsCapacity(Run(s, steps[..|steps|-1]), steps[|steps|-1], cap);
    }
  }

  // ------------------------------------------------------------------ a repeated completion in one call

  /** How often a list of completions names a fence. */
  function Times(completions: seq<Completion>, f: Fence): nat {
    Count(completions, (c: Completion) => c.fence == f)
  }

  /** The filter hands a held fence off as often as the call names it, and any other fence never. */
  lemma {:induction false} HandoffCount(s: Tables, b: string, completions: seq<Completion>, f: Fence)
    ensures Times(AcceptedOf(s, b, completions), f) == if Holds(s, b, f) then Times(completions, f) else 0
  {
    hide Holds, Count;
    if completions == [] {
      CountNone(completions, (c: Completion) => c.fence == f);
    } else {
      var first, rest := completions[0], completions[1..];
      HandoffCount(s, b, rest, f);
      assert completions == [first] + rest;
      CountConcat([first], rest, (c: Completion) => c.fence == f);
      CountSingle(first, (c: Completion) => c.fence == f);
      if Holds(s, b, first.fence) {
        CountConcat([first], AcceptedOf(s, b, rest), (c: Completion) => c.fence == f);
      } else {
        assert AcceptedOf(s, b, completions) == AcceptedOf(s, b, rest);
      }
    }
  }

  /**
   A call hands every fence off at most once exactly when it names no fence twice that the batch
   holds.
   */
  lemma HandedOffAtMostOnce(s: Tables, b: string, completions: seq<Completion>)
    ensures (forall f :: Times(AcceptedOf(s, b, completions), f) <= 1)
      <==> forall f :: Holds(s, b, f) ==> Times(completions, f) <= 1
  {
    hide Holds, Count, AcceptedOf;
    var accepted := AcceptedOf(s, b, completions);
    forall f ensures Times(accepted, f) <= 1 <==> (Holds(s, b, f) ==> Times(completions, f) <= 1) {
      HandoffCount(s, b, completions, f);
    }
  }

  predicate DistinctItems(completions: seq<Completion>) {
    forall i, j | 0 <= i < j < |completions| :: completions[i].fence.itemKey != completions[j].fence.itemKey
  }

  /** Under distinct item keys each held fence the call names is handed off exactly once. */
  lemma HandedOffOnce(s: Tables, b: string, completions: seq<Completion>, f: Fence)
    requires DistinctItems(completions)
    ensures Times(AcceptedOf(s, b, completions), f)
      == if Holds(s, b, f) && exists c :: c in completions && c.fence == f then 1 else 0
  {
    hide Holds, AcceptedOf;
    HandoffCount(s, b, completions, f);
    NamedOnce(completions, f);
  }

  lemma {:induction false} NamedOnce(completions: seq<Completion>, f: Fence)
    requires DistinctItems(completions)
    ensures Times(completions, f) == if exists c :: c in completions && c.fence == f then 1 else 0
  {
    if completions != [] {
      var init, last := completions[..|completions|-1], completions[|completions|-1];
      NamedOnce(init, f);
      assert completions == init + [last];
      if last.fence == f {
        forall c | c in init ensures c.fence != f {}
      }
    }
  }

  /**
   One call may hand the same fence off twice (the filter does not remove repeats), but only the
   first outcome is recorded.
   */
  lemma RepeatedHandoff(s: Tables, call: Call, now: int, f: Fence)
    requires call.batchId in Reclaim(s, now).batches && Reclaim(s, now).batches[call.batchId].state == Leased
    requires Reclaim(s, now).batches[call.batchId].owner == call.owner
    requires Holds(Reclaim(s, now), call.batchId, f)
    requires call.completions == [Completion(f, ItemPublished), Completion(f, ItemSuperseded)]
    ensures Complete(s, call, now, true).1.Acknowledged?
    ensures Complete(s, call, now, true).1.accepted == call.completions
    ensures MemberKey(call.batchId, f.itemKey) in Complete(s, call, now, true).0.members
    ensures Complete(s, call, now, true).0.members[MemberKey(call.batchId, f.itemKey)].outcome == Some(ItemPublished)
  {
    var r, second := Reclaim(s, now), call.completions[1..];
    assert second == [Completion(f, ItemSuperseded)];
    assert AcceptedOf(r, call.batchId, second) == second + AcceptedOf(r, call.batchId, second[1..]);
  }
}
