/**
 The publication batch store: its three tables as fields and each operation statement by
 statement, proved against the transitions of `PublicationBatches`.
 */
module BatchStore {
  import opened Basics
  import opened SqlOrder
  import opened PublicationBatches
  import opened BatchLaws
  import opened FencingLaws
  import opened BatchReports

  class ExactReviewPublicationBatchStore {
    var batches: map<string, Batch>
    var members: map<MemberKey, Member>
    var generations: map<string, nat>

    function Contents(): Tables
      reads this
    {
      Tables(batches, members, generations)
    }

    ghost predicate Valid()
      reads this
    {
      Sound(Contents())
    }

    constructor ()
      ensures Contents() == EMPTY && Valid()
    {
      batches, members, generations := map[], map[], map[];
    }

    /** ROLLBACK */
    method Restore(saved: Tables)
      modifies this
      ensures Contents() == saved
    {
      batches, members, generations := saved.batches, saved.members, saved.generations;
    }

    method ReclaimExpired(now: int)
      modifies this`batches, this`members
      ensures Contents() == Reclaim(old(Contents()), now)
      ensures old(Valid()) ==> Valid()
    {
      hide Sound, SoundBut, Follows, Reclaim;
      ghost var before := Contents();
      if Sound(before) { ReclaimLaw(before, now); }
      ExpireBatches((set b | b in batches && Lapsed(batches[b], now)), now);
      AllLapsedAreReclaimed(before, now);
    }

    /** Lapsed batches one at a time, in whatever order the query returned them. */
    method ExpireBatches(expired: set<string>, now: int)
      requires expired <= batches.Keys && forall b | b in expired :: Lapsed(batches[b], now)
      modifies this`batches, this`members
      ensures Contents() == ReclaimOnly(old(Contents()), expired, now)
    {
      hide ReclaimOnly, ExpireOne;
      ghost var before := Contents();
      var remaining := expired;
      NoneReclaimed(before, now);
      while remaining != {}
        invariant remaining <= expired
        invariant Contents() == ReclaimOnly(before, expired - remaining, now)
        decreases |remaining|
      {
        var b :| b in remaining;
        ReclaimOneMore(before, expired - remaining, b, now);
        ExpireBatch(b, now);
        assert expired - remaining + {b} == expired - (remaining - {b});
        remaining := remaining - {b};
      }
      assert expired - remaining == expired;
    }

    method ExpireBatch(b: string, now: int)
      requires b in batches
      modifies this`batches, this`members
      ensures Contents() == ExpireOne(old(Contents()), b, now)
    {
      members := map mk | mk in members ::
        if mk.batchId == b && members[mk].outcome.None? then members[mk].(outcome := Some(LeaseExpired)) else members[mk];
      batches := batches[b := batches[b].(state := Expired, completedAt := Some(now))];
    }

    method NextClaimGeneration(itemKey: string) returns (generation: nat)
      modifies this`generations
      ensures generation == Generation(old(Contents()), itemKey) + 1
      ensures generations == old(generations)[itemKey := generation]
    {
      generation := if itemKey in generations then generations[itemKey] + 1 else 1;
      generations := generations[itemKey := generation];
    }

    method Claim(req: ClaimRequest, now: int) returns (outcome: ClaimOutcome)
      modifies this
      ensures (Contents(), outcome) == PublicationBatches.Claim(old(Contents()), req, now)
      ensures old(Valid()) ==> Valid()
    {
      var saved := Contents();
      outcome := ClaimInTransaction(req, now, saved);
      if Sound(saved) { ClaimSound(saved, req, now); }
    }

    method ClaimInTransaction(req: ClaimRequest, now: int, saved: Tables) returns (outcome: ClaimOutcome)
      requires saved == Contents()
      modifies this
      ensures (Contents(), outcome) == PublicationBatches.Claim(old(Contents()), req, now)
    {
      hide Reclaim, ViewOf, Sound;
      ReclaimExpired(now);
      if req.batchId in batches {
        var existing := batches[req.batchId];
        return if existing.state == Leased && existing.owner == req.owner
          then Granted(ViewOf(Contents(), req.batchId)) else Declined;
      }
      if |LeasedBatches(Contents())| >= Capacity(req.maxConcurrent) {
        return Declined;
      }
      if req.maxItems < 1 {
        Restore(saved);
        return ConstraintFailed;
      }
      ghost var reclaimed := Contents();
      batches := batches[req.batchId := NewBatch(req, now)];
      assert Contents() == Opened(reclaimed, req, now);
      EnrollCandidates(req.batchId, req.candidates, req.maxItems);
      assert Contents() == Filled(reclaimed, req, now);
      if MembersOf(Contents(), req.batchId) == {} {
        batches := batches - {req.batchId};
        return Declined;
      }
      return Granted(ViewOf(Contents(), req.batchId));
    }

    method EnrollCandidates(b: string, candidates: seq<Candidate>, maxItems: int)
      modifies this`members, this`generations
      ensures Contents() == EnrollAll(old(Contents()), b, candidates, maxItems)
    {
      hide Enroll, UnfinishedOf;
      for i := 0 to |candidates|
        invariant batches == old(batches)
        invariant EnrollAll(Contents(), b, candidates[i..], maxItems) == EnrollAll(old(Contents()), b, candidates, maxItems)
      {
        if |UnfinishedOf(Contents(), b)| >= maxItems {
          break;
        }
        assert candidates[i..][0] == candidates[i] && candidates[i..][1..] == candidates[i+1..];
        EnrollCandidate(b, candidates[i]);
      }
    }

    method EnrollCandidate(b: string, candidate: Candidate)
      modifies this`members, this`generations
      ensures Contents() == Enroll(old(Contents()), b, candidate)
    {
      var generation := NextClaimGeneration(candidate.itemKey);
      var mk := MemberKey(b, candidate.itemKey);
      if mk !in members && !Owned(members, candidate.itemKey) && candidate.revision >= 1 {
        members := members[mk := Member(candidate.revision, generation, None)];
      }
    }

    method Fetch(b: string, owner: string, now: int) returns (view: Option<View>)
      modifies this`batches, this`members
      ensures Contents() == Reclaim(old(Contents()), now)
      ensures view == if b in batches && batches[b].owner == owner && batches[b].state != Expired
                      then Some(ViewOf(Contents(), b)) else None
      ensures old(Valid()) ==> Valid()
    {
      ReclaimExpired(now);
      view := if b in batches && batches[b].owner == owner && (batches[b].state == Leased || batches[b].state == Completed)
        then Some(ViewOf(Contents(), b)) else None;
    }

    method Heartbeat(b: string, owner: string, fences: seq<Fence>, expiresAt: int, now: int) returns (view: Option<View>)
      modifies this`batches, this`members
      ensures (Contents(), view) == PublicationBatches.Heartbeat(old(Contents()), b, owner, fences, expiresAt, now)
      ensures view.Some? ==>
        && b in old(batches) && b in batches && now < old(batches)[b].expiresAt <= batches[b].expiresAt
        && expiresAt <= batches[b].expiresAt && members == Reclaim(old(Contents()), now).members
        && (forall mk | mk in UnfinishedOf(Contents(), b) :: exists f | f in fences :: f.itemKey == mk.itemKey)
      ensures old(Valid()) ==> Valid()
    {
      ghost var before := Contents();
      if Sound(before) { HeartbeatSound(before, b, owner, fences, expiresAt, now); }
      ReclaimExpired(now);
      if b !in batches || batches[b].state != Leased || batches[b].owner != owner || !ProvesBatch(Contents(), b, fences) {
        return None;
      }
      var nextExpiry := Max(batches[b].expiresAt, expiresAt);
      batches := batches[b := batches[b].(expiresAt := nextExpiry)];
      return Some(ViewOf(Contents(), b));
    }

    method ActiveLeaseSnapshot(now: int, reclaimExpired: bool) returns (snapshot: Snapshot)
      modifies this`batches, this`members
      ensures Contents() == if reclaimExpired then Reclaim(old(Contents()), now) else old(Contents())
      ensures snapshot == SnapshotOf(old(Contents()), now)
      ensures old(Valid()) ==> Valid()
    {
      hide SnapshotOf, Reclaim, Sound;
      SnapshotNeedsNoReclaim(Contents(), now);
      if reclaimExpired {
        ReclaimExpired(now);
      }
      snapshot := ActiveLeases(now);
    }

    method ActiveLeases(now: int) returns (snapshot: Snapshot)
      ensures snapshot == SnapshotOf(Contents(), now)
    {
      hide OrderBy, Least;
      var active := ActiveMembers(Contents(), now);
      var rows := OrderBy(active, ByItemKey());
      ByItemKeyTotal(active);
      OrderByLists(active, ByItemKey());
      var ids := set mk | mk in rows :: mk.batchId;
      assert ids == BatchIds(active);
      var expiries := set mk | mk in rows && mk.batchId in batches :: batches[mk.batchId].expiresAt;
      assert expiries == Expiries(Contents(), ids);
      snapshot := Snapshot(rows, |ids|, Least(expiries));
    }

    method OwnsFence(f: Fence, now: int) returns (owns: bool)
      modifies this`batches, this`members
      ensures Contents() == Reclaim(old(Contents()), now) && owns == OwnsActiveFence(Contents(), f)
      ensures old(Valid()) ==> Valid()
    {
      ReclaimExpired(now);
      owns := exists mk | mk in members ::
        mk.batchId in batches && batches[mk.batchId].state == Leased && members[mk].outcome.None?
        && mk.itemKey == f.itemKey && members[mk].revision == f.revision && members[mk].generation == f.generation;
      if b :| b in batches && batches[b].state == Leased && Holds(Contents(), b, f) {
        assert MemberKey(b, f.itemKey) in members;
      }
    }

    method RecordObservation(b: string, owner: string, stage: Stage, at: int) returns (view: Option<View>)
      modifies this`batches
      ensures (Contents(), view) == Observe(old(Contents()), b, owner, stage, at)
      ensures view.Some? ==>
        && b in old(batches) && b in batches && stage in batches[b].observed
        && (stage !in old(batches)[b].observed ==> batches[b].observed[stage] == at)
      ensures old(Valid()) ==> Valid()
    {
      ghost var before := Contents();
      if Sound(before) { ObserveSound(before, b, owner, stage, at); }
      if b !in batches || batches[b].owner != owner {
        return None;
      }
      var batch := batches[b];
      if stage !in batch.observed {
        batch := batch.(observed := batch.observed[stage := at]);
      }
      batches := batches[b := batch];
      return Some(ViewOf(Contents(), b));
    }

    method Complete(call: Call, now: int, handoff: bool) returns (outcome: CompleteOutcome)
      modifies this
      ensures (Contents(), outcome) == PublicationBatches.Complete(old(Contents()), call, now, handoff)
      ensures old(Valid()) ==> Valid()
    {
      var saved, b := Contents(), call.batchId;
      if Sound(saved) { CompleteSound(saved, call, now, handoff); }
      ReclaimExpired(now);
      if b !in batches || batches[b].owner != call.owner {
        return Refused;
      }
      if batches[b].state != Leased {
        return if forall c | c in call.completions :: Matches(Contents(), b, c.fence)
          then Acknowledged(ViewOf(Contents(), b), []) else Refused;
      }
      var accepted := AcceptedCompletions(call);
      if !handoff {
        Restore(saved);
        return HandoffFailed;
      }
      RecordAccepted(call, accepted, now);
      return Acknowledged(ViewOf(Contents(), b), accepted);
    }

    method AcceptedCompletions(call: Call) returns (accepted: seq<Completion>)
      ensures accepted == AcceptedOf(Contents(), call.batchId, call.completions)
    {
      hide Holds;
      accepted := [];
      for i := 0 to |call.completions|
        invariant accepted + AcceptedOf(Contents(), call.batchId, call.completions[i..])
          == AcceptedOf(Contents(), call.batchId, call.completions)
      {
        ghost var rest := call.completions[i..];
        assert rest[0] == call.completions[i] && rest[1..] == call.completions[i+1..];
        if Holds(Contents(), call.batchId, call.completions[i].fence) {
          accepted := accepted + [call.completions[i]];
        }
      }
      assert call.completions[|call.completions|..] == [];
    }

    /** Guarded updates of the accepted members, then the batch row. */
    method RecordAccepted(call: Call, accepted: seq<Completion>, now: int)
      requires call.batchId in batches && batches[call.batchId].state == Leased
      requires accepted == AcceptedOf(Contents(), call.batchId, call.completions)
      modifies this`batches, this`members
      ensures Contents() == Settle(old(Contents()), call, now)
    {
      var b := call.batchId;
      ghost var before := Contents();
      for i := 0 to |accepted|
        invariant batches == before.batches && members == Finish(before, b, accepted[..i]).members
      {
        FinishOneMore(before, b, accepted, i);
        var mk := MemberKey(b, accepted[i].fence.itemKey);
        if Holds(Contents(), b, accepted[i].fence) {
          members := members[mk := members[mk].(outcome := Some(accepted[i].outcome))];
        }
      }
      assert accepted[..|accepted|] == accepted;
      FinishAccepted(before, call);
      if accepted != [] {
        var row := batches[b];
        batches := batches[b := row.(commitSha := Coalesce(row.commitSha, call.commitSha),
                                     failure := Coalesce(row.failure, call.failure))];
      }
      assert UnfinishedOf(Contents(), b) == UnfinishedOf(Finish(before, b, call.completions), b);
      if UnfinishedOf(Contents(), b) == {} {
        batches := batches[b := batches[b].(state := Completed, completedAt := Some(now))];
      }
      assert batches == Settle(before, call, now).batches;
    }

    method Stats(now: int, ttl: int, limit: int) returns (report: Report)
      modifies this`batches, this`members
      ensures (Contents(), report) == PublicationBatches.Stats(old(Contents()), now, ttl, limit)
      ensures old(Valid()) ==> Valid()
    {
      hide Sound, SoundBut, Follows, Reclaim, CleanupIds, Eligible, WithoutBatches, SnapshotOf, LeasedBatches, InState,
        ReclaimedItems, CreationTimes, Least;
      ghost var before := Contents();
      if Sound(before) { StatsSound(before, now, ttl, limit); }
      ReclaimExpired(now);
      var cleanupIds := CleanupIds(Contents(), now - ttl, limit);
      DeleteBatches(cleanupIds);
      var left := Contents();
      var leased, completed, expired := LeasedBatches(left), InState(left, Completed), InState(left, Expired);
      var active := ActiveLeases(now);
      report := Report(|leased|, |completed|, |expired|, active, Least(CreationTimes(left, leased)),
                       |ReclaimedItems(left)|, |cleanupIds|, |Eligible(left, now - ttl)|, limit);
    }

    method DeleteBatches(ids: set<string>)
      modifies this`batches, this`members
      ensures Contents() == WithoutBatches(old(Contents()), ids)
    {
      hide WithoutBatches;
      ghost var before := Contents();
      var remaining := ids;
      WithoutNone(before);
      while remaining != {}
        invariant remaining <= ids
        invariant Contents() == WithoutBatches(before, ids - remaining)
        decreases |remaining|
      {
        var b :| b in remaining;
        WithoutOneMore(before, ids - remaining, b);
        assert ids - remaining + {b} == ids - (remaining - {b});
        members := map mk | mk in members && mk.batchId != b :: members[mk];
        batches := batches - {b};
        remaining := remaining - {b};
      }
      assert ids - remaining == ids;
    }
  }

  // ------------------------------------------------------------------ the expiry loop

  /** The tables once these lapsed batches have been expired. */
  function ReclaimOnly(s: Tables, expired: set<string>, now: int): Tables {
    s.(batches := map b | b in s.batches :: if b in expired then ReclaimedBatch(s.batches[b], now) else s.batches[b],
       members := map mk | mk in s.members :: if mk.batchId in expired then ReclaimedMember(s, mk, now) else s.members[mk])
  }

  lemma NoneReclaimed(s: Tables, now: int)
    ensures forall expired: set<string> | expired == {} :: ReclaimOnly(s, expired, now) == s
  {
    assert ReclaimOnly(s, {}, now) == s;
  }

  function ExpireOne(s: Tables, b: string, now: int): Tables
    requires b in s.batches
  {
    s.(batches := s.batches[b := s.batches[b].(state := Expired, completedAt := Some(now))],
       members := map mk | mk in s.members ::
         if mk.batchId == b && s.members[mk].outcome.None? then s.members[mk].(outcome := Some(LeaseExpired))
         else s.members[mk])
  }

  lemma ReclaimOneMore(s: Tables, expired: set<string>, b: string, now: int)
    requires b in s.batches && Lapsed(s.batches[b], now) && b !in expired
    ensures b in ReclaimOnly(s, expired, now).batches
    ensures ReclaimOnly(s, expired + {b}, now) == ExpireOne(ReclaimOnly(s, expired, now), b, now)
  {
    var after := ExpireOne(ReclaimOnly(s, expired, now), b, now);
    assert ReclaimOnly(s, expired + {b}, now).batches == after.batches;
    assert ReclaimOnly(s, expired + {b}, now).members == after.members;
  }

  lemma WithoutNone(s: Tables)
    ensures forall gone: set<string> | gone == {} :: WithoutBatches(s, gone) == s
  {
    assert WithoutBatches(s, {}) == s;
  }

  lemma WithoutOneMore(s: Tables, gone: set<string>, b: string)
    ensures var before, after := WithoutBatches(s, gone), WithoutBatches(s, gone + {b});
      && after.batches == before.batches - {b} && after.generations == before.generations
      && after.members == (map mk | mk in before.members && mk.batchId != b :: before.members[mk])
  {
  }

  lemma AllLapsedAreReclaimed(s: Tables, now: int)
    ensures ReclaimOnly(s, (set b | b in s.batches && Lapsed(s.batches[b], now)), now) == Reclaim(s, now)
  {
  }

  // ------------------------------------------------------------------ the recording loop

  lemma {:induction false} FirstOfPrefix(completions: seq<Completion>, n: nat, f: Fence)
    requires n < |completions|
    ensures FirstOutcome(completions[..n+1], f)
      == Coalesce(FirstOutcome(completions[..n], f), if completions[n].fence == f then Some(completions[n].outcome) else None)
  {
    var shorter, longer := completions[..n], completions[..n+1];
    if n == 0 {
      assert longer[1..] == [];
    } else {
      assert longer[1..] == completions[1..][..n] && shorter[1..] == completions[1..][..n-1];
      FirstOfPrefix(completions[1..], n - 1, f);
    }
  }

  lemma FinishOneMore(s: Tables, b: string, accepted: seq<Completion>, n: nat)
    requires n < |accepted|
    ensures var so, c, mk := Finish(s, b, accepted[..n]), accepted[n], MemberKey(b, accepted[n].fence.itemKey);
      Finish(s, b, accepted[..n+1]).members
        == if Holds(so, b, c.fence) then so.members[mk := so.members[mk].(outcome := Some(c.outcome))] else so.members
  {
    forall f ensures FirstOutcome(accepted[..n+1], f)
      == Coalesce(FirstOutcome(accepted[..n], f), if accepted[n].fence == f then Some(accepted[n].outcome) else None)
    {
      FirstOfPrefix(accepted, n, f);
    }
    hide FirstOutcome;
  }

  /** Only held fences matter to the outcome of an unfinished member. */
  lemma {:induction false} FirstAccepted(s: Tables, b: string, completions: seq<Completion>, f: Fence)
    requires Holds(s, b, f)
    ensures FirstOutcome(AcceptedOf(s, b, completions), f) == FirstOutcome(completions, f)
  {
    if completions != [] {
      FirstAccepted(s, b, completions[1..], f);
      if Holds(s, b, completions[0].fence) {
        assert AcceptedOf(s, b, completions)[1..] == AcceptedOf(s, b, completions[1..]);
      } else {
        assert AcceptedOf(s, b, completions) == AcceptedOf(s, b, completions[1..]);
      }
    }
  }

  lemma FinishAccepted(s: Tables, call: Call)
    ensures Finish(s, call.batchId, AcceptedOf(s, call.batchId, call.completions)).members
      == Finish(s, call.batchId, call.completions).members
  {
    hide FirstOutcome, AcceptedOf;
    var b := call.batchId;
    forall mk | mk in s.members && mk.batchId == b && s.members[mk].outcome.None?
      ensures FirstOutcome(AcceptedOf(s, b, call.completions), FenceOf(mk, s.members[mk]))
           == FirstOutcome(call.completions, FenceOf(mk, s.members[mk]))
    {
      assert mk == MemberKey(b, mk.itemKey);
      FirstAccepted(s, b, call.completions, FenceOf(mk, s.members[mk]));
    }
  }
}
