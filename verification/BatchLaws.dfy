/**
 Fencing safety of the publication batches over every run, cleanup and reuse of batch ids
 included: who owns an item, which fences are dead for good, and what a replay can still change.
 */
module BatchLaws {
  import opened Basics
  import opened SqlOrder
  import opened PublicationBatches

  // ------------------------------------------------------------------ the invariant

  /** A membership lies in a batch, under an issued generation; unfinished ones only in leased batches. */
  ghost predicate MemberSound(s: Tables, mk: MemberKey)
    requires mk in s.members
  {
    var member := s.members[mk];
    && mk.batchId in s.batches
    && member.revision >= 1 && 1 <= member.generation <= Generation(s, mk.itemKey)
    && (member.outcome.None? ==> s.batches[mk.batchId].state == Leased)
  }

  /** Memberships of one item carry distinct generations, the unfinished one the greatest. */
  ghost predicate Fenced(s: Tables) {
    forall a, b | a in s.members && b in s.members && a.itemKey == b.itemKey && a != b ::
      && s.members[a].generation != s.members[b].generation
      && (s.members[a].outcome.None? ==> s.members[b].outcome.Some? && s.members[b].generation < s.members[a].generation)
  }

  ghost predicate BatchSound(s: Tables, b: string)
    requires b in s.batches
  {
    && |MembersOf(s, b)| <= s.batches[b].size
    && (s.batches[b].state == Leased <==> s.batches[b].completedAt.None?)
  }

  /** A batch has members, a leased one an unfinished member. */
  ghost predicate Occupied(s: Tables, b: string)
    requires b in s.batches
  {
    MembersOf(s, b) != {} && (s.batches[b].state == Leased ==> UnfinishedOf(s, b) != {})
  }

  /** The invariant of a claim in progress: batch `b` may still be empty. */
  ghost predicate SoundBut(s: Tables, b: Option<string>) {
    && (forall mk | mk in s.members :: MemberSound(s, mk))
    && Fenced(s)
    && (forall x | x in s.batches :: BatchSound(s, x) && (b == Some(x) || Occupied(s, x)))
  }

  ghost predicate Sound(s: Tables) {
    SoundBut(s, None)
  }

  // ------------------------------------------------------------------ what time may change

  ghost predicate Sticks<T>(before: Option<T>, after: Option<T>) {
    before.Some? ==> after == before
  }

  /** Completed and expired are final, the lease never shortens, what was recorded stays. */
  ghost predicate BatchLater(before: Batch, after: Batch) {
    && after.owner == before.owner && after.size == before.size && after.createdAt == before.createdAt
    && before.expiresAt <= after.expiresAt
    && (before.state != Leased ==> after.state == before.state && after.completedAt == before.completedAt)
    && Sticks(before.commitSha, after.commitSha) && Sticks(before.failure, after.failure)
    && (forall stage | stage in before.observed :: stage in after.observed && after.observed[stage] == before.observed[stage])
  }

  ghost predicate MemberLater(before: Member, after: Member) {
    && after.revision == before.revision && after.generation == before.generation
    && Sticks(before.outcome, after.outcome)
  }

  /** The membership of `after` under this key already existed in `before`, and so did its batch. */
  ghost predicate Continues(before: Tables, after: Tables, mk: MemberKey)
    requires mk in after.members
  {
    && mk in before.members && MemberLater(before.members[mk], after.members[mk])
    && mk.batchId in before.batches && mk.batchId in after.batches
    && BatchLater(before.batches[mk.batchId], after.batches[mk.batchId])
  }

  /**
   Generations only grow, and a membership is either one that was there, further along, or new
   under a generation never issued before.
   */
  ghost predicate Follows(before: Tables, after: Tables) {
    && (forall k :: Generation(before, k) <= Generation(after, k))
    && (forall mk | mk in after.members ::
          Continues(before, after, mk) || after.members[mk].generation > Generation(before, mk.itemKey))
  }

  lemma FollowsTransitive(a: Tables, b: Tables, c: Tables)
    requires Follows(a, b) && Follows(b, c)
    ensures Follows(a, c)
  {
    forall mk | mk in c.members
      ensures Continues(a, c, mk) || c.members[mk].generation > Generation(a, mk.itemKey)
    {
      assert Generation(a, mk.itemKey) <= Generation(b, mk.itemKey);
      if Continues(b, c, mk) {
        assert Continues(a, b, mk) || b.members[mk].generation > Generation(a, mk.itemKey);
      }
    }
  }

  lemma FollowsReflexive(s: Tables, b: Option<string>)
    requires SoundBut(s, b)
    ensures Follows(s, s)
  {
    forall mk | mk in s.members ensures Continues(s, s, mk) { assert MemberSound(s, mk); }
  }

  // ------------------------------------------------------------------ changes without new memberships

  /** `after` has no new membership and issues no generation. */
  ghost predicate OnlyContinues(before: Tables, after: Tables) {
    after.generations == before.generations && forall mk | mk in after.members :: Continues(before, after, mk)
  }

  lemma ContinuingStaysFenced(before: Tables, after: Tables)
    requires OnlyContinues(before, after) && Fenced(before)
    ensures Fenced(after) && Follows(before, after)
  {
    forall a, b | a in after.members && b in after.members && a.itemKey == b.itemKey && a != b
      ensures after.members[a].generation != after.members[b].generation
      ensures after.members[a].outcome.None? ==>
        after.members[b].outcome.Some? && after.members[b].generation < after.members[a].generation
    {
      assert Continues(before, after, a) && Continues(before, after, b);
    }
  }

  // ------------------------------------------------------------------ reclaim

  lemma ReclaimContinues(s: Tables, now: int)
    requires Sound(s)
    ensures OnlyContinues(s, Reclaim(s, now))
    ensures forall mk | mk in s.members :: MemberSound(Reclaim(s, now), mk)
  {
    hide Fenced, BatchSound, Occupied;
    forall mk | mk in s.members ensures MemberSound(Reclaim(s, now), mk) && Continues(s, Reclaim(s, now), mk) {
      assert MemberSound(s, mk);
    }
  }

  lemma ReclaimBatch(s: Tables, now: int, b: string)
    requires b in s.batches
    ensures MembersOf(Reclaim(s, now), b) == MembersOf(s, b)
    ensures Reclaim(s, now).batches[b].state == Leased ==>
      s.batches[b].expiresAt > now && UnfinishedOf(Reclaim(s, now), b) == UnfinishedOf(s, b)
  {
    var r := Reclaim(s, now);
    assert MembersOf(r, b) == MembersOf(s, b);
    assert !Lapsed(s.batches[b], now) ==> UnfinishedOf(r, b) == UnfinishedOf(s, b);
  }

  lemma ReclaimLaw(s: Tables, now: int)
    requires Sound(s)
    ensures Sound(Reclaim(s, now)) && Follows(s, Reclaim(s, now))
    ensures forall b | b in s.batches :: Reclaim(s, now).batches[b].state == Leased ==> s.batches[b].expiresAt > now
  {
    hide Fenced, MemberSound, Continues, Follows, MembersOf, UnfinishedOf;
    ReclaimContinues(s, now);
    ContinuingStaysFenced(s, Reclaim(s, now));
    forall b | b in s.batches
      ensures BatchSound(Reclaim(s, now), b) && Occupied(Reclaim(s, now), b)
      ensures Reclaim(s, now).batches[b].state == Leased ==> s.batches[b].expiresAt > now
    {
      ReclaimBatch(s, now, b);
      assert BatchSound(s, b) && Occupied(s, b);
    }
  }

  // ------------------------------------------------------------------ claim

  lemma EnrollMember(s: Tables, b: string, c: Candidate, mk: MemberKey)
    requires mk in s.members ==> MemberSound(s, mk)
    requires b in s.batches && s.batches[b].state == Leased && mk in Enroll(s, b, c).members
    ensures var after := Enroll(s, b, c);
      && MemberSound(after, mk)
      && (if mk in s.members then after.members[mk] == s.members[mk]
          else after.members[mk].outcome.None? && after.members[mk].generation == Generation(s, mk.itemKey) + 1
               && !Owned(s.members, mk.itemKey))
  {
  }

  lemma EnrollFenced(s: Tables, b: string, c: Candidate)
    requires Fenced(s) && (forall mk | mk in s.members :: MemberSound(s, mk))
    requires b in s.batches && s.batches[b].state == Leased
    ensures Fenced(Enroll(s, b, c))
  {
    hide Enroll;
    var after := Enroll(s, b, c);
    forall mk | mk in after.members
      ensures mk in s.members ==> after.members[mk] == s.members[mk] && s.members[mk].generation <= Generation(s, mk.itemKey)
      ensures mk !in s.members ==>
        after.members[mk].outcome.None? && after.members[mk].generation == Generation(s, mk.itemKey) + 1
        && !Owned(s.members, mk.itemKey) && mk == MemberKey(b, c.itemKey)
    {
      EnrollMember(s, b, c, mk);
      EnrollKey(s, b, c, mk);
      assert mk in s.members ==> MemberSound(s, mk);
    }
  }

  lemma EnrollKey(s: Tables, b: string, c: Candidate, mk: MemberKey)
    requires mk in Enroll(s, b, c).members
    ensures mk in s.members || mk == MemberKey(b, c.itemKey)
  {
  }

  lemma EnrollFollows(s: Tables, b: string, c: Candidate)
    requires SoundBut(s, Some(b)) && b in s.batches && s.batches[b].state == Leased
    ensures Follows(s, Enroll(s, b, c)) && Fenced(Enroll(s, b, c))
    ensures forall mk | mk in Enroll(s, b, c).members :: MemberSound(Enroll(s, b, c), mk)
  {
    hide BatchSound, Occupied, Fenced, MemberSound, Owned;
    FollowsReflexive(s, Some(b));
    EnrollFenced(s, b, c);
    forall mk | mk in Enroll(s, b, c).members ensures MemberSound(Enroll(s, b, c), mk)
    {
      EnrollMember(s, b, c, mk);
      assert mk in s.members ==> Continues(s, s, mk);
    }
  }

  /** One candidate: at most one new member of `b`, and only of an item nobody owns. */
  lemma EnrollBatches(s: Tables, b: string, c: Candidate)
    ensures var after, mk := Enroll(s, b, c), MemberKey(b, c.itemKey);
      && (MembersOf(after, b) == MembersOf(s, b) || MembersOf(after, b) == MembersOf(s, b) + {mk})
      && (forall x | x != b :: MembersOf(after, x) == MembersOf(s, x) && UnfinishedOf(after, x) == UnfinishedOf(s, x))
      && (MembersOf(s, b) == UnfinishedOf(s, b) ==> MembersOf(after, b) == UnfinishedOf(after, b))
  {
  }

  lemma EnrollSound(s: Tables, b: string, c: Candidate)
    requires SoundBut(s, Some(b)) && b in s.batches && s.batches[b].state == Leased
    requires MembersOf(s, b) == UnfinishedOf(s, b) && |UnfinishedOf(s, b)| < s.batches[b].size
    ensures SoundBut(Enroll(s, b, c), Some(b)) && Follows(s, Enroll(s, b, c))
    ensures MembersOf(Enroll(s, b, c), b) == UnfinishedOf(Enroll(s, b, c), b)
  {
    hide Fenced, MemberSound, Follows, MembersOf, UnfinishedOf;
    EnrollFollows(s, b, c);
    EnrollBatches(s, b, c);
    var after := Enroll(s, b, c);
    forall x | x in after.batches ensures BatchSound(after, x) && (b == x || Occupied(after, x)) {
      assert BatchSound(s, x) && (b == x || Occupied(s, x));
    }
  }

  lemma {:induction false} EnrollAllSound(s: Tables, b: string, candidates: seq<Candidate>, maxItems: int)
    requires SoundBut(s, Some(b)) && b in s.batches && s.batches[b].state == Leased && s.batches[b].size == maxItems
    requires MembersOf(s, b) == UnfinishedOf(s, b)
    ensures var after := EnrollAll(s, b, candidates, maxItems);
      && SoundBut(after, Some(b)) && Follows(s, after) && MembersOf(after, b) == UnfinishedOf(after, b)
      && after.batches == s.batches
    decreases |candidates|
  {
    hide SoundBut, MembersOf, UnfinishedOf, Follows, Enroll;
    if candidates == [] || |UnfinishedOf(s, b)| >= maxItems {
      FollowsReflexive(s, Some(b));
    } else {
      var next := Enroll(s, b, candidates[0]);
      EnrollSound(s, b, candidates[0]);
      EnrollKeeps(s, b, candidates[0]);
      EnrollAllSound(next, b, candidates[1..], maxItems);
      FollowsTransitive(s, next, EnrollAll(next, b, candidates[1..], maxItems));
    }
  }

  lemma EnrollKeeps(s: Tables, b: string, c: Candidate)
    ensures Enroll(s, b, c).batches == s.batches
  {
  }

  lemma OpenedSound(r: Tables, req: ClaimRequest, now: int)
    requires Sound(r) && req.batchId !in r.batches && req.maxItems >= 1
    ensures var started := Opened(r, req, now);
      && SoundBut(started, Some(req.batchId)) && Follows(r, started)
      && MembersOf(started, req.batchId) == {} == UnfinishedOf(started, req.batchId)
  {
    hide Fenced, BatchSound, Occupied;
    var started, b := Opened(r, req, now), req.batchId;
    FollowsReflexive(r, None);
    forall mk | mk in started.members ensures MemberSound(started, mk) && mk.batchId != b && Continues(r, started, mk) {
      assert MemberSound(r, mk) && Continues(r, r, mk);
    }
    SameMembersFenced(r, started);
    forall x | x in started.batches ensures BatchSound(started, x) && (x == b || Occupied(started, x)) {
      NewRowKeepsBatch(r, req, now, x);
    }
    assert MembersOf(started, b) == {};
  }

  lemma SameMembersFenced(s: Tables, after: Tables)
    requires Fenced(s) && after.members == s.members
    ensures Fenced(after)
  {
  }

  lemma NewRowKeepsBatch(r: Tables, req: ClaimRequest, now: int, x: string)
    requires Sound(r) && req.batchId !in r.batches && req.maxItems >= 1 && x in Opened(r, req, now).batches
    ensures BatchSound(Opened(r, req, now), x) && (x == req.batchId || Occupied(Opened(r, req, now), x))
  {
    hide Fenced;
    var started := Opened(r, req, now);
    assert MembersOf(started, x) == MembersOf(r, x) && UnfinishedOf(started, x) == UnfinishedOf(r, x);
    if x == req.batchId {
      assert MembersOf(r, x) == {} by {
        forall mk | mk in r.members ensures mk.batchId != x { assert MemberSound(r, mk); }
      }
    } else {
      assert BatchSound(r, x) && Occupied(r, x);
    }
  }

  lemma WithoutContinues(s: Tables, hole: Option<string>, ids: set<string>)
    requires SoundBut(s, hole)
    ensures OnlyContinues(s, WithoutBatches(s, ids))
    ensures forall mk | mk in WithoutBatches(s, ids).members :: MemberSound(WithoutBatches(s, ids), mk)
  {
    hide Fenced, BatchSound, Occupied;
    var after := WithoutBatches(s, ids);
    forall mk | mk in after.members ensures MemberSound(after, mk) && Continues(s, after, mk) {
      assert MemberSound(s, mk);
    }
  }

  lemma KeptBatch(s: Tables, ids: set<string>, b: string)
    requires b in s.batches && b !in ids && BatchSound(s, b) && Occupied(s, b)
    ensures BatchSound(WithoutBatches(s, ids), b) && Occupied(WithoutBatches(s, ids), b)
  {
    assert MembersOf(WithoutBatches(s, ids), b) == MembersOf(s, b);
    assert UnfinishedOf(WithoutBatches(s, ids), b) == UnfinishedOf(s, b);
  }

  /** Dropping whole batches keeps the invariant, and restores it where the empty one is dropped. */
  lemma WithoutSound(s: Tables, hole: Option<string>, ids: set<string>)
    requires SoundBut(s, hole) && (hole.Some? ==> hole.value in ids)
    ensures Sound(WithoutBatches(s, ids)) && Follows(s, WithoutBatches(s, ids))
  {
    hide Fenced, MemberSound, BatchSound, Occupied, OnlyContinues, Follows;
    var after := WithoutBatches(s, ids);
    WithoutContinues(s, hole, ids);
    ContinuingStaysFenced(s, after);
    forall b | b in after.batches ensures BatchSound(after, b) && Occupied(after, b) { KeptBatch(s, ids, b); }
  }

  lemma DropEmpty(s: Tables, b: string)
    requires SoundBut(s, Some(b)) && b in s.batches && MembersOf(s, b) == {}
    ensures Sound(s.(batches := s.batches - {b})) && Follows(s, s.(batches := s.batches - {b}))
  {
    hide SoundBut, Follows;
    WithoutSound(s, Some(b), {b});
    assert WithoutBatches(s, {b}).members == s.members by {
      forall mk | mk in s.members ensures mk.batchId != b { assert mk in MembersOf(s, b) <==> mk.batchId == b; }
    }
  }

  lemma FillSound(s: Tables, b: string)
    requires SoundBut(s, Some(b)) && b in s.batches && MembersOf(s, b) != {}
    requires s.batches[b].state == Leased ==> UnfinishedOf(s, b) == MembersOf(s, b)
    ensures Sound(s)
  {
    forall x | x in s.batches ensures BatchSound(s, x) && Occupied(s, x) {}
  }

  lemma ClaimSound(s: Tables, req: ClaimRequest, now: int)
    requires Sound(s)
    ensures Sound(Claim(s, req, now).0) && Follows(s, Claim(s, req, now).0)
  {
    hide SoundBut, Follows, MembersOf, UnfinishedOf, Reclaim, Opened, EnrollAll, LeasedBatches, ViewOf, Capacity;
    ReclaimLaw(s, now);
    FollowsReflexive(s, None);
    var r, b := Reclaim(s, now), req.batchId;
    if b !in r.batches && req.maxItems >= 1 {
      FilledSound(r, req, now);
      var filled := Filled(r, req, now);
      FollowsTransitive(s, r, filled);
      if MembersOf(filled, b) == {} {
        DropEmpty(filled, b);
        FollowsTransitive(s, filled, filled.(batches := filled.batches - {b}));
      } else {
        FillSound(filled, b);
      }
    }
  }

  lemma FilledSound(r: Tables, req: ClaimRequest, now: int)
    requires Sound(r) && req.batchId !in r.batches && req.maxItems >= 1
    ensures var filled, b := Filled(r, req, now), req.batchId;
      && SoundBut(filled, Some(b)) && Follows(r, filled) && MembersOf(filled, b) == UnfinishedOf(filled, b)
      && filled.batches == Opened(r, req, now).batches
  {
    hide SoundBut, Follows, MembersOf, UnfinishedOf, EnrollAll;
    var started := Opened(r, req, now);
    OpenedSound(r, req, now);
    EnrollAllSound(started, req.batchId, req.candidates, req.maxItems);
    FollowsTransitive(r, started, Filled(r, req, now));
  }

  // ------------------------------------------------------------------ updates of one batch row

  function WithRow(s: Tables, b: string, row: Batch): Tables {
    s.(batches := s.batches[b := row])
  }

  lemma WithRowMember(s: Tables, b: string, row: Batch, mk: MemberKey)
    requires mk in s.members && MemberSound(s, mk) && b in s.batches
    requires BatchLater(s.batches[b], row) && row.state == s.batches[b].state
    ensures MemberSound(WithRow(s, b, row), mk) && Continues(s, WithRow(s, b, row), mk)
  {
  }

  lemma WithRowBatch(s: Tables, b: string, row: Batch, x: string)
    requires b in s.batches && x in s.batches && BatchSound(s, x) && Occupied(s, x)
    requires BatchLater(s.batches[b], row) && row.state == s.batches[b].state && row.completedAt == s.batches[b].completedAt
    ensures BatchSound(WithRow(s, b, row), x) && Occupied(WithRow(s, b, row), x)
  {
    assert MembersOf(WithRow(s, b, row), x) == MembersOf(s, x);
    assert UnfinishedOf(WithRow(s, b, row), x) == UnfinishedOf(s, x);
  }

  lemma WithRowSound(s: Tables, b: string, row: Batch)
    requires Sound(s) && b in s.batches
    requires BatchLater(s.batches[b], row) && row.state == s.batches[b].state && row.completedAt == s.batches[b].completedAt
    ensures Sound(WithRow(s, b, row)) && Follows(s, WithRow(s, b, row))
  {
    hide Fenced, MemberSound, BatchSound, Occupied, Continues, Follows, BatchLater;
    var after := WithRow(s, b, row);
    forall mk | mk in s.members ensures MemberSound(after, mk) && Continues(s, after, mk) { WithRowMember(s, b, row, mk); }
    ContinuingStaysFenced(s, after);
    forall x | x in after.batches ensures BatchSound(after, x) && Occupied(after, x) { WithRowBatch(s, b, row, x); }
  }

  lemma HeartbeatSound(s: Tables, b: string, owner: string, fences: seq<Fence>, expiresAt: int, now: int)
    requires Sound(s)
    ensures var after := Heartbeat(s, b, owner, fences, expiresAt, now).0; Sound(after) && Follows(s, after)
  {
    hide SoundBut, Follows, Reclaim, ProvesBatch, ViewOf;
    ReclaimLaw(s, now);
    var r := Reclaim(s, now);
    if b in r.batches {
      var row := r.batches[b].(expiresAt := Max(r.batches[b].expiresAt, expiresAt));
      WithRowSound(r, b, row);
      FollowsTransitive(s, r, WithRow(r, b, row));
    }
  }

  lemma ObserveSound(s: Tables, b: string, owner: string, stage: Stage, at: int)
    requires Sound(s)
    ensures var after := Observe(s, b, owner, stage, at).0; Sound(after) && Follows(s, after)
  {
    hide SoundBut, Follows, ViewOf;
    FollowsReflexive(s, None);
    if b in s.batches {
      var batch := s.batches[b];
      var observed := if stage in batch.observed then batch.observed else batch.observed[stage := at];
      WithRowSound(s, b, batch.(observed := observed));
    }
  }

  // ------------------------------------------------------------------ completion

  lemma SettleMember(r: Tables, call: Call, now: int, mk: MemberKey)
    requires Sound(r) && call.batchId in r.batches && r.batches[call.batchId].state == Leased && mk in r.members
    ensures var after := Settle(r, call, now); MemberSound(after, mk) && Continues(r, after, mk)
  {
    hide Fenced, BatchSound, Occupied, FirstOutcome, AcceptedOf;
    assert MemberSound(r, mk);
    var finished := Finish(r, call.batchId, call.completions);
    assert mk.batchId == call.batchId && finished.members[mk].outcome.None? ==> mk in UnfinishedOf(finished, call.batchId);
  }

  lemma SettleBatch(r: Tables, call: Call, now: int, x: string)
    requires Sound(r) && call.batchId in r.batches && r.batches[call.batchId].state == Leased && x in r.batches
    ensures var after := Settle(r, call, now); BatchSound(after, x) && Occupied(after, x)
  {
    hide Fenced, MemberSound, FirstOutcome, AcceptedOf;
    var after, finished := Settle(r, call, now), Finish(r, call.batchId, call.completions);
    assert BatchSound(r, x) && Occupied(r, x);
    assert MembersOf(after, x) == MembersOf(r, x);
    assert UnfinishedOf(after, x) == UnfinishedOf(finished, x);
    assert x != call.batchId ==> UnfinishedOf(after, x) == UnfinishedOf(r, x);
  }

  lemma SettleSound(r: Tables, call: Call, now: int)
    requires Sound(r) && call.batchId in r.batches && r.batches[call.batchId].state == Leased
    ensures Sound(Settle(r, call, now)) && Follows(r, Settle(r, call, now))
  {
    hide Fenced, MemberSound, BatchSound, Occupied, Continues, Follows, FirstOutcome, AcceptedOf, ClosedBatch, UnfinishedOf;
    var after := Settle(r, call, now);
    forall mk | mk in r.members ensures MemberSound(after, mk) && Continues(r, after, mk) { SettleMember(r, call, now, mk); }
    ContinuingStaysFenced(r, after);
    forall x | x in r.batches ensures BatchSound(after, x) && Occupied(after, x) { SettleBatch(r, call, now, x); }
  }

  lemma CompleteSound(s: Tables, call: Call, now: int, handoff: bool)
    requires Sound(s)
    ensures var after := Complete(s, call, now, handoff).0; Sound(after) && Follows(s, after)
  {
    hide SoundBut, Follows, Reclaim, Settle, ViewOf, AcceptedOf;
    ReclaimLaw(s, now);
    FollowsReflexive(s, None);
    var r := Reclaim(s, now);
    if call.batchId in r.batches && r.batches[call.batchId].state == Leased {
      SettleSound(r, call, now);
      FollowsTransitive(s, r, Settle(r, call, now));
    }
  }

  lemma StatsSound(s: Tables, now: int, ttl: int, limit: int)
    requires Sound(s)
    ensures var after := Stats(s, now, ttl, limit).0; Sound(after) && Follows(s, after)
  {
    hide SoundBut, Follows, Reclaim, CleanupIds, WithoutBatches, Eligible;
    ReclaimLaw(s, now);
    var r := Reclaim(s, now);
    WithoutSound(r, None, CleanupIds(r, now - ttl, limit));
    FollowsTransitive(s, r, WithoutBatches(r, CleanupIds(r, now - ttl, limit)));
  }

  // ------------------------------------------------------------------ batches that are kept

  /** Batch `b` of `after` is the batch `b` of `before`, further along, with the same memberships. */
  ghost predicate BatchKept(before: Tables, after: Tables, b: string) {
    && b in before.batches && b in after.batches
    && BatchLater(before.batches[b], after.batches[b])
    && MembersOf(after, b) == MembersOf(before, b)
    && (forall mk | mk in MembersOf(before, b) :: MemberLater(before.members[mk], after.members[mk]))
  }

  /** No batch id in both tables has changed hands. */
  ghost predicate Kept(before: Tables, after: Tables) {
    forall b | b in before.batches && b in after.batches :: BatchKept(before, after, b)
  }

  lemma BatchKeptTransitive(x: Tables, y: Tables, z: Tables, b: string)
    requires BatchKept(x, y, b) && BatchKept(y, z, b)
    ensures BatchKept(x, z, b)
  {
    forall mk | mk in MembersOf(x, b) ensures MemberLater(x.members[mk], z.members[mk]) {
      assert mk in MembersOf(y, b);
    }
  }

  lemma KeptThrough(x: Tables, y: Tables, z: Tables)
    requires Kept(x, y) && Kept(y, z) && x.batches.Keys <= y.batches.Keys
    ensures Kept(x, z)
  {
    hide BatchKept;
    forall b | b in x.batches && b in z.batches ensures BatchKept(x, z, b) { BatchKeptTransitive(x, y, z, b); }
  }

  lemma KeptSelf(s: Tables)
    ensures Kept(s, s)
  {
  }

  lemma ReclaimKept(s: Tables, now: int)
    ensures Kept(s, Reclaim(s, now)) && Reclaim(s, now).batches.Keys == s.batches.Keys
  {
    forall b | b in s.batches ensures BatchKept(s, Reclaim(s, now), b) { ReclaimBatch(s, now, b); }
  }

  lemma WithRowKept(s: Tables, b: string, row: Batch)
    requires b in s.batches && BatchLater(s.batches[b], row)
    ensures Kept(s, WithRow(s, b, row))
  {
    hide BatchLater;
    RowsLater(s);
    forall x | x in s.batches ensures BatchKept(s, WithRow(s, b, row), x) {
      assert MembersOf(WithRow(s, b, row), x) == MembersOf(s, x);
    }
  }

  lemma RowsLater(s: Tables)
    ensures forall b | b in s.batches :: BatchLater(s.batches[b], s.batches[b])
  {
  }

  lemma SettleKept(r: Tables, call: Call, now: int)
    requires call.batchId in r.batches && r.batches[call.batchId].state == Leased
    ensures Kept(r, Settle(r, call, now))
  {
    hide FirstOutcome, AcceptedOf, UnfinishedOf;
    forall b | b in r.batches ensures BatchKept(r, Settle(r, call, now), b) {
      assert MembersOf(Settle(r, call, now), b) == MembersOf(r, b);
    }
  }

  lemma WithoutKept(s: Tables, ids: set<string>)
    ensures Kept(s, WithoutBatches(s, ids))
  {
    forall b | b in s.batches && b !in ids ensures BatchKept(s, WithoutBatches(s, ids), b) {
      assert MembersOf(WithoutBatches(s, ids), b) == MembersOf(s, b);
    }
  }

  /** Enrolling into one batch leaves every other batch and every existing membership alone. */
  lemma {:induction false} EnrollAllKeeps(s: Tables, b: string, candidates: seq<Candidate>, maxItems: int)
    ensures var after := EnrollAll(s, b, candidates, maxItems);
      && after.batches == s.batches
      && (forall mk | mk in s.members :: mk in after.members && after.members[mk] == s.members[mk])
      && (forall mk | mk in after.members && mk.batchId != b :: mk in s.members)
    decreases |candidates|
  {
    hide UnfinishedOf, Owned;
    if candidates != [] && |UnfinishedOf(s, b)| < maxItems {
      EnrollAllKeeps(Enroll(s, b, candidates[0]), b, candidates[1..], maxItems);
    }
  }

  lemma FilledKept(r: Tables, req: ClaimRequest, now: int)
    requires req.batchId !in r.batches
    ensures Kept(r, Filled(r, req, now))
    ensures Kept(r, Filled(r, req, now).(batches := Filled(r, req, now).batches - {req.batchId}))
  {
    hide EnrollAll, BatchLater;
    RowsLater(r);
    var filled := Filled(r, req, now);
    EnrollAllKeeps(Opened(r, req, now), req.batchId, req.candidates, req.maxItems);
    forall b | b in r.batches ensures MembersOf(filled, b) == MembersOf(r, b) {}
  }

  lemma ClaimKept(s: Tables, req: ClaimRequest, now: int)
    ensures Kept(s, Claim(s, req, now).0)
  {
    hide Kept, Reclaim, Filled, MembersOf, LeasedBatches, ViewOf;
    var r := Reclaim(s, now);
    ReclaimKept(s, now);
    KeptSelf(s);
    if req.batchId !in r.batches {
      var filled := Filled(r, req, now);
      FilledKept(r, req, now);
      KeptThrough(s, r, filled);
      KeptThrough(s, r, filled.(batches := filled.batches - {req.batchId}));
    }
  }

  lemma HeartbeatKept(s: Tables, b: string, owner: string, fences: seq<Fence>, expiresAt: int, now: int)
    ensures Kept(s, Heartbeat(s, b, owner, fences, expiresAt, now).0)
  {
    hide Kept, Reclaim, ProvesBatch, ViewOf;
    var r := Reclaim(s, now);
    ReclaimKept(s, now);
    if b in r.batches {
      var row := r.batches[b].(expiresAt := Max(r.batches[b].expiresAt, expiresAt));
      WithRowKept(r, b, row);
      KeptThrough(s, r, WithRow(r, b, row));
    }
  }

  lemma ObserveKept(s: Tables, b: string, owner: string, stage: Stage, at: int)
    ensures Kept(s, Observe(s, b, owner, stage, at).0)
  {
    hide Kept, ViewOf;
    KeptSelf(s);
    if b in s.batches {
      var batch := s.batches[b];
      var observed := if stage in batch.observed then batch.observed else batch.observed[stage := at];
      WithRowKept(s, b, batch.(observed := observed));
    }
  }

  lemma CompleteKept(s: Tables, call: Call, now: int, handoff: bool)
    ensures Kept(s, Complete(s, call, now, handoff).0)
  {
    hide Kept, Reclaim, Settle, ViewOf, AcceptedOf;
    var r := Reclaim(s, now);
    ReclaimKept(s, now);
    KeptSelf(s);
    if call.batchId in r.batches && r.batches[call.batchId].state == Leased {
      SettleKept(r, call, now);
      KeptThrough(s, r, Settle(r, call, now));
    }
  }

  lemma StatsKept(s: Tables, now: int, ttl: int, limit: int)
    ensures Kept(s, Stats(s, now, ttl, limit).0)
  {
    hide Kept, Reclaim, CleanupIds, WithoutBatches, Eligible;
    var r := Reclaim(s, now);
    ReclaimKept(s, now);
    WithoutKept(r, CleanupIds(r, now - ttl, limit));
    KeptThrough(s, r, WithoutBatches(r, CleanupIds(r, now - ttl, limit)));
  }

  // ------------------------------------------------------------------ runs

  /** Fetches, snapshots and ownership queries change the tables only by reclaiming. */
  datatype Step =
    | ClaimStep(req: ClaimRequest, now: int)
    | ReadStep(now: int)
    | HeartbeatStep(batchId: string, owner: string, fences: seq<Fence>, expiresAt: int, now: int)
    | ObserveStep(batchId: string, owner: string, stage: Stage, at: int)
    | CompleteStep(call: Call, now: int, handoff: bool)
    | StatsStep(now: int, ttl: int, limit: int)

  function Next(s: Tables, step: Step): Tables {
    match step
    case ClaimStep(req, now) => Claim(s, req, now).0
    case ReadStep(now) => Reclaim(s, now)
    case HeartbeatStep(b, owner, fences, expiresAt, now) => Heartbeat(s, b, owner, fences, expiresAt, now).0
    case ObserveStep(b, owner, stage, at) => Observe(s, b, owner, stage, at).0
    case CompleteStep(call, now, handoff) => Complete(s, call, now, handoff).0
    case StatsStep(now, ttl, limit) => Stats(s, now, ttl, limit).0
  }

  function Run(s: Tables, steps: seq<Step>): Tables {
    if steps == [] then s else Next(Run(s, steps[..|steps|-1]), steps[|steps|-1])
  }

  lemma NextKept(s: Tables, step: Step)
    ensures Kept(s, Next(s, step))
  {
    hide Kept, Claim, Reclaim, Heartbeat, Observe, Complete, Stats;
    match step
    case ClaimStep(req, now) => ClaimKept(s, req, now);
    case ReadStep(now) => ReclaimKept(s, now);
    case HeartbeatStep(b, owner, fences, expiresAt, now) => HeartbeatKept(s, b, owner, fences, expiresAt, now);
    case ObserveStep(b, owner, stage, at) => ObserveKept(s, b, owner, stage, at);
    case CompleteStep(call, now, handoff) => CompleteKept(s, call, now, handoff);
    case StatsStep(now, ttl, limit) => StatsKept(s, now, ttl, limit);
  }

  lemma NextLaw(s: Tables, step: Step)
    requires Sound(s)
    ensures Sound(Next(s, step)) && Follows(s, Next(s, step)) && Kept(s, Next(s, step))
  {
    hide SoundBut, Follows, Kept, Claim, Reclaim, Heartbeat, Observe, Complete, Stats;
    NextKept(s, step);
    match step
    case ClaimStep(req, now) => ClaimSound(s, req, now);
    case ReadStep(now) => ReclaimLaw(s, now);
    case HeartbeatStep(b, owner, fences, expiresAt, now) => HeartbeatSound(s, b, owner, fences, expiresAt, now);
    case ObserveStep(b, owner, stage, at) => ObserveSound(s, b, owner, stage, at);
    case CompleteStep(call, now, handoff) => CompleteSound(s, call, now, handoff);
    case StatsStep(now, ttl, limit) => StatsSound(s, now, ttl, limit);
  }

  /** The only deletions are cleanup's, and only of batches that are finished by then. */
  lemma OnlyCleanupDeletes(s: Tables, step: Step, b: string)
    requires b in s.batches && b !in Next(s, step).batches
    ensures step.StatsStep? && Reclaim(s, step.now).batches[b].state != Leased
  {
    hide ReclaimedBatch, ReclaimedMember, EnrollAll, UnfinishedOf, ViewOf, ProvesBatch, AcceptedOf, Finish, FirstRows;
    if step.ClaimStep? {
      EnrollKeepsBatches(Opened(Reclaim(s, step.now), step.req, step.now), step.req.batchId, step.req.candidates,
                         step.req.maxItems);
    }
  }

  /** The batch is there in every state of the run, so it has not been deleted in between. */
  ghost predicate Throughout(s: Tables, steps: seq<Step>, b: string) {
    forall i | 0 <= i <= |steps| :: b in Run(s, steps[..i]).batches
  }

  /**
   Over every run the invariant holds and generations are never issued twice; and until it is
   deleted a batch keeps its owner and its memberships, stays finished once it is, keeps what was
   recorded, and its lease never shortens.
   */
  lemma {:induction false} RunLaw(s: Tables, steps: seq<Step>)
    requires Sound(s)
    ensures Sound(Run(s, steps)) && Follows(s, Run(s, steps))
    ensures forall b | Throughout(s, steps, b) :: BatchKept(s, Run(s, steps), b)
  {
    hide SoundBut, Follows, Next, BatchKept, Throughout;
    if steps == [] {
      FollowsReflexive(s, None);
      forall b | Throughout(s, steps, b) ensures BatchKept(s, s, b) { ThroughoutShorter(s, steps, b); }
    } else {
      var init := Run(s, steps[..|steps|-1]);
      RunLaw(s, steps[..|steps|-1]);
      NextLaw(init, steps[|steps|-1]);
      FollowsTransitive(s, init, Run(s, steps));
      forall b | Throughout(s, steps, b) ensures BatchKept(s, Run(s, steps), b) {
        ThroughoutShorter(s, steps, b);
        BatchKeptTransitive(s, init, Run(s, steps), b);
      }
    }
  }

  lemma ThroughoutShorter(s: Tables, steps: seq<Step>, b: string)
    requires Throughout(s, steps, b)
    ensures b in Run(s, steps).batches
    ensures steps == [] ==> BatchKept(s, s, b)
    ensures steps != [] ==> Throughout(s, steps[..|steps|-1], b) && b in Run(s, steps[..|steps|-1]).batches
  {
    hide Next;
    assert steps[..|steps|] == steps;
    if steps == [] {
      KeptSelf(s);
    } else {
      var init := steps[..|steps|-1];
      forall i | 0 <= i <= |init| ensures b in Run(s, init[..i]).batches { assert init[..i] == steps[..i]; }
      assert init[..|init|] == init;
    }
  }

  /** In particular for every state reachable from the empty store. */
  lemma Reachable(steps: seq<Step>)
    ensures Sound(Run(EMPTY, steps))
  {
    hide Run, Next;
    RunLaw(EMPTY, steps);
  }
}
