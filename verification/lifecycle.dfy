/** Region lifecycle: rotation and reclaim keep the invariant, and the ownership partition makes their
    internal error branches unreachable. */
module Lifecycle {
  import opened Machine
  import opened Regions
  import opened Collect
  import opened Pipelines
  import opened Authority

  // ----- exclusive ownership of queued ids -----

  /** An id in the free queue is nowhere else, and there once. */
  lemma FreeExclusive(m: Manager, i: nat)
    requires Valid(m) && i < |m.free|
    ensures m.free[i] !in m.active && m.free[i] !in m.sealed
    ensures forall j :: 0 <= j < |m.free| && j != i ==> m.free[j] != m.free[i]
    ensures forall k :: 0 <= k < |m.reclaiming| ==> m.reclaiming[k].region != m.free[i]
    ensures forall t :: 0 <= t < |m.shards| && m.shards[t].rotation.Some? ==>
              m.shards[t].rotation.value.outgoing != m.free[i]
  {
    var x := m.free[i];
    OwnedOnce(m, x);
    assert x in multiset(m.free);
    assert x in m.active ==> x in multiset(m.active);
    assert x in m.sealed ==> x in multiset(m.sealed);
    forall j | 0 <= j < |m.free| && j != i ensures m.free[j] != x {
      if m.free[j] == x {
        CountTwo(m.free, Min(i, j), Max(i, j));
      }
    }
    forall k | 0 <= k < |m.reclaiming| ensures m.reclaiming[k].region != x {
      GatherMember(m.reclaiming, k, ReclaimedId);
    }
    forall t | 0 <= t < |m.shards| && m.shards[t].rotation.Some? ensures m.shards[t].rotation.value.outgoing != x {
      GatherMember(m.shards, t, OutgoingId);
    }
  }

  /** A pinned id is nowhere else, and pinned once. */
  lemma ReclaimExclusive(m: Manager, k: nat)
    requires Valid(m) && k < |m.reclaiming|
    ensures var x := m.reclaiming[k].region;
            && x !in m.active && x !in m.free && x !in m.sealed
            && (forall j :: 0 <= j < |m.reclaiming| && j != k ==> m.reclaiming[j].region != x)
            && (forall t :: 0 <= t < |m.shards| && m.shards[t].rotation.Some? ==>
                  m.shards[t].rotation.value.outgoing != x)
  {
    var x := m.reclaiming[k].region;
    OwnedOnce(m, x);
    GatherMember(m.reclaiming, k, ReclaimedId);
    assert x in Gather(m.reclaiming, ReclaimedId);
    assert x in m.active ==> x in multiset(m.active);
    assert x in m.free ==> x in multiset(m.free);
    assert x in m.sealed ==> x in multiset(m.sealed);
    forall j | 0 <= j < |m.reclaiming| && j != k ensures m.reclaiming[j].region != x {
      GatherPair(m.reclaiming, Min(j, k), Max(j, k), ReclaimedId);
    }
    forall t | 0 <= t < |m.shards| && m.shards[t].rotation.Some? ensures m.shards[t].rotation.value.outgoing != x {
      GatherMember(m.shards, t, OutgoingId);
    }
  }

  /** Counting owners: the queues never exceed the capacity reserved for them. */
  lemma OwnerCount(m: Manager)
    requires Valid(m)
    ensures |m.active| + |m.free| + |m.sealed| + |m.reclaiming| + |Gather(m.shards, OutgoingId)| == |m.regions|
  {
    assert m in States(Ownership);
    AllIdsSize(|m.regions|);
    GatherSize(m.reclaiming, ReclaimedId);
  }

  // ----- rotation -----

  /** The rotation victim is always a Free Region distinct from the outgoing one. */
  lemma SelectKinds(m: Manager, s: nat)
    requires Valid(m)
    ensures SelectRotation(m, s) != Err(Invariant)
    ensures SelectRotation(m, s).Ok? ==>
              && s < |m.shards| && s < |m.active| && m.active[s] < |m.regions|
              && m.shards[s].requested && m.shards[s].Quiescent()
              && m.free != [] && m.free[0] < |m.regions| && m.free[0] != m.active[s]
              && m.regions[m.active[s]].reserved == m.regions[m.active[s]].completed
              && SelectRotation(m, s).value == Candidate(s, m.free[0], 0)
  {
    assert m in States(Queued) && m in States(Pipelined);
    if s < |m.shards| && m.free != [] {
      FreeExclusive(m, 0);
      assert m.active[s] in m.active;
    }
  }

  /** The state after rotating shard s onto the free Region v. */
  function Rotated(m: Manager, s: nat): Manager
    requires s < |m.shards| && s < |m.active| && m.active[s] < |m.regions| && m.free != [] && m.free[0] < |m.regions|
  {
    var q := Rotation(s, m.active[s], m.free[0], m.nextSeqno);
    m.(nextSeqno := m.nextSeqno + 1,
       free := m.free[1..],
       regions := m.regions[m.active[s] := m.regions[m.active[s]].(state := Sealed)]
                           [m.free[0] := RegionDesc(Active, m.nextSeqno, 0, 0, 0)],
       active := m.active[s := m.free[0]],
       shards := m.shards[s := m.shards[s].(requested := false, rotation := Some(q))])
  }

  ghost predicate CanRotate(m: Manager, s: nat) {
    && Valid(m) && s < |m.shards| && s < |m.active| && m.active[s] < |m.regions|
    && m.shards[s].Quiescent() && m.free != [] && m.free[0] < |m.regions| && m.free[0] != m.active[s]
    && m.regions[m.active[s]].reserved == m.regions[m.active[s]].completed
    && m.nextSeqno < U64_MAX
  }

  lemma RotatedOwners(m: Manager, s: nat)
    requires CanRotate(m, s)
    ensures Owned(Rotated(m, s)) == Owned(m)
  {
    var m' := Rotated(m, s);
    var a, v := m.active[s], m.free[0];
    RotatedOutgoing(m, s);
    HeadOf(m.free);
    assert multiset(m'.active) == multiset(m.active) - multiset{a} + multiset{v};
    SwapOwners(multiset(m.active), multiset(m'.free), multiset(m.sealed),
               Gather(m.reclaiming, ReclaimedId), Gather(m.shards, OutgoingId), a, v);
  }

  lemma RotatedOutgoing(m: Manager, s: nat)
    requires CanRotate(m, s)
    ensures Gather(Rotated(m, s).shards, OutgoingId) == Gather(m.shards, OutgoingId) + multiset{m.active[s]}
  {
    GatherUpdate(m.shards, s, Rotated(m, s).shards[s], OutgoingId);
  }

  lemma HeadOf(q: seq<nat>)
    requires q != []
    ensures multiset(q) == multiset{q[0]} + multiset(q[1..])
  {
    assert q == [q[0]] + q[1..];
  }

  lemma SwapOwners(active: multiset<nat>, free: multiset<nat>, sealed: multiset<nat>,
                   reclaiming: multiset<nat>, outgoing: multiset<nat>, a: nat, v: nat)
    requires a in active
    ensures (active - multiset{a} + multiset{v}) + free + sealed + reclaiming + (outgoing + multiset{a})
         == active + (multiset{v} + free) + sealed + reclaiming + outgoing
  {
  }

  lemma RotatedShards(m: Manager, s: nat)
    requires CanRotate(m, s)
    ensures Rotated(m, s) in States(Ranges) && Rotated(m, s) in States(Pipelined)
  {
    var m' := Rotated(m, s);
    assert m in States(Pipelined);
    FreeExclusive(m, 0);
    forall t | 0 <= t < |m'.shards|
      ensures Pipeline(m'.shards[t], t, m'.active[t], m'.regions[m'.active[t]], m'.nextSeqno, m'.regionSize)
    {
      if t != s {
        ActiveDistinct(m, s, t);
        assert m.active[t] in m.active;
        PipelineLater(m.shards[t], t, m.active[t], m.regions[m.active[t]], m.nextSeqno, m'.nextSeqno, m.regionSize);
      }
    }
  }

  /** Regions other than the outgoing and the activated one are untouched. */
  lemma RotatedElsewhere(m: Manager, s: nat)
    requires CanRotate(m, s)
    ensures forall x :: 0 <= x < |m.regions| && x != m.active[s] && x != m.free[0] ==> Rotated(m, s).regions[x] == m.regions[x]
    ensures forall i :: 1 <= i < |m.free| ==> m.free[i] != m.active[s] && m.free[i] != m.free[0]
    ensures forall i :: 0 <= i < |m.sealed| ==> m.sealed[i] != m.active[s] && m.sealed[i] != m.free[0]
    ensures forall i :: 0 <= i < |m.reclaiming| ==>
              m.reclaiming[i].region != m.active[s] && m.reclaiming[i].region != m.free[0]
    ensures forall t :: 0 <= t < |m.shards| && m.shards[t].rotation.Some? ==>
              m.shards[t].rotation.value.outgoing != m.active[s] && m.shards[t].rotation.value.outgoing != m.free[0]
    ensures Retired(Rotated(m, s).regions[m.active[s]], m.nextSeqno + 1, m.regionSize)
  {
    FreeExclusive(m, 0);
    ActiveExclusive(m, s);
    ShardOf(m, s);
    forall i | 1 <= i < |m.free| ensures m.free[i] != m.active[s] && m.free[i] != m.free[0] {
      assert m.free[i] in m.free;
    }
    forall i | 0 <= i < |m.sealed| ensures m.sealed[i] != m.active[s] && m.sealed[i] != m.free[0] {
      assert m.sealed[i] in m.sealed;
    }
  }

  lemma RotatedQueues(m: Manager, s: nat)
    requires CanRotate(m, s) && Rotated(m, s) in States(Ranges)
    ensures Rotated(m, s) in States(Queued)
  {
    var m' := Rotated(m, s);
    assert m in States(Queued);
    RotatedElsewhere(m, s);
    forall i | 0 <= i < |m'.free| ensures m'.regions[m'.free[i]] == FreeDesc {
      assert m'.free[i] == m.free[i + 1];
    }
    forall i | 0 <= i < |m.reclaiming| ensures ReclaimOk(m', m'.reclaiming[i]) {
      assert ReclaimOk(m, m.reclaiming[i]);
    }
    forall t | 0 <= t < |m.shards| && m'.shards[t].rotation.Some?
      ensures Retired(m'.regions[m'.shards[t].rotation.value.outgoing], m'.nextSeqno, m.regionSize)
    {
    }
  }

  lemma RotateStep(m: Manager, s: nat)
    requires CanRotate(m, s)
    ensures Valid(Rotated(m, s))
  {
    var m' := Rotated(m, s);
    RotatedOwners(m, s);
    SameOwners(m, m');
    RotatedShards(m, s);
    RotatedQueues(m, s);
    assert m in States(Sizes);
    SameSizes(m, m');
    Closed(m');
  }

  lemma BeginRotationKeeps(m: Manager, c: Candidate)
    requires Valid(m)
    ensures Valid(BeginRotation(m, c).0)
    ensures BeginRotation(m, c).1 != Err(Invariant)
  {
    var out := BeginRotation(m, c);
    SelectKinds(m, c.shard);
    if out.1.Ok? {
      RotateStep(m, c.shard);
      assert out.0 == Rotated(m, c.shard);
    } else {
      assert out.0 == m;
    }
  }

  /** The rotation in flight always finishes; any other receipt is stale. */
  lemma FinishRotationKeeps(m: Manager, q: Rotation)
    requires Valid(m)
    ensures Valid(FinishRotation(m, q).0)
    ensures q.shard < |m.shards| ==>
              FinishRotation(m, q).1 == if m.shards[q.shard].rotation == Some(q) then Ok(()) else Err(StaleReceipt)
  {
    var out := FinishRotation(m, q);
    var s := q.shard;
    if s < |m.shards| && m.shards[s].rotation == Some(q) {
      FinishRotationOk(m, q);
      FinishStep(m, q);
    } else {
      assert out.0 == m;
    }
  }

  /** The state after the outgoing Region of rotation q enters the sealed queue. */
  function Finished(m: Manager, q: Rotation): Manager
    requires q.shard < |m.shards|
  {
    m.(sealed := m.sealed + [q.outgoing],
       rotations := Min(m.rotations + 1, U64_MAX),
       shards := m.shards[q.shard := m.shards[q.shard].(rotation := None)])
  }

  lemma FinishRotationOk(m: Manager, q: Rotation)
    requires Valid(m) && q.shard < |m.shards| && m.shards[q.shard].rotation == Some(q)
    ensures FinishRotation(m, q) == (Finished(m, q), Ok(()))
  {
    assert m in States(Queued) && m in States(Sizes);
    ShardOf(m, q.shard);
    OwnerCount(m);
    GatherMember(m.shards, q.shard, OutgoingId);
    assert q.outgoing in Gather(m.shards, OutgoingId);
  }

  lemma FinishedOwners(m: Manager, q: Rotation)
    requires q.shard < |m.shards| && m.shards[q.shard].rotation == Some(q)
    ensures Owned(Finished(m, q)) == Owned(m)
  {
    var m' := Finished(m, q);
    GatherUpdate(m.shards, q.shard, m'.shards[q.shard], OutgoingId);
    assert Gather(m.shards, OutgoingId) == Gather(m'.shards, OutgoingId) + multiset{q.outgoing};
    assert multiset(m'.sealed) == multiset(m.sealed) + multiset{q.outgoing};
    MoveOwner(multiset(m.active) + multiset(m.free), multiset(m.sealed),
              Gather(m.reclaiming, ReclaimedId), Gather(m'.shards, OutgoingId), q.outgoing);
  }

  lemma MoveOwner(rest: multiset<nat>, to: multiset<nat>, middle: multiset<nat>, from: multiset<nat>, x: nat)
    ensures rest + (to + multiset{x}) + middle + from == rest + to + middle + (from + multiset{x})
  {
  }

  lemma FinishedShards(m: Manager, q: Rotation)
    requires Valid(m) && q.shard < |m.shards| && m.shards[q.shard].rotation == Some(q)
    ensures Finished(m, q) in States(Ranges) && Finished(m, q) in States(Pipelined)
  {
    var m' := Finished(m, q);
    assert m in States(Pipelined);
    forall t | 0 <= t < |m'.shards|
      ensures Pipeline(m'.shards[t], t, m'.active[t], m'.regions[m'.active[t]], m'.nextSeqno, m'.regionSize)
    {
      assert Pipeline(m.shards[t], t, m.active[t], m.regions[m.active[t]], m.nextSeqno, m.regionSize);
    }
  }

  lemma FinishedQueues(m: Manager, q: Rotation)
    requires Valid(m) && q.shard < |m.shards| && m.shards[q.shard].rotation == Some(q)
    ensures Finished(m, q) in States(Queued)
  {
    var m' := Finished(m, q);
    assert m in States(Queued);
    forall i | 0 <= i < |m.reclaiming| ensures ReclaimOk(m', m'.reclaiming[i]) {
      assert ReclaimOk(m, m.reclaiming[i]);
    }
  }

  lemma FinishStep(m: Manager, q: Rotation)
    requires Valid(m) && q.shard < |m.shards| && m.shards[q.shard].rotation == Some(q)
    ensures Valid(Finished(m, q))
  {
    var m' := Finished(m, q);
    FinishedOwners(m, q);
    SameOwners(m, m');
    FinishedShards(m, q);
    FinishedQueues(m, q);
    assert m in States(Sizes);
    SameSizes(m, m');
    Closed(m');
  }

  // ----- reclaim -----

  /** The state after pinning the oldest sealed Region. */
  function Pinned(m: Manager): Manager
    requires m.sealed != [] && m.sealed[0] < |m.regions|
  {
    var id := m.sealed[0];
    var r := m.regions[id];
    m.(sealed := m.sealed[1..], reclaiming := m.reclaiming + [Reclaim(id, r.created, r.completed, r.records)])
  }

  lemma PinnedOwners(m: Manager)
    requires m.sealed != [] && m.sealed[0] < |m.regions|
    ensures Owned(Pinned(m)) == Owned(m)
  {
    var m' := Pinned(m);
    var c := m'.reclaiming[|m.reclaiming|];
    GatherAppend(m.reclaiming, c, ReclaimedId);
    HeadOf(m.sealed);
    assert ReclaimedId(c) == multiset{m.sealed[0]};
  }

  lemma PinnedQueues(m: Manager)
    requires Valid(m) && m.sealed != [] && m.sealed[0] < |m.regions|
    ensures Pinned(m) in States(Ranges) && Pinned(m) in States(Queued)
  {
    var m' := Pinned(m);
    assert m in States(Queued);
    forall i | 0 <= i < |m'.sealed|
      ensures m'.sealed[i] < |m'.regions| && Retired(m'.regions[m'.sealed[i]], m'.nextSeqno, m'.regionSize)
    {
      assert m'.sealed[i] == m.sealed[i + 1];
    }
    forall i | 0 <= i < |m'.reclaiming|
      ensures m'.reclaiming[i].region < |m'.regions| && ReclaimOk(m', m'.reclaiming[i])
    {
      if i < |m.reclaiming| {
        assert ReclaimOk(m, m.reclaiming[i]);
      }
    }
  }

  lemma PinnedShards(m: Manager)
    requires Valid(m) && m.sealed != [] && m.sealed[0] < |m.regions| && Pinned(m) in States(Ranges)
    ensures Pinned(m) in States(Pipelined)
  {
    assert m in States(Pipelined);
  }

  lemma PinStep(m: Manager)
    requires Valid(m) && ReclaimNeeded(m) && m.sealed[0] < |m.regions|
    ensures Valid(Pinned(m))
  {
    var m' := Pinned(m);
    PinnedOwners(m);
    SameOwners(m, m');
    PinnedQueues(m);
    PinnedShards(m);
    assert m in States(Sizes);
    SameSizes(m, m');
    Closed(m');
  }

  /** Reclaim never fails, and pins a Region exactly when the clean reserve is short. */
  lemma BeginReclaimKeeps(m: Manager)
    requires Valid(m)
    ensures Valid(BeginReclaim(m).0)
    ensures BeginReclaim(m).1.Ok?
    ensures BeginReclaim(m).1.value.Some? <==> ReclaimNeeded(m)
    ensures ReclaimNeeded(m) ==> m.sealed[0] < |m.regions| && BeginReclaim(m).0 == Pinned(m)
  {
    if ReclaimNeeded(m) {
      SealedIs(m, 0);
      PinStep(m);
      assert BeginReclaim(m).0 == Pinned(m);
    }
  }

  lemma SealedIs(m: Manager, i: nat)
    requires Valid(m) && i < |m.sealed|
    ensures m.sealed[i] < |m.regions| && Retired(m.regions[m.sealed[i]], m.nextSeqno, m.regionSize)
  {
    assert m in States(Queued);
  }

  lemma FreeIs(m: Manager, i: nat)
    requires Valid(m) && i < |m.free|
    ensures m.free[i] < |m.regions| && m.regions[m.free[i]] == FreeDesc
  {
    assert m in States(Queued);
  }

  /** The state after the k-th pinned Region is released. */
  function Released(m: Manager, k: nat): Manager
    requires k < |m.reclaiming| && m.reclaiming[k].region < |m.regions|
  {
    m.(regions := m.regions[m.reclaiming[k].region := FreeDesc],
       free := m.free + [m.reclaiming[k].region],
       reclaiming := SwapRemove(m.reclaiming, k))
  }

  lemma ReleasedShards(m: Manager, k: nat)
    requires Valid(m) && k < |m.reclaiming| && m.reclaiming[k].region < |m.regions|
    ensures Released(m, k) in States(Ranges) && Released(m, k) in States(Pipelined)
  {
    var m' := Released(m, k);
    assert m in States(Pipelined);
    ReclaimExclusive(m, k);
    forall t | 0 <= t < |m'.shards|
      ensures Pipeline(m'.shards[t], t, m'.active[t], m'.regions[m'.active[t]], m'.nextSeqno, m'.regionSize)
    {
      assert m.active[t] in m.active;
      assert Pipeline(m.shards[t], t, m.active[t], m.regions[m.active[t]], m.nextSeqno, m.regionSize);
    }
  }

  lemma ReleasedQueues(m: Manager, k: nat)
    requires Valid(m) && k < |m.reclaiming| && m.reclaiming[k].region < |m.regions| && Released(m, k) in States(Ranges)
    ensures Released(m, k) in States(Queued)
  {
    var m' := Released(m, k);
    assert m in States(Queued);
    ReclaimExclusive(m, k);
    forall i | 0 <= i < |m'.free| ensures m'.regions[m'.free[i]] == FreeDesc {
      assert i < |m.free| ==> m.free[i] in m.free;
    }
    forall i | 0 <= i < |m'.sealed| ensures Retired(m'.regions[m'.sealed[i]], m'.nextSeqno, m'.regionSize) {
      assert m.sealed[i] in m.sealed;
    }
    forall i | 0 <= i < |m'.reclaiming| ensures ReclaimOk(m', m'.reclaiming[i]) {
      var j := if i == k then |m.reclaiming| - 1 else i;
      assert m'.reclaiming[i] == m.reclaiming[j];
      assert ReclaimOk(m, m.reclaiming[j]);
    }
  }

  lemma ReleasedOwners(m: Manager, k: nat)
    requires k < |m.reclaiming| && m.reclaiming[k].region < |m.regions|
    ensures Owned(Released(m, k)) == Owned(m)
  {
    GatherSwapRemove(m.reclaiming, k, ReclaimedId);
  }

  lemma ReleaseStep(m: Manager, k: nat)
    requires Valid(m) && k < |m.reclaiming| && m.reclaiming[k].region < |m.regions|
    ensures Valid(Released(m, k))
  {
    var m' := Released(m, k);
    ReleasedShards(m, k);
    ReleasedQueues(m, k);
    ReleasedOwners(m, k);
    SameOwners(m, m');
    assert m in States(Sizes);
    SameSizes(m, m');
    Closed(m');
  }

  lemma PinnedIs(m: Manager, k: nat)
    requires Valid(m) && k < |m.reclaiming|
    ensures m.reclaiming[k].region < |m.regions| && ReclaimOk(m, m.reclaiming[k])
  {
    assert m in States(Queued);
  }

  /** A held reclaim receipt always finishes; any other receipt is stale. */
  lemma FinishReclaimKeeps(m: Manager, c: Reclaim)
    requires Valid(m)
    ensures Valid(FinishReclaim(m, c).0)
    ensures FinishReclaim(m, c).1 == if c in m.reclaiming then Ok(()) else Err(StaleReceipt)
    ensures c in m.reclaiming ==> |m.free| + |m.sealed| < m.queueCapacity
  {
    var out := FinishReclaim(m, c);
    var k := Position(m.reclaiming, c);
    if c in m.reclaiming {
      PinnedIs(m, k);
      OwnerCount(m);
      assert m in States(Sizes);
      ReleaseStep(m, k);
      assert out == (Released(m, k), Ok(()));
    } else {
      assert out == (m, Err(StaleReceipt));
    }
  }

  lemma ConfigureKeeps(m: Manager, workers: nat)
    requires Valid(m)
    ensures Valid(ConfigureReclaimWorkers(m, workers).0)
  {
    var m' := ConfigureReclaimWorkers(m, workers).0;
    if m' != m {
      ConfiguredContents(m, workers);
      assert Owned(m') == Owned(m);
      SameOwners(m, m');
      assert m in States(Sizes);
      SameSizes(m, m');
      Closed(m');
    }
  }

  lemma ConfiguredContents(m: Manager, workers: nat)
    requires Valid(m)
    ensures var m' := m.(reclaimLimit := workers);
            m' in States(Ranges) && m' in States(Pipelined) && (m.reclaiming == [] ==> m' in States(Queued))
  {
    assert m in States(Pipelined) && m in States(Queued);
  }
}
