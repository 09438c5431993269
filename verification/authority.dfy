/** The invariant of `RegionManager` and its preservation by every operation. */
module Authority {
  import opened Machine
  import opened Regions
  import opened Collect
  import opened Pipelines

  // ----- the whole manager -----

  /** A Region that left the Active set: no write is outstanding. */
  predicate Retired(r: RegionDesc, next: nat, size: nat) {
    && r.state == Sealed && 0 < r.created < next
    && r.completed == r.reserved <= size && r.completed % RECORD_ALIGNMENT == 0
    && r.records * RECORD_ALIGNMENT <= r.completed
  }

  function ReclaimedId(c: Reclaim): multiset<nat> {
    multiset{c.region}
  }

  function OutgoingId(sh: Shard): multiset<nat> {
    if sh.rotation.Some? then multiset{sh.rotation.value.outgoing} else multiset{}
  }

  /** Every Region id with the multiplicity of its owners: shard, free queue, sealed queue, reclaim
      worker, or rotation in flight. */
  function Owned(m: Manager): multiset<nat> {
    multiset(m.active) + multiset(m.free) + multiset(m.sealed)
      + Gather(m.reclaiming, ReclaimedId) + Gather(m.shards, OutgoingId)
  }

  predicate InRange(m: Manager) {
    && |m.shards| == |m.active|
    && (forall s :: 0 <= s < |m.active| ==> m.active[s] < |m.regions|)
    && (forall i :: 0 <= i < |m.free| ==> m.free[i] < |m.regions|)
    && (forall i :: 0 <= i < |m.sealed| ==> m.sealed[i] < |m.regions|)
    && (forall i :: 0 <= i < |m.reclaiming| ==> m.reclaiming[i].region < |m.regions|)
    && (forall s :: 0 <= s < |m.shards| && m.shards[s].rotation.Some? ==>
          m.shards[s].rotation.value.outgoing < |m.regions|)
  }

  predicate ShardsOk(m: Manager)
    requires InRange(m)
  {
    forall s :: 0 <= s < |m.shards| ==>
      Pipeline(m.shards[s], s, m.active[s], m.regions[m.active[s]], m.nextSeqno, m.regionSize)
  }

  predicate QueuesOk(m: Manager)
    requires InRange(m)
  {
    && (forall i :: 0 <= i < |m.free| ==> m.regions[m.free[i]] == FreeDesc)
    && (forall i :: 0 <= i < |m.sealed| ==> Retired(m.regions[m.sealed[i]], m.nextSeqno, m.regionSize))
    && (forall i :: 0 <= i < |m.reclaiming| ==> ReclaimOk(m, m.reclaiming[i]))
    && (forall s :: 0 <= s < |m.shards| && m.shards[s].rotation.Some? ==>
          Retired(m.regions[m.shards[s].rotation.value.outgoing], m.nextSeqno, m.regionSize))
  }

  /** The pinned Region still is what the reclaim receipt describes. */
  predicate ReclaimOk(m: Manager, c: Reclaim)
    requires c.region < |m.regions|
  {
    var r := m.regions[c.region];
    Retired(r, m.nextSeqno, m.regionSize) && c == Reclaim(c.region, r.created, r.completed, r.records)
  }

  predicate Limits(m: Manager) {
    && 0 < m.regionSize <= MAX_REGION_SIZE && m.regionSize % DIRECT_IO_ALIGNMENT == 0
    && |m.regions| <= MAX_REGION_COUNT
    && 0 < |m.active| <= MAX_SHARDS && |m.active| < |m.regions|
    && 0 < m.nextSeqno <= U64_MAX
    && m.queueCapacity + |m.active| == |m.regions|
    && |m.reclaiming| <= m.reclaimLimit
    && 1 <= m.reclaimLimit <= |m.active|
  }

  datatype Aspect = Sizes | Ranges | Ownership | Pipelined | Queued

  /** The states in which one aspect of the invariant holds. */
  ghost function States(a: Aspect): iset<Manager> {
    match a
    case Sizes => iset m: Manager | Limits(m)
    case Ranges => iset m: Manager | InRange(m)
    case Ownership => iset m: Manager | Owned(m) == AllIds(|m.regions|)
    case Pipelined => iset m: Manager | InRange(m) && ShardsOk(m)
    case Queued => iset m: Manager | InRange(m) && QueuesOk(m)
  }

  /** The invariant.  Proofs open an aspect by mentioning it. */
  ghost predicate Valid(m: Manager) {
    forall a {:trigger m in States(a)} :: m in States(a)
  }

  lemma Closed(m: Manager)
    requires m in States(Sizes) && m in States(Ranges) && m in States(Ownership)
    requires m in States(Pipelined) && m in States(Queued)
    ensures Valid(m)
  {
    forall a ensures m in States(a) {
      match a
      case Sizes =>
      case Ranges =>
      case Ownership =>
      case Pipelined =>
      case Queued =>
    }
  }

  /** Ownership is preserved by steps that only move ids. */
  lemma SameOwners(m: Manager, m': Manager)
    requires Valid(m) && Owned(m') == Owned(m) && |m'.regions| == |m.regions|
    ensures m' in States(Ownership)
  {
    assert m in States(Ownership);
  }

  /** Sizes are preserved by steps that keep the dimensions. */
  lemma SameSizes(m: Manager, m': Manager)
    requires Valid(m) && m'.regionSize == m.regionSize && |m'.regions| == |m.regions| && |m'.active| == |m.active|
    requires m.nextSeqno <= m'.nextSeqno <= U64_MAX && m'.queueCapacity == m.queueCapacity
    requires |m'.reclaiming| <= m'.reclaimLimit && 1 <= m'.reclaimLimit <= |m.active|
    ensures m' in States(Sizes)
  {
    assert m in States(Sizes);
  }

  // ----- what single ownership gives -----

  lemma OwnedOnce(m: Manager, x: nat)
    requires Valid(m)
    ensures Owned(m)[x] <= 1
  {
    assert m in States(Ownership);
    AllIdsSize(|m.regions|);
  }

  lemma ActiveDistinct(m: Manager, s: nat, t: nat)
    requires Valid(m) && s < |m.active| && t < |m.active| && s != t
    ensures m.active[s] != m.active[t]
  {
    if m.active[s] == m.active[t] {
      CountTwo(m.active, Min(s, t), Max(s, t));
      OwnedOnce(m, m.active[s]);
    }
  }

  /** An id held by a shard is in no queue, not being reclaimed and not leaving. */
  lemma ActiveExclusive(m: Manager, s: nat)
    requires Valid(m) && s < |m.active|
    ensures m.active[s] !in m.free && m.active[s] !in m.sealed
    ensures forall i :: 0 <= i < |m.reclaiming| ==> m.reclaiming[i].region != m.active[s]
    ensures forall t :: 0 <= t < |m.shards| && m.shards[t].rotation.Some? ==>
              m.shards[t].rotation.value.outgoing != m.active[s]
  {
    var x := m.active[s];
    OwnedOnce(m, x);
    assert x in multiset(m.active);
    assert x in m.free ==> x in multiset(m.free);
    assert x in m.sealed ==> x in multiset(m.sealed);
    forall i | 0 <= i < |m.reclaiming| ensures m.reclaiming[i].region != x {
      GatherMember(m.reclaiming, i, ReclaimedId);
    }
    forall t | 0 <= t < |m.shards| && m.shards[t].rotation.Some? ensures m.shards[t].rotation.value.outgoing != x {
      GatherMember(m.shards, t, OutgoingId);
    }
  }

  // ----- preservation: steps that stay within one shard -----

  function Confined(m: Manager, s: nat, sh: Shard, r: RegionDesc, next: nat): Manager
    requires s < |m.shards| && s < |m.active| && m.active[s] < |m.regions|
  {
    m.(nextSeqno := next, regions := m.regions[m.active[s] := r], shards := m.shards[s := sh])
  }

  lemma ConfinedShards(m: Manager, s: nat, sh: Shard, r: RegionDesc, next: nat)
    requires Valid(m) && s < |m.shards| && s < |m.active| && m.active[s] < |m.regions| && m.nextSeqno <= next
    requires Pipeline(sh, s, m.active[s], r, next, m.regionSize)
    requires sh.rotation == m.shards[s].rotation
    ensures Confined(m, s, sh, r, next) in States(Ranges) && Confined(m, s, sh, r, next) in States(Pipelined)
  {
    var m' := Confined(m, s, sh, r, next);
    assert m in States(Pipelined);
    forall t | 0 <= t < |m'.shards|
      ensures Pipeline(m'.shards[t], t, m'.active[t], m'.regions[m'.active[t]], next, m'.regionSize)
    {
      if t != s {
        ActiveDistinct(m, s, t);
        PipelineLater(m.shards[t], t, m.active[t], m.regions[m.active[t]], m.nextSeqno, next, m.regionSize);
      }
    }
  }

  lemma ConfinedQueues(m: Manager, s: nat, sh: Shard, r: RegionDesc, next: nat)
    requires Valid(m) && s < |m.shards| && s < |m.active| && m.active[s] < |m.regions| && m.nextSeqno <= next
    requires sh.rotation == m.shards[s].rotation
    ensures Confined(m, s, sh, r, next) in States(Queued)
  {
    var m' := Confined(m, s, sh, r, next);
    assert m in States(Queued);
    ActiveExclusive(m, s);
    forall i | 0 <= i < |m.reclaiming| ensures ReclaimOk(m', m'.reclaiming[i]) {
      assert ReclaimOk(m, m.reclaiming[i]);
    }
    forall t | 0 <= t < |m.shards| && m'.shards[t].rotation.Some?
      ensures Retired(m'.regions[m'.shards[t].rotation.value.outgoing], next, m.regionSize)
    {
      assert m.shards[t].rotation == m'.shards[t].rotation;
    }
  }

  lemma ConfinedOwners(m: Manager, s: nat, sh: Shard, r: RegionDesc, next: nat)
    requires s < |m.shards| && s < |m.active| && m.active[s] < |m.regions|
    requires sh.rotation == m.shards[s].rotation
    ensures Owned(Confined(m, s, sh, r, next)) == Owned(m)
  {
    GatherUpdate(m.shards, s, sh, OutgoingId);
    assert OutgoingId(sh) == OutgoingId(m.shards[s]);
    Cancel(Gather(m.shards[s := sh], OutgoingId), Gather(m.shards, OutgoingId), OutgoingId(sh));
  }

  /** A step confined to one shard and its Active Region keeps everything else. */
  lemma ShardStep(m: Manager, s: nat, sh: Shard, r: RegionDesc, next: nat)
    requires Valid(m) && s < |m.shards| && s < |m.active| && m.active[s] < |m.regions|
    requires m.nextSeqno <= next <= U64_MAX
    requires Pipeline(sh, s, m.active[s], r, next, m.regionSize)
    requires sh.rotation == m.shards[s].rotation
    ensures Valid(Confined(m, s, sh, r, next))
  {
    var m' := Confined(m, s, sh, r, next);
    ConfinedShards(m, s, sh, r, next);
    ConfinedQueues(m, s, sh, r, next);
    ConfinedOwners(m, s, sh, r, next);
    SameOwners(m, m');
    assert m in States(Sizes);
    SameSizes(m, m');
    Closed(m');
  }

  lemma ShardOf(m: Manager, s: nat)
    requires Valid(m) && s < |m.shards|
    ensures s < |m.active| && m.active[s] < |m.regions|
    ensures Pipeline(m.shards[s], s, m.active[s], m.regions[m.active[s]], m.nextSeqno, m.regionSize)
    ensures 0 < m.nextSeqno <= U64_MAX && 0 < m.regionSize <= MAX_REGION_SIZE
    ensures m.regionSize % DIRECT_IO_ALIGNMENT == 0
  {
    assert m in States(Pipelined) && m in States(Sizes);
  }

  lemma ReserveShape(m: Manager, s: nat, bytes: nat)
    requires s < |m.shards| && s < |m.active| && m.active[s] < |m.regions|
    ensures var sh, r := m.shards[s], m.regions[m.active[s]];
            var out := ReserveAppend(m, s, bytes);
            || out.0 == m
            || (out.1.Err? && out.0 == Confined(m, s, sh.(requested := true), r, m.nextSeqno))
            || (&& out.1 == Ok(Reservation(s, m.active[s], r.created, r.reserved, bytes, m.nextSeqno))
                && sh.tail.None? && sh.padding.None? && sh.rotation.None?
                && 0 < bytes && bytes % RECORD_ALIGNMENT == 0
                && r.reserved + bytes <= m.regionSize && m.nextSeqno < U64_MAX
                && out.0 == Confined(m, s, sh.(tail := Some(out.1.value)), r.(reserved := r.reserved + bytes), m.nextSeqno + 1))
  {
    assert m.regions[m.active[s] := m.regions[m.active[s]]] == m.regions;
  }

  lemma ReserveKeeps(m: Manager, s: nat, bytes: nat)
    requires Valid(m)
    ensures Valid(ReserveAppend(m, s, bytes).0)
  {
    var out := ReserveAppend(m, s, bytes);
    if s >= |m.shards| {
      assert out.0 == m;
    } else {
      ShardOf(m, s);
      ReserveShape(m, s, bytes);
      var sh, id := m.shards[s], m.active[s];
      var r := m.regions[id];
      if out.0 == m {
      } else if out.1.Ok? {
        var sh', r' := sh.(tail := Some(out.1.value)), r.(reserved := r.reserved + bytes);
        Reserved(sh, s, id, r, m.nextSeqno, m.regionSize, bytes);
        ShardStep(m, s, sh', r', m.nextSeqno + 1);
        assert out.0 == Confined(m, s, sh', r', m.nextSeqno + 1);
      } else {
        var sh' := sh.(requested := true);
        Requested(sh, s, id, r, m.nextSeqno, m.regionSize);
        ShardStep(m, s, sh', r, m.nextSeqno);
        assert out.0 == Confined(m, s, sh', r, m.nextSeqno);
      }
    }
    assert Valid(out.0);
  }

  lemma AllocateKeeps(m: Manager)
    requires Valid(m)
    ensures Valid(AllocateSeqno(m).0)
  {
    if m.nextSeqno < U64_MAX {
      assert m in States(Sizes) && m in States(Ranges);
      ShardOf(m, 0);
      var sh, r := m.shards[0], m.regions[m.active[0]];
      PipelineLater(sh, 0, m.active[0], r, m.nextSeqno, m.nextSeqno + 1, m.regionSize);
      ShardStep(m, 0, sh, r, m.nextSeqno + 1);
      assert m.regions[m.active[0] := r] == m.regions && m.shards[0 := sh] == m.shards;
      assert AllocateSeqno(m).0 == Confined(m, 0, sh, r, m.nextSeqno + 1);
    }
  }

  /** The current tail reservation always stages; any other receipt is stale. */
  lemma StageKeeps(m: Manager, t: Reservation)
    requires Valid(m)
    ensures Valid(StageReservation(m, t).0)
    ensures t.shard < |m.shards| ==>
              StageReservation(m, t).1 == if m.shards[t.shard].tail == Some(t) then Ok(()) else Err(StaleReceipt)
  {
    var s := t.shard;
    var out := StageReservation(m, t);
    if s < |m.shards| && m.shards[s].tail == Some(t) {
      ShardOf(m, s);
      var sh, id := m.shards[s], m.active[s];
      var r := m.regions[id];
      var sh' := sh.(tail := None, open := Some(Extended(sh, t)));
      Staged(sh, s, id, r, m.nextSeqno, m.regionSize);
      ShardStep(m, s, sh', r, m.nextSeqno);
      assert m.regions[id := r] == m.regions;
      assert out == (Confined(m, s, sh', r, m.nextSeqno), Ok(()));
    } else {
      assert out.0 == m;
    }
  }

  /** Padding is refused only when the shard is busy or has staged nothing. */
  lemma PadKeeps(m: Manager, s: nat)
    requires Valid(m)
    ensures Valid(ReserveWritePadding(m, s).0)
    ensures s < |m.shards| ==>
              var sh := m.shards[s];
              ReserveWritePadding(m, s).1.Ok? <==>
                sh.tail.None? && sh.padding.None? && sh.submitted.None? && sh.rotation.None? && sh.open.Some?
  {
    var out := ReserveWritePadding(m, s);
    if s >= |m.shards| {
      assert out.0 == m;
    } else {
      ShardOf(m, s);
      var sh, id := m.shards[s], m.active[s];
      var r := m.regions[id];
      if sh.tail.Some? || sh.padding.Some? || sh.submitted.Some? || sh.rotation.Some? || sh.open.None? {
        assert out.0 == m && out.1.Err?;
      } else {
        var o := sh.open.value;
        AlignUp(o.end, m.regionSize);
        assert OwnsTail(m, s, o.region, o.maxSeqno, o.end);
        if TailPadding(o.end) == 0 {
          assert out == (m, Ok(None));
        } else {
          var padded := o.end + TailPadding(o.end);
          var sh' := sh.(padding := Some(Padding(s, id, o.start, o.end, padded, o.records, o.maxSeqno)));
          Padded(sh, s, id, r, m.nextSeqno, m.regionSize, padded);
          ShardStep(m, s, sh', r.(reserved := padded), m.nextSeqno);
          assert out == (Confined(m, s, sh', r.(reserved := padded), m.nextSeqno), Ok(sh'.padding));
        }
      }
    }
  }

  /** Rounding a record-aligned offset up to a direct-I/O boundary stays within an aligned Region. */
  lemma AlignUp(x: nat, size: nat)
    requires x <= size <= U64_MAX && size % DIRECT_IO_ALIGNMENT == 0 && x % RECORD_ALIGNMENT == 0
    ensures var p := TailPadding(x);
            && p < DIRECT_IO_ALIGNMENT && p % RECORD_ALIGNMENT == 0
            && (x + p) % DIRECT_IO_ALIGNMENT == 0 && x + p <= size
            && (p == 0 <==> x % DIRECT_IO_ALIGNMENT == 0)
  {
    AlignUpBy(x, TailPadding(x), size);
  }

  lemma AlignUpBy(x: nat, p: nat, size: nat)
    requires x <= size && size % 4096 == 0 && x % 32 == 0
    requires p == (4096 - x % 4096) % 4096
    ensures p < 4096 && p % 32 == 0 && (x + p) % 4096 == 0 && x + p <= size
    ensures p == 0 <==> x % 4096 == 0
  {
    var q := x / 4096;
    assert x == 4096 * q + x % 4096;
    if p != 0 {
      assert x + p == 4096 * (q + 1);
      assert size == 4096 * (size / 4096);
    }
  }

  lemma SubmitShape(m: Manager, s: nat)
    requires Valid(m) && s < |m.shards|
    requires var sh := m.shards[s]; sh.tail.None? && sh.submitted.None? && sh.rotation.None? && sh.open.Some?
    requires s < |m.active| && m.active[s] < |m.regions|
    requires m.regions[m.active[s]].reserved % DIRECT_IO_ALIGNMENT == 0
    ensures var sh, o, r := m.shards[s], m.shards[s].open.value, m.regions[m.active[s]];
            var w := Span(s, m.active[s], o.start, r.reserved, o.records, o.maxSeqno);
            var sh' := sh.(open := None, padding := None, submitted := Some(w));
            && SubmitOpenSpan(m, s, r.reserved) == (Confined(m, s, sh', r, m.nextSeqno), Ok(w))
            && Valid(SubmitOpenSpan(m, s, r.reserved).0)
  {
    ShardOf(m, s);
    var sh, o, r := m.shards[s], m.shards[s].open.value, m.regions[m.active[s]];
    var w := Span(s, m.active[s], o.start, r.reserved, o.records, o.maxSeqno);
    var sh' := sh.(open := None, padding := None, submitted := Some(w));
    SubmittedSpan(sh, s, m.active[s], r, m.nextSeqno, m.regionSize);
    ShardStep(m, s, sh', r, m.nextSeqno);
    assert m.regions[m.active[s] := r] == m.regions;
    assert SubmitOpenSpan(m, s, r.reserved) == (Confined(m, s, sh', r, m.nextSeqno), Ok(w));
  }

  /** An unpadded span seals exactly when it already ends on a direct-I/O boundary. */
  lemma SealKeeps(m: Manager, s: nat)
    requires Valid(m)
    ensures Valid(SealWriteSpan(m, s).0)
    ensures s < |m.shards| ==>
              var sh := m.shards[s];
              SealWriteSpan(m, s).1.Ok? <==>
                && sh.tail.None? && sh.padding.None? && sh.submitted.None? && sh.rotation.None?
                && sh.open.Some? && sh.open.value.end % DIRECT_IO_ALIGNMENT == 0
  {
    var out := SealWriteSpan(m, s);
    if s < |m.shards| {
      ShardOf(m, s);
      var sh := m.shards[s];
      if out.1.Ok? {
        SubmitShape(m, s);
      } else {
        assert out.0 == m;
      }
    } else {
      assert out.0 == m;
    }
  }

  /** The pending padding receipt always seals; any other receipt is stale. */
  lemma SealPaddedKeeps(m: Manager, p: Padding)
    requires Valid(m)
    ensures Valid(SealWithPadding(m, p).0)
    ensures p.shard < |m.shards| ==> (SealWithPadding(m, p).1.Ok? <==> m.shards[p.shard].padding == Some(p))
    ensures p.shard < |m.shards| && m.shards[p.shard].padding != Some(p) ==>
              SealWithPadding(m, p) == (m, Err(StaleReceipt))
  {
    var out := SealWithPadding(m, p);
    var s := p.shard;
    if s < |m.shards| && m.shards[s].padding == Some(p) {
      ShardOf(m, s);
      SubmitShape(m, s);
      assert OwnsTail(m, s, p.region, p.maxSeqno, p.padded);
      assert out == SubmitOpenSpan(m, s, p.padded);
    } else {
      assert out.0 == m;
    }
  }

  /** The current submitted span always completes; any other completion is stale. */
  lemma CompleteKeeps(m: Manager, w: Span)
    requires Valid(m)
    ensures Valid(CompleteWriteSpan(m, w).0)
    ensures w.shard < |m.shards| ==>
              CompleteWriteSpan(m, w).1 == if m.shards[w.shard].submitted == Some(w) then Ok(()) else Err(StaleReceipt)
  {
    var s := w.shard;
    var out := CompleteWriteSpan(m, w);
    if s < |m.shards| && m.shards[s].submitted == Some(w) {
      ShardOf(m, s);
      var sh, id := m.shards[s], m.active[s];
      var r := m.regions[id];
      var r' := r.(completed := w.end, records := r.records + w.records);
      Completed(sh, s, id, r, m.nextSeqno, m.regionSize);
      ShardStep(m, s, sh.(submitted := None), r', m.nextSeqno);
      assert out == (Confined(m, s, sh.(submitted := None), r', m.nextSeqno), Ok(()));
    } else {
      assert out.0 == m;
    }
  }

  lemma RequestKeeps(m: Manager, s: nat, bytes: nat)
    requires Valid(m)
    ensures Valid(RequestRotationForAppend(m, s, bytes).0)
  {
    var out := RequestRotationForAppend(m, s, bytes);
    if s >= |m.shards| {
      assert m in States(Ranges);
      assert out.0 == m;
    } else if out.0 != m {
      ShardOf(m, s);
      var sh, r := m.shards[s], m.regions[m.active[s]];
      Requested(sh, s, m.active[s], r, m.nextSeqno, m.regionSize);
      ShardStep(m, s, sh.(requested := true), r, m.nextSeqno);
      assert m.regions[m.active[s] := r] == m.regions;
      assert out.0 == Confined(m, s, sh.(requested := true), r, m.nextSeqno);
    }
  }
}
