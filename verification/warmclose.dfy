/** Whole warm cycles: a run of the manager, a freeze and the recovery of the frozen image. */
module WarmCycles {
  import opened Machine
  import opened Regions
  import opened Pipelines
  import opened Authority
  import opened Runs
  import opened Metadatas
  import opened IndexLayout
  import opened Bits

  // ----- record density -----

  /** At least 64 bytes per counted record, and a record in every non-empty prefix. */
  predicate DenseDesc(r: RegionDesc) {
    r.records * MIN_ENCODED_RECORD_SIZE <= r.completed && (r.completed > 0 ==> r.records > 0)
  }

  predicate DenseShard(sh: Shard) {
    && (sh.submitted.Some? ==> var w := sh.submitted.value; w.start + w.records * MIN_ENCODED_RECORD_SIZE <= w.end)
    && (sh.open.Some? ==> var o := sh.open.value; o.start + o.records * MIN_ENCODED_RECORD_SIZE <= o.end)
    && (sh.tail.Some? ==> sh.tail.value.bytes >= MIN_ENCODED_RECORD_SIZE)
  }

  predicate Dense(m: Manager) {
    && (forall x :: 0 <= x < |m.regions| ==> DenseDesc(m.regions[x]))
    && (forall s :: 0 <= s < |m.shards| ==> DenseShard(m.shards[s]))
  }

  /** Every reservation is for a whole encoded record: a 48-byte header rounded up to 32 bytes. */
  predicate EncodedOps(ops: seq<Op>) {
    forall i :: 0 <= i < |ops| && ops[i].Reserve? ==> ops[i].bytes >= MIN_ENCODED_RECORD_SIZE
  }

  lemma DenseStage(m: Manager, t: Reservation)
    requires Dense(m)
    ensures Dense(StageReservation(m, t).0)
  {
    var m' := StageReservation(m, t).0;
    if m' != m {
      assert DenseShard(m.shards[t.shard]);
      assert DenseShard(m'.shards[t.shard]);
    }
  }

  lemma DenseComplete(m: Manager, w: Span)
    requires Dense(m)
    ensures Dense(CompleteWriteSpan(m, w).0)
  {
    var m' := CompleteWriteSpan(m, w).0;
    if m' != m {
      assert DenseShard(m.shards[w.shard]) && DenseDesc(m.regions[w.region]);
      assert DenseShard(m'.shards[w.shard]) && DenseDesc(m'.regions[w.region]);
    }
  }

  lemma DenseReserve(m: Manager, s: nat, bytes: nat)
    requires Dense(m) && bytes >= MIN_ENCODED_RECORD_SIZE
    ensures Dense(ReserveAppend(m, s, bytes).0)
  {
    var m' := ReserveAppend(m, s, bytes).0;
    if m' != m {
      assert DenseShard(m.shards[s]);
      assert DenseShard(m'.shards[s]);
    }
  }

  lemma DensePad(m: Manager, s: nat)
    requires Dense(m)
    ensures Dense(ReserveWritePadding(m, s).0)
  {
    var m' := ReserveWritePadding(m, s).0;
    if m' != m {
      assert DenseShard(m.shards[s]);
      assert DenseShard(m'.shards[s]);
    }
  }

  lemma DenseSubmit(m: Manager, s: nat, end: nat)
    requires Dense(m) && s < |m.shards| && (m.shards[s].open.Some? ==> m.shards[s].open.value.end <= end)
    ensures Dense(SubmitOpenSpan(m, s, end).0)
  {
    var m' := SubmitOpenSpan(m, s, end).0;
    if m' != m {
      assert DenseShard(m.shards[s]);
      assert DenseShard(m'.shards[s]);
    }
  }

  lemma DenseStep(m: Manager, op: Op)
    requires Dense(m) && (op.Reserve? ==> op.bytes >= MIN_ENCODED_RECORD_SIZE)
    ensures Dense(Step(m, op))
  {
    match op
    case Allocate =>
    case Reserve(s, bytes) => DenseReserve(m, s, bytes);
    case Stage(t) => DenseStage(m, t);
    case Pad(s) => DensePad(m, s);
    case Seal(s) =>
      if s < |m.shards| && m.shards[s].open.Some? {
        DenseSubmit(m, s, m.shards[s].open.value.end);
      }
    case SealPadded(p) =>
      if SealWithPadding(m, p).0 != m {
        DenseSubmit(m, p.shard, p.padded);
      }
    case Complete(w) => DenseComplete(m, w);
    case RequestRotation(s, _) =>
    case Begin(c) =>
    case Finish(q) =>
    case Pin =>
    case Release(c) =>
    case Configure(_) =>
  }

  lemma {:induction false} DenseRun(m: Manager, ops: seq<Op>)
    requires Dense(m) && EncodedOps(ops)
    ensures Dense(Run(m, ops))
    decreases ops
  {
    if ops != [] {
      DenseStep(m, ops[0]);
      assert forall i :: 0 <= i < |ops[1..]| ==> ops[1..][i] == ops[i + 1];
      DenseRun(Step(m, ops[0]), ops[1..]);
    }
  }

  lemma RecoveredDense(md: Metadata, m: Manager)
    requires ValidMetadata(md) && Recovered(md, m)
    ensures Dense(m)
  {
    forall x | 0 <= x < |m.regions| ensures DenseDesc(m.regions[x]) {
      assert ValidRecord(md.root, md.regions[x]);
      assert m.regions[x] == Decoded(md.regions[x]);
    }
  }

  /** The index keeps its slot capacity, so its partition directory stays acceptable. */
  lemma SameIndex(md: Metadata, partitions: seq<Partition>)
    requires ValidIndex(md.root, md.partitions) && CanonicalPartitions(md.root.indexSlots, partitions)
    ensures IndexAccepted(md.root.binding, partitions)
  {
    CanonicalTotals(md.root.indexSlots, partitions);
  }

  /** A warm cycle closes: start from an accepted image with aligned Active Regions, run any encoded
      operations, and freeze once quiet.  The new image is accepted, has aligned Active Regions, and
      recovers the same Regions, queues and next sequence number. */
  lemma {:induction false} WarmCycle(md: Metadata, m: Manager, ops: seq<Op>, partitions: seq<Partition>, frozen: Metadata, m': Manager)
    requires ValidMetadata(md) && AlignedActives(md) && Recovered(md, m) && EncodedOps(ops)
    requires Quiet(Run(m, ops)) && Frozen(Run(m, ops), md.root.binding, partitions, frozen)
    requires CanonicalPartitions(md.root.indexSlots, partitions)
    requires Recovered(frozen, m')
    ensures ValidMetadata(frozen) && AlignedActives(frozen) && Valid(m')
    ensures m'.regions == Run(m, ops).regions && m'.nextSeqno == Run(m, ops).nextSeqno
    ensures m'.active == Run(m, ops).active && m'.free == Run(m, ops).free && m'.sealed == Run(m, ops).sealed
  {
    var last := Run(m, ops);
    RunCountable(md, m, ops);
    SameIndex(md, partitions);
    CloseWarm(last, md.root.binding, partitions, frozen, m');
  }

  /** Every run of encoded operations from an accepted image keeps enough bytes per record. */
  lemma {:induction false} RunCountable(md: Metadata, m: Manager, ops: seq<Op>)
    requires ValidMetadata(md) && AlignedActives(md) && Recovered(md, m) && EncodedOps(ops)
    ensures Valid(Run(m, ops)) && forall x :: 0 <= x < |Run(m, ops).regions| ==> Countable(Run(m, ops).regions[x])
  {
    RecoverValid(md, m);
    RunKeeps(m, ops);
    RecoveredDense(md, m);
    DenseRun(m, ops);
    var last := Run(m, ops);
    assert forall x :: 0 <= x < |last.regions| ==> DenseDesc(last.regions[x]) ==> Countable(last.regions[x]);
  }

  lemma CloseWarm(m: Manager, binding: Binding, partitions: seq<Partition>, frozen: Metadata, m': Manager)
    requires Valid(m) && Quiet(m) && Frozen(m, binding, partitions, frozen) && Recovered(frozen, m')
    requires IndexAccepted(binding, partitions) && forall x :: 0 <= x < |m.regions| ==> Countable(m.regions[x])
    ensures ValidMetadata(frozen) && AlignedActives(frozen) && Valid(m')
    ensures m'.regions == m.regions && m'.nextSeqno == m.nextSeqno
    ensures m'.active == m.active && m'.free == m.free && m'.sealed == m.sealed
  {
    FreezeValid(m, binding, partitions, frozen);
    FreezeThenRecover(m, binding, partitions, frozen, m');
    RecoverValid(frozen, m');
  }

  // ----- why Active Regions must be aligned -----

  /** The shard after reserving and staging its first record. */
  function FirstRecord(m: Manager, s: nat, bytes: nat): Manager {
    match ReserveAppend(m, s, bytes)
    case (m', Ok(t)) => StageReservation(m', t).0
    case (m', Err(_)) => m'
  }

  /** The first record of an idle shard becomes its open span. */
  lemma FirstRecordIs(m: Manager, s: nat, bytes: nat)
    requires s < |m.active| == |m.shards| && m.active[s] < |m.regions| && m.shards[s] == IdleShard
    requires var r := m.regions[m.active[s]];
             r.state == Active && r.reserved == r.completed && r.reserved + bytes <= m.regionSize <= U64_MAX && r.reserved <= U32_MAX
    requires 0 < bytes && bytes % RECORD_ALIGNMENT == 0 && m.nextSeqno < U64_MAX
    ensures var id := m.active[s];
            var r := m.regions[id];
            FirstRecord(m, s, bytes)
            == Confined(m, s, IdleShard.(open := Some(OpenSpan(id, r.reserved, r.reserved + bytes, 1, m.nextSeqno))),
                        r.(reserved := r.reserved + bytes), m.nextSeqno + 1)
  {
    var id := m.active[s];
    var r := m.regions[id];
    var t := Reservation(s, id, r.created, r.reserved, bytes, m.nextSeqno);
    assert ReserveAppend(m, s, bytes).1 == Ok(t);
  }

  /** What recovery leaves in the Active Region of a shard. */
  lemma RecoveredActive(md: Metadata, m: Manager, s: nat)
    requires ValidMetadata(md) && Recovered(md, m) && s < |m.active|
    ensures Reopened(m, s) && m.nextSeqno > 0
  {
    RecoveredQueue(md, m, Active, s);
    var id := m.active[s];
    assert m.regions[id] == Decoded(md.regions[id]) && ValidRecord(md.root, md.regions[id]);
  }

  /** A lone open span can be padded exactly when it starts on a direct-I/O boundary. */
  lemma LoneSpanPads(m: Manager, s: nat, start: nat, end: nat, seqno: nat)
    requires s < |m.active| == |m.shards| && m.active[s] < |m.regions| && 0 < seqno
    requires var r := m.regions[m.active[s]];
             && r.state == Active && r.reserved == end && r.created < seqno < m.nextSeqno
             && m.shards[s] == IdleShard.(open := Some(OpenSpan(m.active[s], start, end, 1, seqno)))
    requires start < end <= m.regionSize <= U64_MAX && end % RECORD_ALIGNMENT == 0 && m.regionSize % DIRECT_IO_ALIGNMENT == 0
    ensures ReserveWritePadding(m, s).1.Ok? <==> start % DIRECT_IO_ALIGNMENT == 0
  {
    AlignUp(end, m.regionSize);
  }

  lemma AlignedSum(a: nat, b: nat)
    requires a % RECORD_ALIGNMENT == 0 && b % RECORD_ALIGNMENT == 0
    ensures (a + b) % RECORD_ALIGNMENT == 0
  {
  }

  /** A shard as recovery leaves it: idle, its Active Region fully completed. */
  predicate Reopened(m: Manager, s: nat) {
    && s < |m.shards| == |m.active| && m.shards[s] == IdleShard && m.active[s] < |m.regions|
    && m.regionSize <= U64_MAX && m.regionSize % DIRECT_IO_ALIGNMENT == 0
    && var r := m.regions[m.active[s]];
    r.state == Active && r.reserved == r.completed <= U32_MAX && r.reserved % RECORD_ALIGNMENT == 0 && r.created < m.nextSeqno
  }

  lemma ReopenedFlush(m: Manager, s: nat, bytes: nat)
    requires Reopened(m, s) && 0 < bytes && bytes % RECORD_ALIGNMENT == 0 && 0 < m.nextSeqno < U64_MAX
    requires m.regions[m.active[s]].completed + bytes <= m.regionSize
    ensures ReserveWritePadding(FirstRecord(m, s, bytes), s).1.Ok? <==>
              m.regions[m.active[s]].completed % DIRECT_IO_ALIGNMENT == 0
  {
    var r := m.regions[m.active[s]];
    var open := OpenSpan(m.active[s], r.reserved, r.reserved + bytes, 1, m.nextSeqno);
    var m' := Confined(m, s, IdleShard.(open := Some(open)), r.(reserved := r.reserved + bytes), m.nextSeqno + 1);
    FirstRecordIs(m, s, bytes);
    assert FirstRecord(m, s, bytes) == m';
    AlignedSum(r.reserved, bytes);
    LoneSpanPads(m', s, r.reserved, r.reserved + bytes, m.nextSeqno);
  }

  /** `validate` only asks for 32-byte offsets.  The first record staged after recovery can be flushed
      exactly when the recovered Active Region ends on a direct-I/O boundary. */
  lemma FirstFlush(md: Metadata, m: Manager, s: nat, bytes: nat)
    requires ValidMetadata(md) && Recovered(md, m) && s < |m.active| && m.active[s] < |m.regions|
    requires 0 < bytes && bytes % RECORD_ALIGNMENT == 0 && m.nextSeqno < U64_MAX
    requires m.regions[m.active[s]].completed + bytes <= m.regionSize
    ensures ReserveWritePadding(FirstRecord(m, s, bytes), s).1.Ok? <==>
              m.regions[m.active[s]].completed % DIRECT_IO_ALIGNMENT == 0
  {
    RecoveredActive(md, m, s);
    ReopenedFlush(m, s, bytes);
  }

  /** An image that `validate` accepts although its Active Region ends at offset 64. */
  function UnalignedImage(): Metadata {
    Metadata(
      Root(Binding(1, 2, 3, 4, 5, 6), 8, 1, 8192, 2, 1, 1, 7, 1, 1, 0),
      [Record(Active, 0, 1, 64, 1), Record(Free, 0, 0, 0, 0)],
      [Partition(0, 0, 1, 0, 8, 0, 0)])
  }

  lemma UnalignedImageAccepted()
    ensures ValidMetadata(UnalignedImage()) && !AlignedActives(UnalignedImage())
  {
    var md := UnalignedImage();
    SinglePage(8);
    assert IsPowerOfTwo(1);
    assert md.regions[0].state == Active && md.regions[0].used == 64;
    assert forall i :: 0 <= i < |md.regions| ==> ValidRecord(md.root, md.regions[i]);
  }
}
