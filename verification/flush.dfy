/** Flushing a shard: every sealed span passes the device submit check, a flush always runs to
    completion, and the rotation preflight decides exactly what that flush would find. */
module Flush {
  import opened Machine
  import opened Regions
  import opened Pipelines
  import opened Authority
  import opened Lifecycle
  import opened Runs

  // ----- the tiling, spelled out -----

  datatype Segment = Segment(start: nat, end: nat)

  /** Completed prefix and submitted span. */
  function DeviceSegments(sh: Shard, r: RegionDesc): seq<Segment> {
    if sh.submitted.None? then [Segment(0, r.completed)]
    else [Segment(0, r.completed)] + [Segment(sh.submitted.value.start, sh.submitted.value.end)]
  }

  function StagedSegments(sh: Shard, r: RegionDesc): seq<Segment> {
    if sh.open.None? then DeviceSegments(sh, r)
    else DeviceSegments(sh, r) + [Segment(sh.open.value.start, sh.open.value.end)]
  }

  /** The segments of a shard's Active Region: completed prefix, submitted span, open span, and the
      tail reservation or padding. */
  function Segments(sh: Shard, r: RegionDesc): seq<Segment> {
    if sh.tail.Some? then
      StagedSegments(sh, r) + [Segment(sh.tail.value.offset, sh.tail.value.offset + sh.tail.value.bytes)]
    else if sh.padding.Some? then
      StagedSegments(sh, r) + [Segment(sh.padding.value.unpadded, sh.padding.value.padded)]
    else StagedSegments(sh, r)
  }

  /** Segments follow one another without gap or overlap, from 0 to `end`. */
  predicate Tiles(q: seq<Segment>, end: nat) {
    if q == [] then end == 0
    else q[|q| - 1].start <= q[|q| - 1].end == end && Tiles(q[..|q| - 1], q[|q| - 1].start)
  }

  lemma {:induction false} TilesAppend(q: seq<Segment>, x: Segment)
    requires Tiles(q, x.start) && x.start <= x.end
    ensures Tiles(q + [x], x.end)
  {
    assert (q + [x])[..|q|] == q;
  }

  /** In every reachable state the segments are contiguous from 0 to the reservation cursor. */
  lemma {:induction false} Tiling(m: Manager, ops: seq<Op>, s: nat)
    requires Valid(m) && s < |Run(m, ops).shards|
    ensures var m' := Run(m, ops);
            && s < |m'.active| && m'.active[s] < |m'.regions|
            && var r := m'.regions[m'.active[s]];
            Tiles(Segments(m'.shards[s], r), r.reserved) && r.reserved <= m'.regionSize
  {
    RunKeeps(m, ops);
    var m' := Run(m, ops);
    ShardOf(m', s);
    SegmentsTile(m'.shards[s], s, m'.active[s], m'.regions[m'.active[s]], m'.nextSeqno, m'.regionSize);
  }

  lemma StagedTile(sh: Shard, s: nat, id: nat, r: RegionDesc, next: nat)
    requires SubmittedOk(sh, s, id, r, next) && OpenOk(sh, id, r, next)
    ensures Tiles(StagedSegments(sh, r), StagedEnd(sh, r))
  {
    var a := [Segment(0, r.completed)];
    TilesAppend([], a[0]);
    assert [] + a == a;
    if sh.submitted.Some? {
      TilesAppend(a, Segment(sh.submitted.value.start, sh.submitted.value.end));
    }
    if sh.open.Some? {
      TilesAppend(DeviceSegments(sh, r), Segment(sh.open.value.start, sh.open.value.end));
    }
  }

  lemma SegmentsTile(sh: Shard, s: nat, id: nat, r: RegionDesc, next: nat, size: nat)
    requires Pipeline(sh, s, id, r, next, size)
    ensures Tiles(Segments(sh, r), r.reserved)
  {
    StagedTile(sh, s, id, r, next);
    var q := StagedSegments(sh, r);
    if sh.tail.Some? {
      TilesAppend(q, Segment(sh.tail.value.offset, sh.tail.value.offset + sh.tail.value.bytes));
    } else if sh.padding.Some? {
      TilesAppend(q, Segment(sh.padding.value.unpadded, sh.padding.value.padded));
    }
  }

  // ----- the device submit check -----

  const DATA_REGION_AREA_OFFSET := 4096

  datatype Geometry = Geometry(fileLength: nat, regionSize: nat, regionCount: nat) {
    predicate IsValid() {
      && 0 < regionCount <= MAX_REGION_COUNT
      && DIRECT_IO_ALIGNMENT <= regionSize <= MAX_REGION_SIZE
      && regionSize % DIRECT_IO_ALIGNMENT == 0
      && fileLength == regionSize * regionCount + DATA_REGION_AREA_OFFSET
    }
  }

  function GeometryOf(m: Manager): Geometry {
    Geometry(m.regionSize * |m.regions| + DATA_REGION_AREA_OFFSET, m.regionSize, |m.regions|)
  }

  /** Length and absolute file offset of a span, or None when the device must not see it. */
  function ValidateSpan(g: Geometry, w: Span): Option<(nat, nat)> {
    if || !g.IsValid() || w.region >= g.regionCount
       || w.start % DIRECT_IO_ALIGNMENT != 0 || w.end % DIRECT_IO_ALIGNMENT != 0
       || w.end <= w.start || w.end > g.regionSize || w.records == 0
    then None
    else
      var length := w.end - w.start;
      var absolute := w.region * g.regionSize + DATA_REGION_AREA_OFFSET + w.start;
      if length % DIRECT_IO_ALIGNMENT != 0 || absolute + length > U64_MAX then None
      else if absolute % DIRECT_IO_ALIGNMENT != 0 || absolute + length > g.fileLength then None
      else Some((length, absolute))
  }

  /** Every submitted span passes the check, and lands inside its own Region's extent. */
  lemma SubmittedPasses(m: Manager, s: nat)
    requires Valid(m) && s < |m.shards| && m.shards[s].submitted.Some?
    ensures var w := m.shards[s].submitted.value;
            var checked := ValidateSpan(GeometryOf(m), w);
            && checked.Some?
            && checked.value.0 == w.end - w.start
            && DATA_REGION_AREA_OFFSET + w.region * m.regionSize <= checked.value.1
            && checked.value.1 + checked.value.0 <= DATA_REGION_AREA_OFFSET + (w.region + 1) * m.regionSize
  {
    ShardOf(m, s);
    assert m in States(Sizes);
    var w := m.shards[s].submitted.value;
    ExtentFits(w.region, |m.regions|, m.regionSize);
    ExtentAligned(w.region, m.regionSize, w.start, w.end);
    var checked := ValidateSpan(GeometryOf(m), w);
    assert checked.Some?;
  }

  lemma ExtentFits(region: nat, count: nat, size: nat)
    requires region < count <= MAX_REGION_COUNT && size <= MAX_REGION_SIZE
    ensures region * size + size <= size * count
    ensures size * count <= MAX_REGION_SIZE * MAX_REGION_COUNT
    ensures (region + 1) * size == region * size + size
  {
    MulMonotone(region + 1, count, size);
    MulMonotone(size, MAX_REGION_SIZE, count);
    assert (region + 1) * size == region * size + size;
  }

  lemma ExtentAligned(region: nat, size: nat, start: nat, end: nat)
    requires size % 4096 == 0 && start % 4096 == 0 && end % 4096 == 0 && start < end
    ensures (region * size + 4096 + start) % 4096 == 0 && (end - start) % 4096 == 0
  {
    MulAligned(region, size);
    AlignedSum(region * size, start, end);
  }

  lemma AlignedSum(base: nat, start: nat, end: nat)
    requires base % 4096 == 0 && start % 4096 == 0 && end % 4096 == 0 && start < end
    ensures (base + 4096 + start) % 4096 == 0 && (end - start) % 4096 == 0
  {
  }

  lemma MulMonotone(a: nat, b: nat, size: nat)
    requires a <= b
    ensures a * size <= b * size
  {
  }

  lemma MulAligned(region: nat, size: nat)
    requires size % 4096 == 0
    ensures (region * size) % 4096 == 0
  {
    var k := size / 4096;
    assert region * size == 4096 * (region * k);
  }

  // ----- a complete flush -----

  /** The next direct-I/O boundary at or after x. */
  function AlignedEnd(x: nat): nat {
    x + (DIRECT_IO_ALIGNMENT - x % DIRECT_IO_ALIGNMENT) % DIRECT_IO_ALIGNMENT
  }

  /** Completes the submitted span, if any. */
  function Land(m: Manager, s: nat): Manager
    requires s < |m.shards|
  {
    if m.shards[s].submitted.Some? then CompleteWriteSpan(m, m.shards[s].submitted.value).0 else m
  }

  /** Pads when needed and seals what is staged. */
  function SealAll(m: Manager, s: nat): Manager
    requires s < |m.shards|
  {
    if m.shards[s].open.None? then m
    else if m.shards[s].padding.Some? then SealWithPadding(m, m.shards[s].padding.value).0
    else
      match ReserveWritePadding(m, s)
      case (m', Ok(Some(p))) => SealWithPadding(m', p).0
      case (m', _) => SealWriteSpan(m', s).0
  }

  /** The whole flush of one shard: land the submitted span, pad, seal and land the rest. */
  function FlushAll(m: Manager, s: nat): Manager
    requires s < |m.shards|
  {
    var sealed := SealAll(Land(m, s), s);
    if s < |sealed.shards| then Land(sealed, s) else sealed
  }

  lemma LandEffect(m: Manager, s: nat)
    requires Valid(m) && s < |m.shards|
    ensures var m', sh, w := Land(m, s), m.shards[s], m.shards[s].submitted;
            && Valid(m') && |m'.shards| == |m.shards| && m'.active == m.active && m'.regionSize == m.regionSize
            && m'.shards[s] == sh.(submitted := None)
            && s < |m.active| && m.active[s] < |m.regions| == |m'.regions|
            && m'.regions[m.active[s]].reserved == m.regions[m.active[s]].reserved
            && m'.regions[m.active[s]].completed == SubmittedEnd(sh, m.regions[m.active[s]])
            && m'.nextSeqno == m.nextSeqno
  {
    ShardOf(m, s);
    if m.shards[s].submitted.Some? {
      CompleteKeeps(m, m.shards[s].submitted.value);
    }
  }

  lemma SealAllEffect(m: Manager, s: nat)
    requires Valid(m) && s < |m.shards| && m.shards[s].submitted.None?
    requires m.shards[s].tail.None? && m.shards[s].rotation.None?
    ensures var m', r := SealAll(m, s), m.shards[s];
            && Valid(m') && |m'.shards| == |m.shards| && m'.active == m.active && m'.regionSize == m.regionSize
            && s < |m.active| && m.active[s] < |m.regions| == |m'.regions|
            && m'.shards[s].tail.None? && m'.shards[s].open.None? && m'.shards[s].padding.None? && m'.shards[s].rotation.None?
            && m'.regions[m.active[s]].reserved == AlignedEnd(m.regions[m.active[s]].reserved)
            && m'.nextSeqno == m.nextSeqno
  {
    ShardOf(m, s);
    if m.shards[s].open.Some? {
      if m.shards[s].padding.Some? {
        SealPaddedKeeps(m, m.shards[s].padding.value);
      } else {
        PadKeeps(m, s);
        var out := ReserveWritePadding(m, s);
        if out.1.value.Some? {
          SealPaddedKeeps(out.0, out.1.value.value);
        } else {
          SealKeeps(m, s);
        }
      }
    }
  }

  /** A flush of a shard with no tail or rotation pending always succeeds: everything staged is
      completed and the Region ends at the next direct-I/O boundary. */
  lemma FlushCompletes(m: Manager, s: nat)
    requires Valid(m) && s < |m.shards| && m.shards[s].tail.None? && m.shards[s].rotation.None?
    ensures s < |m.active|
    ensures var m', id := FlushAll(m, s), m.active[s];
            && Valid(m') && s < |m'.shards| && m'.active == m.active && m'.regionSize == m.regionSize
            && id < |m.regions| == |m'.regions|
            && m'.shards[s].Quiescent()
            && m'.regions[id].completed == m'.regions[id].reserved
            && m'.regions[id].reserved == AlignedEnd(m.regions[id].reserved)
            && m'.nextSeqno == m.nextSeqno
  {
    LandEffect(m, s);
    var landed := Land(m, s);
    SealAllEffect(landed, s);
    var sealed := SealAll(landed, s);
    LandEffect(sealed, s);
    ShardOf(FlushAll(m, s), s);
  }

  /** The rotation preflight is exact: it answers true precisely when the record would find the
      Region full after a complete flush.  It reserves no bytes and no sequence number. */
  lemma PreflightExact(m: Manager, s: nat, bytes: nat)
    requires Valid(m) && s < |m.shards| && m.shards[s].tail.None? && m.shards[s].rotation.None?
    requires 0 < bytes <= U32_MAX && bytes % RECORD_ALIGNMENT == 0
    ensures RequestRotationForAppend(m, s, bytes).1.Ok?
    ensures RequestRotationForAppend(m, s, bytes).1.value <==>
              ReserveAppend(FlushAll(m, s), s, bytes).1 == Err(RegionFull)
    ensures !RequestRotationForAppend(m, s, bytes).1.value ==>
              ReserveAppend(FlushAll(m, s), s, bytes).1.Ok? || m.nextSeqno == U64_MAX
    ensures var m' := RequestRotationForAppend(m, s, bytes).0;
            m'.nextSeqno == m.nextSeqno && m'.regions == m.regions && m'.active == m.active
  {
    ShardOf(m, s);
    FlushCompletes(m, s);
    ShardOf(FlushAll(m, s), s);
  }

  // ----- the rotation request -----

  /** A request persists through every operation except the one rotation it asked for. */
  lemma RequestPersists(m: Manager, s: nat, op: Op)
    requires Valid(m) && s < |m.shards| && m.shards[s].requested
    ensures s < |Step(m, op).shards|
    ensures Step(m, op).shards[s].requested <==>
              !(op.Begin? && op.candidate.shard == s && BeginRotation(m, op.candidate).1.Ok?)
  {
    match op
    case Begin(c) => SelectKinds(m, c.shard);
    case Pin => BeginReclaimKeeps(m);
    case _ =>
  }

  /** The operation starts the rotation of shard s. */
  predicate Rotates(m: Manager, op: Op, s: nat) {
    op.Begin? && op.candidate.shard == s && BeginRotation(m, op.candidate).1.Ok?
  }

  predicate NeverRotates(m: Manager, ops: seq<Op>, s: nat)
    decreases ops
  {
    ops == [] || (!Rotates(m, ops[0], s) && NeverRotates(Step(m, ops[0]), ops[1..], s))
  }

  /** Over every run a request lasts until the first rotation of its shard, and that rotation ends it. */
  lemma {:induction false} RequestLasts(m: Manager, ops: seq<Op>, s: nat, op: Op)
    requires Valid(m) && s < |m.shards| && m.shards[s].requested && NeverRotates(m, ops, s)
    ensures s < |Run(m, ops).shards| && Run(m, ops).shards[s].requested
    ensures s < |Step(Run(m, ops), op).shards|
    ensures Step(Run(m, ops), op).shards[s].requested <==> !Rotates(Run(m, ops), op, s)
    decreases ops
  {
    if ops == [] {
      RequestPersists(m, s, op);
    } else {
      RequestPersists(m, s, ops[0]);
      StepKeeps(m, ops[0]);
      RequestLasts(Step(m, ops[0]), ops[1..], s, op);
    }
  }

  /** A rotation starts only when requested. */
  lemma RotationNeedsRequest(m: Manager, c: Candidate)
    requires BeginRotation(m, c).1.Ok?
    ensures c.shard < |m.shards| && m.shards[c.shard].requested
    ensures !BeginRotation(m, c).0.shards[c.shard].requested
  {
  }
}
