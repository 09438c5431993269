/** Region authority: the state owned by `RegionManager` and the effect of each of its operations,
    as functions from one state to the next state and the caller's result. */
module Regions {
  import opened Machine
  import opened Bits
  import opened Collect

  const DIRECT_IO_ALIGNMENT := 4096
  const RECORD_ALIGNMENT := 32
  const MAX_REGION_SIZE := 0x200_0000
  const MAX_REGION_COUNT := 0x10_0000
  const MAX_SHARDS := 256

  datatype RegionState = Free | Active | Sealed

  datatype RegionDesc = RegionDesc(
    state: RegionState,
    created: nat,
    completed: nat,
    reserved: nat,
    records: nat)

  const FreeDesc := RegionDesc(Free, 0, 0, 0, 0)

  /** Exclusive tail reservation for one record. */
  datatype Reservation = Reservation(shard: nat, region: nat, created: nat, offset: nat, bytes: nat, seqno: nat)

  /** Exclusive tail padding of one open span. */
  datatype Padding = Padding(
    shard: nat, region: nat, start: nat, unpadded: nat, padded: nat, records: nat, maxSeqno: nat)

  /** One ordered device write. */
  datatype Span = Span(shard: nat, region: nat, start: nat, end: nat, records: nat, maxSeqno: nat)

  datatype OpenSpan = OpenSpan(region: nat, start: nat, end: nat, records: nat, maxSeqno: nat)

  datatype Candidate = Candidate(shard: nat, victim: nat, victimCreated: nat)

  datatype Rotation = Rotation(shard: nat, outgoing: nat, activated: nat, created: nat)

  datatype Reclaim = Reclaim(region: nat, created: nat, used: nat, records: nat)

  datatype Shard = Shard(
    tail: Option<Reservation>,
    open: Option<OpenSpan>,
    padding: Option<Padding>,
    submitted: Option<Span>,
    requested: bool,
    rotation: Option<Rotation>)
  {
    predicate Quiescent() {
      tail.None? && open.None? && padding.None? && submitted.None? && rotation.None?
    }
  }

  const IdleShard := Shard(None, None, None, None, false, None)

  datatype Manager = Manager(
    regionSize: nat,
    nextSeqno: nat,
    regions: seq<RegionDesc>,
    active: seq<nat>,
    shards: seq<Shard>,
    free: seq<nat>,
    sealed: seq<nat>,
    reclaiming: seq<Reclaim>,
    reclaimLimit: nat,
    queueCapacity: nat,
    rotations: nat)

  datatype Error =
    | InvalidShard | InvalidRecordLength | WouldBlock | FlushBeforeRotation | RegionFull
    | StaleReceipt | SequenceExhausted | ArithmeticOverflow | Invariant

  type Outcome<T> = (Manager, Result<T, Error>)

  /** Bytes from x up to the next direct-I/O boundary, as the source masks them. */
  function TailPadding(x: nat): (p: nat)
    requires x <= U64_MAX
    ensures p == (DIRECT_IO_ALIGNMENT - x % DIRECT_IO_ALIGNMENT) % DIRECT_IO_ALIGNMENT
  {
    NegMaskIsPadding(x);
    And(WrappingNeg(x), DIRECT_IO_ALIGNMENT - 1)
  }

  // ----- append pipeline -----

  function AllocateSeqno(m: Manager): Outcome<nat> {
    if m.nextSeqno >= U64_MAX then (m, Err(SequenceExhausted))
    else (m.(nextSeqno := m.nextSeqno + 1), Ok(m.nextSeqno))
  }

  function ReserveAppend(m: Manager, s: nat, bytes: nat): Outcome<Reservation> {
    if bytes == 0 || bytes % RECORD_ALIGNMENT != 0 then (m, Err(InvalidRecordLength))
    else if s >= |m.shards| then (m, Err(InvalidShard))
    else
      var shard := m.shards[s];
      if shard.tail.Some? || shard.padding.Some? || shard.rotation.Some? then (m, Err(WouldBlock))
      else if s >= |m.active| then (m, Err(InvalidShard))
      else if m.active[s] >= |m.regions| then (m, Err(Invariant))
      else
        var id := m.active[s];
        var region := m.regions[id];
        var end := region.reserved + bytes;
        if region.state != Active then (m, Err(Invariant))
        else if end > U64_MAX then (m, Err(ArithmeticOverflow))
        else if end > m.regionSize then
          (m.(shards := m.shards[s := shard.(requested := true)]),
           Err(if shard.open.Some? || shard.submitted.Some? then FlushBeforeRotation else RegionFull))
        else if region.reserved > U32_MAX then (m, Err(ArithmeticOverflow))
        else if m.nextSeqno >= U64_MAX then (m, Err(SequenceExhausted))
        else
          var receipt := Reservation(s, id, region.created, region.reserved, bytes, m.nextSeqno);
          (m.(nextSeqno := m.nextSeqno + 1,
              regions := m.regions[id := region.(reserved := end)],
              shards := m.shards[s := shard.(tail := Some(receipt))]),
           Ok(receipt))
  }

  function StageReservation(m: Manager, r: Reservation): Outcome<()> {
    if r.shard >= |m.shards| then (m, Err(InvalidShard))
    else
      var shard := m.shards[r.shard];
      var end := r.offset + r.bytes;
      if shard.tail != Some(r) then (m, Err(StaleReceipt))
      else if end > U64_MAX then (m, Err(ArithmeticOverflow))
      else
        match shard.open
        case None =>
          (m.(shards := m.shards[r.shard := shard.(tail := None,
                                                   open := Some(OpenSpan(r.region, r.offset, end, 1, r.seqno)))]),
           Ok(()))
        case Some(span) =>
          if span.region != r.region || span.end != r.offset || span.maxSeqno >= r.seqno then (m, Err(Invariant))
          else if span.records >= U64_MAX then (m, Err(ArithmeticOverflow))
          else
            var next := span.(end := end, records := span.records + 1, maxSeqno := Max(span.maxSeqno, r.seqno));
            (m.(shards := m.shards[r.shard := shard.(tail := None, open := Some(next))]), Ok(()))
  }

  /** The open span of shard s still ends at its Active Region's reservation cursor. */
  predicate OwnsTail(m: Manager, s: nat, region: nat, maxSeqno: nat, end: nat) {
    && s < |m.active| && m.active[s] == region
    && region < |m.regions| && m.regions[region].state == Active
    && maxSeqno >= m.regions[region].created
    && m.regions[region].reserved == end
  }

  function ReserveWritePadding(m: Manager, s: nat): Outcome<Option<Padding>> {
    if s >= |m.shards| then (m, Err(InvalidShard))
    else
      var shard := m.shards[s];
      if shard.tail.Some? || shard.padding.Some? || shard.submitted.Some? || shard.rotation.Some? then (m, Err(WouldBlock))
      else if shard.open.None? then (m, Err(Invariant))
      else
        var open := shard.open.value;
        if || open.start >= open.end
           || open.start % DIRECT_IO_ALIGNMENT != 0
           || open.end % RECORD_ALIGNMENT != 0
           || open.records == 0
           || open.maxSeqno == 0
           || open.end > U64_MAX
        then (m, Err(Invariant))
        else if !OwnsTail(m, s, open.region, open.maxSeqno, open.end) then (m, Err(Invariant))
        else
          var padding := TailPadding(open.end);
          var padded := open.end + padding;
          if padding == 0 then (m, Ok(None))
          else if padded > U64_MAX then (m, Err(ArithmeticOverflow))
          else if padding % RECORD_ALIGNMENT != 0 || padded % DIRECT_IO_ALIGNMENT != 0 || padded > m.regionSize then
            (m, Err(Invariant))
          else
            var receipt := Padding(s, open.region, open.start, open.end, padded, open.records, open.maxSeqno);
            (m.(regions := m.regions[open.region := m.regions[open.region].(reserved := padded)],
                shards := m.shards[s := shard.(padding := Some(receipt))]),
             Ok(Some(receipt)))
  }

  function SubmitOpenSpan(m: Manager, s: nat, end: nat): Outcome<Span> {
    if s >= |m.shards| then (m, Err(InvalidShard))
    else
      var shard := m.shards[s];
      if shard.open.None? then (m, Err(Invariant))
      else
        var open := shard.open.value;
        if open.start % DIRECT_IO_ALIGNMENT != 0 || end % DIRECT_IO_ALIGNMENT != 0 || end <= open.start then
          (m, Err(Invariant))
        else
          var span := Span(s, open.region, open.start, end, open.records, open.maxSeqno);
          (m.(shards := m.shards[s := shard.(open := None, padding := None, submitted := Some(span))]), Ok(span))
  }

  function SealWriteSpan(m: Manager, s: nat): Outcome<Span> {
    if s >= |m.shards| then (m, Err(InvalidShard))
    else
      var shard := m.shards[s];
      if shard.tail.Some? || shard.padding.Some? || shard.rotation.Some? || shard.submitted.Some? then (m, Err(WouldBlock))
      else if shard.open.None? then (m, Err(Invariant))
      else SubmitOpenSpan(m, s, shard.open.value.end)
  }

  function SealWithPadding(m: Manager, p: Padding): Outcome<Span> {
    if p.shard >= |m.shards| then (m, Err(InvalidShard))
    else
      var shard := m.shards[p.shard];
      if shard.tail.Some? || shard.rotation.Some? || shard.submitted.Some? || shard.padding != Some(p) then (m, Err(StaleReceipt))
      else if shard.open.None? then (m, Err(StaleReceipt))
      else
        var open := shard.open.value;
        if || open.region != p.region
           || open.start != p.start
           || open.end != p.unpadded
           || open.records != p.records
           || open.maxSeqno != p.maxSeqno
           || p.padded <= p.unpadded
           || p.padded - p.unpadded >= DIRECT_IO_ALIGNMENT
           || p.padded % DIRECT_IO_ALIGNMENT != 0
        then (m, Err(StaleReceipt))
        else if !OwnsTail(m, p.shard, p.region, p.maxSeqno, p.padded) then (m, Err(StaleReceipt))
        else SubmitOpenSpan(m, p.shard, p.padded)
  }

  function CompleteWriteSpan(m: Manager, w: Span): Outcome<()> {
    if w.shard >= |m.shards| then (m, Err(InvalidShard))
    else
      var shard := m.shards[w.shard];
      if shard.submitted != Some(w) then (m, Err(StaleReceipt))
      else if w.region >= |m.regions| then (m, Err(StaleReceipt))
      else
        var region := m.regions[w.region];
        if || w.shard >= |m.active| || m.active[w.shard] != w.region
           || region.state != Active
           || w.maxSeqno < region.created
           || region.completed != w.start
           || w.end > region.reserved
           || w.start >= w.end
           || w.records == 0
        then (m, Err(StaleReceipt))
        else if region.records + w.records > U64_MAX then (m, Err(ArithmeticOverflow))
        else
          (m.(regions := m.regions[w.region := region.(completed := w.end, records := region.records + w.records)],
              shards := m.shards[w.shard := shard.(submitted := None)]),
           Ok(()))
  }

  // ----- rotation -----

  /** Asks for a rotation when the record cannot fit after an aligned flush. */
  function RequestRotationForAppend(m: Manager, s: nat, bytes: nat): Outcome<bool> {
    if s >= |m.active| then (m, Err(InvalidShard))
    else if m.active[s] >= |m.regions| then (m, Err(Invariant))
    else
      var region := m.regions[m.active[s]];
      if region.state != Active then (m, Err(Invariant))
      else if region.reserved > U64_MAX then (m, Err(ArithmeticOverflow))
      else
        var end := region.reserved + TailPadding(region.reserved) + bytes;
        if end > U64_MAX then (m, Err(ArithmeticOverflow))
        else if end <= m.regionSize then (m, Ok(false))
        else if s >= |m.shards| then (m, Err(InvalidShard))
        else (m.(shards := m.shards[s := m.shards[s].(requested := true)]), Ok(true))
  }

  function SelectRotation(m: Manager, s: nat): Result<Candidate, Error> {
    if s >= |m.shards| then Err(InvalidShard)
    else if !m.shards[s].requested || !m.shards[s].Quiescent() then Err(WouldBlock)
    else if s >= |m.active| then Err(InvalidShard)
    else if m.active[s] >= |m.regions| then Err(Invariant)
    else
      var outgoing := m.regions[m.active[s]];
      if outgoing.state != Active || outgoing.reserved != outgoing.completed then Err(WouldBlock)
      else if m.free == [] then Err(WouldBlock)
      else if m.free[0] >= |m.regions| then Err(Invariant)
      else if m.regions[m.free[0]].state != Free || m.free[0] == m.active[s] then Err(Invariant)
      else Ok(Candidate(s, m.free[0], m.regions[m.free[0]].created))
  }

  function BeginRotation(m: Manager, c: Candidate): Outcome<Rotation> {
    match SelectRotation(m, c.shard)
    case Err(e) => (m, Err(e))
    case Ok(selected) =>
      if selected != c then (m, Err(StaleReceipt))
      else if m.nextSeqno >= U64_MAX then (m, Err(SequenceExhausted))
      else
        var s, outgoing := c.shard, m.active[c.shard];
        var receipt := Rotation(s, outgoing, c.victim, m.nextSeqno);
        (m.(nextSeqno := m.nextSeqno + 1,
            free := m.free[1..],
            regions := m.regions[outgoing := m.regions[outgoing].(state := Sealed)]
                                [c.victim := RegionDesc(Active, m.nextSeqno, 0, 0, 0)],
            active := m.active[s := c.victim],
            shards := m.shards[s := m.shards[s].(requested := false, rotation := Some(receipt))]),
         Ok(receipt))
  }

  function FinishRotation(m: Manager, q: Rotation): Outcome<()> {
    if q.shard >= |m.shards| then (m, Err(InvalidShard))
    else if m.shards[q.shard].rotation != Some(q) then (m, Err(StaleReceipt))
    else if q.outgoing >= |m.regions| || q.activated >= |m.regions| then (m, Err(StaleReceipt))
    else if || q.shard >= |m.active| || m.active[q.shard] != q.activated
            || m.regions[q.outgoing].state != Sealed
            || m.regions[q.activated].state != Active
            || m.regions[q.activated].created != q.created
    then (m, Err(StaleReceipt))
    else if |m.free| + |m.sealed| >= m.queueCapacity then (m, Err(Invariant))
    else
      (m.(sealed := m.sealed + [q.outgoing],
          rotations := Min(m.rotations + 1, U64_MAX),
          shards := m.shards[q.shard := m.shards[q.shard].(rotation := None)]),
       Ok(()))
  }

  // ----- reclaim -----

  predicate ReclaimNeeded(m: Manager) {
    && |m.reclaiming| < m.reclaimLimit
    && m.sealed != []
    && |m.free| + |m.reclaiming| < Max(|m.active|, 1)
  }

  function BeginReclaim(m: Manager): Outcome<Option<Reclaim>> {
    if !ReclaimNeeded(m) then (m, Ok(None))
    else
      var id := m.sealed[0];
      var m' := m.(sealed := m.sealed[1..]);
      if id >= |m.regions| then (m', Err(Invariant))
      else
        var region := m.regions[id];
        if region.state != Sealed || region.completed != region.reserved then (m', Err(Invariant))
        else
          var receipt := Reclaim(id, region.created, region.completed, region.records);
          (m'.(reclaiming := m.reclaiming + [receipt]), Ok(Some(receipt)))
  }

  /** First position of x in q, or |q|. */
  function Position<T(==)>(q: seq<T>, x: T): (k: nat)
    ensures k <= |q|
    ensures k < |q| ==> q[k] == x
    ensures forall i :: 0 <= i < k ==> q[i] != x
  {
    if q == [] || q[0] == x then 0 else 1 + Position(q[1..], x)
  }

  function FinishReclaim(m: Manager, c: Reclaim): Outcome<()> {
    var k := Position(m.reclaiming, c);
    if k == |m.reclaiming| then (m, Err(StaleReceipt))
    else if c.region >= |m.regions| then (m, Err(StaleReceipt))
    else
      var region := m.regions[c.region];
      if region.state != Sealed || region.created != c.created || region.completed != c.used || region.records != c.records then
        (m, Err(StaleReceipt))
      else if |m.free| + |m.sealed| >= m.queueCapacity then (m, Err(Invariant))
      else
        (m.(regions := m.regions[c.region := FreeDesc],
            free := m.free + [c.region],
            reclaiming := SwapRemove(m.reclaiming, k)),
         Ok(()))
  }

  function ConfigureReclaimWorkers(m: Manager, workers: nat): (Manager, bool) {
    if workers == 0 || workers > |m.active| || m.reclaiming != [] then (m, false)
    else (m.(reclaimLimit := workers), true)
  }
}
