/** What the operations of the Region manager change, in terms of its fields: when they succeed, what they
    hand out, and the order in which Regions go round. */
module Effects {
  import opened Machine
  import opened Regions
  import opened Collect
  import opened Pipelines
  import opened Authority
  import opened Lifecycle
  import opened Runs

  // ----- single operations -----

  /** Room for a record in the Active Region of shard s, as its free bytes say. */
  predicate Fits(m: Manager, s: nat, bytes: nat)
    requires s < |m.active| && m.active[s] < |m.regions|
  {
    m.regions[m.active[s]].reserved + bytes <= m.regionSize
  }

  /** Nothing of shard s but the rotation request differs. */
  predicate OnlyRequested(m: Manager, m': Manager, s: nat)
    requires s < |m.shards|
  {
    m' == m.(shards := m'.shards) && m'.shards == m.shards[s := m.shards[s].(requested := true)]
  }

  /** A reservation succeeds exactly for whole record units that fit, on a shard with no tail, padding or
      rotation pending, while sequence numbers are left.  It hands out the bytes at the cursor under the
      next sequence number.  A record that does not fit asks for a rotation; nothing else changes. */
  lemma ReserveExact(m: Manager, s: nat, bytes: nat)
    requires Valid(m) && s < |m.shards|
    ensures s < |m.active| && m.active[s] < |m.regions|
    ensures var idle := m.shards[s].tail.None? && m.shards[s].padding.None? && m.shards[s].rotation.None?;
            ReserveAppend(m, s, bytes).1.Ok? <==>
              0 < bytes && bytes % RECORD_ALIGNMENT == 0 && idle && Fits(m, s, bytes) && m.nextSeqno < U64_MAX
    ensures ReserveAppend(m, s, bytes).1.Ok? ==>
              var (m', r) := ReserveAppend(m, s, bytes);
              var x := m.active[s];
              && r.value.shard == s && r.value.region == x && r.value.created == m.regions[x].created
              && r.value.offset == m.regions[x].reserved && r.value.bytes == bytes && r.value.seqno == m.nextSeqno
              && m' == m.(nextSeqno := m.nextSeqno + 1, regions := m'.regions, shards := m'.shards)
              && m'.regions == m.regions[x := m.regions[x].(reserved := m.regions[x].reserved + bytes)]
              && m'.shards == m.shards[s := m.shards[s].(tail := Some(r.value))]
    ensures ReserveAppend(m, s, bytes).1.Err? ==>
              var m', idle := ReserveAppend(m, s, bytes).0, m.shards[s].tail.None? && m.shards[s].padding.None? && m.shards[s].rotation.None?;
              if 0 < bytes && bytes % RECORD_ALIGNMENT == 0 && bytes <= U32_MAX && idle && !Fits(m, s, bytes) then OnlyRequested(m, m', s)
              else bytes <= U32_MAX ==> m' == m
  {
    ShardOf(m, s);
    assert m in States(Sizes);
  }

  /** Sequence numbers are handed out one by one until the last. */
  lemma AllocateExact(m: Manager)
    ensures AllocateSeqno(m).1.Ok? <==> m.nextSeqno < U64_MAX
    ensures var (m', r) := AllocateSeqno(m);
            if r.Ok? then r.value == m.nextSeqno && m' == m.(nextSeqno := m.nextSeqno + 1) else m' == m
  {
  }

  lemma AlignUnique(x: nat, end: nat, size: nat)
    requires x <= size <= U64_MAX && size % DIRECT_IO_ALIGNMENT == 0 && x % RECORD_ALIGNMENT == 0
    requires x <= end < x + DIRECT_IO_ALIGNMENT && end % DIRECT_IO_ALIGNMENT == 0
    ensures end == x + TailPadding(x)
  {
    AlignUp(x, size);
    var other := x + TailPadding(x);
    assert other / DIRECT_IO_ALIGNMENT == end / DIRECT_IO_ALIGNMENT;
  }

  lemma RequestShape(m: Manager, s: nat, bytes: nat, end: nat)
    requires s < |m.shards| && s < |m.active| && m.active[s] < |m.regions| && m.regions[m.active[s]].state == Active
    requires m.regions[m.active[s]].reserved <= U64_MAX && end + bytes <= U64_MAX
    requires end == m.regions[m.active[s]].reserved + TailPadding(m.regions[m.active[s]].reserved)
    ensures var (m', r) := RequestRotationForAppend(m, s, bytes);
            && r.Ok? && (r.value <==> end + bytes > m.regionSize)
            && (if r.value then OnlyRequested(m, m', s) else m' == m)
  {
  }

  lemma BlockIsRecords(x: nat)
    requires x % DIRECT_IO_ALIGNMENT == 0
    ensures x % RECORD_ALIGNMENT == 0
  {
    assert x == RECORD_ALIGNMENT * (128 * (x / DIRECT_IO_ALIGNMENT));
  }

  lemma WholeRecords(a: nat, b: nat)
    requires a % RECORD_ALIGNMENT == 0 && b % RECORD_ALIGNMENT == 0
    ensures (a + b) % RECORD_ALIGNMENT == 0
  {
  }

  /** The cursor stands on a record boundary. */
  lemma CursorAligned(sh: Shard, s: nat, id: nat, r: RegionDesc, next: nat, size: nat)
    requires Pipeline(sh, s, id, r, next, size)
    ensures r.reserved % RECORD_ALIGNMENT == 0
  {
    BlockIsRecords(r.completed);
    if sh.submitted.Some? {
      BlockIsRecords(sh.submitted.value.end);
    }
    if sh.padding.Some? {
      BlockIsRecords(sh.padding.value.padded);
    } else if sh.tail.Some? {
      WholeRecords(sh.tail.value.offset, sh.tail.value.bytes);
    }
  }

  lemma ActiveBounds(m: Manager, s: nat)
    requires Valid(m) && s < |m.shards|
    ensures s < |m.active| && m.active[s] < |m.regions| && m.regionSize <= MAX_REGION_SIZE && m.regionSize % DIRECT_IO_ALIGNMENT == 0
    ensures var r := m.regions[m.active[s]]; r.state == Active && r.reserved <= m.regionSize && r.reserved % RECORD_ALIGNMENT == 0
  {
    ShardOf(m, s);
    CursorAligned(m.shards[s], s, m.active[s], m.regions[m.active[s]], m.nextSeqno, m.regionSize);
    assert m in States(Sizes);
  }

  /** A request sets the flag exactly if the record would not fit behind `end`, the next direct-I/O
      boundary from the cursor. */
  lemma RequestExact(m: Manager, s: nat, bytes: nat, end: nat)
    requires Valid(m) && s < |m.shards| && bytes <= U32_MAX && s < |m.active| && m.active[s] < |m.regions|
    requires var cursor := m.regions[m.active[s]].reserved;
             cursor <= end < cursor + DIRECT_IO_ALIGNMENT && end % DIRECT_IO_ALIGNMENT == 0
    ensures var (m', r) := RequestRotationForAppend(m, s, bytes);
            && r.Ok? && (r.value <==> end + bytes > m.regionSize)
            && (if r.value then OnlyRequested(m, m', s) else m' == m)
  {
    ActiveBounds(m, s);
    AlignUnique(m.regions[m.active[s]].reserved, end, m.regionSize);
    RequestShape(m, s, bytes, end);
  }

  /** A rotation begins exactly for a requested, quiescent shard whose Active Region is complete, while a
      Free Region and a sequence number are left, and only with the oldest Free Region. */
  lemma BeginExact(m: Manager, c: Candidate)
    requires Valid(m) && c.shard < |m.shards|
    ensures var s := c.shard;
            && s < |m.active| && m.active[s] < |m.regions|
            && (BeginRotation(m, c).1.Ok? <==>
                  && m.shards[s].requested && m.shards[s].Quiescent() && m.free != [] && m.nextSeqno < U64_MAX
                  && c == Candidate(s, m.free[0], 0))
    ensures BeginRotation(m, c).1.Ok? ==>
              var (m', r) := BeginRotation(m, c);
              var s, x, y := c.shard, m.active[c.shard], m.free[0];
              && r.value == Rotation(s, x, y, m.nextSeqno) && x != y && y < |m.regions|
              && m'.nextSeqno == m.nextSeqno + 1 && m'.free == m.free[1..] && m'.active == m.active[s := y]
              && m'.regions[y] == RegionDesc(Active, m.nextSeqno, 0, 0, 0) && m'.regions[x] == m.regions[x].(state := Sealed)
              && (forall z :: 0 <= z < |m.regions| && z != x && z != y ==> m'.regions[z] == m.regions[z])
              && m'.shards == m.shards[s := m.shards[s].(requested := false, rotation := Some(r.value))]
              && m'.sealed == m.sealed && m'.reclaiming == m.reclaiming
    ensures BeginRotation(m, c).1.Err? ==> BeginRotation(m, c).0 == m
  {
    ShardOf(m, c.shard);
    SelectKinds(m, c.shard);
    if m.free != [] {
      FreeExclusive(m, 0);
      FreeIs(m, 0);
    }
  }

  /** Reclaim pins exactly while fewer Regions are free or being reclaimed than there are shards, a Sealed
      one is left and the workers' limit is not reached; it takes the oldest. */
  lemma ReclaimExact(m: Manager)
    requires Valid(m)
    ensures var (m', r) := BeginReclaim(m);
            && r.Ok?
            && (r.value.Some? <==> |m.free| + |m.reclaiming| < |m.active| && |m.sealed| > 0 && |m.reclaiming| < m.reclaimLimit)
            && (r.value.None? ==> m' == m)
    ensures var (m', r) := BeginReclaim(m);
            r.Ok? && r.value.Some? ==>
              && m.sealed != [] && m.sealed[0] < |m.regions|
              && var x := m.sealed[0];
              && r.value.value == Reclaim(x, m.regions[x].created, m.regions[x].completed, m.regions[x].records)
              && m' == m.(sealed := m.sealed[1..], reclaiming := m.reclaiming + [r.value.value])
  {
    assert m in States(Sizes);
    BeginReclaimKeeps(m);
    if m.sealed != [] {
      SealedIs(m, 0);
    }
  }

  /** The number of reclaim workers changes exactly while nothing is being reclaimed, to between one and
      the number of shards. */
  lemma ConfigureExact(m: Manager, workers: nat)
    ensures var (m', changed) := ConfigureReclaimWorkers(m, workers);
            && (changed <==> 1 <= workers <= |m.active| && m.reclaiming == [])
            && m' == (if changed then m.(reclaimLimit := workers) else m)
  {
  }

  // ----- the order of Regions -----

  /** Regions sealed, pinned, freed and activated by a run, in order. */
  function SealedBy(m: Manager, op: Op): seq<nat> {
    if op.Finish? && FinishRotation(m, op.rotation).1.Ok? then [op.rotation.outgoing] else []
  }

  function PinnedBy(m: Manager, op: Op): seq<nat> {
    match BeginReclaim(m).1
    case Ok(Some(c)) => if op.Pin? then [c.region] else []
    case _ => []
  }

  function FreedBy(m: Manager, op: Op): seq<nat> {
    if op.Release? && FinishReclaim(m, op.reclaim).1.Ok? then [op.reclaim.region] else []
  }

  function ActivatedBy(m: Manager, op: Op): seq<nat> {
    if op.Begin? && BeginRotation(m, op.candidate).1.Ok? then [op.candidate.victim] else []
  }

  function SealedIn(m: Manager, ops: seq<Op>): seq<nat>
    decreases ops
  {
    if ops == [] then [] else SealedBy(m, ops[0]) + SealedIn(Step(m, ops[0]), ops[1..])
  }

  function PinnedIn(m: Manager, ops: seq<Op>): seq<nat>
    decreases ops
  {
    if ops == [] then [] else PinnedBy(m, ops[0]) + PinnedIn(Step(m, ops[0]), ops[1..])
  }

  function FreedIn(m: Manager, ops: seq<Op>): seq<nat>
    decreases ops
  {
    if ops == [] then [] else FreedBy(m, ops[0]) + FreedIn(Step(m, ops[0]), ops[1..])
  }

  function ActivatedIn(m: Manager, ops: seq<Op>): seq<nat>
    decreases ops
  {
    if ops == [] then [] else ActivatedBy(m, ops[0]) + ActivatedIn(Step(m, ops[0]), ops[1..])
  }

  lemma SealedTurn(m: Manager, op: Op)
    requires Valid(m)
    ensures m.sealed + SealedBy(m, op) == PinnedBy(m, op) + Step(m, op).sealed
  {
    match op
    case Pin => ReclaimExact(m);
    case _ =>
  }

  lemma FreeTurn(m: Manager, op: Op)
    requires Valid(m)
    ensures m.free + FreedBy(m, op) == ActivatedBy(m, op) + Step(m, op).free
  {
    match op
    case Begin(c) => SelectKinds(m, c.shard);
    case _ =>
  }

  lemma Chain(a: seq<nat>, b: seq<nat>, c: seq<nat>, d: seq<nat>, middle: seq<nat>, e: seq<nat>, end: seq<nat>)
    requires a + b == c + middle && middle + d == e + end
    ensures a + (b + d) == (c + e) + end
  {
    assert a + (b + d) == (a + b) + d;
    assert (c + middle) + d == c + (middle + d);
    assert c + (e + end) == (c + e) + end;
  }

  /** Over every run Regions are reclaimed in the order in which they were sealed: what was queued,
      followed by what the run sealed, is what the run pinned, followed by what is queued in the end. */
  lemma {:induction false} ReclaimedInOrder(m: Manager, ops: seq<Op>)
    requires Valid(m)
    ensures m.sealed + SealedIn(m, ops) == PinnedIn(m, ops) + Run(m, ops).sealed
    decreases ops
  {
    if ops == [] {
      assert m.sealed + [] == [] + m.sealed;
    } else {
      StepKeeps(m, ops[0]);
      SealedTurn(m, ops[0]);
      var m' := Step(m, ops[0]);
      ReclaimedInOrder(m', ops[1..]);
      Chain(m.sealed, SealedBy(m, ops[0]), PinnedBy(m, ops[0]), SealedIn(m', ops[1..]), m'.sealed, PinnedIn(m', ops[1..]), Run(m', ops[1..]).sealed);
    }
  }

  /** Over every run Regions are activated in the order in which they were freed. */
  lemma {:induction false} ActivatedInOrder(m: Manager, ops: seq<Op>)
    requires Valid(m)
    ensures m.free + FreedIn(m, ops) == ActivatedIn(m, ops) + Run(m, ops).free
    decreases ops
  {
    if ops == [] {
      assert m.free + [] == [] + m.free;
    } else {
      StepKeeps(m, ops[0]);
      FreeTurn(m, ops[0]);
      var m' := Step(m, ops[0]);
      ActivatedInOrder(m', ops[1..]);
      Chain(m.free, FreedBy(m, ops[0]), ActivatedBy(m, ops[0]), FreedIn(m', ops[1..]), m'.free, ActivatedIn(m', ops[1..]), Run(m', ops[1..]).free);
    }
  }
}
