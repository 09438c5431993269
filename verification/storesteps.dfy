/** Every step of the `RegionStore` protocol keeps the store invariant. */
module StoreSteps {
  import opened Machine
  import opened Regions
  import opened Pipelines
  import opened Authority
  import opened Lifecycle
  import opened Runs
  import opened Stores
  import opened StoreSafety

  lemma LaneOf(st: Store, s: nat)
    requires Sound(st) && s < |st.lanes|
    ensures Valid(st.m) && Shape(st)
    ensures var x := st.m.active[s];
            && LaneOk(st.lanes[s], st.m.shards[s], x, st.m.regions[x], st.disk[x])
            && RegionWritten(st.disk[x], x, st.m.regions[x])
            && Pipeline(st.m.shards[s], s, x, st.m.regions[x], st.m.nextSeqno, st.m.regionSize)
  {
    assert st in Facets(Authorised) && st in Facets(Laned) && st in Facets(Written);
    ShardOf(st.m, s);
  }

  // ----- staging -----

  /** Only the rotation request or the sequence counter moves. */
  lemma RequestStep(st: Store, s: nat, sh: Shard, next: nat)
    requires Sound(st) && Shape(st) && s < |st.lanes|
    requires sh == st.m.shards[s] || sh == st.m.shards[s].(requested := true)
    requires Valid(Confined(st.m, s, sh, st.m.regions[st.m.active[s]], next))
    ensures Sound(st.(m := Confined(st.m, s, sh, st.m.regions[st.m.active[s]], next)))
  {
    LaneOf(st, s);
    var x := st.m.active[s];
    var lane, d, written := st.lanes[s], st.m.regions[x], st.disk[x];
    LaneStep(st, s, sh, d, next, lane, written);
    assert st.disk[x := written] == st.disk && st.lanes[s := lane] == st.lanes;
    assert LaneUpdate(st, s, sh, d, next, lane, written) == st.(m := Confined(st.m, s, sh, d, next));
  }

  /** The open span after one more record of `bytes` bytes. */
  function Grown(sh: Shard, x: nat, reserved: nat, bytes: nat, seqno: nat): OpenSpan {
    match sh.open
    case None => OpenSpan(x, reserved, reserved + bytes, 1, seqno)
    case Some(o) => o.(end := reserved + bytes, records := o.records + 1, maxSeqno := Max(o.maxSeqno, seqno))
  }

  /** Reserving and staging one record under one lock leaves no tail behind. */
  lemma StagedManager(m: Manager, s: nat, bytes: nat)
    requires Valid(m) && s < |m.shards| && ReserveAppend(m, s, bytes).1.Ok?
    ensures s < |m.active| && m.active[s] < |m.regions|
    ensures var (m', t) := ReserveAppend(m, s, bytes);
            var x, sh := m.active[s], m.shards[s];
            var d := m.regions[x];
            && t.value == Reservation(s, x, d.created, d.reserved, bytes, m.nextSeqno) && 0 < bytes
            && sh.tail.None? && sh.padding.None? && sh.rotation.None?
            && StageReservation(m', t.value).0
               == Confined(m, s, sh.(open := Some(Grown(sh, x, d.reserved, bytes, m.nextSeqno))),
                           d.(reserved := d.reserved + bytes), m.nextSeqno + 1)
            && Valid(StageReservation(m', t.value).0)
  {
    ShardOf(m, s);
    ReserveShape(m, s, bytes);
    ReserveKeeps(m, s, bytes);
    var (m', r) := ReserveAppend(m, s, bytes);
    var x, sh := m.active[s], m.shards[s];
    var d := m.regions[x];
    var t := r.value;
    StageKeeps(m', t);
    ShardOf(m', s);
    var out := StageReservation(m', t);
    assert out.1 == Ok(());
    var sh' := sh.(open := Some(Grown(sh, x, d.reserved, bytes, m.nextSeqno)));
    assert out.0.shards == m.shards[s := sh'];
  }

  lemma {:induction false} StagedFill(staged: seq<Rec>, sh: Shard, s: nat, x: nat, d: RegionDesc, next: nat, size: nat, bytes: nat, r: Rec)
    requires Pipeline(sh, s, x, d, next, size) && sh.tail.None? && sh.padding.None? && 0 < bytes
    requires if sh.open.None? then staged == []
             else |staged| == sh.open.value.records && Tile(staged, x, d.created, sh.open.value.start, sh.open.value.end)
    requires r.region == x && r.generation == d.created && r.offset == d.reserved && r.length == bytes
    ensures var o := Grown(sh, x, d.reserved, bytes, next);
            |staged + [r]| == o.records && Tile(staged + [r], x, d.created, o.start, o.end)
  {
    TilePush(staged, r, x, d.created, if sh.open.Some? then sh.open.value.start else d.reserved, d.reserved);
  }

  lemma StagedLane(lane: Lane, sh: Shard, s: nat, x: nat, d: RegionDesc, next: nat, size: nat, written: seq<Rec>, bytes: nat, r: Rec)
    requires LaneOk(lane, sh, x, d, written) && Pipeline(sh, s, x, d, next, size)
    requires 0 < bytes && sh.rotation.None?
    requires r.region == x && r.generation == d.created && r.offset == d.reserved && r.length == bytes
    ensures LaneOk(lane.(queue := lane.queue + [r]), sh.(open := Some(Grown(sh, x, d.reserved, bytes, next))), x,
                   d.(reserved := d.reserved + bytes), written)
  {
    var lane', sh' := lane.(queue := lane.queue + [r]), sh.(open := Some(Grown(sh, x, d.reserved, bytes, next)));
    var n := lane.landed + lane.flight;
    assert lane'.queue[n..] == lane.queue[n..] + [r];
    assert lane'.queue[lane.landed..n] == lane.queue[lane.landed..n];
    StagedFill(lane.queue[n..], sh, s, x, d, next, size, bytes, r) by {
      assert FillOk(lane, sh, x, d);
    }
    assert FlightOk(lane', sh', x, d.(reserved := d.reserved + bytes)) by {
      assert FlightOk(lane, sh, x, d);
    }
  }

  /** The store after staging, as a change confined to one shard. */
  lemma StagedIs(st: Store, s: nat, hash: nat, bytes: nat, previous: Option<Location>)
    requires Sound(st) && Shape(st) && Valid(st.m) && s < |st.lanes| && ReserveAppend(st.m, s, bytes).1.Ok?
    ensures var m, x := st.m, st.m.active[s];
            var d, sh, lane := m.regions[x], m.shards[s], st.lanes[s];
            var r := Rec(hash, x, d.created, d.reserved, bytes, previous);
            var sh' := sh.(open := Some(Grown(sh, x, d.reserved, bytes, m.nextSeqno)));
            var d' := d.(reserved := d.reserved + bytes);
            && 0 < bytes && sh.rotation.None? && Valid(Confined(m, s, sh', d', m.nextSeqno + 1))
            && StageInto(st, s, hash, bytes, previous).0
               == LaneUpdate(st, s, sh', d', m.nextSeqno + 1, lane.(queue := lane.queue + [r]), st.disk[x])
  {
    StagedManager(st.m, s, bytes);
    var x := st.m.active[s];
    assert st.disk[x := st.disk[x]] == st.disk;
  }

  /** Staging keeps the invariant; a replacement may be staged only for a pinned source. */
  lemma StageStep(st: Store, s: nat, hash: nat, bytes: nat, previous: Option<Location>)
    requires Sound(st) && s < |st.lanes|
    requires previous.Some? ==> previous.value.region in st.scans && !st.scans[previous.value.region].released
    ensures Sound(StageInto(st, s, hash, bytes, previous).0)
  {
    if ReserveAppend(st.m, s, bytes).1.Ok? {
      StageAccepted(st, s, hash, bytes, previous);
    } else {
      StageRefused(st, s, hash, bytes, previous);
    }
  }

  /** One staged record is a change confined to its shard. */
  lemma StagedMove(st: Store, s: nat, sh: Shard, d: RegionDesc, lane: Lane, r: Rec)
    requires Sound(st) && Shape(st) && s < |st.lanes|
    requires var x := st.m.active[s];
             var was := st.m.regions[x];
             && 0 < r.length && r.region == x && r.generation == was.created && r.offset == was.reserved
             && sh == st.m.shards[s].(open := Some(Grown(st.m.shards[s], x, was.reserved, r.length, st.m.nextSeqno)))
             && d == was.(reserved := was.reserved + r.length)
    requires lane == st.lanes[s].(queue := st.lanes[s].queue + [r]) && SourceHeld(st.scans, r) && sh.rotation.None?
    requires Valid(Confined(st.m, s, sh, d, st.m.nextSeqno + 1))
    ensures LaneMove(st, s, sh, d, st.m.nextSeqno + 1, lane, st.disk[st.m.active[s]])
  {
    LaneOf(st, s);
    var m, x := st.m, st.m.active[s];
    StagedLane(st.lanes[s], m.shards[s], s, x, m.regions[x], m.nextSeqno, m.regionSize, st.disk[x], r.length, r);
  }

  lemma StageAccepted(st: Store, s: nat, hash: nat, bytes: nat, previous: Option<Location>)
    requires Sound(st) && s < |st.lanes| && ReserveAppend(st.m, s, bytes).1.Ok?
    requires previous.Some? ==> previous.value.region in st.scans && !st.scans[previous.value.region].released
    ensures Sound(StageInto(st, s, hash, bytes, previous).0)
  {
    assert st in Facets(Shaped) && st in Facets(Authorised);
    StagedIs(st, s, hash, bytes, previous);
    var m, x := st.m, st.m.active[s];
    var d, sh, lane := m.regions[x], m.shards[s], st.lanes[s];
    var r := Rec(hash, x, d.created, d.reserved, bytes, previous);
    var sh' := sh.(open := Some(Grown(sh, x, d.reserved, bytes, m.nextSeqno)));
    var d', lane' := d.(reserved := d.reserved + bytes), lane.(queue := lane.queue + [r]);
    StagedMove(st, s, sh', d', lane', r);
    LaneStep(st, s, sh', d', m.nextSeqno + 1, lane', st.disk[x]);
  }

  lemma StageRefused(st: Store, s: nat, hash: nat, bytes: nat, previous: Option<Location>)
    requires Sound(st) && s < |st.lanes| && ReserveAppend(st.m, s, bytes).1.Err?
    ensures Sound(StageInto(st, s, hash, bytes, previous).0)
  {
    LaneOf(st, s);
    var m, sh := st.m, st.m.shards[s];
    var out := ReserveAppend(m, s, bytes);
    ReserveShape(m, s, bytes);
    ReserveKeeps(m, s, bytes);
    assert StageInto(st, s, hash, bytes, previous).0 == st.(m := out.0);
    if out.0 == m {
      assert st.(m := m) == st;
    } else {
      RequestStep(st, s, sh.(requested := true), m.nextSeqno);
    }
  }

  lemma AskStep(st: Store, s: nat, bytes: nat)
    requires Sound(st) && s < |st.lanes|
    ensures Sound(st.(m := RequestRotationForAppend(st.m, s, bytes).0))
  {
    LaneOf(st, s);
    var m := st.m;
    var m' := RequestRotationForAppend(m, s, bytes).0;
    RequestKeeps(m, s, bytes);
    if m' == m {
      assert st.(m := m') == st;
    } else {
      var sh, d := m.shards[s].(requested := true), m.regions[m.active[s]];
      assert m.regions[m.active[s] := d] == m.regions;
      assert m' == Confined(m, s, sh, d, m.nextSeqno);
      RequestStep(st, s, sh, m.nextSeqno);
    }
  }

  lemma AllocateStep(st: Store)
    requires Sound(st)
    ensures Sound(st.(m := AllocateSeqno(st.m).0))
  {
    assert st in Facets(Authorised) && st in Facets(Shaped);
    var m := st.m;
    var m' := AllocateSeqno(m).0;
    AllocateKeeps(m);
    if m' == m {
      assert st.(m := m') == st;
    } else {
      assert m in States(Sizes);
      var sh, d := m.shards[0], m.regions[m.active[0]];
      assert m.regions[m.active[0] := d] == m.regions && m.shards[0 := sh] == m.shards;
      assert m' == Confined(m, 0, sh, d, m.nextSeqno + 1);
      RequestStep(st, 0, sh, m.nextSeqno + 1);
    }
  }

  // ----- flushing -----

  /** A seal moves the whole open span, padded to a direct-I/O boundary, into flight. */
  lemma SealedManager(m: Manager, s: nat)
    requires Valid(m) && s < |m.shards|
    requires ReserveWritePadding(m, s).1.Ok?
    ensures s < |m.active| && m.active[s] < |m.regions| && m.shards[s].open.Some?
    ensures var (m', p) := ReserveWritePadding(m, s);
            var x, sh := m.active[s], m.shards[s];
            var d, o := m.regions[x], sh.open.value;
            var end := if p.value.Some? then p.value.value.padded else d.reserved;
            var w := Span(s, x, o.start, end, o.records, o.maxSeqno);
            var m'' := if p.value.Some? then SealWithPadding(m', p.value.value).0 else SealWriteSpan(m', s).0;
            && sh.tail.None? && sh.padding.None? && sh.submitted.None? && sh.rotation.None?
            && o.end == d.reserved <= end
            && (p.value.Some? ==> p.value.value.unpadded == d.reserved)
            && m'' == Confined(m, s, sh.(open := None, submitted := Some(w)), d.(reserved := end), m.nextSeqno)
            && Valid(m'')
  {
    ShardOf(m, s);
    PadKeeps(m, s);
    var (m', q) := ReserveWritePadding(m, s);
    var x, sh := m.active[s], m.shards[s];
    var d, o := m.regions[x], sh.open.value;
    if q.value.Some? {
      var p := q.value.value;
      ShardOf(m', s);
      SealPaddedKeeps(m', p);
      SubmitShape(m', s);
      assert SealWithPadding(m', p) == SubmitOpenSpan(m', s, p.padded);
      var sh' := sh.(open := None, submitted := Some(Span(s, x, o.start, p.padded, o.records, o.maxSeqno)));
      assert SealWithPadding(m', p).0.shards == m.shards[s := sh'];
      assert SealWithPadding(m', p).0.regions == m.regions[x := d.(reserved := p.padded)];
    } else {
      assert m' == m;
      AlignUp(o.end, m.regionSize);
      SealKeeps(m, s);
      assert m.regions[x := d.(reserved := d.reserved)] == m.regions;
    }
  }

  lemma SealedLane(lane: Lane, sh: Shard, s: nat, x: nat, d: RegionDesc, next: nat, size: nat, written: seq<Rec>, end: nat)
    requires LaneOk(lane, sh, x, d, written) && Pipeline(sh, s, x, d, next, size)
    requires lane.landed == 0 && sh.submitted.None? && sh.open.Some? && sh.open.value.end <= end
    ensures lane.queue != [] && lane.flight == 0
    ensures var o := sh.open.value;
            var q := PadLast(lane.queue, end - o.end);
            var w := Span(s, x, o.start, end, o.records, o.maxSeqno);
            LaneOk(Lane(q, 0, |lane.queue|), sh.(open := None, submitted := Some(w)), x, d.(reserved := end), written)
  {
    var o := sh.open.value;
    var q := PadLast(lane.queue, end - o.end);
    SliceAll(lane.queue);
    TilePad(lane.queue, x, d.created, o.start, o.end, end - o.end);
    SliceAll(q);
  }

  lemma SliceAll(q: seq<Rec>)
    ensures q[0..] == q && q[0..|q|] == q
  {
  }

  /** The end of the span that a seal submits. */
  function SealEnd(m: Manager, s: nat): nat
    requires s < |m.active| && m.active[s] < |m.regions|
  {
    var p := ReserveWritePadding(m, s).1;
    if p.Ok? && p.value.Some? then p.value.value.padded else m.regions[m.active[s]].reserved
  }

  lemma SealingIs(st: Store, s: nat)
    requires Sound(st) && Enabled(st, SealLane(s)) && Shape(st) && ReserveWritePadding(st.m, s).1.Ok?
    ensures var x, sh, lane := st.m.active[s], st.m.shards[s], st.lanes[s];
            var end := SealEnd(st.m, s);
            && sh.open.Some? && sh.submitted.None? && sh.open.value.end <= end && lane.queue != []
            && var o := sh.open.value;
            var sh' := sh.(open := None, submitted := Some(Span(s, x, o.start, end, o.records, o.maxSeqno)));
            var m' := Confined(st.m, s, sh', st.m.regions[x].(reserved := end), st.m.nextSeqno);
            && Valid(m')
            && Sealing(st, s) == st.(m := m', lanes := st.lanes[s := Lane(PadLast(lane.queue, end - o.end), 0, |lane.queue|)])
  {
    LaneOf(st, s);
    var lane := st.lanes[s];
    SealedManager(st.m, s);
    PadNothing(lane.queue);
  }

  lemma PadNothing(q: seq<Rec>)
    requires q != []
    ensures PadLast(q, 0) == q
  {
  }

  lemma SameDisk(disk: seq<seq<Rec>>, x: nat)
    requires x < |disk|
    ensures disk[x := disk[x]] == disk
  {
  }

  /** A seal that the manager accepts. */
  lemma SealAccepted(st: Store, s: nat)
    requires Sound(st) && Enabled(st, SealLane(s)) && ReserveWritePadding(st.m, s).1.Ok?
    ensures Sound(Sealing(st, s))
  {
    LaneOf(st, s);
    var m, x := st.m, st.m.active[s];
    var d, sh, lane := m.regions[x], m.shards[s], st.lanes[s];
    SealingIs(st, s);
    var o, end := sh.open.value, SealEnd(m, s);
    SealedLane(lane, sh, s, x, d, m.nextSeqno, m.regionSize, st.disk[x], end);
    var sh' := sh.(open := None, submitted := Some(Span(s, x, o.start, end, o.records, o.maxSeqno)));
    var lane' := Lane(PadLast(lane.queue, end - o.end), 0, |lane.queue|);
    LaneStep(st, s, sh', d.(reserved := end), m.nextSeqno, lane', st.disk[x]);
    SameDisk(st.disk, x);
    assert Sealing(st, s) == LaneUpdate(st, s, sh', d.(reserved := end), m.nextSeqno, lane', st.disk[x]);
  }

  lemma SealStep(st: Store, s: nat)
    requires Sound(st) && Enabled(st, SealLane(s))
    ensures Sound(Sealing(st, s))
  {
    LaneOf(st, s);
    if ReserveWritePadding(st.m, s).1.Ok? {
      SealAccepted(st, s);
    } else {
      assert ReserveWritePadding(st.m, s).0 == st.m;
      assert Sealing(st, s) == st;
    }
  }

  /** The records in flight are the first of the lane, and end up on disk. */
  lemma SentWritten(disk: seq<Rec>, queue: seq<Rec>, flight: nat)
    requires flight <= |queue|
    ensures queue[0..flight] == queue[..flight]
    ensures forall i :: 0 <= i < flight ==> queue[i] in disk + queue[..flight]
  {
    forall i | 0 <= i < flight ensures queue[i] in disk + queue[..flight] {
      assert (disk + queue[..flight])[|disk| + i] == queue[i];
    }
  }

  lemma LandStep(st: Store, s: nat)
    requires Sound(st) && Enabled(st, LandLane(s))
    ensures Sound(Landing(st, s))
  {
    LaneOf(st, s);
    var m, x := st.m, st.m.active[s];
    var d, sh, lane := m.regions[x], m.shards[s], st.lanes[s];
    var w := sh.submitted.value;
    var sent := lane.queue[..lane.flight];
    var written := st.disk[x] + sent;
    var d' := d.(completed := w.end, records := d.records + w.records);
    CompleteKeeps(m, w);
    assert CompleteWriteSpan(m, w).0 == Confined(m, s, sh.(submitted := None), d', m.nextSeqno);
    SentWritten(st.disk[x], lane.queue, lane.flight);
    TileJoin(st.disk[x], sent, x, d.created, 0, w.start, w.end);
    var lane' := Lane(lane.queue, lane.flight, 0);
    LaneStep(st, s, sh.(submitted := None), d', m.nextSeqno, lane', written);
    assert Landing(st, s) == LaneUpdate(st, s, sh.(submitted := None), d', m.nextSeqno, lane', written);
  }
}
