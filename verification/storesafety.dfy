/** The invariant of the `RegionStore` protocol and its preservation by every interleaved step. */
module StoreSafety {
  import opened Machine
  import opened Regions
  import opened Pipelines
  import opened Authority
  import opened Lifecycle
  import opened Runs
  import opened Stores

  // ----- contiguous records -----

  /** The records of generation g fill [start, end) of Region x without gap or overlap. */
  predicate Tile(q: seq<Rec>, x: nat, g: nat, start: nat, end: nat) {
    if q == [] then start == end
    else
      var r := q[|q| - 1];
      && r.region == x && r.generation == g && 0 < r.length && r.offset + r.length == end
      && Tile(q[..|q| - 1], x, g, start, r.offset)
  }

  lemma {:induction false} TilePush(q: seq<Rec>, r: Rec, x: nat, g: nat, start: nat, end: nat)
    requires Tile(q, x, g, start, end)
    requires r.region == x && r.generation == g && 0 < r.length && r.offset == end
    ensures Tile(q + [r], x, g, start, end + r.length)
  {
    assert (q + [r])[..|q|] == q;
  }

  lemma {:induction false} TileJoin(p: seq<Rec>, q: seq<Rec>, x: nat, g: nat, start: nat, middle: nat, end: nat)
    requires Tile(p, x, g, start, middle) && Tile(q, x, g, middle, end)
    ensures Tile(p + q, x, g, start, end)
    decreases |q|
  {
    if q == [] {
      assert p + q == p;
    } else {
      var k := |q| - 1;
      TileJoin(p, q[..k], x, g, start, middle, q[k].offset);
      TilePush(p + q[..k], q[k], x, g, start, q[k].offset);
      assert p + q == (p + q[..k]) + [q[k]];
    }
  }

  lemma {:induction false} TilePad(q: seq<Rec>, x: nat, g: nat, start: nat, end: nat, padding: nat)
    requires q != [] && Tile(q, x, g, start, end)
    ensures Tile(PadLast(q, padding), x, g, start, end + padding)
  {
    var k := |q| - 1;
    assert PadLast(q, padding)[..k] == q[..k];
  }

  lemma {:induction false} TileAt(q: seq<Rec>, x: nat, g: nat, start: nat, end: nat, k: nat)
    requires Tile(q, x, g, start, end) && k < |q|
    ensures q[k].region == x && q[k].generation == g && 0 < q[k].length
    ensures start <= q[k].offset && q[k].offset + q[k].length <= end
    decreases |q|
  {
    var n := |q| - 1;
    TileSpan(q[..n], x, g, start, q[n].offset);
    if k < n {
      TileAt(q[..n], x, g, start, q[n].offset, k);
    }
  }

  lemma {:induction false} TileSpan(q: seq<Rec>, x: nat, g: nat, start: nat, end: nat)
    requires Tile(q, x, g, start, end)
    ensures start + |q| <= end
    decreases |q|
  {
    if q != [] {
      TileSpan(q[..|q| - 1], x, g, start, q[|q| - 1].offset);
    }
  }

  // ----- the invariant -----

  /** The written records of Region x are exactly its completed prefix. */
  predicate RegionWritten(q: seq<Rec>, x: nat, d: RegionDesc) {
    Tile(q, x, d.created, 0, d.completed) && |q| == d.records
  }

  predicate FlightOk(lane: Lane, sh: Shard, x: nat, d: RegionDesc)
    requires lane.landed + lane.flight <= |lane.queue|
  {
    if sh.submitted.None? then lane.flight == 0
    else
      var w := sh.submitted.value;
      && 0 < lane.flight == w.records
      && Tile(lane.queue[lane.landed..lane.landed + lane.flight], x, d.created, w.start, w.end)
  }

  predicate FillOk(lane: Lane, sh: Shard, x: nat, d: RegionDesc)
    requires lane.landed + lane.flight <= |lane.queue|
  {
    var staged := lane.queue[lane.landed + lane.flight..];
    if sh.open.None? then staged == []
    else
      var o := sh.open.value;
      && 0 < |staged| == o.records
      && Tile(staged, x, d.created, o.start, o.end)
  }

  /** Staged records mirror the shard's spans; completed ones are on disk and await publication. */
  predicate LaneOk(lane: Lane, sh: Shard, x: nat, d: RegionDesc, written: seq<Rec>) {
    && sh.tail.None? && sh.padding.None?
    && lane.landed + lane.flight <= |lane.queue|
    && (lane.landed > 0 ==> sh.rotation.None? && lane.flight == 0)
    && FlightOk(lane, sh, x, d)
    && FillOk(lane, sh, x, d)
    && (forall i :: 0 <= i < lane.landed ==> lane.queue[i] in written)
  }

  /** A staged replacement of the mapping t -> l. */
  ghost predicate Promise(lanes: seq<Lane>, token: nat -> nat, t: nat, l: Location) {
    exists s, i :: 0 <= s < |lanes| && 0 <= i < |lanes[s].queue| && Replaces(lanes[s].queue[i], token, t, l)
  }

  predicate Replaces(r: Rec, token: nat -> nat, t: nat, l: Location) {
    r.previous == Some(l) && token(r.hash) == t
  }

  /** The k-th record of the named Region is where t -> l points; once its reclaim scan has passed,
      only a staged replacement may keep the mapping alive. */
  ghost predicate RecordAt(st: Store, t: nat, l: Location, k: nat) {
    && l.region < |st.disk| && k < |st.disk[l.region]|
    && st.disk[l.region][k].Where() == l && st.token(st.disk[l.region][k].hash) == t
    && (l.region in st.scans && k < st.scans[l.region].next ==> Promise(st.lanes, st.token, t, l))
  }

  ghost predicate Names(st: Store, t: nat, l: Location) {
    exists k: nat :: RecordAt(st, t, l, k)
  }

  predicate ScanOk(scan: Scan, records: nat, used: nat) {
    && scan.next <= records
    && (scan.offered ==> scan.next < records)
    && (scan.released ==> scan.next == records)
    && scan.spent + scan.budget == ReinsertBudget(used)
  }

  /** A replacement waits only for a source that is pinned and not yet released. */
  predicate SourceHeld(scans: map<nat, Scan>, r: Rec) {
    r.previous.Some? ==> r.previous.value.region in scans && !scans[r.previous.value.region].released
  }

  ghost predicate Activating(m: Manager, x: nat) {
    exists s :: 0 <= s < |m.shards| && m.shards[s].rotation.Some? && m.shards[s].rotation.value.activated == x
  }

  /** The generation table entry is current, or 0 while the Region changes hands. */
  ghost predicate DatedAt(st: Store, x: nat)
    requires x < |st.generations| && x < |st.m.regions|
  {
    if x in st.scans && st.scans[x].released then st.generations[x] == 0
    else st.generations[x] == st.m.regions[x].created || (st.generations[x] == 0 && Activating(st.m, x))
  }

  ghost predicate Shape(st: Store) {
    && |st.disk| == |st.generations| == |st.m.regions|
    && |st.lanes| == |st.m.shards| == |st.m.active|
    && (forall s :: 0 <= s < |st.m.active| ==> st.m.active[s] < |st.m.regions|)
  }

  ghost predicate AllLanes(st: Store)
    requires Shape(st)
  {
    forall s :: 0 <= s < |st.lanes| ==>
      LaneOk(st.lanes[s], st.m.shards[s], st.m.active[s], st.m.regions[st.m.active[s]], st.disk[st.m.active[s]])
  }

  ghost predicate AllScans(st: Store)
    requires Shape(st)
  {
    && (forall x :: x in st.scans <==> Reclaiming(st.m, x))
    && (forall x :: x in st.scans ==>
          x < |st.disk| && ScanOk(st.scans[x], |st.disk[x]|, st.m.regions[x].completed))
  }

  ghost predicate AllHeld(st: Store) {
    forall s, i :: 0 <= s < |st.lanes| && 0 <= i < |st.lanes[s].queue| ==> SourceHeld(st.scans, st.lanes[s].queue[i])
  }

  datatype Facet = Authorised | Shaped | Written | Laned | Scanned | Held | Indexed | Dated

  ghost function Facets(a: Facet): iset<Store> {
    match a
    case Authorised => iset st: Store | Valid(st.m)
    case Shaped => iset st: Store | Shape(st)
    case Written => iset st: Store | Shape(st) && forall x :: 0 <= x < |st.disk| ==> RegionWritten(st.disk[x], x, st.m.regions[x])
    case Laned => iset st: Store | Shape(st) && AllLanes(st)
    case Scanned => iset st: Store | Shape(st) && AllScans(st)
    case Held => iset st: Store | AllHeld(st)
    case Indexed => iset st: Store | forall t :: t in st.index ==> Names(st, t, st.index[t])
    case Dated => iset st: Store | Shape(st) && forall x :: 0 <= x < |st.generations| ==> DatedAt(st, x)
  }

  /** The invariant of the store. */
  ghost predicate Sound(st: Store) {
    forall a {:trigger st in Facets(a)} :: st in Facets(a)
  }

  lemma Whole(st: Store)
    requires st in Facets(Authorised) && st in Facets(Shaped) && st in Facets(Written) && st in Facets(Laned)
    requires st in Facets(Scanned) && st in Facets(Held) && st in Facets(Indexed) && st in Facets(Dated)
    ensures Sound(st)
  {
    forall a ensures st in Facets(a) {
      match a
      case Authorised =>
      case Shaped =>
      case Written =>
      case Laned =>
      case Scanned =>
      case Held =>
      case Indexed =>
      case Dated =>
    }
  }

  /** A Region under reclaim is not Active. */
  lemma ScannedRegion(st: Store, x: nat)
    requires Sound(st) && x in st.scans
    ensures x < |st.disk| && x < |st.m.regions| && x !in st.m.active && x !in st.m.free
    ensures st.m.regions[x].state == Sealed
    ensures ScanOk(st.scans[x], |st.disk[x]|, st.m.regions[x].completed)
    ensures Reclaiming(st.m, x)
  {
    assert st in Facets(Scanned) && st in Facets(Authorised);
    OwnershipPartition(st.m, x);
  }

  // ----- steps confined to one shard -----

  /** Shard s, its lane and its Active Region change; earlier records and their hashes stay. */
  function LaneUpdate(st: Store, s: nat, sh: Shard, d: RegionDesc, next: nat, lane: Lane, written: seq<Rec>): Store
    requires s < |st.lanes| && s < |st.m.shards| && s < |st.m.active| && st.m.active[s] < |st.m.regions|
    requires st.m.active[s] < |st.disk|
  {
    st.(m := Confined(st.m, s, sh, d, next), disk := st.disk[st.m.active[s] := written], lanes := st.lanes[s := lane])
  }

  predicate KeepsRecords(before: seq<Rec>, after: seq<Rec>) {
    |before| <= |after| && forall i :: 0 <= i < |before| ==> after[i].previous == before[i].previous && after[i].hash == before[i].hash
  }

  ghost predicate LaneMove(st: Store, s: nat, sh: Shard, d: RegionDesc, next: nat, lane: Lane, written: seq<Rec>) {
    && Sound(st) && Shape(st) && s < |st.lanes|
    && Valid(Confined(st.m, s, sh, d, next))
    && sh.rotation == st.m.shards[s].rotation
    && var x := st.m.active[s];
    && d.created == st.m.regions[x].created
    && LaneOk(lane, sh, x, d, written)
    && RegionWritten(written, x, d)
    && st.disk[x] <= written
    && KeepsRecords(st.lanes[s].queue, lane.queue)
    && (forall i :: |st.lanes[s].queue| <= i < |lane.queue| ==> SourceHeld(st.scans, lane.queue[i]))
  }

  lemma LaneLanes(st: Store, s: nat, sh: Shard, d: RegionDesc, next: nat, lane: Lane, written: seq<Rec>)
    requires LaneMove(st, s, sh, d, next, lane, written)
    ensures LaneUpdate(st, s, sh, d, next, lane, written) in Facets(Laned)
  {
    var st' := LaneUpdate(st, s, sh, d, next, lane, written);
    assert st in Facets(Laned) && st in Facets(Authorised);
    forall t | 0 <= t < |st'.lanes|
      ensures LaneOk(st'.lanes[t], st'.m.shards[t], st'.m.active[t], st'.m.regions[st'.m.active[t]], st'.disk[st'.m.active[t]])
    {
      if t != s {
        ActiveDistinct(st.m, s, t);
      }
    }
  }

  lemma LaneScans(st: Store, s: nat, sh: Shard, d: RegionDesc, next: nat, lane: Lane, written: seq<Rec>)
    requires LaneMove(st, s, sh, d, next, lane, written)
    ensures LaneUpdate(st, s, sh, d, next, lane, written) in Facets(Scanned)
  {
    var st' := LaneUpdate(st, s, sh, d, next, lane, written);
    assert st in Facets(Scanned);
    forall x | x in st'.scans
      ensures x < |st'.disk| && ScanOk(st'.scans[x], |st'.disk[x]|, st'.m.regions[x].completed)
    {
      ScannedRegion(st, x);
      assert st.m.active[s] in st.m.active;
    }
    forall x ensures x in st'.scans <==> Reclaiming(st'.m, x) {
      assert Reclaiming(st'.m, x) <==> Reclaiming(st.m, x);
    }
  }

  lemma PromiseKept(lanes: seq<Lane>, s: nat, lane: Lane, token: nat -> nat, t: nat, l: Location)
    requires s < |lanes| && KeepsRecords(lanes[s].queue, lane.queue) && Promise(lanes, token, t, l)
    ensures Promise(lanes[s := lane], token, t, l)
  {
    var p, i :| 0 <= p < |lanes| && 0 <= i < |lanes[p].queue| && Replaces(lanes[p].queue[i], token, t, l);
    assert Replaces(lanes[s := lane][p].queue[i], token, t, l);
  }

  lemma LaneIndex(st: Store, s: nat, sh: Shard, d: RegionDesc, next: nat, lane: Lane, written: seq<Rec>)
    requires LaneMove(st, s, sh, d, next, lane, written)
    ensures LaneUpdate(st, s, sh, d, next, lane, written) in Facets(Indexed)
  {
    var st' := LaneUpdate(st, s, sh, d, next, lane, written);
    assert st in Facets(Indexed);
    forall t | t in st'.index ensures Names(st', t, st'.index[t]) {
      var l := st.index[t];
      assert Names(st, t, l);
      var k: nat :| RecordAt(st, t, l, k);
      if l.region in st.scans && k < st.scans[l.region].next {
        PromiseKept(st.lanes, s, lane, st.token, t, l);
      }
      assert st'.disk[l.region][k] == st.disk[l.region][k];
      assert RecordAt(st', t, l, k);
    }
  }

  lemma LaneDates(st: Store, s: nat, sh: Shard, d: RegionDesc, next: nat, lane: Lane, written: seq<Rec>)
    requires LaneMove(st, s, sh, d, next, lane, written)
    ensures LaneUpdate(st, s, sh, d, next, lane, written) in Facets(Dated)
  {
    var st' := LaneUpdate(st, s, sh, d, next, lane, written);
    assert st in Facets(Dated);
    forall x | 0 <= x < |st'.generations| ensures DatedAt(st', x) {
      assert DatedAt(st, x);
      if Activating(st.m, x) {
        var p :| 0 <= p < |st.m.shards| && st.m.shards[p].rotation.Some? && st.m.shards[p].rotation.value.activated == x;
        assert st'.m.shards[p].rotation == st.m.shards[p].rotation;
      }
    }
  }

  lemma LaneRest(st: Store, s: nat, sh: Shard, d: RegionDesc, next: nat, lane: Lane, written: seq<Rec>)
    requires LaneMove(st, s, sh, d, next, lane, written)
    ensures var st' := LaneUpdate(st, s, sh, d, next, lane, written);
            st' in Facets(Authorised) && st' in Facets(Shaped) && st' in Facets(Written) && st' in Facets(Held)
  {
    var st' := LaneUpdate(st, s, sh, d, next, lane, written);
    assert st in Facets(Written) && st in Facets(Held);
    forall p, i | 0 <= p < |st'.lanes| && 0 <= i < |st'.lanes[p].queue|
      ensures SourceHeld(st'.scans, st'.lanes[p].queue[i])
    {
      if p != s || i < |st.lanes[s].queue| {
        assert SourceHeld(st.scans, st.lanes[p].queue[i]);
      }
    }
  }

  lemma LaneStep(st: Store, s: nat, sh: Shard, d: RegionDesc, next: nat, lane: Lane, written: seq<Rec>)
    requires LaneMove(st, s, sh, d, next, lane, written)
    ensures Sound(LaneUpdate(st, s, sh, d, next, lane, written))
  {
    LaneLanes(st, s, sh, d, next, lane, written);
    LaneScans(st, s, sh, d, next, lane, written);
    LaneIndex(st, s, sh, d, next, lane, written);
    LaneDates(st, s, sh, d, next, lane, written);
    LaneRest(st, s, sh, d, next, lane, written);
    Whole(LaneUpdate(st, s, sh, d, next, lane, written));
  }
}
