/** What each step of the store protocol does, told by the store's own contents: the records that join a
    lane, reach the disk or lose their mapping, and everything that stays. */
module StoreEffects {
  import opened Machine
  import opened Regions
  import opened Pipelines
  import opened Authority
  import opened Lifecycle
  import opened Runs
  import opened Effects
  import opened Stores
  import opened StoreSafety
  import opened StoreSteps
  import opened StoreCycle
  import opened StoreReclaim
  import opened StoreRuns

  // ----- putting -----

  /** Shard s takes a record: whole record units that fit behind the cursor of its Active Region, no
      rotation in flight, and a sequence number left. */
  ghost predicate Takes(st: Store, s: nat, bytes: nat)
    requires Shape(st) && s < |st.lanes|
  {
    && 0 < bytes && bytes % RECORD_ALIGNMENT == 0 && st.m.shards[s].rotation.None?
    && st.m.regions[st.m.active[s]].reserved + bytes <= st.m.regionSize && st.m.nextSeqno < U64_MAX
  }

  /** The record that the next put on shard s would stage: at the cursor, in the current generation. */
  function NextRecord(st: Store, s: nat, hash: nat, bytes: nat, previous: Option<Location>): Rec
    requires s < |st.m.active| && st.m.active[s] < |st.m.regions|
  {
    var x := st.m.active[s];
    Rec(hash, x, st.m.regions[x].created, st.m.regions[x].reserved, bytes, previous)
  }

  lemma StageExact(st: Store, s: nat, hash: nat, bytes: nat, previous: Option<Location>)
    requires Sound(st) && s < |st.lanes| && bytes <= U32_MAX
    ensures Shape(st) && Valid(st.m)
    ensures var (st', staged) := StageInto(st, s, hash, bytes, previous);
            && (staged <==> Takes(st, s, bytes)) && st' == st.(m := st'.m, lanes := st'.lanes)
            && s < |st'.m.shards| && st'.m.shards[s].rotation == st.m.shards[s].rotation
            && (staged ==>
                  && st'.lanes == st.lanes[s := st.lanes[s].(queue := st.lanes[s].queue + [NextRecord(st, s, hash, bytes, previous)])]
                  && var x := st.m.active[s];
                  && st'.m.regions == st.m.regions[x := st.m.regions[x].(reserved := st.m.regions[x].reserved + bytes)]
                  && st'.m.active == st.m.active && st'.m.nextSeqno == st.m.nextSeqno + 1)
            && (!staged ==> st'.lanes == st.lanes && st'.m.regions == st.m.regions && st'.m.active == st.m.active
                            && st'.m.nextSeqno == st.m.nextSeqno)
  {
    LaneOf(st, s);
    ReserveExact(st.m, s, bytes);
    if Takes(st, s, bytes) {
      StagedIs(st, s, hash, bytes, previous);
      SameDisk(st.disk, st.m.active[s]);
    }
  }

  /** An accepted put adds exactly one record, last in the lane of its shard, with its own hash and length,
      at the cursor and in the generation of the Active Region; it is accepted exactly if the shard takes
      it.  Nothing else of the store changes. */
  lemma PutExact(st: Store, s: nat, hash: nat, bytes: nat)
    requires Sound(st) && Enabled(st, PutValue(s, hash, bytes))
    ensures Shape(st)
    ensures var st', lane := Do(st, PutValue(s, hash, bytes)), st.lanes[s];
            && st' == st.(m := st'.m, lanes := st'.lanes)
            && s < |st'.m.shards| && st'.m.shards[s].rotation == st.m.shards[s].rotation && st'.m.active == st.m.active
            && st'.lanes == (if Takes(st, s, bytes) then st.lanes[s := lane.(queue := lane.queue + [NextRecord(st, s, hash, bytes, None)])]
                             else st.lanes)
  {
    StageExact(st, s, hash, bytes, None);
  }

  // ----- deleting -----

  /** A deletion removes the mapping of its token and nothing else. */
  lemma DeleteExact(st: Store, hash: nat)
    requires Enabled(st, Delete(hash))
    ensures var st' := Do(st, Delete(hash));
            && Lookup(st'.index, st.token(hash)) == None
            && (forall t :: t != st.token(hash) ==> Lookup(st'.index, t) == Lookup(st.index, t))
            && st' == st.(index := st'.index)
  {
  }

  /** After a deletion the token stays absent through every run in which no value of it is published. */
  lemma {:induction false} DeletedStaysAbsent(st: Store, hash: nat, run: seq<Action>)
    requires Enabled(st, Delete(hash)) && Feasible(Do(st, Delete(hash)), run)
    requires NoValue(Do(st, Delete(hash)), run, st.token(hash))
    ensures Lookup(Execute(Do(st, Delete(hash)), run).index, st.token(hash)) == None
  {
    DeleteExact(st, hash);
    NoResurrection(Do(st, Delete(hash)), run, st.token(hash));
  }

  // ----- flushing -----

  /** The same record, grown over the padding to the next direct-I/O boundary. */
  predicate Grows(r: Rec, r': Rec) {
    && r' == r.(length := r'.length) && r.length <= r'.length < r.length + DIRECT_IO_ALIGNMENT
    && (r'.offset + r'.length) % DIRECT_IO_ALIGNMENT == 0
  }

  /** A seal takes everything staged into flight if nothing is in flight and no rotation is: the last
      record grows to the block boundary, all others stay as they are.  Otherwise nothing changes. */
  lemma SealExact(st: Store, s: nat)
    requires Sound(st) && Enabled(st, SealLane(s))
    ensures Shape(st)
    ensures var st', lane := Do(st, SealLane(s)), st.lanes[s];
            && st' == st.(m := st'.m, lanes := st'.lanes)
            && (if lane.flight == 0 && st.m.shards[s].rotation.None? then
                  var n, lane' := |lane.queue| - 1, st'.lanes[s];
                  && st'.lanes == st.lanes[s := lane'] && lane'.landed == 0 && lane'.flight == |lane'.queue| == |lane.queue|
                  && (forall i :: 0 <= i < n ==> lane'.queue[i] == lane.queue[i]) && Grows(lane.queue[n], lane'.queue[n])
                else st' == st)
  {
    LaneOf(st, s);
    PadKeeps(st.m, s);
    var lane, sh := st.lanes[s], st.m.shards[s];
    if lane.flight == 0 && sh.rotation.None? {
      SealGrows(st, s);
    } else {
      assert ReserveWritePadding(st.m, s).0 == st.m;
      assert Sealing(st, s) == st;
    }
  }

  lemma SealGrows(st: Store, s: nat)
    requires Sound(st) && Enabled(st, SealLane(s)) && Shape(st) && ReserveWritePadding(st.m, s).1.Ok?
    ensures var st', lane := Sealing(st, s), st.lanes[s];
            var n, lane' := |lane.queue| - 1, st'.lanes[s];
            && st' == st.(m := st'.m, lanes := st.lanes[s := lane'])
            && lane'.landed == 0 && lane'.flight == |lane'.queue| == |lane.queue|
            && (forall i :: 0 <= i < n ==> lane'.queue[i] == lane.queue[i]) && Grows(lane.queue[n], lane'.queue[n])
  {
    LaneOf(st, s);
    SealingIs(st, s);
    var m, x := st.m, st.m.active[s];
    var o, end := m.shards[s].open.value, SealEnd(m, s);
    SealEndAligned(m, s);
    var lane := st.lanes[s];
    LastEnds(lane, m.shards[s], x, m.regions[x]);
  }

  /** The last staged record ends where the open span does. */
  lemma LastEnds(lane: Lane, sh: Shard, x: nat, d: RegionDesc)
    requires lane.landed + lane.flight <= |lane.queue| && FillOk(lane, sh, x, d) && sh.open.Some?
    ensures lane.queue != [] && var r := lane.queue[|lane.queue| - 1]; r.offset + r.length == sh.open.value.end
  {
    var staged := lane.queue[lane.landed + lane.flight..];
    assert staged[|staged| - 1] == lane.queue[|lane.queue| - 1];
  }

  lemma SealEndAligned(m: Manager, s: nat)
    requires Valid(m) && s < |m.shards| && s < |m.active| && m.active[s] < |m.regions| && ReserveWritePadding(m, s).1.Ok?
    ensures var end := SealEnd(m, s);
            && end % DIRECT_IO_ALIGNMENT == 0
            && m.regions[m.active[s]].reserved <= end < m.regions[m.active[s]].reserved + DIRECT_IO_ALIGNMENT
            && m.shards[s].open.Some? && m.shards[s].open.value.end == m.regions[m.active[s]].reserved
  {
    ActiveBounds(m, s);
    SealedManager(m, s);
    AlignUp(m.regions[m.active[s]].reserved, m.regionSize);
  }

  /** A completed write appends exactly the records in flight to their Region on disk; they now await
      publication, in order. */
  lemma LandExact(st: Store, s: nat)
    requires Sound(st) && Enabled(st, LandLane(s))
    ensures Shape(st) && st.lanes[s].flight <= |st.lanes[s].queue|
    ensures var st', lane, x := Do(st, LandLane(s)), st.lanes[s], st.m.active[s];
            && st' == st.(m := st'.m, disk := st'.disk, lanes := st'.lanes)
            && st'.disk == st.disk[x := st.disk[x] + lane.queue[..lane.flight]]
            && st'.lanes == st.lanes[s := Lane(lane.queue, lane.flight, 0)]
  {
    LaneOf(st, s);
  }

  /** Publication takes the first completed record off its lane; the index changes as `ValuePublished` and
      `ReinsertExact` say, and nothing else changes. */
  lemma PublishExact(st: Store, s: nat, evicted: Option<nat>)
    requires Sound(st) && Enabled(st, PublishFirst(s, evicted))
    ensures var st', lane := Do(st, PublishFirst(s, evicted)), st.lanes[s];
            && lane.queue != [] && st' == st.(index := st'.index, lanes := st'.lanes)
            && st'.lanes == st.lanes[s := Lane(lane.queue[1..], lane.landed - 1, lane.flight)]
  {
    LaneOf(st, s);
  }

  // ----- rotation -----

  /** A rotation begins exactly on a requested, quiescent shard while a Free Region and a sequence number
      are left: the oldest Free Region becomes Active in a new generation, the old one is retired. */
  lemma RotateExact(st: Store, s: nat)
    requires Sound(st) && Enabled(st, RotateBegin(s))
    ensures Shape(st)
    ensures var st', m := Do(st, RotateBegin(s)), st.m;
            && st' == st.(m := st'.m)
            && (if m.shards[s].requested && m.shards[s].Quiescent() && m.free != [] && m.nextSeqno < U64_MAX then
                  && m.free[0] < |m.regions| && s < |st'.m.shards| && |st'.m.regions| == |m.regions|
                  && st'.m.active == m.active[s := m.free[0]] && st'.m.free == m.free[1..]
                  && st'.m.regions[m.free[0]] == RegionDesc(Active, m.nextSeqno, 0, 0, 0)
                  && st'.m.regions[m.active[s]].state == Sealed
                  && st'.m.shards[s].rotation == Some(Rotation(s, m.active[s], m.free[0], m.nextSeqno))
                else st' == st)
  {
    LaneOf(st, s);
    SelectKinds(st.m, s);
    if st.m.free != [] {
      BeginExact(st.m, Candidate(s, st.m.free[0], 0));
    }
  }

  /** Storing the activated generation writes the one entry of the activated Region. */
  lemma GenerationExact(st: Store, s: nat)
    requires Sound(st) && Enabled(st, RotateStore(s))
    ensures var st', q := Do(st, RotateStore(s)), st.m.shards[s].rotation.value;
            && q.activated < |st.generations| && q.activated < |st.m.regions| && q.created == st.m.regions[q.activated].created
            && st' == st.(generations := st.generations[q.activated := q.created])
  {
    assert st in Facets(Shaped) && st in Facets(Authorised);
    ShardOf(st.m, s);
  }

  /** A finished rotation puts the retired Region behind the Sealed ones. */
  lemma RetireExact(st: Store, s: nat)
    requires Sound(st) && Enabled(st, RotateEnd(s))
    ensures var st', q := Do(st, RotateEnd(s)), st.m.shards[s].rotation.value;
            && st' == st.(m := st'.m) && st'.m.sealed == st.m.sealed + [q.outgoing]
            && s < |st'.m.shards| && st'.m.shards[s].rotation.None?
            && st'.m.regions == st.m.regions && st'.m.active == st.m.active && st'.m.free == st.m.free
  {
    assert st in Facets(Authorised);
    ShardOf(st.m, s);
    FinishRotationKeeps(st.m, st.m.shards[s].rotation.value);
  }

  // ----- reclaim -----

  /** A worker pins the oldest Sealed Region exactly while the reserve is short of the shards, and starts
      its scan at the first record. */
  lemma PinExact(st: Store, accepting: bool)
    requires Sound(st)
    ensures var st', m := Do(st, ReclaimPin(accepting)), st.m;
            if |m.free| + |m.reclaiming| < |m.active| && |m.sealed| > 0 && |m.reclaiming| < m.reclaimLimit then
              && m.sealed[0] < |m.regions| && m.sealed[0] !in st.scans
              && var x := m.sealed[0];
              && st' == st.(m := st'.m, scans := st.scans[x := Scan(0, false, accepting, ReinsertBudget(m.regions[x].completed), 0, false)])
              && st'.m.sealed == m.sealed[1..] && st'.m.regions == m.regions && Reclaiming(st'.m, x)
            else st' == st
  {
    assert st in Facets(Authorised);
    ReclaimExact(st.m);
    if st.m.sealed != [] {
      NotYetScanned(st);
    }
    var m' := BeginReclaim(st.m).0;
    if m'.reclaiming != [] {
      assert m'.reclaiming[|m'.reclaiming| - 1] in m'.reclaiming;
    }
  }

  /** Looking at a record moves the scan on, unless it is hot and still mapped: then it is offered. */
  lemma PrepareExact(st: Store, x: nat, hot: bool)
    requires Enabled(st, ScanPrepare(x, hot))
    ensures var st', scan, r := Do(st, ScanPrepare(x, hot)), st.scans[x], st.disk[x][st.scans[x].next];
            && st' == st.(index := st'.index, scans := st'.scans)
            && st'.scans == st.scans[x := if hot && Lookup(st.index, st.token(r.hash)) == Some(r.Where()) then scan.(offered := true)
                                         else scan.(next := scan.next + 1, offered := false)]
  {
  }

  /** An accepted offer stages one copy of the record, last in the lane of shard s, that names the location
      it replaces, and pays for it; a refused one ends reinsertion for this source. */
  lemma OfferExact(st: Store, x: nat, s: nat, bytes: nat)
    requires Sound(st) && Enabled(st, ScanOffer(x, s, bytes))
    ensures Shape(st)
    ensures var st', scan, r := Do(st, ScanOffer(x, s, bytes)), st.scans[x], st.disk[x][st.scans[x].next];
            && st' == st.(m := st'.m, index := st'.index, lanes := st'.lanes, scans := st'.scans)
            && (if Takes(st, s, bytes) then
                  && st'.lanes == st.lanes[s := st.lanes[s].(queue := st.lanes[s].queue + [NextRecord(st, s, r.hash, bytes, Some(r.Where()))])]
                  && st'.index == st.index
                  && st'.scans == st.scans[x := scan.(next := scan.next + 1, offered := false, budget := scan.budget - bytes, spent := scan.spent + bytes)]
                else
                  && st'.lanes == st.lanes && Lookup(st'.index, st.token(r.hash)) != Some(r.Where())
                  && st'.scans == st.scans[x := scan.(next := scan.next + 1, offered := false, accepting := false)])
  {
    var r := st.disk[x][st.scans[x].next];
    StageExact(st, s, r.hash, bytes, Some(r.Where()));
  }

  /** A record that is not offered, or not in time, loses its mapping and the scan moves on. */
  lemma DropExact(st: Store, x: nat)
    requires Enabled(st, ScanDrop(x))
    ensures var st', scan, r := Do(st, ScanDrop(x)), st.scans[x], st.disk[x][st.scans[x].next];
            && st' == st.(index := st'.index, scans := st.scans[x := scan.(next := scan.next + 1, offered := false)])
            && Lookup(st'.index, st.token(r.hash)) != Some(r.Where())
  {
  }

  /** A release withdraws the generation entry of a fully scanned source. */
  lemma ReleaseExact(st: Store, x: nat)
    requires Sound(st) && Enabled(st, ReclaimRelease(x))
    ensures x < |st.generations|
    ensures Do(st, ReclaimRelease(x))
            == st.(generations := st.generations[x := 0], scans := st.scans[x := st.scans[x].(released := true)])
  {
    ScannedRegion(st, x);
    assert st in Facets(Shaped);
  }

  /** A released source becomes the newest Free Region, empty. */
  lemma FreeExact(st: Store, x: nat)
    requires Sound(st) && Enabled(st, ReclaimFree(x))
    ensures var st' := Do(st, ReclaimFree(x));
            && x < |st.disk| && x < |st'.m.regions|
            && st' == st.(m := st'.m, disk := st.disk[x := []], scans := st.scans - {x})
            && st'.m.free == st.m.free + [x] && st'.m.regions[x] == FreeDesc && !Reclaiming(st'.m, x)
  {
    var k := FreeIsEmptied(st, x);
    StillReclaiming(st.m, k, x);
  }
}
