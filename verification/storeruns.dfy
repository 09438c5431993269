/** What the `RegionStore` protocol guarantees over every interleaving of its steps. */
module StoreRuns {
  import opened Machine
  import opened Regions
  import opened Pipelines
  import opened Authority
  import opened Lifecycle
  import opened Runs
  import opened Stores
  import opened StoreSafety
  import opened StoreSteps
  import opened StoreCycle
  import opened StoreReclaim

  /** A store as recovery opens it: nothing staged, nothing pinned, every mapping names a record. */
  lemma Opened(m: Manager, token: nat -> nat, index: map<nat, Location>, disk: seq<seq<Rec>>, generations: seq<nat>)
    requires Valid(m) && m.reclaiming == [] && |disk| == |m.regions| == |generations|
    requires forall s :: 0 <= s < |m.shards| ==> m.shards[s].Quiescent()
    requires forall x :: 0 <= x < |disk| ==> RegionWritten(disk[x], x, m.regions[x]) && generations[x] == m.regions[x].created
    requires forall t :: t in index ==>
               exists k :: index[t].region < |disk| && 0 <= k < |disk[index[t].region]|
                 && disk[index[t].region][k].Where() == index[t] && token(disk[index[t].region][k].hash) == t
    ensures Sound(Store(m, token, index, generations, disk, seq(|m.shards|, _ => Lane([], 0, 0)), map[]))
  {
    var st := Store(m, token, index, generations, disk, seq(|m.shards|, _ => Lane([], 0, 0)), map[]);
    assert m in States(Ranges);
    forall t | t in index ensures Names(st, t, index[t]) {
      var k: nat :| k < |disk[index[t].region]| && disk[index[t].region][k].Where() == index[t]
                    && token(disk[index[t].region][k].hash) == t;
      assert RecordAt(st, t, index[t], k);
    }
    forall x | 0 <= x < |generations| ensures DatedAt(st, x) {
    }
    assert AllLanes(st);
    Whole(st);
  }

  // ----- every step, every run -----

  lemma SoundStep(st: Store, a: Action)
    requires Sound(st) && Enabled(st, a)
    ensures Sound(Do(st, a))
  {
    match a
    case PutValue(s, hash, bytes) => StageStep(st, s, hash, bytes, None);
    case AskRotation(s, bytes) => AskStep(st, s, bytes);
    case SealLane(s) => SealStep(st, s);
    case LandLane(s) => LandStep(st, s);
    case PublishFirst(s, evicted) => PublishStep(st, s, evicted);
    case RotateBegin(s) => StoreCycle.RotateStep(st, s);
    case RotateStore(s) => StoreGeneration(st, s);
    case RotateEnd(s) => EndRotation(st, s);
    case NumberDelete => AllocateStep(st);
    case Delete(hash) => ShrinkStep(st, st.index - {st.token(hash)});
    case ReclaimPin(accepting) => PinStoreStep(st, accepting);
    case ScanPrepare(x, hot) => PrepareStep(st, x, hot);
    case ScanOffer(x, s, bytes) => OfferStep(st, x, s, bytes);
    case ScanDrop(x) => DropStep(st, x, st.scans[x].accepting);
    case ReclaimRelease(x) => ReleaseStoreStep(st, x);
    case ReclaimFree(x) => FreeStoreStep(st, x);
  }

  /** Each action of the run happens when it may. */
  ghost predicate Feasible(st: Store, run: seq<Action>)
    decreases |run|
  {
    run == [] || (Enabled(st, run[0]) && Feasible(Do(st, run[0]), run[1..]))
  }

  ghost function Execute(st: Store, run: seq<Action>): Store
    requires Feasible(st, run)
    decreases |run|
  {
    if run == [] then st else Execute(Do(st, run[0]), run[1..])
  }

  lemma {:induction false} SoundRun(st: Store, run: seq<Action>)
    requires Sound(st) && Feasible(st, run)
    ensures Sound(Execute(st, run))
    decreases |run|
  {
    if run != [] {
      SoundStep(st, run[0]);
      SoundRun(Do(st, run[0]), run[1..]);
    }
  }

  // ----- what the index may name -----

  /** In every reachable state each mapping names a whole record of its own token, written in the
      current generation, inside the completed prefix of a Region that is not Free. */
  lemma {:induction false} MappingSafe(st: Store, run: seq<Action>, t: nat)
    requires Sound(st) && Feasible(st, run) && t in Execute(st, run).index
    ensures var end := Execute(st, run);
            var l := end.index[t];
            && l.region < |end.m.regions| == |end.disk|
            && end.m.regions[l.region].state != Free
            && 0 < l.length && l.offset + l.length <= end.m.regions[l.region].completed
            && exists k :: 0 <= k < |end.disk[l.region]| && end.disk[l.region][k].Where() == l
                 && end.token(end.disk[l.region][k].hash) == t
                 && end.disk[l.region][k].generation == end.m.regions[l.region].created
  {
    SoundRun(st, run);
    var end := Execute(st, run);
    MappingNow(end, t);
  }

  lemma MappingNow(st: Store, t: nat)
    requires Sound(st) && t in st.index
    ensures var l := st.index[t];
            && l.region < |st.m.regions| == |st.disk|
            && st.m.regions[l.region].state != Free
            && 0 < l.length && l.offset + l.length <= st.m.regions[l.region].completed
            && exists k :: 0 <= k < |st.disk[l.region]| && st.disk[l.region][k].Where() == l
                 && st.token(st.disk[l.region][k].hash) == t
                 && st.disk[l.region][k].generation == st.m.regions[l.region].created
  {
    var l := st.index[t];
    assert st in Facets(Indexed) && st in Facets(Written) && st in Facets(Authorised);
    assert Names(st, t, l);
    var k: nat :| RecordAt(st, t, l, k);
    var d := st.m.regions[l.region];
    TileAt(st.disk[l.region], l.region, d.created, 0, d.completed, k);
    if d.state == Free {
      OwnershipPartition(st.m, l.region);
      var i: nat :| i < |st.m.free| && st.m.free[i] == l.region;
      FreeIs(st.m, i);
    }
  }

  /** When a Region becomes Free the receipt is accepted, and no mapping names the Region any more. */
  lemma {:induction false} FreedUnnamed(st: Store, run: seq<Action>, x: nat, t: nat)
    requires Sound(st) && Feasible(st, run) && Enabled(Execute(st, run), ReclaimFree(x))
    ensures var end := Do(Execute(st, run), ReclaimFree(x));
            && x < |end.m.regions| == |end.generations| && end.m.regions[x] == FreeDesc && end.generations[x] == 0
            && x !in end.scans
            && (t in end.index ==> end.index[t].region != x)
  {
    SoundRun(st, run);
    var before := Execute(st, run);
    var k := FreeIsEmptied(before, x);
    assert before in Facets(Dated);
    assert DatedAt(before, x);
    if t in before.index {
      ReleasedUnnamed(before, x, t);
    }
  }

  /** The generation table entry is 0 or the Region's current generation; it is 0 for a Free Region. */
  lemma {:induction false} GenerationCurrent(st: Store, run: seq<Action>, x: nat)
    requires Sound(st) && Feasible(st, run) && x < |Execute(st, run).generations|
    ensures var end := Execute(st, run);
            && |end.generations| == |end.m.regions|
            && end.generations[x] in {0, end.m.regions[x].created}
            && (end.m.regions[x].state == Free ==> end.generations[x] == 0)
  {
    SoundRun(st, run);
    var end := Execute(st, run);
    assert end in Facets(Dated) && end in Facets(Authorised);
    assert DatedAt(end, x);
    OwnershipPartition(end.m, x);
    if end.m.regions[x].state == Free {
      var i: nat :| i < |end.m.free| && end.m.free[i] == x;
      FreeIs(end.m, i);
    }
  }

  // ----- point reads -----

  /** What a step may do to Region x: extend its records within one generation, free it, or open a newer
      generation. */
  ghost predicate Ages(st: Store, st': Store, x: nat) {
    && |st'.disk| == |st.disk| && |st'.m.regions| == |st.m.regions| && st.m.nextSeqno <= st'.m.nextSeqno
    && (x < |st.m.regions| && x < |st.disk| ==>
          || (st'.m.regions[x].created == st.m.regions[x].created && st.disk[x] <= st'.disk[x])
          || st'.m.regions[x].created == 0
          || st'.m.regions[x].created >= st.m.nextSeqno)
  }

  lemma ManagerAges(st: Store, op: Op, x: nat)
    requires Sound(st)
    ensures Ages(st, st.(m := Step(st.m, op)), x)
  {
    assert st in Facets(Authorised);
    StepEvolves(st.m, op);
    assert x < |st.m.regions| ==> RegionEvolves(st.m.regions[x], Step(st.m, op).regions[x], st.m.nextSeqno);
  }

  lemma StageAges(st: Store, s: nat, hash: nat, bytes: nat, previous: Option<Location>, x: nat)
    requires Sound(st) && s < |st.lanes|
    ensures Ages(st, StageInto(st, s, hash, bytes, previous).0, x)
  {
    assert st in Facets(Authorised) && st in Facets(Shaped);
    if ReserveAppend(st.m, s, bytes).1.Ok? {
      StagedManager(st.m, s, bytes);
    } else {
      ReserveShape(st.m, s, bytes);
    }
  }

  lemma SealAges(st: Store, s: nat, x: nat)
    requires Sound(st) && Enabled(st, SealLane(s))
    ensures Ages(st, Sealing(st, s), x)
  {
    assert st in Facets(Authorised) && st in Facets(Shaped);
    if ReserveWritePadding(st.m, s).1.Ok? {
      SealingIs(st, s);
    } else {
      PadKeeps(st.m, s);
    }
  }

  lemma LandAges(st: Store, s: nat, x: nat)
    requires Sound(st) && Enabled(st, LandLane(s))
    ensures Ages(st, Landing(st, s), x)
  {
    LaneOf(st, s);
    CompleteKeeps(st.m, st.m.shards[s].submitted.value);
  }

  lemma RotateAges(st: Store, s: nat, x: nat)
    requires Sound(st)
    ensures Ages(st, Rotating(st, s), x)
  {
    if SelectRotation(st.m, s).Ok? {
      ManagerAges(st, Begin(SelectRotation(st.m, s).value), x);
    }
  }

  lemma FreeAges(st: Store, y: nat, x: nat)
    requires Sound(st) && Enabled(st, ReclaimFree(y))
    ensures Ages(st, Freeing(st, y), x)
  {
    var k := FreeIsEmptied(st, y);
  }

  /** Steps of the index, the scans and the generation table alone. */
  lemma StillAges(st: Store, a: Action, x: nat)
    requires Enabled(st, a)
    requires a.PublishFirst? || a.RotateStore? || a.Delete? || a.ScanPrepare? || a.ScanDrop? || a.ReclaimRelease?
    ensures Ages(st, Do(st, a), x)
  {
  }

  /** Steps that only call the manager. */
  lemma CallAges(st: Store, a: Action, x: nat)
    requires Sound(st) && Enabled(st, a) && (a.AskRotation? || a.RotateEnd? || a.NumberDelete? || a.ReclaimPin?)
    ensures Ages(st, Do(st, a), x)
  {
    match a
    case AskRotation(s, bytes) => ManagerAges(st, RequestRotation(s, bytes), x);
    case RotateEnd(s) => ManagerAges(st, Finish(st.m.shards[s].rotation.value), x);
    case NumberDelete => ManagerAges(st, Allocate, x);
    case ReclaimPin(_) => ManagerAges(st, Pin, x);
  }

  lemma StepAges(st: Store, a: Action, x: nat)
    requires Sound(st) && Enabled(st, a)
    ensures Ages(st, Do(st, a), x)
  {
    match a
    case PutValue(s, hash, bytes) => StageAges(st, s, hash, bytes, None, x);
    case SealLane(s) => SealAges(st, s, x);
    case LandLane(s) => LandAges(st, s, x);
    case RotateBegin(s) => RotateAges(st, s, x);
    case ScanOffer(y, s, bytes) => OfferAges(st, y, s, bytes, x);
    case ReclaimFree(y) => FreeAges(st, y, x);
    case AskRotation(_, _) => CallAges(st, a, x);
    case RotateEnd(_) => CallAges(st, a, x);
    case NumberDelete => CallAges(st, a, x);
    case ReclaimPin(_) => CallAges(st, a, x);
    case PublishFirst(_, _) => StillAges(st, a, x);
    case RotateStore(_) => StillAges(st, a, x);
    case Delete(_) => StillAges(st, a, x);
    case ScanPrepare(_, _) => StillAges(st, a, x);
    case ScanDrop(_) => StillAges(st, a, x);
    case ReclaimRelease(_) => StillAges(st, a, x);
  }

  lemma OfferAges(st: Store, y: nat, s: nat, bytes: nat, x: nat)
    requires Sound(st) && Enabled(st, ScanOffer(y, s, bytes))
    ensures Ages(st, Offering(st, y, s, bytes), x)
  {
    var r := st.disk[y][st.scans[y].next];
    StageAges(st, s, r.hash, bytes, Some(r.Where()), x);
    StageFrame(st, s, r.hash, bytes, Some(r.Where()));
  }

  lemma {:induction false} RunAges(st: Store, run: seq<Action>, x: nat)
    requires Sound(st) && Feasible(st, run)
    ensures Ages(st, Execute(st, run), x)
    decreases |run|
  {
    if run != [] {
      var st' := Do(st, run[0]);
      SoundStep(st, run[0]);
      StepAges(st, run[0], x);
      RunAges(st', run[1..], x);
    }
  }

  lemma CreatedBefore(st: Store, x: nat)
    requires Sound(st) && x < |st.m.regions|
    ensures st.m.regions[x].created < st.m.nextSeqno
  {
    assert st in Facets(Authorised);
    assert st.m in States(Sizes) && st.m in States(Queued) && st.m in States(Ranges);
    OwnershipPartition(st.m, x);
    if x in st.m.active {
      var s: nat :| s < |st.m.active| && st.m.active[s] == x;
      ShardOf(st.m, s);
    } else if Reclaiming(st.m, x) {
      var k :| 0 <= k < |st.m.reclaiming| && st.m.reclaiming[k].region == x;
      assert ReclaimOk(st.m, st.m.reclaiming[k]);
    }
  }

  /** The two halves of a point read, at any distance in time: an index probe that finds l, and a later
      load g of the generation entry of its Region.  A nonzero g is the generation of the record at l,
      which is then still in place, or it is strictly newer, and the identity check after the read tells
      the two apart. */
  lemma {:induction false} ReadCandidate(st: Store, run: seq<Action>, hash: nat)
    requires Sound(st) && Feasible(st, run) && st.token(hash) in st.index
    requires var x := st.index[st.token(hash)].region;
             x < |Execute(st, run).generations| && Execute(st, run).generations[x] != 0
    ensures var l, end := st.index[st.token(hash)], Execute(st, run);
            var g := end.generations[l.region];
            && l.region < |st.disk| == |end.disk|
            && exists k :: 0 <= k < |st.disk[l.region]| && st.disk[l.region][k].Where() == l
                 && st.token(st.disk[l.region][k].hash) == st.token(hash)
                 && (|| (g == st.disk[l.region][k].generation && k < |end.disk[l.region]| && end.disk[l.region][k] == st.disk[l.region][k])
                     || g > st.disk[l.region][k].generation)
  {
    var t := st.token(hash);
    var l, end := st.index[t], Execute(st, run);
    MappingNow(st, t);
    GenerationCurrent(st, run, l.region);
    RunAges(st, run, l.region);
    CreatedBefore(st, l.region);
    var k :| 0 <= k < |st.disk[l.region]| && st.disk[l.region][k].Where() == l && st.token(st.disk[l.region][k].hash) == t
             && st.disk[l.region][k].generation == st.m.regions[l.region].created;
  }

  /** Contiguous records have different offsets. */
  lemma {:induction false} TileApart(q: seq<Rec>, x: nat, g: nat, start: nat, end: nat, j: nat, k: nat)
    requires Tile(q, x, g, start, end) && j < k < |q|
    ensures q[j].offset < q[k].offset
    decreases |q|
  {
    var n := |q| - 1;
    if k < n {
      TileApart(q[..n], x, g, start, q[n].offset, j, k);
    } else {
      TileAt(q[..n], x, g, start, q[n].offset, j);
    }
  }

  /** Every record on disk is of its Region's generation, and offsets tell them apart. */
  lemma OnDisk(st: Store, x: nat)
    requires Sound(st) && x < |st.disk|
    ensures |st.m.regions| == |st.disk|
    ensures forall k :: 0 <= k < |st.disk[x]| ==> st.disk[x][k].generation == st.m.regions[x].created
    ensures forall j, k :: 0 <= j < |st.disk[x]| && 0 <= k < |st.disk[x]| && st.disk[x][j].offset == st.disk[x][k].offset ==> j == k
  {
    assert st in Facets(Written);
    var q, d := st.disk[x], st.m.regions[x];
    assert RegionWritten(q, x, d);
    forall k | 0 <= k < |q| ensures q[k].generation == d.created {
      TileAt(q, x, d.created, 0, d.completed, k);
    }
    forall j, k | 0 <= j < |q| && 0 <= k < |q| && q[j].offset == q[k].offset ensures j == k {
      if j < k {
        TileApart(q, x, d.created, 0, d.completed, j, k);
      } else if k < j {
        TileApart(q, x, d.created, 0, d.completed, k, j);
      }
    }
  }

  /** A record of the generation g that was current in `mid` keeps its place as long as anything of that
      generation is on disk. */
  lemma {:induction false} StaysInPlace(mid: Store, later: seq<Action>, x: nat, k: nat, j: nat)
    requires Sound(mid) && Feasible(mid, later) && x < |mid.disk| && k < |mid.disk[x]|
    requires x < |Execute(mid, later).disk| && j < |Execute(mid, later).disk[x]|
    requires var r := Execute(mid, later).disk[x][j];
             r.generation == mid.disk[x][k].generation && r.offset == mid.disk[x][k].offset && r.generation != 0
    ensures Execute(mid, later).disk[x][j] == mid.disk[x][k]
  {
    SoundRun(mid, later);
    OnDisk(mid, x);
    OnDisk(Execute(mid, later), x);
    RunAges(mid, later, x);
    CreatedBefore(mid, x);
  }

  /** The whole point read at any distances in time: the probe finds l, a later load gives g, and the
      device read comes later still.  A record that is then at l's offset with generation g, and so passes
      the identity check, is the record the probe found exactly if g was that record's generation; a newer
      g never accepts it. */
  lemma {:induction false} ReadRecord(st: Store, run: seq<Action>, later: seq<Action>, hash: nat)
    requires Sound(st) && Feasible(st, run) && Feasible(Execute(st, run), later) && st.token(hash) in st.index
    requires var x := st.index[st.token(hash)].region;
             x < |Execute(st, run).generations| && Execute(st, run).generations[x] != 0
    ensures var l, mid := st.index[st.token(hash)], Execute(st, run);
            var g, end := mid.generations[l.region], Execute(mid, later);
            && l.region < |st.disk| == |end.disk|
            && exists k :: 0 <= k < |st.disk[l.region]| && st.disk[l.region][k].Where() == l
                 && st.token(st.disk[l.region][k].hash) == st.token(hash) && st.disk[l.region][k].generation <= g
                 && forall j :: 0 <= j < |end.disk[l.region]| && end.disk[l.region][j].generation == g && end.disk[l.region][j].offset == l.offset ==>
                      (end.disk[l.region][j] == st.disk[l.region][k] <==> g == st.disk[l.region][k].generation)
  {
    ReadCandidate(st, run, hash);
    SoundRun(st, run);
    var l, mid := st.index[st.token(hash)], Execute(st, run);
    var x, g := l.region, mid.generations[l.region];
    var end := Execute(mid, later);
    RunAges(mid, later, x);
    var k :| 0 <= k < |st.disk[x]| && st.disk[x][k].Where() == l && st.token(st.disk[x][k].hash) == st.token(hash)
             && (|| (g == st.disk[x][k].generation && k < |mid.disk[x]| && mid.disk[x][k] == st.disk[x][k])
                 || g > st.disk[x][k].generation);
    forall j | 0 <= j < |end.disk[x]| && end.disk[x][j].generation == g && end.disk[x][j].offset == l.offset
      ensures end.disk[x][j] == st.disk[x][k] <==> g == st.disk[x][k].generation
    {
      if g == st.disk[x][k].generation {
        StaysInPlace(mid, later, x, k, j);
      }
    }
  }

  // ----- reinsertion -----

  /** Publishing a reinsertion moves one mapping at most: its own, and only from the location it was
      copied from, which is still pinned. */
  lemma ReinsertExact(st: Store, s: nat, evicted: Option<nat>)
    requires Sound(st) && Enabled(st, PublishFirst(s, evicted)) && st.lanes[s].queue != []
    requires st.lanes[s].queue[0].previous.Some?
    ensures var r := st.lanes[s].queue[0];
            var l, u, st' := r.previous.value, st.token(r.hash), Do(st, PublishFirst(s, evicted));
            && l.region in st.scans && !st.scans[l.region].released
            && r.region !in st.scans
            && (forall t :: t != u ==> Lookup(st'.index, t) == Lookup(st.index, t))
            && Lookup(st'.index, u) == if Lookup(st.index, u) == Some(l) then Some(r.Where()) else Lookup(st.index, u)
  {
    var r := st.lanes[s].queue[0];
    assert st in Facets(Held);
    assert SourceHeld(st.scans, r);
    PublishedWhere(st, s);
  }

  /** Publishing a value makes its token name the new record; at most one other mapping is pushed out. */
  lemma ValuePublished(st: Store, s: nat, evicted: Option<nat>)
    requires Sound(st) && Enabled(st, PublishFirst(s, evicted)) && st.lanes[s].queue != []
    requires st.lanes[s].queue[0].previous.None?
    ensures var r := st.lanes[s].queue[0];
            var u, st' := st.token(r.hash), Do(st, PublishFirst(s, evicted));
            && Lookup(st'.index, u) == Some(r.Where()) && st.m.regions == st'.m.regions
            && r.region < |st.m.regions| && r.offset + r.length <= st.m.regions[r.region].completed
            && (forall t :: t != u && evicted != Some(t) ==> Lookup(st'.index, t) == Lookup(st.index, t))
  {
    SoundStep(st, PublishFirst(s, evicted));
    var r := st.lanes[s].queue[0];
    MappingNow(Do(st, PublishFirst(s, evicted)), st.token(r.hash));
  }

  /** A reclaim scan touches one token at most, and only to remove a mapping that still names the record
      it is looking at.  A cold or refused record is unmapped, a hot one keeps its mapping while it is
      offered and after it is accepted. */
  lemma ScanExact(st: Store, a: Action)
    requires Enabled(st, a) && (a.ScanPrepare? || a.ScanOffer? || a.ScanDrop?)
    ensures var r := st.disk[a.x][st.scans[a.x].next];
            var u, st' := st.token(r.hash), Do(st, a);
            && (forall t :: t != u ==> Lookup(st'.index, t) == Lookup(st.index, t))
            && (Lookup(st.index, u) != Some(r.Where()) ==> st'.index == st.index)
            && (Lookup(st.index, u) == Some(r.Where()) ==>
                  Lookup(st'.index, u) == if Keeps(st, a) then Some(r.Where()) else None)
  {
    if a.ScanOffer? {
      var r := st.disk[a.x][st.scans[a.x].next];
      StageFrame(st, a.s, r.hash, a.bytes, Some(r.Where()));
    }
  }

  /** The scan step leaves the record's mapping in place. */
  predicate Keeps(st: Store, a: Action) {
    match a
    case ScanPrepare(_, hot) => hot
    case ScanOffer(_, s, bytes) => ReserveAppend(st.m, s, bytes).1.Ok?
    case _ => false
  }

  /** A record awaiting publication lies in an Active Region. */
  lemma PublishedWhere(st: Store, s: nat)
    requires Sound(st) && s < |st.lanes| && st.lanes[s].landed > 0
    ensures st.lanes[s].queue != [] && st.lanes[s].queue[0].region !in st.scans
  {
    LaneOf(st, s);
    var r, x := st.lanes[s].queue[0], st.m.active[s];
    assert r in st.disk[x] && x in st.m.active;
    var k: nat :| k < |st.disk[x]| && st.disk[x][k] == r;
    TileAt(st.disk[x], x, st.m.regions[x].created, 0, st.m.regions[x].completed, k);
    if x in st.scans {
      ScannedRegion(st, x);
    }
  }

  /** Region x stays pinned during the whole run. */
  ghost predicate PinnedThrough(st: Store, run: seq<Action>, x: nat)
    decreases |run|
  {
    x in st.scans && (run == [] || (Enabled(st, run[0]) && PinnedThrough(Do(st, run[0]), run[1..], x)))
  }

  lemma NeverNamesAgain(st: Store, a: Action, t: nat, l: Location)
    requires Sound(st) && Enabled(st, a) && l.region in st.scans && Lookup(st.index, t) != Some(l)
    ensures Lookup(Do(st, a).index, t) != Some(l)
  {
    match a
    case PublishFirst(s, evicted) => PublishedWhere(st, s);
    case PutValue(s, hash, bytes) => StageFrame(st, s, hash, bytes, None);
    case ScanOffer(x, s, bytes) =>
      var r := st.disk[x][st.scans[x].next];
      StageFrame(st, s, r.hash, bytes, Some(r.Where()));
    case _ =>
  }

  /** While a source is pinned, a mapping that has moved away from one of its records, by a newer put
      or a delete, never names that record again; so no reinsertion of it can take effect. */
  lemma {:induction false} MovedAwayForGood(st: Store, run: seq<Action>, t: nat, l: Location)
    requires Sound(st) && Feasible(st, run) && PinnedThrough(st, run, l.region)
    requires Lookup(st.index, t) != Some(l)
    ensures Lookup(Execute(st, run).index, t) != Some(l)
    decreases |run|
  {
    if run != [] {
      SoundStep(st, run[0]);
      NeverNamesAgain(st, run[0], t, l);
      MovedAwayForGood(Do(st, run[0]), run[1..], t, l);
    }
  }

  /** The action publishes a value, not a reinsertion, for token t. */
  ghost predicate PublishesValue(st: Store, a: Action, t: nat) {
    a.PublishFirst? && a.s < |st.lanes| && st.lanes[a.s].queue != []
    && st.lanes[a.s].queue[0].previous.None? && st.token(st.lanes[a.s].queue[0].hash) == t
  }

  ghost predicate NoValue(st: Store, run: seq<Action>, t: nat)
    requires Feasible(st, run)
    decreases |run|
  {
    run == [] || (!PublishesValue(st, run[0], t) && NoValue(Do(st, run[0]), run[1..], t))
  }

  lemma AbsentStep(st: Store, a: Action, t: nat)
    requires Enabled(st, a) && t !in st.index && !PublishesValue(st, a, t)
    ensures t !in Do(st, a).index && Do(st, a).token == st.token
  {
    match a
    case PutValue(s, hash, bytes) => StageFrame(st, s, hash, bytes, None);
    case ScanOffer(x, s, bytes) =>
      var r := st.disk[x][st.scans[x].next];
      StageFrame(st, s, r.hash, bytes, Some(r.Where()));
    case _ =>
  }

  /** A deleted key stays absent through any run until a value of that token is published: staged
      reinsertions never resurrect it. */
  lemma {:induction false} NoResurrection(st: Store, run: seq<Action>, t: nat)
    requires Feasible(st, run) && t !in st.index && NoValue(st, run, t)
    ensures t !in Execute(st, run).index
    decreases |run|
  {
    if run != [] {
      AbsentStep(st, run[0], t);
      NoResurrection(Do(st, run[0]), run[1..], t);
    }
  }

  // ----- the scan -----

  /** A finished scan has seen exactly the records its receipt promises. */
  lemma {:induction false} ScanCounts(st: Store, run: seq<Action>, x: nat)
    requires Sound(st) && Feasible(st, run) && Enabled(Execute(st, run), ReclaimRelease(x))
    ensures var end := Execute(st, run);
            && PinOf(end.m, x).Some?
            && end.scans[x].next == PinOf(end.m, x).value.records
  {
    SoundRun(st, run);
    var end := Execute(st, run);
    PinFacts(end, x);
  }

  lemma PinFacts(st: Store, x: nat)
    requires Sound(st) && x in st.scans
    ensures x < |st.disk| && x < |st.m.regions| && PinOf(st.m, x).Some?
    ensures var c, d := PinOf(st.m, x).value, st.m.regions[x];
            && c == Reclaim(x, d.created, d.completed, d.records)
            && RegionWritten(st.disk[x], x, d)
  {
    assert st in Facets(Written) && st in Facets(Authorised);
    ScannedRegion(st, x);
    var c := PinOf(st.m, x).value;
    var k: nat :| k < |st.m.reclaiming| && st.m.reclaiming[k] == c;
    PinnedIs(st.m, k);
  }

  /** The record under a scan follows its predecessor, lies within the sealed prefix and carries the
      receipt's generation, so none of the scan's format errors can occur. */
  lemma {:induction false} ScanRecordValid(st: Store, run: seq<Action>, x: nat)
    requires Sound(st) && Feasible(st, run) && AtRecord(Execute(st, run), x)
    ensures var end := Execute(st, run);
            PinOf(end.m, x).Some?
    ensures var end := Execute(st, run);
            var c, k := PinOf(end.m, x).value, end.scans[x].next;
            var r := end.disk[x][k];
            && r.region == x && r.generation == c.created && 0 < r.length && r.offset + r.length <= c.used
            && r.offset == (if k == 0 then 0 else end.disk[x][k - 1].offset + end.disk[x][k - 1].length)
            && (k + 1 == |end.disk[x]| ==> r.offset + r.length == c.used)
  {
    SoundRun(st, run);
    var end := Execute(st, run);
    PinFacts(end, x);
    var d := end.m.regions[x];
    TileAt(end.disk[x], x, d.created, 0, d.completed, end.scans[x].next);
    TileNext(end.disk[x], x, d.created, 0, d.completed, end.scans[x].next);
  }

  lemma {:induction false} TileNext(q: seq<Rec>, x: nat, g: nat, start: nat, end: nat, k: nat)
    requires Tile(q, x, g, start, end) && k < |q|
    ensures q[k].offset == if k == 0 then start else q[k - 1].offset + q[k - 1].length
    ensures k + 1 == |q| ==> q[k].offset + q[k].length == end
    decreases |q|
  {
    var n := |q| - 1;
    if k < n {
      TileNext(q[..n], x, g, start, q[n].offset, k);
    } else if k > 0 {
      TileNext(q[..n], x, g, start, q[n].offset, n - 1);
    }
  }

  // ----- the reinsertion budget -----

  /** Bytes of the records of source x that the sink accepts during a run. */
  ghost function AcceptedBytes(st: Store, run: seq<Action>, x: nat): nat
    requires Feasible(st, run)
    decreases |run|
  {
    if run == [] then 0
    else
      var a := run[0];
      (if a.ScanOffer? && a.x == x && ReserveAppend(st.m, a.s, a.bytes).1.Ok? then a.bytes else 0)
        + AcceptedBytes(Do(st, a), run[1..], x)
  }

  lemma SpentStep(st: Store, a: Action, x: nat)
    requires Sound(st) && Enabled(st, a) && x in st.scans && x in Do(st, a).scans
    ensures Do(st, a).scans[x].spent == st.scans[x].spent +
              if a.ScanOffer? && a.x == x && ReserveAppend(st.m, a.s, a.bytes).1.Ok? then a.bytes else 0
  {
    match a
    case PutValue(s, hash, bytes) => StageFrame(st, s, hash, bytes, None);
    case ReclaimPin(accepting) => SpentPin(st, accepting, x);
    case ScanOffer(y, s, bytes) =>
      var r := st.disk[y][st.scans[y].next];
      StageFrame(st, s, r.hash, bytes, Some(r.Where()));
    case _ =>
  }

  /** Pinning starts the count of another source. */
  lemma SpentPin(st: Store, accepting: bool, x: nat)
    requires Sound(st) && x in st.scans && Enabled(st, ReclaimPin(accepting))
    ensures x in Do(st, ReclaimPin(accepting)).scans && Do(st, ReclaimPin(accepting)).scans[x].spent == st.scans[x].spent
  {
    assert st in Facets(Authorised);
    BeginReclaimKeeps(st.m);
    if ReclaimNeeded(st.m) {
      NotYetScanned(st);
    }
  }

  lemma {:induction false} SpentRun(st: Store, run: seq<Action>, x: nat)
    requires Sound(st) && Feasible(st, run) && PinnedThrough(st, run, x)
    ensures x in Execute(st, run).scans
    ensures Execute(st, run).scans[x].spent == st.scans[x].spent + AcceptedBytes(st, run, x)
    decreases |run|
  {
    if run != [] {
      SoundStep(st, run[0]);
      SpentStep(st, run[0], x);
      SpentRun(Do(st, run[0]), run[1..], x);
    }
  }

  /** The budget is whole records, and it is within one record of an eighth of the source less one I/O block;
      a source too short for that has none. */
  lemma BudgetExact(used: nat)
    ensures ReinsertBudget(used) % 32 == 0
    ensures used / 8 >= 4096 ==> used / 8 - 4096 - 32 < ReinsertBudget(used) <= used / 8 - 4096
    ensures used / 8 < 4096 ==> ReinsertBudget(used) == 0
  {
    var raw := SaturatingSub(used / 8, DIRECT_IO_ALIGNMENT);
    assert raw - raw % 32 == 32 * (raw / 32);
  }

  /** Between pinning a source and releasing it, the accepted replacements never exceed the aligned
      one-eighth budget of its sealed prefix. */
  lemma {:induction false} ReinsertBounded(st: Store, run: seq<Action>, x: nat)
    requires Sound(st) && Feasible(st, run) && PinnedThrough(st, run, x) && st.scans[x].spent == 0
    ensures PinOf(Execute(st, run).m, x).Some?
    ensures var used := PinOf(Execute(st, run).m, x).value.used;
            AcceptedBytes(st, run, x) <= ReinsertBudget(used) <= used / 8
  {
    SoundRun(st, run);
    SpentRun(st, run, x);
    var end := Execute(st, run);
    PinFacts(end, x);
    ScannedRegion(end, x);
    BudgetExact(end.m.regions[x].completed);
  }
}
