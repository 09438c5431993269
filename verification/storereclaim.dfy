/** Reclaim scans, and the store invariant over every run of the protocol. */
module StoreReclaim {
  import opened Machine
  import opened Regions
  import opened Pipelines
  import opened Authority
  import opened Lifecycle
  import opened Runs
  import opened Stores
  import opened StoreSafety
  import opened StoreSteps
  import opened StoreCycle

  // ----- scanning -----

  /** A scan may move past its record only when the index no longer needs it. */
  ghost predicate ScanMove(st: Store, x: nat, scan: Scan) {
    && Sound(st) && x in st.scans && x < |st.disk| && x < |st.m.regions|
    && !st.scans[x].released && !scan.released
    && ScanOk(scan, |st.disk[x]|, st.m.regions[x].completed)
    && (scan.next == st.scans[x].next || (scan.next == st.scans[x].next + 1 && Settled(st, x)))
  }

  ghost predicate Settled(st: Store, x: nat) {
    AtRecord(st, x) ==>
      var r := st.disk[x][st.scans[x].next];
      Lookup(st.index, st.token(r.hash)) == Some(r.Where()) ==> Promise(st.lanes, st.token, st.token(r.hash), r.Where())
  }

  lemma ScanIndex(st: Store, x: nat, scan: Scan)
    requires ScanMove(st, x, scan)
    ensures st.(scans := st.scans[x := scan]) in Facets(Indexed)
  {
    var st' := st.(scans := st.scans[x := scan]);
    assert st in Facets(Indexed);
    forall t | t in st'.index ensures Names(st', t, st'.index[t]) {
      var l := st.index[t];
      assert Names(st, t, l);
      var k: nat :| RecordAt(st, t, l, k);
      assert RecordAt(st', t, l, k);
    }
  }

  lemma ScanStep(st: Store, x: nat, scan: Scan)
    requires ScanMove(st, x, scan)
    ensures Sound(st.(scans := st.scans[x := scan]))
  {
    var st' := st.(scans := st.scans[x := scan]);
    ScanIndex(st, x, scan);
    ScanRest(st, x, scan);
    Whole(st');
  }

  lemma ScanRest(st: Store, x: nat, scan: Scan)
    requires ScanMove(st, x, scan)
    ensures var st' := st.(scans := st.scans[x := scan]);
            && st' in Facets(Authorised) && st' in Facets(Shaped) && st' in Facets(Written) && st' in Facets(Laned)
            && st' in Facets(Scanned) && st' in Facets(Held) && st' in Facets(Dated)
  {
    var st' := st.(scans := st.scans[x := scan]);
    assert st in Facets(Authorised) && st in Facets(Written) && st in Facets(Laned);
    assert st in Facets(Scanned) && st in Facets(Held) && st in Facets(Dated);
    forall s, i | 0 <= s < |st'.lanes| && 0 <= i < |st'.lanes[s].queue|
      ensures SourceHeld(st'.scans, st'.lanes[s].queue[i])
    {
      assert SourceHeld(st.scans, st.lanes[s].queue[i]);
    }
    forall y | 0 <= y < |st.generations| ensures DatedAt(st', y) {
      assert DatedAt(st, y);
    }
  }

  lemma PrepareStep(st: Store, x: nat, hot: bool)
    requires Sound(st) && Enabled(st, ScanPrepare(x, hot))
    ensures Sound(Preparing(st, x, hot))
  {
    ScannedRegion(st, x);
    var r, scan := st.disk[x][st.scans[x].next], st.scans[x];
    var t := st.token(r.hash);
    if Lookup(st.index, t) != Some(r.Where()) {
      ScanStep(st, x, Advance(scan));
    } else if hot {
      ScanStep(st, x, scan.(offered := true));
    } else {
      ShrinkStep(st, st.index - {t});
      ScanStep(st.(index := st.index - {t}), x, Advance(scan));
    }
  }

  lemma DropStep(st: Store, x: nat, accepting: bool)
    requires Sound(st) && AtRecord(st, x)
    ensures Sound(Dropping(st, x, accepting))
  {
    ScannedRegion(st, x);
    var r, scan := st.disk[x][st.scans[x].next], st.scans[x];
    var index := RemoveIfMatch(st.index, st.token(r.hash), r.Where());
    ShrinkStep(st, index);
    ScanStep(st.(index := index), x, Advance(scan).(accepting := accepting));
  }

  /** Staging never touches scans, written records or the index. */
  lemma StageFrame(st: Store, s: nat, hash: nat, bytes: nat, previous: Option<Location>)
    requires s < |st.lanes|
    ensures var (st', staged) := StageInto(st, s, hash, bytes, previous);
            && st'.scans == st.scans && st'.disk == st.disk && st'.index == st.index && st'.token == st.token
            && st'.generations == st.generations
            && (staged && previous.Some? ==> Promise(st'.lanes, st.token, st.token(hash), previous.value))
  {
    var (st', staged) := StageInto(st, s, hash, bytes, previous);
    if staged && previous.Some? {
      var q := st'.lanes[s].queue;
      assert Replaces(q[|q| - 1], st.token, st.token(hash), previous.value);
    }
  }

  /** Staging the copy of a scanned record keeps the invariant. */
  lemma OfferStaged(st: Store, x: nat, s: nat, bytes: nat)
    requires Sound(st) && Enabled(st, ScanOffer(x, s, bytes))
    ensures s < |st.lanes| && x < |st.disk| && st.scans[x].next < |st.disk[x]|
    ensures Sound(StageInto(st, s, st.disk[x][st.scans[x].next].hash, bytes, Some(st.disk[x][st.scans[x].next].Where())).0)
  {
    ScannedRegion(st, x);
    var r, scan := st.disk[x][st.scans[x].next], st.scans[x];
    LaneOf(st, s);
    TileAt(st.disk[x], x, st.m.regions[x].created, 0, st.m.regions[x].completed, scan.next) by {
      assert st in Facets(Written);
    }
    StageStep(st, s, r.hash, bytes, Some(r.Where()));
  }

  lemma OfferStep(st: Store, x: nat, s: nat, bytes: nat)
    requires Sound(st) && Enabled(st, ScanOffer(x, s, bytes))
    ensures Sound(Offering(st, x, s, bytes))
  {
    OfferStaged(st, x, s, bytes);
    var r, scan := st.disk[x][st.scans[x].next], st.scans[x];
    StageFrame(st, s, r.hash, bytes, Some(r.Where()));
    var (st', staged) := StageInto(st, s, r.hash, bytes, Some(r.Where()));
    if staged {
      ScannedRegion(st', x);
      ScanStep(st', x, Advance(scan).(budget := scan.budget - bytes, spent := scan.spent + bytes));
    } else {
      DropStep(st', x, false);
    }
  }

  // ----- pinning and releasing -----

  lemma PinStoreStep(st: Store, accepting: bool)
    requires Sound(st)
    ensures Sound(Pinning(st, accepting))
  {
    assert st in Facets(Authorised);
    BeginReclaimKeeps(st.m);
    if ReclaimNeeded(st.m) {
      PinnedStore(st, accepting);
    } else {
      assert Pinning(st, accepting) == st;
    }
  }

  function Watched(st: Store, accepting: bool): Store
    requires st.m.sealed != [] && st.m.sealed[0] < |st.m.regions|
  {
    var x := st.m.sealed[0];
    st.(m := Pinned(st.m),
        scans := st.scans[x := Scan(0, false, accepting, ReinsertBudget(st.m.regions[x].completed), 0, false)])
  }

  lemma PinnedStore(st: Store, accepting: bool)
    requires Sound(st) && Valid(st.m) && ReclaimNeeded(st.m) && Valid(BeginReclaim(st.m).0)
    requires st.m.sealed[0] < |st.m.regions| && BeginReclaim(st.m).0 == Pinned(st.m) && BeginReclaim(st.m).1.Ok?
    ensures Sound(Pinning(st, accepting))
  {
    SealedIs(st.m, 0);
    var st' := Watched(st, accepting);
    assert Pinning(st, accepting) == st';
    NotYetScanned(st);
    WatchedScans(st, accepting);
    WatchedRest(st, accepting);
    Whole(st');
  }

  lemma NotYetScanned(st: Store)
    requires Sound(st) && st.m.sealed != []
    ensures st.m.sealed[0] !in st.scans
  {
    var x := st.m.sealed[0];
    assert st in Facets(Authorised);
    SealedIs(st.m, 0);
    OwnershipPartition(st.m, x);
    if x in st.scans {
      ScannedRegion(st, x);
    }
  }

  lemma WatchedScans(st: Store, accepting: bool)
    requires Sound(st) && st.m.sealed != [] && st.m.sealed[0] < |st.m.regions|
    ensures Watched(st, accepting) in Facets(Scanned)
  {
    var st' := Watched(st, accepting);
    var x := st.m.sealed[0];
    assert st in Facets(Scanned);
    forall y ensures y in st'.scans <==> Reclaiming(st'.m, y) {
      if Reclaiming(st.m, y) {
        var k :| 0 <= k < |st.m.reclaiming| && st.m.reclaiming[k].region == y;
        assert st'.m.reclaiming[k].region == y;
      }
      if y == x {
        assert st'.m.reclaiming[|st.m.reclaiming|].region == x;
      }
      if Reclaiming(st'.m, y) && y != x {
        var k :| 0 <= k < |st'.m.reclaiming| && st'.m.reclaiming[k].region == y;
        assert st.m.reclaiming[k].region == y;
      }
    }
  }

  lemma WatchedRest(st: Store, accepting: bool)
    requires Sound(st) && st.m.sealed != [] && st.m.sealed[0] < |st.m.regions| && Valid(Pinned(st.m))
    requires st.m.sealed[0] !in st.scans
    ensures var st' := Watched(st, accepting);
            && st' in Facets(Authorised) && st' in Facets(Shaped) && st' in Facets(Written) && st' in Facets(Laned)
            && st' in Facets(Held) && st' in Facets(Indexed) && st' in Facets(Dated)
  {
    var st' := Watched(st, accepting);
    assert st in Facets(Written) && st in Facets(Laned) && st in Facets(Held);
    assert st in Facets(Indexed) && st in Facets(Dated);
    forall t | t in st'.index ensures Names(st', t, st'.index[t]) {
      assert Names(st, t, st.index[t]);
      var k: nat :| RecordAt(st, t, st.index[t], k);
      assert RecordAt(st', t, st.index[t], k);
    }
    forall s, i | 0 <= s < |st'.lanes| && 0 <= i < |st'.lanes[s].queue|
      ensures SourceHeld(st'.scans, st'.lanes[s].queue[i])
    {
      assert SourceHeld(st.scans, st.lanes[s].queue[i]);
    }
    forall y | 0 <= y < |st.generations| ensures DatedAt(st', y) {
      assert DatedAt(st, y);
      assert Activating(st.m, y) <==> Activating(st'.m, y);
    }
  }

  lemma ReleaseStoreStep(st: Store, x: nat)
    requires Sound(st) && Enabled(st, ReclaimRelease(x))
    ensures Sound(Do(st, ReclaimRelease(x)))
  {
    assert st in Facets(Shaped);
    ScannedRegion(st, x);
    var st' := Do(st, ReclaimRelease(x));
    assert st' == st.(generations := st.generations[x := 0], scans := st.scans[x := st.scans[x].(released := true)]);
    ReleaseScans(st, x);
    ReleaseHeld(st, x);
    ReleaseRest(st, x);
    Whole(st');
  }

  lemma ReleaseScans(st: Store, x: nat)
    requires Sound(st) && Enabled(st, ReclaimRelease(x)) && x < |st.generations|
    ensures var st' := Do(st, ReclaimRelease(x));
            st' in Facets(Authorised) && st' in Facets(Shaped) && st' in Facets(Scanned)
  {
    assert st in Facets(Authorised) && st in Facets(Scanned);
  }

  lemma ReleaseHeld(st: Store, x: nat)
    requires Sound(st) && Enabled(st, ReclaimRelease(x)) && x < |st.generations|
    ensures Do(st, ReclaimRelease(x)) in Facets(Held)
  {
    var st' := Do(st, ReclaimRelease(x));
    assert st in Facets(Held);
    forall s, i | 0 <= s < |st'.lanes| && 0 <= i < |st'.lanes[s].queue|
      ensures SourceHeld(st'.scans, st'.lanes[s].queue[i])
    {
      assert SourceHeld(st.scans, st.lanes[s].queue[i]);
    }
  }

  lemma ReleaseRest(st: Store, x: nat)
    requires Sound(st) && Enabled(st, ReclaimRelease(x)) && x < |st.generations|
    ensures var st' := Do(st, ReclaimRelease(x));
            st' in Facets(Written) && st' in Facets(Laned) && st' in Facets(Indexed) && st' in Facets(Dated)
  {
    var st' := Do(st, ReclaimRelease(x));
    assert st in Facets(Written) && st in Facets(Laned) && st in Facets(Indexed) && st in Facets(Dated);
    forall t | t in st'.index ensures Names(st', t, st'.index[t]) {
      assert Names(st, t, st.index[t]);
      var k: nat :| RecordAt(st, t, st.index[t], k);
      assert RecordAt(st', t, st.index[t], k);
    }
    forall y | 0 <= y < |st.generations| ensures DatedAt(st', y) {
      assert DatedAt(st, y);
    }
  }

  lemma PromiseHeld(st: Store, t: nat, l: Location)
    requires Sound(st) && Promise(st.lanes, st.token, t, l)
    ensures l.region in st.scans && !st.scans[l.region].released
  {
    assert st in Facets(Held);
    var s, i :| 0 <= s < |st.lanes| && 0 <= i < |st.lanes[s].queue| && Replaces(st.lanes[s].queue[i], st.token, t, l);
    assert SourceHeld(st.scans, st.lanes[s].queue[i]);
  }

  /** Once a source is released nothing in the index names it. */
  lemma ReleasedUnnamed(st: Store, x: nat, t: nat)
    requires Sound(st) && x in st.scans && st.scans[x].released && t in st.index
    ensures st.index[t].region != x
  {
    var l := st.index[t];
    if l.region == x {
      assert st in Facets(Indexed);
      ScannedRegion(st, x);
      assert Names(st, t, l);
      var k: nat :| RecordAt(st, t, l, k);
      PromiseHeld(st, t, l);
    }
  }

  ghost predicate Frees(st: Store, x: nat, k: nat) {
    && Sound(st) && Shape(st) && Valid(st.m) && x in st.scans && st.scans[x].released
    && k < |st.m.reclaiming| && st.m.reclaiming[k].region == x < |st.m.regions|
  }

  function Emptied(st: Store, x: nat, k: nat): Store
    requires x < |st.disk| && k < |st.m.reclaiming| && st.m.reclaiming[k].region < |st.m.regions|
  {
    st.(m := Released(st.m, k), disk := st.disk[x := []], scans := st.scans - {x})
  }

  lemma FreeIsEmptied(st: Store, x: nat) returns (k: nat)
    requires Sound(st) && Enabled(st, ReclaimFree(x))
    ensures Frees(st, x, k) && Freeing(st, x) == Emptied(st, x, k)
    ensures Valid(Released(st.m, k))
  {
    assert st in Facets(Shaped) && st in Facets(Authorised);
    ScannedRegion(st, x);
    var c := PinOf(st.m, x).value;
    k := Position(st.m.reclaiming, c);
    PinnedIs(st.m, k);
    FinishReclaimKeeps(st.m, c);
    ReleaseStep(st.m, k);
    assert FinishReclaim(st.m, c).0 == Released(st.m, k);
  }

  lemma FreeStoreStep(st: Store, x: nat)
    requires Sound(st) && Enabled(st, ReclaimFree(x))
    ensures Sound(Freeing(st, x))
  {
    var k := FreeIsEmptied(st, x);
    EmptiedScans(st, x, k);
    EmptiedIndex(st, x, k);
    EmptiedRest(st, x, k);
    EmptiedDates(st, x, k);
    Whole(Emptied(st, x, k));
  }

  lemma StillReclaiming(m: Manager, k: nat, y: nat)
    requires Valid(m) && k < |m.reclaiming| && m.reclaiming[k].region < |m.regions|
    ensures Reclaiming(Released(m, k), y) <==> Reclaiming(m, y) && y != m.reclaiming[k].region
  {
    var m' := Released(m, k);
    ReclaimExclusive(m, k);
    if Reclaiming(m', y) {
      var i :| 0 <= i < |m'.reclaiming| && m'.reclaiming[i].region == y;
      var j := if i == k then |m.reclaiming| - 1 else i;
      assert m.reclaiming[j].region == y && j != k;
    }
    if Reclaiming(m, y) && y != m.reclaiming[k].region {
      var i :| 0 <= i < |m.reclaiming| && m.reclaiming[i].region == y;
      var j := if i == |m.reclaiming| - 1 then k else i;
      assert m'.reclaiming[j].region == y;
    }
  }

  lemma EmptiedScans(st: Store, x: nat, k: nat)
    requires Frees(st, x, k)
    ensures Emptied(st, x, k) in Facets(Scanned)
  {
    var st' := Emptied(st, x, k);
    assert st in Facets(Scanned);
    forall y ensures y in st'.scans <==> Reclaiming(st'.m, y) {
      StillReclaiming(st.m, k, y);
    }
    forall y | y in st'.scans ensures y < |st'.disk| && ScanOk(st'.scans[y], |st'.disk[y]|, st'.m.regions[y].completed) {
      assert y in st.scans && y != x;
    }
  }

  lemma EmptiedIndex(st: Store, x: nat, k: nat)
    requires Frees(st, x, k)
    ensures Emptied(st, x, k) in Facets(Indexed) && Emptied(st, x, k) in Facets(Held)
  {
    var st' := Emptied(st, x, k);
    assert st in Facets(Indexed) && st in Facets(Held);
    forall t | t in st'.index ensures Names(st', t, st'.index[t]) {
      ReleasedUnnamed(st, x, t);
      assert Names(st, t, st.index[t]);
      var i: nat :| RecordAt(st, t, st.index[t], i);
      assert RecordAt(st', t, st.index[t], i);
    }
    forall s, i | 0 <= s < |st'.lanes| && 0 <= i < |st'.lanes[s].queue|
      ensures SourceHeld(st'.scans, st'.lanes[s].queue[i])
    {
      assert SourceHeld(st.scans, st.lanes[s].queue[i]);
    }
  }

  lemma EmptiedRest(st: Store, x: nat, k: nat)
    requires Frees(st, x, k) && Valid(Released(st.m, k))
    ensures var st' := Emptied(st, x, k);
            st' in Facets(Authorised) && st' in Facets(Shaped) && st' in Facets(Written) && st' in Facets(Laned)
  {
    var st' := Emptied(st, x, k);
    assert st in Facets(Written) && st in Facets(Laned);
    ReclaimExclusive(st.m, k);
    forall s | 0 <= s < |st'.lanes|
      ensures LaneOk(st'.lanes[s], st'.m.shards[s], st'.m.active[s], st'.m.regions[st'.m.active[s]], st'.disk[st'.m.active[s]])
    {
      assert st.m.active[s] in st.m.active;
      assert LaneOk(st.lanes[s], st.m.shards[s], st.m.active[s], st.m.regions[st.m.active[s]], st.disk[st.m.active[s]]);
    }
  }

  lemma EmptiedDates(st: Store, x: nat, k: nat)
    requires Frees(st, x, k)
    ensures Emptied(st, x, k) in Facets(Dated)
  {
    var st' := Emptied(st, x, k);
    assert st in Facets(Dated);
    forall y | 0 <= y < |st'.generations| ensures DatedAt(st', y) {
      assert DatedAt(st, y);
      assert Activating(st'.m, y) <==> Activating(st.m, y);
    }
  }
}
