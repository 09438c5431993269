/** Publication, rotation and reclaim keep the store invariant. */
module StoreCycle {
  import opened Machine
  import opened Regions
  import opened Pipelines
  import opened Authority
  import opened Lifecycle
  import opened Runs
  import opened Stores
  import opened StoreSafety
  import opened StoreSteps

  // ----- the index -----

  lemma IndexRest(st: Store, index: map<nat, Location>)
    requires st in Facets(Authorised) && st in Facets(Shaped) && st in Facets(Written) && st in Facets(Laned)
    requires st in Facets(Scanned) && st in Facets(Held) && st in Facets(Dated)
    ensures var st' := st.(index := index);
            && st' in Facets(Authorised) && st' in Facets(Shaped) && st' in Facets(Written) && st' in Facets(Laned)
            && st' in Facets(Scanned) && st' in Facets(Held) && st' in Facets(Dated)
  {
    var st' := st.(index := index);
    forall x | 0 <= x < |st.generations| ensures DatedAt(st', x) {
      assert DatedAt(st, x);
    }
  }

  /** Removing mappings is always safe. */
  lemma ShrinkStep(st: Store, index: map<nat, Location>)
    requires Sound(st) && forall t :: t in index ==> t in st.index && index[t] == st.index[t]
    ensures Sound(st.(index := index))
  {
    var st' := st.(index := index);
    assert st in Facets(Indexed);
    forall t | t in st'.index ensures Names(st', t, st'.index[t]) {
      assert Names(st, t, st.index[t]);
      var k: nat :| RecordAt(st, t, st.index[t], k);
      assert RecordAt(st', t, st.index[t], k);
    }
    assert st in Facets(Authorised) && st in Facets(Shaped) && st in Facets(Written) && st in Facets(Laned);
    assert st in Facets(Scanned) && st in Facets(Held) && st in Facets(Dated);
    IndexRest(st, index);
    Whole(st');
  }

  // ----- publication -----

  /** A lane without its first record, which has been published. */
  function Popped(st: Store, s: nat): Store
    requires s < |st.lanes| && st.lanes[s].queue != [] && st.lanes[s].landed > 0
  {
    var lane := st.lanes[s];
    st.(lanes := st.lanes[s := Lane(lane.queue[1..], lane.landed - 1, lane.flight)])
  }

  lemma PoppedLane(lane: Lane, sh: Shard, x: nat, d: RegionDesc, written: seq<Rec>)
    requires LaneOk(lane, sh, x, d, written) && lane.landed > 0
    ensures LaneOk(Lane(lane.queue[1..], lane.landed - 1, lane.flight), sh, x, d, written)
  {
    var lane' := Lane(lane.queue[1..], lane.landed - 1, lane.flight);
    var n := lane.landed + lane.flight;
    assert lane'.queue[n - 1..] == lane.queue[n..];
    assert lane'.queue[lane'.landed..n - 1] == lane.queue[lane.landed..n];
  }

  lemma PoppedRest(st: Store, s: nat)
    requires Sound(st) && s < |st.lanes| && st.lanes[s].queue != [] && st.lanes[s].landed > 0
    ensures var st' := Popped(st, s);
            && st' in Facets(Authorised) && st' in Facets(Shaped) && st' in Facets(Written) && st' in Facets(Laned)
            && st' in Facets(Scanned) && st' in Facets(Held) && st' in Facets(Dated)
  {
    var st' := Popped(st, s);
    LaneOf(st, s);
    var x := st.m.active[s];
    PoppedLane(st.lanes[s], st.m.shards[s], x, st.m.regions[x], st.disk[x]);
    assert st in Facets(Written) && st in Facets(Laned) && st in Facets(Scanned);
    assert st in Facets(Held) && st in Facets(Dated);
    forall p, i | 0 <= p < |st'.lanes| && 0 <= i < |st'.lanes[p].queue|
      ensures SourceHeld(st'.scans, st'.lanes[p].queue[i])
    {
      assert SourceHeld(st.scans, st.lanes[p].queue[if p == s then i + 1 else i]);
    }
    forall y | 0 <= y < |st.generations| ensures DatedAt(st', y) {
      assert DatedAt(st, y);
    }
  }

  /** Popping the first record keeps every other promise. */
  lemma PromisePopped(st: Store, s: nat, t: nat, l: Location)
    requires s < |st.lanes| && st.lanes[s].queue != [] && st.lanes[s].landed > 0
    requires Promise(st.lanes, st.token, t, l) && !Replaces(st.lanes[s].queue[0], st.token, t, l)
    ensures Promise(Popped(st, s).lanes, st.token, t, l)
  {
    var p, i :| 0 <= p < |st.lanes| && 0 <= i < |st.lanes[p].queue| && Replaces(st.lanes[p].queue[i], st.token, t, l);
    var j := if p == s then i - 1 else i;
    assert Replaces(Popped(st, s).lanes[p].queue[j], st.token, t, l);
  }

  /** A mapping that the published record does not replace survives the pop. */
  lemma NamePopped(st: Store, s: nat, t: nat, l: Location)
    requires s < |st.lanes| && st.lanes[s].queue != [] && st.lanes[s].landed > 0
    requires Names(st, t, l) && !Replaces(st.lanes[s].queue[0], st.token, t, l)
    ensures Names(Popped(st, s), t, l)
  {
    var k: nat :| RecordAt(st, t, l, k);
    if l.region in st.scans && k < st.scans[l.region].next {
      PromisePopped(st, s, t, l);
    }
    assert RecordAt(Popped(st, s), t, l, k);
  }

  /** A completed record of the Active Region can be named. */
  lemma NamePublished(st: Store, s: nat)
    requires Sound(st) && s < |st.lanes| && st.lanes[s].queue != [] && st.lanes[s].landed > 0
    ensures var r := st.lanes[s].queue[0]; Names(Popped(st, s), st.token(r.hash), r.Where())
  {
    LaneOf(st, s);
    var r, x := st.lanes[s].queue[0], st.m.active[s];
    assert r in st.disk[x];
    var k: nat :| k < |st.disk[x]| && st.disk[x][k] == r;
    TileAt(st.disk[x], x, st.m.regions[x].created, 0, st.m.regions[x].completed, k);
    assert x in st.m.active;
    if x in st.scans {
      ScannedRegion(st, x);
    }
    assert RecordAt(Popped(st, s), st.token(r.hash), r.Where(), k);
  }

  lemma NamesIgnoreIndex(st: Store, index: map<nat, Location>, t: nat, l: Location)
    ensures Names(st.(index := index), t, l) <==> Names(st, t, l)
  {
    var st' := st.(index := index);
    if Names(st, t, l) {
      var k: nat :| RecordAt(st, t, l, k);
      assert RecordAt(st', t, l, k);
    }
    if Names(st', t, l) {
      var k: nat :| RecordAt(st', t, l, k);
      assert RecordAt(st, t, l, k);
    }
  }

  lemma PublishStep(st: Store, s: nat, evicted: Option<nat>)
    requires Sound(st) && Enabled(st, PublishFirst(s, evicted))
    ensures Sound(Publishing(st, s, evicted))
  {
    LaneOf(st, s);
    var r := st.lanes[s].queue[0];
    var popped := Popped(st, s);
    var index := Published(st.index, st.token(r.hash), r, evicted);
    var st' := popped.(index := index);
    assert Publishing(st, s, evicted) == st';
    PublishIndex(st, s, evicted);
    PoppedRest(st, s);
    IndexRest(popped, index);
    Whole(st');
  }

  lemma PublishIndex(st: Store, s: nat, evicted: Option<nat>)
    requires Sound(st) && Enabled(st, PublishFirst(s, evicted)) && st.lanes[s].queue != []
    ensures var r := st.lanes[s].queue[0];
            Popped(st, s).(index := Published(st.index, st.token(r.hash), r, evicted)) in Facets(Indexed)
  {
    var r := st.lanes[s].queue[0];
    var popped, u := Popped(st, s), st.token(r.hash);
    var index := Published(st.index, u, r, evicted);
    var st' := popped.(index := index);
    assert st in Facets(Indexed);
    NamePublished(st, s);
    forall t | t in index ensures Names(st', t, index[t]) {
      NamesIgnoreIndex(popped, index, t, index[t]);
      if !(t == u && index[t] == r.Where()) {
        assert t in st.index && index[t] == st.index[t];
        NamePopped(st, s, t, index[t]);
      }
    }
  }

  // ----- rotation -----

  lemma RotateStep(st: Store, s: nat)
    requires Sound(st) && Enabled(st, RotateBegin(s))
    ensures Sound(Rotating(st, s))
  {
    LaneOf(st, s);
    SelectKinds(st.m, s);
    if SelectRotation(st.m, s).Ok? && st.m.nextSeqno < U64_MAX {
      var m' := Rotated(st.m, s);
      assert BeginRotation(st.m, Candidate(s, st.m.free[0], 0)).0 == m';
      RotatedStore(st, s);
    } else {
      assert Rotating(st, s) == st;
    }
  }

  lemma RotatedStore(st: Store, s: nat)
    requires Rotates(st, s)
    ensures Sound(st.(m := Rotated(st.m, s)))
  {
    var m' := Rotated(st.m, s);
    Lifecycle.RotateStep(st.m, s);
    RotatedWritten(st, s);
    RotatedLanes(st, s);
    RotatedScans(st, s);
    RotatedDates(st, s);
    IndexSame(st, m');
    assert st.(m := m') in Facets(Authorised);
    Whole(st.(m := m'));
  }

  lemma IndexSame(st: Store, m: Manager)
    requires Sound(st)
    ensures st.(m := m) in Facets(Indexed) && st.(m := m) in Facets(Held)
  {
    var st' := st.(m := m);
    assert st in Facets(Indexed) && st in Facets(Held);
    forall t | t in st'.index ensures Names(st', t, st'.index[t]) {
      assert Names(st, t, st.index[t]);
      var k: nat :| RecordAt(st, t, st.index[t], k);
      assert RecordAt(st', t, st.index[t], k);
    }
  }

  lemma NeverActivating(m: Manager, i: nat)
    requires Valid(m) && i < |m.free|
    ensures !Activating(m, m.free[i])
  {
    FreeExclusive(m, i);
    forall s | 0 <= s < |m.shards| && m.shards[s].rotation.Some? ensures m.shards[s].rotation.value.activated != m.free[i] {
      ShardOf(m, s);
      assert m.active[s] in m.active;
    }
  }

  /** Nothing is written in a free Region. */
  lemma FreeUnwritten(st: Store, i: nat)
    requires Sound(st) && i < |st.m.free|
    ensures st.m.free[i] < |st.disk| && st.disk[st.m.free[i]] == []
    ensures Shape(st) && st.m.regions[st.m.free[i]] == FreeDesc && st.generations[st.m.free[i]] == 0
  {
    assert st in Facets(Authorised) && st in Facets(Shaped) && st in Facets(Written) && st in Facets(Dated);
    FreeIs(st.m, i);
    var x := st.m.free[i];
    assert x in st.m.free;
    if x in st.scans {
      ScannedRegion(st, x);
    }
    NeverActivating(st.m, i);
    TileSpan(st.disk[x], x, 0, 0, 0);
    assert DatedAt(st, x);
  }

  ghost predicate Rotates(st: Store, s: nat) {
    && Sound(st) && Shape(st) && CanRotate(st.m, s) && s < |st.lanes| && st.lanes[s].landed == 0
  }

  lemma RotatedWritten(st: Store, s: nat)
    requires Rotates(st, s)
    ensures st.(m := Rotated(st.m, s)) in Facets(Written) && st.(m := Rotated(st.m, s)) in Facets(Shaped)
  {
    assert st in Facets(Written);
    FreeUnwritten(st, 0);
  }

  /** The rotating shard has an empty lane; the others keep their Regions. */
  lemma RotatedLane(st: Store, s: nat, t: nat)
    requires Rotates(st, s) && t < |st.lanes| && Shape(st)
    ensures var m' := Rotated(st.m, s);
            LaneOk(st.lanes[t], m'.shards[t], m'.active[t], m'.regions[m'.active[t]], st.disk[m'.active[t]])
  {
    assert st in Facets(Laned);
    LaneOf(st, s);
    FreeExclusive(st.m, 0);
    assert LaneOk(st.lanes[t], st.m.shards[t], st.m.active[t], st.m.regions[st.m.active[t]], st.disk[st.m.active[t]]);
    if t != s {
      ActiveDistinct(st.m, s, t);
      assert st.m.active[t] in st.m.active;
    } else {
      assert st.lanes[s].queue[0..] == [];
    }
  }

  lemma RotatedLanes(st: Store, s: nat)
    requires Rotates(st, s)
    ensures st.(m := Rotated(st.m, s)) in Facets(Laned)
  {
    var st' := st.(m := Rotated(st.m, s));
    LaneOf(st, s);
    forall t | 0 <= t < |st'.lanes|
      ensures LaneOk(st'.lanes[t], st'.m.shards[t], st'.m.active[t], st'.m.regions[st'.m.active[t]], st'.disk[st'.m.active[t]])
    {
      RotatedLane(st, s, t);
    }
  }

  lemma RotatedScans(st: Store, s: nat)
    requires Rotates(st, s)
    ensures st.(m := Rotated(st.m, s)) in Facets(Scanned)
  {
    var st' := st.(m := Rotated(st.m, s));
    assert st in Facets(Scanned);
    forall x ensures x in st'.scans <==> Reclaiming(st'.m, x) {
      assert Reclaiming(st'.m, x) <==> Reclaiming(st.m, x);
    }
    forall x | x in st'.scans ensures x < |st'.disk| && ScanOk(st'.scans[x], |st'.disk[x]|, st'.m.regions[x].completed) {
      ScannedRegion(st, x);
      assert st.m.active[s] in st.m.active && st.m.free[0] in st.m.free;
    }
  }

  lemma RotatedDates(st: Store, s: nat)
    requires Rotates(st, s)
    ensures st.(m := Rotated(st.m, s)) in Facets(Dated)
  {
    var st' := st.(m := Rotated(st.m, s));
    assert st in Facets(Dated);
    FreeUnwritten(st, 0);
    forall x | 0 <= x < |st'.generations| ensures DatedAt(st', x) {
      assert DatedAt(st, x);
      if x in st.scans {
        ScannedRegion(st, x);
        assert st.m.active[s] in st.m.active && st.m.free[0] in st.m.free;
      }
      if x == st.m.free[0] {
        assert st'.m.shards[s].rotation.value.activated == x;
      } else if Activating(st.m, x) {
        var p :| 0 <= p < |st.m.shards| && st.m.shards[p].rotation.Some? && st.m.shards[p].rotation.value.activated == x;
        assert st'.m.shards[p].rotation == st.m.shards[p].rotation;
      }
    }
  }

  lemma GenerationRest(st: Store, x: nat, g: nat)
    requires Sound(st) && x < |st.generations|
    ensures var st' := st.(generations := st.generations[x := g]);
            && st' in Facets(Authorised) && st' in Facets(Shaped) && st' in Facets(Written) && st' in Facets(Laned)
            && st' in Facets(Scanned) && st' in Facets(Held) && st' in Facets(Indexed)
  {
    var st' := st.(generations := st.generations[x := g]);
    assert st in Facets(Authorised) && st in Facets(Written) && st in Facets(Laned);
    assert st in Facets(Scanned) && st in Facets(Held) && st in Facets(Indexed);
    forall t | t in st'.index ensures Names(st', t, st'.index[t]) {
      assert Names(st, t, st.index[t]);
      var k: nat :| RecordAt(st, t, st.index[t], k);
      assert RecordAt(st', t, st.index[t], k);
    }
  }

  /** Writing the current generation of a Region that is not under reclaim keeps the table. */
  lemma GenerationStep(st: Store, x: nat, g: nat)
    requires Sound(st) && x < |st.generations| && x < |st.m.regions|
    requires g == st.m.regions[x].created && x !in st.scans
    ensures Sound(st.(generations := st.generations[x := g]))
  {
    var st' := st.(generations := st.generations[x := g]);
    assert st in Facets(Dated);
    forall y | 0 <= y < |st'.generations| ensures DatedAt(st', y) {
      assert DatedAt(st, y);
    }
    GenerationRest(st, x, g);
    Whole(st');
  }

  lemma StoreGeneration(st: Store, s: nat)
    requires Sound(st) && Enabled(st, RotateStore(s))
    ensures Sound(Do(st, RotateStore(s)))
  {
    assert st in Facets(Authorised) && st in Facets(Shaped);
    ShardOf(st.m, s);
    var q := st.m.shards[s].rotation.value;
    assert q.activated in st.m.active;
    if q.activated in st.scans {
      ScannedRegion(st, q.activated);
    }
    GenerationStep(st, q.activated, q.created);
  }

  lemma EndRotation(st: Store, s: nat)
    requires Sound(st) && Enabled(st, RotateEnd(s))
    ensures Sound(Do(st, RotateEnd(s)))
  {
    assert st in Facets(Authorised) && st in Facets(Shaped);
    var q := st.m.shards[s].rotation.value;
    ShardOf(st.m, s);
    FinishRotationOk(st.m, q);
    FinishRotationKeeps(st.m, q);
    var m' := Finished(st.m, q);
    var st' := st.(m := m');
    assert Do(st, RotateEnd(s)) == st';
    EndRest(st, s);
    EndDates(st, s);
    IndexSame(st, m');
    Whole(st');
  }

  lemma EndRest(st: Store, s: nat)
    requires Sound(st) && Shape(st) && s < |st.m.shards| && st.m.shards[s].rotation.Some?
    requires st.m.shards[s].rotation.value.shard == s
    ensures var st' := st.(m := Finished(st.m, st.m.shards[s].rotation.value));
            st' in Facets(Shaped) && st' in Facets(Written) && st' in Facets(Laned) && st' in Facets(Scanned)
  {
    var st' := st.(m := Finished(st.m, st.m.shards[s].rotation.value));
    assert st in Facets(Written) && st in Facets(Laned) && st in Facets(Scanned);
    forall x ensures x in st'.scans <==> Reclaiming(st'.m, x) {
      assert Reclaiming(st'.m, x) <==> Reclaiming(st.m, x);
    }
    forall t | 0 <= t < |st'.lanes|
      ensures LaneOk(st'.lanes[t], st'.m.shards[t], st'.m.active[t], st'.m.regions[st'.m.active[t]], st'.disk[st'.m.active[t]])
    {
      assert LaneOk(st.lanes[t], st.m.shards[t], st.m.active[t], st.m.regions[st.m.active[t]], st.disk[st.m.active[t]]);
    }
  }

  lemma EndDates(st: Store, s: nat)
    requires Sound(st) && Enabled(st, RotateEnd(s)) && Shape(st)
    requires st.m.shards[s].rotation.value.shard == s && Valid(st.m)
    ensures st.(m := Finished(st.m, st.m.shards[s].rotation.value)) in Facets(Dated)
  {
    var q := st.m.shards[s].rotation.value;
    var st' := st.(m := Finished(st.m, q));
    assert st in Facets(Dated);
    ShardOf(st.m, s);
    forall x | 0 <= x < |st'.generations| ensures DatedAt(st', x) {
      assert DatedAt(st, x);
      if Activating(st.m, x) && x != q.activated {
        var p :| 0 <= p < |st.m.shards| && st.m.shards[p].rotation.Some? && st.m.shards[p].rotation.value.activated == x;
        assert st'.m.shards[p].rotation == st.m.shards[p].rotation;
      }
    }
  }
}
