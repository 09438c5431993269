/** Where the records of a store come from, and that its steps get somewhere: a put becomes readable, a
    rotation and a reclaim complete, a hot record survives the loss of its Region. */
module StoreOrigins {
  import opened Machine
  import opened Regions
  import opened Pipelines
  import opened Authority
  import opened Lifecycle
  import opened Runs
  import opened Stores
  import opened StoreSafety
  import opened StoreSteps
  import opened StoreCycle
  import opened StoreReclaim
  import opened StoreRuns
  import opened StoreEffects

  // ----- provenance -----

  /** The record is staged, in flight, awaiting publication or on disk. */
  ghost predicate Present(st: Store, r: Rec) {
    || (exists s :: 0 <= s < |st.lanes| && r in st.lanes[s].queue)
    || (exists x :: 0 <= x < |st.disk| && r in st.disk[x])
  }

  /** The same record, possibly grown over the padding of its span. */
  predicate Same(r: Rec, r': Rec) {
    r' == r.(length := r'.length) && r.length <= r'.length
  }

  /** The action stages record r: a put of a value with its hash, or a copy of a scanned record with the
      same hash that names the location it replaces. */
  ghost predicate Stages(st: Store, a: Action, r: Rec) {
    && Shape(st) && Enabled(st, a)
    && match a
       case PutValue(s, hash, bytes) => Takes(st, s, bytes) && r == NextRecord(st, s, hash, bytes, None)
       case ScanOffer(x, s, bytes) =>
         Takes(st, s, bytes)
         && r == NextRecord(st, s, st.disk[x][st.scans[x].next].hash, bytes, Some(st.disk[x][st.scans[x].next].Where()))
       case _ => false
  }

  lemma PushedIn(q: seq<Rec>, r: Rec, x: Rec)
    ensures x in q + [r] <==> x in q || x == r
  {
  }

  /** A record that one lane, or the disk, gained or changed came from that lane. */
  lemma LaneOrigin(st: Store, st': Store, s: nat, r: Rec)
    requires s < |st.lanes| && |st'.lanes| == |st.lanes| && |st'.disk| == |st.disk| && Present(st', r)
    requires forall p :: 0 <= p < |st.lanes| && p != s ==> st'.lanes[p] == st.lanes[p]
    requires forall q :: q in st'.lanes[s].queue ==> exists o :: o in st.lanes[s].queue && Same(o, q)
    requires forall x, q :: 0 <= x < |st.disk| && q in st'.disk[x] ==> q in st.disk[x] || q in st.lanes[s].queue
    ensures exists o :: Present(st, o) && Same(o, r)
  {
    if p :| 0 <= p < |st'.lanes| && r in st'.lanes[p].queue {
      if p == s {
        var o :| o in st.lanes[s].queue && Same(o, r);
        assert Present(st, o);
      } else {
        assert r in st.lanes[p].queue;
        assert Present(st, r) && Same(r, r);
      }
    } else {
      var x :| 0 <= x < |st'.disk| && r in st'.disk[x];
      assert Present(st, r) && Same(r, r);
    }
  }

  lemma StagedOrigin(st: Store, st': Store, s: nat, added: Rec, r: Rec)
    requires s < |st.lanes| && st'.disk == st.disk && Present(st', r)
    requires st'.lanes == st.lanes[s := st.lanes[s].(queue := st.lanes[s].queue + [added])]
    ensures r == added || Present(st, r)
  {
    if p :| 0 <= p < |st'.lanes| && r in st'.lanes[p].queue {
      PushedIn(st.lanes[s].queue, added, r);
    }
  }

  lemma SealOrigin(st: Store, s: nat, r: Rec)
    requires Sound(st) && Enabled(st, SealLane(s)) && Present(Do(st, SealLane(s)), r)
    ensures exists o :: Present(st, o) && Same(o, r)
  {
    SealExact(st, s);
    var st', lane := Do(st, SealLane(s)), st.lanes[s];
    if st' == st {
      assert Same(r, r);
    } else {
      var lane' := st'.lanes[s];
      forall q | q in lane'.queue ensures exists o :: o in lane.queue && Same(o, q) {
        var i :| 0 <= i < |lane'.queue| && lane'.queue[i] == q;
        assert lane.queue[i] in lane.queue && Same(lane.queue[i], q);
      }
      LaneOrigin(st, st', s, r);
    }
  }

  lemma LandOrigin(st: Store, s: nat, r: Rec)
    requires Sound(st) && Enabled(st, LandLane(s)) && Present(Do(st, LandLane(s)), r)
    ensures exists o :: Present(st, o) && Same(o, r)
  {
    LandExact(st, s);
    var st', lane := Do(st, LandLane(s)), st.lanes[s];
    forall q | q in st'.lanes[s].queue ensures exists o :: o in lane.queue && Same(o, q) {
      assert Same(q, q);
    }
    LaneOrigin(st, st', s, r);
  }

  lemma PublishOrigin(st: Store, s: nat, evicted: Option<nat>, r: Rec)
    requires Sound(st) && Enabled(st, PublishFirst(s, evicted)) && Present(Do(st, PublishFirst(s, evicted)), r)
    ensures exists o :: Present(st, o) && Same(o, r)
  {
    PublishExact(st, s, evicted);
    var st', lane := Do(st, PublishFirst(s, evicted)), st.lanes[s];
    forall q | q in st'.lanes[s].queue ensures exists o :: o in lane.queue && Same(o, q) {
      assert Same(q, q);
    }
    LaneOrigin(st, st', s, r);
  }

  lemma StageOrigin(st: Store, a: Action, r: Rec)
    requires Sound(st) && Enabled(st, a) && (a.PutValue? || a.ScanOffer?) && Present(Do(st, a), r)
    ensures Stages(st, a, r) || Present(st, r)
  {
    var st' := Do(st, a);
    match a
    case PutValue(s, hash, bytes) =>
      PutExact(st, s, hash, bytes);
      if Takes(st, s, bytes) {
        StagedOrigin(st, st', s, NextRecord(st, s, hash, bytes, None), r);
      } else {
        assert st'.lanes == st.lanes && st'.disk == st.disk;
      }
    case ScanOffer(x, s, bytes) =>
      OfferExact(st, x, s, bytes);
      var c := st.disk[x][st.scans[x].next];
      if Takes(st, s, bytes) {
        StagedOrigin(st, st', s, NextRecord(st, s, c.hash, bytes, Some(c.Where())), r);
      } else {
        assert st'.lanes == st.lanes && st'.disk == st.disk;
      }
  }

  lemma FreeOrigin(st: Store, x: nat, r: Rec)
    requires Sound(st) && Enabled(st, ReclaimFree(x)) && Present(Do(st, ReclaimFree(x)), r)
    ensures Present(st, r)
  {
    FreeExact(st, x);
  }

  /** Every record was there before the step, or the step staged it. */
  lemma OriginStep(st: Store, a: Action, r: Rec)
    requires Sound(st) && Enabled(st, a) && Present(Do(st, a), r)
    ensures Stages(st, a, r) || exists o :: Present(st, o) && Same(o, r)
  {
    var st' := Do(st, a);
    match a
    case PutValue(_, _, _) => StageOrigin(st, a, r);
    case ScanOffer(_, _, _) => StageOrigin(st, a, r);
    case SealLane(s) => SealOrigin(st, s, r);
    case LandLane(s) => LandOrigin(st, s, r);
    case PublishFirst(s, evicted) => PublishOrigin(st, s, evicted, r);
    case ReclaimFree(x) => FreeOrigin(st, x, r);
    case _ => assert st'.lanes == st.lanes && st'.disk == st.disk && Present(st, r);
    if Present(st, r) {
      assert Same(r, r);
    }
  }

  /** Some action of the run staged this record. */
  ghost predicate Came(st: Store, run: seq<Action>, r: Rec) {
    exists k: nat, o :: k < |run| && Feasible(st, run[..k]) && Stages(Execute(st, run[..k]), run[k], o) && Same(o, r)
  }

  lemma {:induction false} OneEarlier(st: Store, run: seq<Action>, k: nat)
    requires k + 1 < |run| && Enabled(st, run[0]) && Feasible(Do(st, run[0]), run[1..][..k])
    ensures Feasible(st, run[..k + 1]) && Execute(st, run[..k + 1]) == Execute(Do(st, run[0]), run[1..][..k])
    ensures run[k + 1] == run[1..][k]
  {
    assert run[..k + 1][0] == run[0] && run[..k + 1][1..] == run[1..][..k];
  }

  lemma {:induction false} CameLater(st: Store, run: seq<Action>, r: Rec)
    requires run != [] && Enabled(st, run[0]) && Came(Do(st, run[0]), run[1..], r)
    ensures Came(st, run, r)
  {
    var st1, rest := Do(st, run[0]), run[1..];
    var k: nat, o :| k < |rest| && Feasible(st1, rest[..k]) && Stages(Execute(st1, rest[..k]), rest[k], o) && Same(o, r);
    OneEarlier(st, run, k);
  }

  lemma SameTwice(a: Rec, b: Rec, c: Rec)
    requires Same(a, b) && Same(b, c)
    ensures Same(a, c)
  {
  }

  /** Every record in a lane or on disk, after any run, was there at the start or was staged by an action
      of the run: a value by a put of exactly its hash, a copy by an offer of a record with its hash. */
  lemma {:induction false} RecordOrigin(st: Store, run: seq<Action>, r: Rec)
    requires Sound(st) && Feasible(st, run) && Present(Execute(st, run), r)
    ensures Came(st, run, r) || exists o :: Present(st, o) && Same(o, r)
    decreases |run|
  {
    if run == [] {
      assert Same(r, r);
    } else {
      var st1 := Do(st, run[0]);
      SoundStep(st, run[0]);
      RecordOrigin(st1, run[1..], r);
      if Came(st1, run[1..], r) {
        CameLater(st, run, r);
      } else {
        var o :| Present(st1, o) && Same(o, r);
        OriginStep(st, run[0], o);
        if Stages(st, run[0], o) {
          assert run[..0] == [];
          assert Came(st, run, r);
        } else {
          var o' :| Present(st, o') && Same(o', o);
          SameTwice(o', o, r);
        }
      }
    }
  }

  /** The run contains an accepted put of this hash. */
  ghost predicate WasPut(st: Store, run: seq<Action>, hash: nat) {
    exists k: nat :: k < |run| && Feasible(st, run[..k]) && PutsHash(Execute(st, run[..k]), run[k], hash)
  }

  ghost predicate PutsHash(st: Store, a: Action, hash: nat) {
    && a.PutValue? && a.hash == hash && Shape(st) && Enabled(st, a) && Takes(st, a.s, a.bytes)
  }

  ghost predicate Known(st: Store, hash: nat) {
    exists r :: Present(st, r) && r.hash == hash
  }

  lemma {:induction false} PutLater(st: Store, run: seq<Action>, hash: nat)
    requires run != [] && Enabled(st, run[0]) && WasPut(Do(st, run[0]), run[1..], hash)
    ensures WasPut(st, run, hash)
  {
    var st1, rest := Do(st, run[0]), run[1..];
    var k: nat :| k < |rest| && Feasible(st1, rest[..k]) && PutsHash(Execute(st1, rest[..k]), rest[k], hash);
    OneEarlier(st, run, k);
  }

  lemma KnownStep(st: Store, a: Action, hash: nat)
    requires Sound(st) && Enabled(st, a) && Known(Do(st, a), hash)
    ensures Known(st, hash) || PutsHash(st, a, hash)
  {
    var r :| Present(Do(st, a), r) && r.hash == hash;
    OriginStep(st, a, r);
    if Stages(st, a, r) {
      if a.ScanOffer? {
        var c := st.disk[a.x][st.scans[a.x].next];
        assert c in st.disk[a.x];
        assert Present(st, c);
      }
    } else {
      var o :| Present(st, o) && Same(o, r);
    }
  }

  /** No hash appears in a store that was not put: whatever is staged, written or copied. */
  lemma {:induction false} HashOrigin(st: Store, run: seq<Action>, hash: nat)
    requires Sound(st) && Feasible(st, run) && Known(Execute(st, run), hash)
    ensures Known(st, hash) || WasPut(st, run, hash)
    decreases |run|
  {
    if run != [] {
      var st1 := Do(st, run[0]);
      SoundStep(st, run[0]);
      HashOrigin(st1, run[1..], hash);
      if WasPut(st1, run[1..], hash) {
        PutLater(st, run, hash);
      } else {
        KnownStep(st, run[0], hash);
        if PutsHash(st, run[0], hash) {
          assert run[..0] == [];
          assert WasPut(st, run, hash);
        }
      }
    }
  }

  /** Every mapping is that of a hash that was put, in this run or before it. */
  lemma {:induction false} MappingOrigin(st: Store, run: seq<Action>, t: nat)
    requires Sound(st) && Feasible(st, run) && t in Execute(st, run).index
    ensures exists hash :: Execute(st, run).token(hash) == t && (Known(st, hash) || WasPut(st, run, hash))
  {
    MappingSafe(st, run, t);
    var end := Execute(st, run);
    var l := end.index[t];
    var k :| 0 <= k < |end.disk[l.region]| && end.disk[l.region][k].Where() == l && end.token(end.disk[l.region][k].hash) == t;
    var r := end.disk[l.region][k];
    assert r in end.disk[l.region];
    assert Present(end, r);
    HashOrigin(st, run, r.hash);
  }

  // ----- progress -----

  lemma {:induction false} Then(st: Store, a: Action, run: seq<Action>)
    requires Enabled(st, a) && Feasible(Do(st, a), run)
    ensures Feasible(st, [a] + run) && Execute(st, [a] + run) == Execute(Do(st, a), run)
  {
    assert ([a] + run)[1..] == run;
  }

  /** Flushing the one record of a lane and publishing it. */
  function FlushOne(s: nat): seq<Action> {
    [SealLane(s)] + ([LandLane(s)] + ([PublishFirst(s, None)] + []))
  }

  /** The lane holds one staged record and nothing is in flight. */
  ghost predicate Lone(st: Store, s: nat, r: Rec) {
    && Sound(st) && Shape(st) && s < |st.lanes| && st.lanes[s] == Lane([r], 0, 0) && st.m.shards[s].rotation.None?
  }

  lemma LoneSealed(st: Store, s: nat, r: Rec) returns (r': Rec)
    requires Lone(st, s, r)
    ensures Enabled(st, SealLane(s)) && Grows(r, r')
    ensures var st' := Do(st, SealLane(s));
            Sound(st') && st' == st.(m := st'.m, lanes := st.lanes[s := Lane([r'], 0, 1)]) && st'.m.active == st.m.active
  {
    SealExact(st, s);
    SoundStep(st, SealLane(s));
    var st' := Do(st, SealLane(s));
    var lane' := st'.lanes[s];
    r' := lane'.queue[0];
    assert lane'.queue == [r'];
    SealKeepsActive(st, s);
  }

  lemma SealKeepsActive(st: Store, s: nat)
    requires Sound(st) && Enabled(st, SealLane(s))
    ensures Do(st, SealLane(s)).m.active == st.m.active
  {
  }

  lemma LoneLanded(st: Store, s: nat, r: Rec)
    requires Sound(st) && Shape(st) && s < |st.lanes| && st.lanes[s] == Lane([r], 0, 1)
    ensures Enabled(st, LandLane(s))
    ensures var st', x := Do(st, LandLane(s)), st.m.active[s];
            && Sound(st') && st'.lanes == st.lanes[s := Lane([r], 1, 0)] && st'.disk == st.disk[x := st.disk[x] + [r]]
            && st' == st.(m := st'.m, disk := st'.disk, lanes := st'.lanes)
  {
    LandExact(st, s);
    SoundStep(st, LandLane(s));
    assert [r][..1] == [r];
  }

  /** A lone value is flushed in one go: its token names it, on disk, padded to the block boundary; every
      other token keeps its mapping and the lane is empty again. */
  lemma {:induction false} LoneFlush(st: Store, s: nat, r: Rec) returns (r': Rec)
    requires Lone(st, s, r)
    ensures Grows(r, r') && Feasible(st, FlushOne(s))
    ensures var end, x := Execute(st, FlushOne(s)), st.m.active[s];
            && end.disk == st.disk[x := st.disk[x] + [r']] && end.lanes == st.lanes[s := Lane([], 0, 0)]
            && end == st.(m := end.m, index := end.index, disk := end.disk, lanes := end.lanes)
            && (forall t :: t != st.token(r.hash) ==> Lookup(end.index, t) == Lookup(st.index, t))
            && Lookup(end.index, st.token(r.hash)) ==
               if r.previous.None? || Lookup(st.index, st.token(r.hash)) == r.previous then Some(r'.Where()) else Lookup(st.index, st.token(r.hash))
  {
    r' := LoneSealed(st, s, r);
    var st1 := Do(st, SealLane(s));
    assert st1 in Facets(Shaped);
    LoneLanded(st1, s, r');
    var st2 := Do(st1, LandLane(s));
    PublishExact(st2, s, None);
    if r'.previous.None? {
      ValuePublished(st2, s, None);
    } else {
      ReinsertExact(st2, s, None);
    }
    assert [r'][1..] == [];
    assert st.lanes[s := Lane([r'], 0, 1)][s := Lane([r'], 1, 0)][s := Lane([], 0, 0)] == st.lanes[s := Lane([], 0, 0)];
    Then(st2, PublishFirst(s, None), []);
    Then(st1, LandLane(s), [PublishFirst(s, None)] + []);
    Then(st, SealLane(s), [LandLane(s)] + ([PublishFirst(s, None)] + []));
  }

  /** A put that the shard takes, flushed undisturbed, is readable: its token names a record of exactly its
      hash, at the cursor of the put and of at least its length, on disk, and the generation that a reader
      loads is the record's.  No other key is affected. */
  lemma {:induction false} PutReadable(st: Store, s: nat, hash: nat, bytes: nat) returns (r: Rec)
    requires Sound(st) && Shape(st) && s < |st.lanes| && st.lanes[s].queue == [] && Takes(st, s, bytes) && bytes <= U32_MAX
    ensures Grows(NextRecord(st, s, hash, bytes, None), r)
    ensures Feasible(st, [PutValue(s, hash, bytes)] + FlushOne(s))
    ensures var end, x := Execute(st, [PutValue(s, hash, bytes)] + FlushOne(s)), st.m.active[s];
            && Lookup(end.index, st.token(hash)) == Some(r.Where())
            && x < |end.generations| && end.generations[x] == r.generation && end.disk == st.disk[x := st.disk[x] + [r]]
            && (forall t :: t != st.token(hash) ==> Lookup(end.index, t) == Lookup(st.index, t))
  {
    var a, x := PutValue(s, hash, bytes), st.m.active[s];
    LaneOf(st, s);
    PutExact(st, s, hash, bytes);
    SoundStep(st, a);
    var st1, staged := Do(st, a), NextRecord(st, s, hash, bytes, None);
    assert st1 in Facets(Shaped);
    assert [] + [staged] == [staged];
    r := LoneFlush(st1, s, staged);
    Then(st, a, FlushOne(s));
    ActiveDated(st, s);
  }

  /** Outside a rotation the generation entry of an Active Region is current. */
  lemma ActiveDated(st: Store, s: nat)
    requires Sound(st) && Shape(st) && s < |st.lanes| && st.m.shards[s].rotation.None?
    ensures st.generations[st.m.active[s]] == st.m.regions[st.m.active[s]].created
  {
    var x := st.m.active[s];
    assert st in Facets(Dated) && st in Facets(Authorised);
    assert DatedAt(st, x) && x in st.m.active;
    if x in st.scans {
      ScannedRegion(st, x);
    }
    forall p | 0 <= p < |st.m.shards| && st.m.shards[p].rotation.Some? ensures st.m.shards[p].rotation.value.activated != x {
      ShardOf(st.m, p);
      if p != s {
        ActiveDistinct(st.m, p, s);
      }
    }
  }

  /** Beginning a rotation, storing the generation and finishing it. */
  function RotateAll(s: nat): seq<Action> {
    [RotateBegin(s)] + ([RotateStore(s)] + ([RotateEnd(s)] + []))
  }

  /** A requested rotation of an idle shard completes: the oldest Free Region is Active in a new generation,
      which readers can load, and the old Region is last in the Sealed queue. */
  lemma {:induction false} RotationCompletes(st: Store, s: nat)
    requires Sound(st) && Shape(st) && s < |st.lanes| && st.lanes[s].landed == 0
    requires st.m.shards[s].requested && st.m.shards[s].Quiescent() && st.m.free != [] && st.m.nextSeqno < U64_MAX
    ensures Feasible(st, RotateAll(s))
    ensures var end, m := Execute(st, RotateAll(s)), st.m;
            && end == st.(m := end.m, generations := end.generations)
            && end.m.active == m.active[s := m.free[0]] && end.m.free == m.free[1..] && end.m.sealed == m.sealed + [m.active[s]]
            && m.free[0] < |st.generations| && end.generations == st.generations[m.free[0] := m.nextSeqno]
            && m.free[0] < |end.m.regions| && end.m.regions[m.free[0]] == RegionDesc(Active, m.nextSeqno, 0, 0, 0)
  {
    RotateExact(st, s);
    var st1 := Do(st, RotateBegin(s));
    SoundStep(st, RotateBegin(s));
    assert st1.m.sealed == st.m.sealed;
    GenerationExact(st1, s);
    var st2 := Do(st1, RotateStore(s));
    SoundStep(st1, RotateStore(s));
    RetireExact(st2, s);
    Then(st2, RotateEnd(s), []);
    Then(st1, RotateStore(s), [RotateEnd(s)] + []);
    Then(st, RotateBegin(s), [RotateStore(s)] + ([RotateEnd(s)] + []));
  }

  /** A scan that finds nothing hot. */
  function ColdScan(x: nat, n: nat): seq<Action> {
    if n == 0 then [] else [ScanPrepare(x, false)] + ColdScan(x, n - 1)
  }

  lemma {:induction false} ColdScanEnds(st: Store, x: nat, n: nat)
    requires Sound(st) && x in st.scans && !st.scans[x].offered && !st.scans[x].released && x < |st.disk|
    requires st.scans[x].next + n == |st.disk[x]|
    ensures Feasible(st, ColdScan(x, n))
    ensures var end := Execute(st, ColdScan(x, n));
            && Sound(end) && end == st.(index := end.index, scans := end.scans)
            && x in end.scans && end.scans[x] == st.scans[x].(next := |st.disk[x]|)
            && end.scans.Keys == st.scans.Keys
    decreases n
  {
    if n > 0 {
      var a := ScanPrepare(x, false);
      PrepareExact(st, x, false);
      SoundStep(st, a);
      ColdScanEnds(Do(st, a), x, n - 1);
      Then(st, a, ColdScan(x, n - 1));
    }
  }

  /** A pinned source with nothing staged to replace it is scanned, released and freed: it is the newest
      Free Region, empty, and no mapping names it. */
  lemma {:induction false} ReclaimCompletes(st: Store, x: nat, t: nat)
    requires Sound(st) && x in st.scans && !st.scans[x].offered && !st.scans[x].released && !Replacing(st, x)
    requires x < |st.disk| && st.scans[x].next <= |st.disk[x]|
    ensures var run := ColdScan(x, |st.disk[x]| - st.scans[x].next);
            && Feasible(st, run) && Enabled(Execute(st, run), ReclaimRelease(x))
            && var released := Do(Execute(st, run), ReclaimRelease(x));
            && Enabled(released, ReclaimFree(x))
            && var end := Do(released, ReclaimFree(x));
            && x < |end.m.regions| && end.m.regions[x] == FreeDesc && end.m.free == st.m.free + [x]
            && x < |end.disk| && end.disk[x] == [] && (t in end.index ==> end.index[t].region != x)
  {
    var n := |st.disk[x]| - st.scans[x].next;
    ColdScanEnds(st, x, n);
    var scanned := Execute(st, ColdScan(x, n));
    assert scanned.lanes == st.lanes;
    ReleaseExact(scanned, x);
    SoundStep(scanned, ReclaimRelease(x));
    var released := Do(scanned, ReclaimRelease(x));
    FreeExact(released, x);
    if t in released.index {
      ReleasedUnnamed(released, x, t);
    }
  }

  /** A hot record survives: offered to an idle shard that takes it and flushed, its token names the copy,
      in another Region, with the same hash. */
  lemma {:induction false} HotSurvives(st: Store, x: nat, s: nat, bytes: nat) returns (copy: Rec)
    requires Sound(st) && Shape(st) && AtRecord(st, x) && !st.scans[x].offered && st.scans[x].accepting
    requires s < |st.lanes| && st.lanes[s].queue == [] && Takes(st, s, bytes) && bytes <= st.scans[x].budget && bytes <= U32_MAX
    requires var r := st.disk[x][st.scans[x].next]; Lookup(st.index, st.token(r.hash)) == Some(r.Where())
    ensures Feasible(st, [ScanPrepare(x, true)] + ([ScanOffer(x, s, bytes)] + FlushOne(s)))
    ensures var r, end := st.disk[x][st.scans[x].next], Execute(st, [ScanPrepare(x, true)] + ([ScanOffer(x, s, bytes)] + FlushOne(s)));
            && copy.hash == r.hash && copy.region == st.m.active[s] != x
            && Lookup(end.index, st.token(r.hash)) == Some(copy.Where())
            && end.disk == st.disk[st.m.active[s] := st.disk[st.m.active[s]] + [copy]]
            && x in end.scans && end.scans[x].next == st.scans[x].next + 1 && end.scans[x].spent == st.scans[x].spent + bytes
  {
    var r, a, b := st.disk[x][st.scans[x].next], ScanPrepare(x, true), ScanOffer(x, s, bytes);
    LaneOf(st, s);
    ScannedRegion(st, x);
    assert st.m.active[s] in st.m.active;
    PrepareExact(st, x, true);
    ScanExact(st, a);
    SoundStep(st, a);
    var st1 := Do(st, a);
    assert st1 in Facets(Shaped);
    OfferExact(st1, x, s, bytes);
    SoundStep(st1, b);
    var st2, staged := Do(st1, b), NextRecord(st1, s, r.hash, bytes, Some(r.Where()));
    assert st2 in Facets(Shaped);
    assert [] + [staged] == [staged];
    OfferKeepsActive(st1, x, s, bytes);
    copy := LoneFlush(st2, s, staged);
    Then(st1, b, FlushOne(s));
    Then(st, a, [b] + FlushOne(s));
  }

  lemma OfferKeepsActive(st: Store, x: nat, s: nat, bytes: nat)
    requires Sound(st) && Enabled(st, ScanOffer(x, s, bytes))
    ensures var st' := Do(st, ScanOffer(x, s, bytes));
            st'.m.active == st.m.active && s < |st'.m.shards| && s < |st.m.shards| && st'.m.shards[s].rotation == st.m.shards[s].rotation
  {
    var r := st.disk[x][st.scans[x].next];
    StageExact(st, s, r.hash, bytes, Some(r.Where()));
  }
}
