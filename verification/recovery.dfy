/** `from_metadata` and `freeze_metadata`: the loops that rebuild and number the Region queues. */
module Recovery {
  import opened Machine
  import opened Regions
  import opened Collect
  import opened Pipelines
  import opened Authority
  import opened Lifecycle
  import opened Metadatas
  import opened IndexLayout
  import opened Managers

  // ----- recovery -----

  /** The three queues under construction. */
  datatype Queues = Queues(active: seq<nat>, free: seq<nat>, sealed: seq<nat>) {
    function Of(state: RegionState): seq<nat> {
      match state
      case Active => active
      case Free => free
      case Sealed => sealed
    }

    function Put(state: RegionState, ordinal: nat, id: nat): Queues
      requires ordinal < |Of(state)|
    {
      match state
      case Active => Queues(active[ordinal := id], free, sealed)
      case Free => Queues(active, free[ordinal := id], sealed)
      case Sealed => Queues(active, free, sealed[ordinal := id])
    }
  }

  predicate Sized(md: Metadata, q: Queues) {
    |q.active| == md.root.activeCount && |q.free| == md.root.freeCount && |q.sealed| == md.root.sealedCount
  }

  /** Every assigned slot of one queue names a Region below `seen` recorded at that position. */
  predicate AssignedIn(md: Metadata, q: seq<nat>, state: RegionState, seen: nat)
    requires seen <= |md.regions|
  {
    forall k :: 0 <= k < |q| && q[k] != UNASSIGNED_REGION ==>
      q[k] < seen && md.regions[q[k]].state == state && md.regions[q[k]].ordinal == k
  }

  predicate Assigned(md: Metadata, q: Queues, seen: nat)
    requires seen <= |md.regions|
  {
    AssignedIn(md, q.active, Active, seen) && AssignedIn(md, q.free, Free, seen) && AssignedIn(md, q.sealed, Sealed, seen)
  }

  /** Region i has been installed at its recorded position. */
  predicate Installed(r: Record, q: Queues, i: nat) {
    r.ordinal < |q.Of(r.state)| && q.Of(r.state)[r.ordinal] == i
  }

  /** Distinct ordinals keep a Region's slot unassigned until its turn. */
  lemma SlotFree(md: Metadata, q: Queues, id: nat)
    requires ValidMetadata(md) && id < |md.regions| && Sized(md, q) && Assigned(md, q, id)
    ensures var r := md.regions[id]; r.ordinal < |q.Of(r.state)| && q.Of(r.state)[r.ordinal] == UNASSIGNED_REGION
  {
    assert ValidRecord(md.root, md.regions[id]);
    assert AssignedIn(md, q.Of(md.regions[id].state), md.regions[id].state, id);
  }

  predicate InstalledUpTo(md: Metadata, q: Queues, id: nat)
    requires id <= |md.regions|
  {
    forall i :: 0 <= i < id ==> Installed(md.regions[i], q, i)
  }

  lemma PutAssigned(md: Metadata, q: seq<nat>, state: RegionState, id: nat)
    requires id < |md.regions| && AssignedIn(md, q, state, id)
    ensures AssignedIn(md, q, state, id + 1)
    ensures md.regions[id].state == state && md.regions[id].ordinal < |q| ==>
              AssignedIn(md, q[md.regions[id].ordinal := id], state, id + 1)
  {
  }

  /** Installing a Region in an unassigned slot disturbs no earlier Region. */
  lemma PutKeeps(md: Metadata, q: Queues, id: nat)
    requires id < |md.regions| && id < UNASSIGNED_REGION
    requires Sized(md, q) && Assigned(md, q, id) && InstalledUpTo(md, q, id)
    requires var r := md.regions[id]; r.ordinal < |q.Of(r.state)| && q.Of(r.state)[r.ordinal] == UNASSIGNED_REGION
    ensures var q' := q.Put(md.regions[id].state, md.regions[id].ordinal, id);
            Sized(md, q') && Assigned(md, q', id + 1) && InstalledUpTo(md, q', id + 1)
  {
    PutAssigned(md, q.active, Active, id);
    PutAssigned(md, q.free, Free, id);
    PutAssigned(md, q.sealed, Sealed, id);
    PutInstalls(md, q, id);
  }

  lemma PutInstalls(md: Metadata, q: Queues, id: nat)
    requires id < |md.regions| && id < UNASSIGNED_REGION && InstalledUpTo(md, q, id)
    requires var r := md.regions[id]; r.ordinal < |q.Of(r.state)| && q.Of(r.state)[r.ordinal] == UNASSIGNED_REGION
    ensures InstalledUpTo(md, q.Put(md.regions[id].state, md.regions[id].ordinal, id), id + 1)
  {
    var q' := q.Put(md.regions[id].state, md.regions[id].ordinal, id);
    forall i | 0 <= i < id + 1 ensures Installed(md.regions[i], q', i) {
      if i < id {
        assert Installed(md.regions[i], q, i);
      }
    }
  }

  /** Once every Region is installed, no queue slot is left over. */
  lemma NoneUnassigned(md: Metadata, q: Queues)
    requires ValidMetadata(md) && Sized(md, q)
    requires InstalledUpTo(md, q, |md.regions|)
    ensures UNASSIGNED_REGION !in q.active + q.free + q.sealed
  {
    var all, n := q.active + q.free + q.sealed, |md.regions|;
    forall i: nat | i < n ensures i in all {
      var r := md.regions[i];
      assert Installed(r, q, i);
      match r.state
      case Active => assert all[r.ordinal] == i;
      case Free => assert all[|q.active| + r.ordinal] == i;
      case Sealed => assert all[|q.active| + |q.free| + r.ordinal] == i;
    }
    Pigeonhole(all, n);
    AllIdsSize(n);
    assert forall x :: x in all ==> x in multiset(all);
  }

  /** Installs one recovered Region, if its queue position is still unassigned. */
  method InstallRegion(md: Metadata, queues: Queues, id: nat) returns (next: Option<Queues>)
    requires id < |md.regions| <= UNASSIGNED_REGION && Sized(md, queues) && Assigned(md, queues, id) && InstalledUpTo(md, queues, id)
    ensures ValidMetadata(md) ==> next.Some?
    ensures next.Some? ==> Sized(md, next.value) && Assigned(md, next.value, id + 1) && InstalledUpTo(md, next.value, id + 1)
  {
    if ValidMetadata(md) {
      SlotFree(md, queues, id);
    }
    var encoded := md.regions[id];
    var target := queues.Of(encoded.state);
    if encoded.ordinal >= |target| || target[encoded.ordinal] != UNASSIGNED_REGION {
      return None;
    }
    PutKeeps(md, queues, id);
    next := Some(queues.Put(encoded.state, encoded.ordinal, id));
  }

  /** Installs every recovered Region at its queue position; cannot fail on valid metadata. */
  method InstallRecovered(md: Metadata) returns (r: Result<(seq<RegionDesc>, Queues), MetadataError>)
    ensures ValidMetadata(md) ==> r.Ok?
    ensures r.Ok? ==> Sized(md, r.value.1) && |r.value.0| == |md.regions|
    ensures r.Ok? ==> forall i :: 0 <= i < |md.regions| ==> r.value.0[i] == Decoded(md.regions[i])
    ensures r.Ok? ==> InstalledUpTo(md, r.value.1, |md.regions|)
    ensures r.Ok? ==> UNASSIGNED_REGION !in r.value.1.active + r.value.1.free + r.value.1.sealed
  {
    if |md.regions| > UNASSIGNED_REGION {
      return Err(MetadataOverflow);
    }
    var queues := InstallAll(md);
    if queues.None? {
      return Err(InvalidField);
    }
    if ValidMetadata(md) {
      NoneUnassigned(md, queues.value);
    }
    if UNASSIGNED_REGION in queues.value.active + queues.value.free + queues.value.sealed {
      return Err(InvalidField);
    }
    r := Ok((seq(|md.regions|, i requires 0 <= i < |md.regions| => Decoded(md.regions[i])), queues.value));
  }

  method InstallAll(md: Metadata) returns (q: Option<Queues>)
    requires |md.regions| <= UNASSIGNED_REGION
    ensures ValidMetadata(md) ==> q.Some?
    ensures q.Some? ==> Sized(md, q.value) && InstalledUpTo(md, q.value, |md.regions|)
  {
    var queues := Queues(seq(md.root.activeCount, _ => UNASSIGNED_REGION), seq(md.root.freeCount, _ => UNASSIGNED_REGION),
                         seq(md.root.sealedCount, _ => UNASSIGNED_REGION));
    for id := 0 to |md.regions|
      invariant Sized(md, queues) && Assigned(md, queues, id) && InstalledUpTo(md, queues, id)
    {
      var next := InstallRegion(md, queues, id);
      if next.None? {
        return None;
      }
      queues := next.value;
    }
    q := Some(queues);
  }

  /** Rebuilds runtime authority; succeeds exactly on valid metadata. */
  method FromMetadata(md: Metadata) returns (r: Result<RegionManager, MetadataError>)
    ensures r.Ok? <==> ValidMetadata(md)
    ensures r.Ok? ==> fresh(r.value) && Recovered(md, r.value.View())
    ensures r.Ok? && AlignedActives(md) ==> r.value.Healthy()
  {
    if !ValidMetadata(md) {
      return Err(InvalidField);
    }
    var installed := InstallRecovered(md);
    var (regions, queues) := installed.value;
    if md.root.maxSeqno + 1 > U64_MAX {
      return Err(MetadataOverflow);
    }
    var manager := new RegionManager(md.root.regionSize, md.root.maxSeqno, regions, queues.active, queues.free, queues.sealed);
    ghost var m := manager.View();
    forall i | 0 <= i < |md.regions| ensures Placed(md.regions[i], m, i) {
      assert Installed(md.regions[i], queues, i);
    }
    if AlignedActives(md) {
      RecoverValid(md, m);
    }
    r := Ok(manager);
  }

  // ----- freeze -----

  /** The queue can be numbered: known Regions of the expected state, each still unnumbered. */
  predicate Numberable(regions: seq<RegionDesc>, state: RegionState, q: seq<nat>, ordinals: seq<nat>)
    requires |ordinals| == |regions|
  {
    && (forall k :: 0 <= k < |q| ==> q[k] < |regions| && regions[q[k]].state == state && ordinals[q[k]] == UNASSIGNED_REGION)
    && (forall j, k :: 0 <= j < k < |q| ==> q[j] != q[k])
  }

  method InstallLiveQueue(regions: seq<RegionDesc>, state: RegionState, q: seq<nat>, ordinals: seq<nat>)
    returns (r: Result<seq<nat>, MetadataError>)
    requires |ordinals| == |regions| < UNASSIGNED_REGION && |q| <= |regions|
    ensures r.Ok? <==> Numberable(regions, state, q, ordinals)
    ensures r.Ok? ==> |r.value| == |regions| && forall k :: 0 <= k < |q| ==> r.value[q[k]] == k
    ensures r.Ok? ==> forall x :: 0 <= x < |regions| && x !in q ==> r.value[x] == ordinals[x]
  {
    var out := ordinals;
    for k := 0 to |q|
      invariant |out| == |regions|
      invariant Numberable(regions, state, q[..k], ordinals)
      invariant forall j :: 0 <= j < k ==> out[q[j]] == j
      invariant forall x :: 0 <= x < |regions| && x !in q[..k] ==> out[x] == ordinals[x]
    {
      var id := q[k];
      assert q[..k + 1] == q[..k] + [id];
      if id >= |regions| {
        return Err(InvalidField);
      }
      if regions[id].state != state || out[id] != UNASSIGNED_REGION {
        assert id in q[..k] ==> exists j :: 0 <= j < k && q[j] == id;
        return Err(InvalidField);
      }
      assert id !in q[..k];
      out := out[id := k];
    }
    assert q[..|q|] == q;
    r := Ok(out);
  }

  /** Sums one partition column with checked addition. */
  method PartitionTotals(partitions: seq<Partition>) returns (r: Option<(nat, nat)>)
    ensures r == if PageTotal(partitions) <= U64_MAX && SlotTotal(partitions) <= U64_MAX
                 then Some((PageTotal(partitions), SlotTotal(partitions))) else None
  {
    var pages: nat, slots: nat := 0, 0;
    for k := 0 to |partitions|
      invariant pages == PageTotal(partitions[..k]) <= U64_MAX
      invariant slots == SlotTotal(partitions[..k]) <= U64_MAX
    {
      assert partitions[..k + 1][..k] == partitions[..k];
      TotalsGrow(partitions, k + 1);
      if pages + partitions[k].pages > U64_MAX || slots + partitions[k].slots > U64_MAX {
        return None;
      }
      pages := pages + partitions[k].pages;
      slots := slots + partitions[k].slots;
    }
    assert partitions[..|partitions|] == partitions;
    r := Some((pages, slots));
  }

  lemma {:induction false} AcceptedFits(binding: Binding, partitions: seq<Partition>)
    ensures IndexAccepted(binding, partitions) ==>
              |partitions| <= U32_MAX && PageTotal(partitions) <= U64_MAX && SlotTotal(partitions) <= U64_MAX
  {
    if IndexAccepted(binding, partitions) {
      CanonicalTotals(SlotTotal(partitions), partitions);
    }
  }

  lemma {:induction false} TotalsGrow(q: seq<Partition>, k: nat)
    requires k <= |q|
    ensures PageTotal(q[..k]) <= PageTotal(q) && SlotTotal(q[..k]) <= SlotTotal(q)
    decreases |q|
  {
    if k == |q| {
      assert q[..k] == q;
    } else {
      var p := q[..|q| - 1];
      assert p[..k] == q[..k];
      TotalsGrow(p, k);
    }
  }

  /** A queue of a valid manager whose Regions are all unnumbered can be numbered. */
  lemma QueueNumberable(m: Manager, state: RegionState, ordinals: seq<nat>)
    requires Valid(m) && |ordinals| == |m.regions|
    requires forall x :: 0 <= x < |m.regions| && m.regions[x].state == state ==> ordinals[x] == UNASSIGNED_REGION
    ensures Numberable(m.regions, state, QueueOf(m, state), ordinals)
    ensures |QueueOf(m, state)| <= |m.regions|
  {
    var q := QueueOf(m, state);
    OwnerCount(m);
    forall k: nat | k < |q| ensures q[k] < |m.regions| && m.regions[q[k]].state == state {
      match state
      case Active => assert m in States(Ranges); ShardOf(m, k);
      case Free => FreeIs(m, k);
      case Sealed => SealedIs(m, k);
    }
    forall j: nat, k: nat | j < k < |q| ensures q[j] != q[k] {
      if q[j] == q[k] {
        CountTwo(q, j, k);
        OwnedOnce(m, q[j]);
      }
    }
  }

  /** Numbers the three queues of a quiet manager; every Region ends up with its queue position. */
  method FreezeQueueOrdinals(manager: RegionManager) returns (ordinals: seq<nat>)
    requires manager.Healthy() && Quiet(manager.View())
    ensures |ordinals| == |manager.regions|
    ensures forall k :: 0 <= k < |manager.activeRegions| ==>
              manager.activeRegions[k] < |ordinals| && ordinals[manager.activeRegions[k]] == k
    ensures forall k :: 0 <= k < |manager.freeRegions| ==>
              manager.freeRegions[k] < |ordinals| && ordinals[manager.freeRegions[k]] == k
    ensures forall k :: 0 <= k < |manager.sealedRegions| ==>
              manager.sealedRegions[k] < |ordinals| && ordinals[manager.sealedRegions[k]] == k
    ensures Numberable(manager.regions, Active, manager.activeRegions, seq(|manager.regions|, _ => UNASSIGNED_REGION))
    ensures Numberable(manager.regions, Free, manager.freeRegions, seq(|manager.regions|, _ => UNASSIGNED_REGION))
    ensures Numberable(manager.regions, Sealed, manager.sealedRegions, seq(|manager.regions|, _ => UNASSIGNED_REGION))
  {
    ghost var m := manager.View();
    assert m in States(Sizes);
    var regions := manager.regions;
    ordinals := seq(|regions|, _ => UNASSIGNED_REGION);
    QueueNumberable(m, Active, ordinals);
    QueueNumberable(m, Free, ordinals);
    QueueNumberable(m, Sealed, ordinals);
    var numbered := InstallLiveQueue(regions, Active, manager.activeRegions, ordinals);
    QueueDisjoint(m, Active, ordinals, numbered.value);
    QueueNumberable(m, Free, numbered.value);
    var withFree := InstallLiveQueue(regions, Free, manager.freeRegions, numbered.value);
    QueueDisjoint(m, Free, numbered.value, withFree.value);
    QueueNumberable(m, Sealed, withFree.value);
    var complete := InstallLiveQueue(regions, Sealed, manager.sealedRegions, withFree.value);
    QueueDisjoint(m, Sealed, withFree.value, complete.value);
    ordinals := complete.value;
  }

  /** Freezes the manager into a clean image; succeeds exactly when no receipt is outstanding, the
      index side is accepted, and the Region counts are those an image may carry. */
  method FreezeMetadata(manager: RegionManager, binding: Binding, partitions: seq<Partition>)
    returns (r: Result<Metadata, MetadataError>)
    requires manager.Healthy()
    ensures r.Ok? <==>
              && Quiet(manager.View())
              && IndexAccepted(binding, partitions)
              && forall x :: 0 <= x < |manager.regions| ==> Countable(manager.regions[x])
    ensures r.Ok? ==> Frozen(manager.View(), binding, partitions, r.value)
    ensures r.Ok? ==> ValidMetadata(r.value) && AlignedActives(r.value)
  {
    ghost var m := manager.View();
    assert m in States(Sizes);
    var regions := manager.regions;
    if manager.reclaiming != [] || exists s :: 0 <= s < |manager.appendStates| && !manager.appendStates[s].Quiescent() {
      return Err(InvalidField);
    }
    assert Quiet(m);
    AcceptedFits(binding, partitions);
    if |partitions| > U32_MAX {
      return Err(MetadataOverflow);
    }
    var totals := PartitionTotals(partitions);
    if totals.None? {
      return Err(MetadataOverflow);
    }
    var complete := FreezeQueueOrdinals(manager);
    var records: seq<Record> := [];
    for id := 0 to |regions|
      invariant |records| == id
      invariant forall i :: 0 <= i < id ==>
                  records[i] == Record(regions[i].state, complete[i], regions[i].created, regions[i].completed, regions[i].records)
    {
      QuietRegion(m, id);
      if regions[id].reserved != regions[id].completed {
        return Err(InvalidField);
      }
      records := records + [Record(regions[id].state, complete[id], regions[id].created, regions[id].completed, regions[id].records)];
    }
    var root := Root(binding, totals.value.1, totals.value.0, manager.regionSize, |regions|, |partitions|,
                     |manager.activeRegions|, manager.nextSeqno - 1, |manager.freeRegions|, |manager.activeRegions|,
                     |manager.sealedRegions|);
    var md := Metadata(root, records, partitions);
    assert Frozen(m, binding, partitions, md);
    FreezeValid(m, binding, partitions, md);
    if !ValidMetadata(md) {
      return Err(InvalidField);
    }
    r := Ok(md);
  }

  /** Numbering one queue leaves the Regions of other states as they were. */
  lemma QueueDisjoint(m: Manager, state: RegionState, before: seq<nat>, after: seq<nat>)
    requires Valid(m) && |before| == |after| == |m.regions|
    requires forall x :: 0 <= x < |m.regions| && x !in QueueOf(m, state) ==> after[x] == before[x]
    ensures forall x :: 0 <= x < |m.regions| && m.regions[x].state != state ==> after[x] == before[x]
  {
    forall x | 0 <= x < |m.regions| && m.regions[x].state != state ensures x !in QueueOf(m, state) {
      if x in QueueOf(m, state) {
        var k: nat :| k < |QueueOf(m, state)| && QueueOf(m, state)[k] == x;
        match state
        case Active => assert m in States(Ranges); ShardOf(m, k);
        case Free => FreeIs(m, k);
        case Sealed => SealedIs(m, k);
      }
    }
  }
}
