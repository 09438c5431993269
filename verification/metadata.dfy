/** Clean metadata: recovering a manager from a validated image and freezing a quiescent manager are
    inverse to each other. */
module Metadatas {
  import opened Machine
  import opened Regions
  import opened Collect
  import opened Pipelines
  import opened Authority
  import opened Lifecycle
  import opened IndexLayout
  import opened Bits

  const MIN_ENCODED_RECORD_SIZE := 64
  const UNASSIGNED_REGION := U32_MAX

  /** Identities that bind one image to one data file. */
  datatype Binding = Binding(
    cacheUuid: nat, dataIdentity: nat, dataGeneration: nat, imageIdentity: nat, imageGeneration: nat, fingerprint: nat)

  datatype Root = Root(
    binding: Binding,
    indexSlots: nat,
    indexPages: nat,
    regionSize: nat,
    regionCount: nat,
    partitionCount: nat,
    shardCount: nat,
    maxSeqno: nat,
    freeCount: nat,
    activeCount: nat,
    sealedCount: nat)

  datatype Record = Record(state: RegionState, ordinal: nat, created: nat, used: nat, records: nat)

  datatype Metadata = Metadata(root: Root, regions: seq<Record>, partitions: seq<Partition>)

  datatype MetadataError = InvalidField | MetadataOverflow

  function QueueLength(root: Root, state: RegionState): nat {
    match state
    case Free => root.freeCount
    case Active => root.activeCount
    case Sealed => root.sealedCount
  }

  /** The index half of `validate_root_directory`, and `validate_partitions`. */
  predicate ValidIndex(root: Root, partitions: seq<Partition>) {
    && 8 <= root.indexSlots && FitsImage(root.indexSlots)
    && root.binding.dataGeneration != 0 && root.binding.imageGeneration != 0
    && root.indexPages == Pages(root.indexSlots)
    && 0 < root.partitionCount <= MAX_INDEX_PARTITIONS && IsPowerOfTwo(root.partitionCount)
    && root.partitionCount <= root.indexPages
    && |partitions| == root.partitionCount
    && CanonicalPartitions(root.indexSlots, partitions)
  }

  /** The Region half of `validate_root_directory`. */
  predicate ValidRoot(root: Root) {
    && DIRECT_IO_ALIGNMENT <= root.regionSize <= MAX_REGION_SIZE && root.regionSize % DIRECT_IO_ALIGNMENT == 0
    && 0 < root.regionCount <= MAX_REGION_COUNT
    && 0 < root.shardCount <= MAX_SHARDS && root.shardCount < root.regionCount
    && root.maxSeqno < U64_MAX
    && root.activeCount == root.shardCount
    && root.freeCount + root.activeCount + root.sealedCount == root.regionCount
  }

  predicate ValidRecord(root: Root, r: Record) {
    && r.used <= root.regionSize && r.used % RECORD_ALIGNMENT == 0
    && r.ordinal < QueueLength(root, r.state)
    && if r.state == Free then r.created == 0 && r.used == 0 && r.records == 0
       else
         && 0 < r.created <= root.maxSeqno
         && (r.used == 0 <==> r.records == 0)
         && r.records * MIN_ENCODED_RECORD_SIZE <= r.used
  }

  /** No two Regions of one state share a queue position. */
  predicate DistinctOrdinals(q: seq<Record>) {
    forall i, j :: 0 <= i < j < |q| && q[i].state == q[j].state ==> q[i].ordinal != q[j].ordinal
  }

  /** The Region half of the root, and `validate_regions`. */
  predicate ValidRegions(root: Root, regions: seq<Record>) {
    && ValidRoot(root)
    && |regions| == root.regionCount
    && (forall i :: 0 <= i < |regions| ==> ValidRecord(root, regions[i]))
    && DistinctOrdinals(regions)
  }

  /** What `RegionMetadata::validate` accepts. */
  predicate ValidMetadata(md: Metadata) {
    ValidIndex(md.root, md.partitions) && ValidRegions(md.root, md.regions)
  }

  /** Active Regions end on a direct-I/O boundary, as every completed write leaves them. */
  predicate AlignedActives(md: Metadata) {
    forall i :: 0 <= i < |md.regions| && md.regions[i].state == Active ==> md.regions[i].used % DIRECT_IO_ALIGNMENT == 0
  }

  function Decoded(r: Record): RegionDesc {
    RegionDesc(r.state, r.created, r.used, r.used, r.records)
  }

  function QueueOf(m: Manager, state: RegionState): seq<nat> {
    match state
    case Free => m.free
    case Active => m.active
    case Sealed => m.sealed
  }

  /** m is the runtime authority described by md. */
  predicate Recovered(md: Metadata, m: Manager) {
    && m.regionSize == md.root.regionSize
    && m.nextSeqno == md.root.maxSeqno + 1
    && |m.regions| == |md.regions|
    && (forall i :: 0 <= i < |m.regions| ==> m.regions[i] == Decoded(md.regions[i]))
    && |m.active| == md.root.activeCount && |m.free| == md.root.freeCount && |m.sealed| == md.root.sealedCount
    && (forall i :: 0 <= i < |md.regions| ==> Placed(md.regions[i], m, i))
    && |m.shards| == |m.active| && (forall s :: 0 <= s < |m.shards| ==> m.shards[s] == IdleShard)
    && m.reclaiming == [] && m.reclaimLimit == 1 && m.rotations == 0
    && m.queueCapacity + |m.active| == |m.regions|
  }

  /** Region i sits at its recorded position of the queue of its state. */
  predicate Placed(r: Record, m: Manager, i: nat) {
    r.ordinal < |QueueOf(m, r.state)| && QueueOf(m, r.state)[r.ordinal] == i
  }

  /** md is the clean image of m. */
  predicate Frozen(m: Manager, binding: Binding, partitions: seq<Partition>, md: Metadata) {
    && m.nextSeqno > 0
    && md.root == Root(binding, SlotTotal(partitions), PageTotal(partitions), m.regionSize, |m.regions|, |partitions|,
                       |m.active|, m.nextSeqno - 1, |m.free|, |m.active|, |m.sealed|)
    && md.partitions == partitions
    && |md.regions| == |m.regions|
    && (forall i :: 0 <= i < |m.regions| ==>
          var r, d := md.regions[i], m.regions[i];
          r.state == d.state && r.created == d.created && r.used == d.completed && r.records == d.records)
    && Numbered(md, m.active, Active) && Numbered(md, m.free, Free) && Numbered(md, m.sealed, Sealed)
  }

  /** The k-th element of a queue carries ordinal k. */
  predicate Numbered(md: Metadata, q: seq<nat>, state: RegionState) {
    forall k :: 0 <= k < |q| ==> q[k] < |md.regions| && md.regions[q[k]].state == state && md.regions[q[k]].ordinal == k
  }

  // ----- recovery establishes the invariant -----

  /** A sequence of length n that holds every id below n holds each exactly once. */
  lemma {:induction false} Pigeonhole(q: seq<nat>, n: nat)
    requires |q| == n && forall i: nat :: i < n ==> i in q
    ensures multiset(q) == AllIds(n)
  {
    if n > 0 {
      assert n - 1 in q;
      var p: nat :| p < |q| && q[p] == n - 1;
      forall i: nat | i < n - 1 ensures i in Without(q, p) {
        WithoutHas(q, p, i);
      }
      Pigeonhole(Without(q, p), n - 1);
      WithoutCount(q, p);
    } else {
      assert q == [];
    }
  }

  lemma RecoveredOwners(md: Metadata, m: Manager)
    requires ValidMetadata(md) && Recovered(md, m)
    ensures multiset(m.active) + multiset(m.free) + multiset(m.sealed) == AllIds(|m.regions|)
  {
    var q := m.active + m.free + m.sealed;
    forall i: nat | i < |m.regions| ensures i in q {
      var r := md.regions[i];
      assert Placed(r, m, i);
      match r.state
      case Active => assert q[r.ordinal] == i;
      case Free => assert q[|m.active| + r.ordinal] == i;
      case Sealed => assert q[|m.active| + |m.free| + r.ordinal] == i;
    }
    Pigeonhole(q, |m.regions|);
  }

  /** Each queue holds exactly Regions of its state. */
  lemma RecoveredQueue(md: Metadata, m: Manager, state: RegionState, k: nat)
    requires ValidMetadata(md) && Recovered(md, m) && k < |QueueOf(m, state)|
    ensures QueueOf(m, state)[k] < |m.regions|
    ensures md.regions[QueueOf(m, state)[k]].state == state && md.regions[QueueOf(m, state)[k]].ordinal == k
  {
    var x := QueueOf(m, state)[k];
    RecoveredOwners(md, m);
    AllIdsSize(|m.regions|);
    assert x in multiset(QueueOf(m, state));
    assert x in AllIds(|m.regions|);
    var r := md.regions[x];
    assert Placed(r, m, x);
    assert x in multiset(QueueOf(m, r.state));
    if r.state == state && r.ordinal != k {
      CountTwo(QueueOf(m, state), Min(k, r.ordinal), Max(k, r.ordinal));
    }
  }

  /** Recovering a valid image whose Active Regions are aligned yields a valid manager. */
  lemma RecoverValid(md: Metadata, m: Manager)
    requires ValidMetadata(md) && AlignedActives(md) && Recovered(md, m)
    ensures Valid(m)
  {
    RecoveredRanges(md, m);
    RecoveredShards(md, m);
    RecoveredQueues(md, m);
    RecoveredOwnership(md, m);
    Closed(m);
  }

  lemma RecoveredRanges(md: Metadata, m: Manager)
    requires ValidMetadata(md) && Recovered(md, m)
    ensures m in States(Ranges) && m in States(Sizes)
  {
    forall k | 0 <= k < |m.active| ensures m.active[k] < |m.regions| { RecoveredQueue(md, m, Active, k); }
    forall k | 0 <= k < |m.free| ensures m.free[k] < |m.regions| { RecoveredQueue(md, m, Free, k); }
    forall k | 0 <= k < |m.sealed| ensures m.sealed[k] < |m.regions| { RecoveredQueue(md, m, Sealed, k); }
  }

  lemma RecoveredShards(md: Metadata, m: Manager)
    requires ValidMetadata(md) && AlignedActives(md) && Recovered(md, m) && m in States(Ranges)
    ensures m in States(Pipelined)
  {
    forall s | 0 <= s < |m.shards|
      ensures Pipeline(m.shards[s], s, m.active[s], m.regions[m.active[s]], m.nextSeqno, m.regionSize)
    {
      RecoveredQueue(md, m, Active, s);
      assert ValidRecord(md.root, md.regions[m.active[s]]);
      assert m.regions[m.active[s]] == Decoded(md.regions[m.active[s]]);
    }
  }

  lemma RecoveredQueues(md: Metadata, m: Manager)
    requires ValidMetadata(md) && Recovered(md, m) && m in States(Ranges)
    ensures m in States(Queued)
  {
    forall k | 0 <= k < |m.free| ensures m.regions[m.free[k]] == FreeDesc {
      RecoveredQueue(md, m, Free, k);
      assert ValidRecord(md.root, md.regions[m.free[k]]);
    }
    forall k | 0 <= k < |m.sealed| ensures Retired(m.regions[m.sealed[k]], m.nextSeqno, m.regionSize) {
      RecoveredQueue(md, m, Sealed, k);
      assert ValidRecord(md.root, md.regions[m.sealed[k]]);
    }
  }

  lemma RecoveredOwnership(md: Metadata, m: Manager)
    requires ValidMetadata(md) && Recovered(md, m)
    ensures m in States(Ownership)
  {
    RecoveredOwners(md, m);
    IdleOutgoing(m.shards);
  }

  lemma {:induction false} IdleOutgoing(shards: seq<Shard>)
    requires forall s :: 0 <= s < |shards| ==> shards[s].rotation.None?
    ensures Gather(shards, OutgoingId) == multiset{}
  {
    if shards != [] {
      IdleOutgoing(shards[..|shards| - 1]);
    }
  }

  // ----- round trips -----

  /** Recovering an image and freezing the result with the same identities and partitions gives the
      image back. */
  lemma RecoverThenFreeze(md: Metadata, m: Manager, frozen: Metadata)
    requires ValidMetadata(md) && Recovered(md, m)
    requires Frozen(m, md.root.binding, md.partitions, frozen)
    ensures frozen == md
  {
    forall i | 0 <= i < |md.regions| ensures frozen.regions[i] == md.regions[i] {
      assert Placed(md.regions[i], m, i);
      assert m.regions[i] == Decoded(md.regions[i]);
    }
    assert frozen.regions == md.regions;
    CanonicalTotals(md.root.indexSlots, md.partitions);
  }

  /** Freezing a valid quiescent manager and recovering the image restores every descriptor, the
      order of all three queues and the next sequence number. */
  lemma FreezeThenRecover(m: Manager, binding: Binding, partitions: seq<Partition>, md: Metadata, m': Manager)
    requires Valid(m) && Quiet(m)
    requires Frozen(m, binding, partitions, md) && Recovered(md, m')
    ensures m'.regions == m.regions && m'.regionSize == m.regionSize
    ensures m'.active == m.active && m'.free == m.free && m'.sealed == m.sealed
    ensures m'.nextSeqno == m.nextSeqno <= U64_MAX && m'.queueCapacity == m.queueCapacity
  {
    assert m in States(Sizes) && m in States(Ranges);
    forall i | 0 <= i < |m.regions| ensures m'.regions[i] == m.regions[i] {
      QuietRegion(m, i);
      assert m'.regions[i] == Decoded(md.regions[i]);
    }
    forall k | 0 <= k < |m.active| ensures m'.active[k] == m.active[k] {
      assert Placed(md.regions[m.active[k]], m', m.active[k]);
    }
    forall k | 0 <= k < |m.free| ensures m'.free[k] == m.free[k] {
      assert Placed(md.regions[m.free[k]], m', m.free[k]);
    }
    forall k | 0 <= k < |m.sealed| ensures m'.sealed[k] == m.sealed[k] {
      assert Placed(md.regions[m.sealed[k]], m', m.sealed[k]);
    }
  }

  /** No receipt of any kind is outstanding. */
  predicate Quiet(m: Manager) {
    m.reclaiming == [] && forall s :: 0 <= s < |m.shards| ==> m.shards[s].Quiescent()
  }

  /** In a quiet valid manager every Region is in one of the three queues, fully completed. */
  lemma QuietRegion(m: Manager, x: nat)
    requires Valid(m) && Quiet(m) && x < |m.regions|
    ensures m.regions[x].reserved == m.regions[x].completed
    ensures x in QueueOf(m, m.regions[x].state)
    ensures m.regions[x].state == Free ==> m.regions[x] == FreeDesc
    ensures m.regions[x].state != Free ==>
              && 0 < m.regions[x].created < m.nextSeqno && m.regions[x].completed <= m.regionSize
              && m.regions[x].completed % RECORD_ALIGNMENT == 0
    ensures m.regions[x].state == Active ==> m.regions[x].completed % DIRECT_IO_ALIGNMENT == 0
  {
    QuietOwner(m, x);
    if x in m.active {
      var s: nat :| s < |m.active| && m.active[s] == x;
      assert m in States(Ranges);
      ShardOf(m, s);
    } else if x in m.free {
      var i: nat :| i < |m.free| && m.free[i] == x;
      FreeIs(m, i);
    } else {
      var i: nat :| i < |m.sealed| && m.sealed[i] == x;
      SealedIs(m, i);
    }
  }

  lemma QuietOwner(m: Manager, x: nat)
    requires Valid(m) && Quiet(m) && x < |m.regions|
    ensures x in m.active || x in m.free || x in m.sealed
  {
    assert m in States(Ownership);
    AllIdsSize(|m.regions|);
    IdleOutgoing(m.shards);
    assert x in AllIds(|m.regions|);
  }

  // ----- when the frozen image is accepted again -----

  /** The record counts that `validate` demands of an allocated Region. */
  predicate Countable(d: RegionDesc) {
    d.state != Free ==>
      && (d.completed == 0 <==> d.records == 0)
      && d.records * MIN_ENCODED_RECORD_SIZE <= d.completed
  }

  /** The index side of a freeze: identities that were published, and the canonical partition directory
      of at least eight slots. */
  predicate IndexAccepted(binding: Binding, partitions: seq<Partition>) {
    && binding.dataGeneration != 0 && binding.imageGeneration != 0
    && 8 <= SlotTotal(partitions) && CanonicalPartitions(SlotTotal(partitions), partitions)
  }

  /** The image of a quiet valid manager is valid exactly when its index side is accepted and each Region
      holds at least one record per non-empty prefix and at least 64 bytes per record; its Active Regions
      are always aligned. */
  lemma FreezeValid(m: Manager, binding: Binding, partitions: seq<Partition>, md: Metadata)
    requires Valid(m) && Quiet(m) && Frozen(m, binding, partitions, md)
    ensures ValidMetadata(md) <==>
              IndexAccepted(binding, partitions) && forall x :: 0 <= x < |m.regions| ==> Countable(m.regions[x])
    ensures AlignedActives(md)
  {
    FreezeIndex(md.root, binding, partitions);
    FreezeRegions(m, binding, partitions, md);
  }

  lemma {:induction false} FreezeIndex(root: Root, binding: Binding, partitions: seq<Partition>)
    requires root.binding == binding && root.indexSlots == SlotTotal(partitions) && root.indexPages == PageTotal(partitions)
    requires root.partitionCount == |partitions|
    ensures ValidIndex(root, partitions) <==> IndexAccepted(binding, partitions)
  {
    if IndexAccepted(binding, partitions) {
      CanonicalTotals(SlotTotal(partitions), partitions);
    }
  }

  lemma FreezeRegions(m: Manager, binding: Binding, partitions: seq<Partition>, md: Metadata)
    requires Valid(m) && Quiet(m) && Frozen(m, binding, partitions, md)
    ensures ValidRegions(md.root, md.regions) <==> forall x :: 0 <= x < |m.regions| ==> Countable(m.regions[x])
    ensures AlignedActives(md)
  {
    assert m in States(Sizes) && m in States(Ranges);
    FrozenCounts(m);
    forall x | 0 <= x < |m.regions|
      ensures ValidRecord(md.root, md.regions[x]) <==> Countable(m.regions[x])
      ensures m.regions[x].state == Active ==> md.regions[x].used % DIRECT_IO_ALIGNMENT == 0
    {
      QuietRegion(m, x);
      FrozenOrdinal(m, binding, partitions, md, x);
    }
    forall i, j | 0 <= i < j < |md.regions| && md.regions[i].state == md.regions[j].state
      ensures md.regions[i].ordinal != md.regions[j].ordinal
    {
      FrozenOrdinal(m, binding, partitions, md, i);
      FrozenOrdinal(m, binding, partitions, md, j);
    }
  }

  lemma FrozenCounts(m: Manager)
    requires Valid(m) && Quiet(m)
    ensures |m.free| + |m.active| + |m.sealed| == |m.regions|
  {
    assert m in States(Ownership);
    AllIdsSize(|m.regions|);
    IdleOutgoing(m.shards);
    assert Gather(m.reclaiming, ReclaimedId) == multiset{};
  }

  /** A Region's ordinal is its position in the queue of its state. */
  lemma FrozenOrdinal(m: Manager, binding: Binding, partitions: seq<Partition>, md: Metadata, x: nat)
    requires Valid(m) && Quiet(m) && Frozen(m, binding, partitions, md) && x < |m.regions|
    ensures var q := QueueOf(m, m.regions[x].state);
            md.regions[x].ordinal < |q| && q[md.regions[x].ordinal] == x
  {
    QuietRegion(m, x);
    var q := QueueOf(m, m.regions[x].state);
    var k :| 0 <= k < |q| && q[k] == x;
  }
}
