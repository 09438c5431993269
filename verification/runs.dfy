/** Whole runs of the Region manager: the invariant, the ownership partition, and receipts that are
    accepted at most once and never in a later Region generation. */
module Runs {
  import opened Machine
  import opened Regions
  import opened Collect
  import opened Pipelines
  import opened Authority
  import opened Lifecycle

  datatype Op =
    | Allocate
    | Reserve(s: nat, bytes: nat)
    | Stage(tail: Reservation)
    | Pad(s: nat)
    | Seal(s: nat)
    | SealPadded(padding: Padding)
    | Complete(span: Span)
    | RequestRotation(s: nat, bytes: nat)
    | Begin(candidate: Candidate)
    | Finish(rotation: Rotation)
    | Pin
    | Release(reclaim: Reclaim)
    | Configure(workers: nat)

  function Step(m: Manager, op: Op): Manager {
    match op
    case Allocate => AllocateSeqno(m).0
    case Reserve(s, bytes) => ReserveAppend(m, s, bytes).0
    case Stage(t) => StageReservation(m, t).0
    case Pad(s) => ReserveWritePadding(m, s).0
    case Seal(s) => SealWriteSpan(m, s).0
    case SealPadded(p) => SealWithPadding(m, p).0
    case Complete(w) => CompleteWriteSpan(m, w).0
    case RequestRotation(s, bytes) => RequestRotationForAppend(m, s, bytes).0
    case Begin(c) => BeginRotation(m, c).0
    case Finish(q) => FinishRotation(m, q).0
    case Pin => BeginReclaim(m).0
    case Release(c) => FinishReclaim(m, c).0
    case Configure(workers) => ConfigureReclaimWorkers(m, workers).0
  }

  /** The operation consumes a receipt and the manager accepts it. */
  predicate Accepts(m: Manager, op: Op) {
    match op
    case Stage(t) => StageReservation(m, t).1.Ok?
    case SealPadded(p) => SealWithPadding(m, p).1.Ok?
    case Complete(w) => CompleteWriteSpan(m, w).1.Ok?
    case Finish(q) => FinishRotation(m, q).1.Ok?
    case Release(c) => FinishReclaim(m, c).1.Ok?
    case _ => false
  }

  function Run(m: Manager, ops: seq<Op>): Manager
    decreases ops
  {
    if ops == [] then m else Run(Step(m, ops[0]), ops[1..])
  }

  lemma StepKeeps(m: Manager, op: Op)
    requires Valid(m)
    ensures Valid(Step(m, op))
  {
    match op
    case Allocate => AllocateKeeps(m);
    case Reserve(s, bytes) => ReserveKeeps(m, s, bytes);
    case Stage(t) => StageKeeps(m, t);
    case Pad(s) => PadKeeps(m, s);
    case Seal(s) => SealKeeps(m, s);
    case SealPadded(p) => SealPaddedKeeps(m, p);
    case Complete(w) => CompleteKeeps(m, w);
    case RequestRotation(s, bytes) => RequestKeeps(m, s, bytes);
    case Begin(c) => BeginRotationKeeps(m, c);
    case Finish(q) => FinishRotationKeeps(m, q);
    case Pin => BeginReclaimKeeps(m);
    case Release(c) => FinishReclaimKeeps(m, c);
    case Configure(workers) => ConfigureKeeps(m, workers);
  }

  /** Every run from a valid state stays valid, whatever operations are issued and in whatever order. */
  lemma {:induction false} RunKeeps(m: Manager, ops: seq<Op>)
    requires Valid(m)
    ensures Valid(Run(m, ops))
    decreases ops
  {
    if ops != [] {
      StepKeeps(m, ops[0]);
      RunKeeps(Step(m, ops[0]), ops[1..]);
    }
  }

  // ----- ownership partition -----

  predicate Reclaiming(m: Manager, x: nat) {
    exists k :: 0 <= k < |m.reclaiming| && m.reclaiming[k].region == x
  }

  predicate Outgoing(m: Manager, x: nat) {
    exists s :: 0 <= s < |m.shards| && m.shards[s].rotation.Some? && m.shards[s].rotation.value.outgoing == x
  }

  function One(b: bool): nat {
    if b then 1 else 0
  }

  /** Each Region has exactly one owner, and its state says which kind. */
  lemma OwnershipPartition(m: Manager, x: nat)
    requires Valid(m) && x < |m.regions|
    ensures One(x in m.active) + One(x in m.free) + One(x in m.sealed) + One(Reclaiming(m, x)) + One(Outgoing(m, x)) == 1
    ensures m.regions[x].state == Active <==> x in m.active
    ensures m.regions[x].state == Free <==> x in m.free
    ensures m.regions[x].state == Sealed <==> x in m.sealed || Reclaiming(m, x) || Outgoing(m, x)
  {
    assert m in States(Ownership);
    AllIdsSize(|m.regions|);
    assert Owned(m)[x] == 1;
    GatheredOwners(m, x);
    MemberStates(m, x);
    assert x in m.active <==> x in multiset(m.active);
    assert x in m.free <==> x in multiset(m.free);
    assert x in m.sealed <==> x in multiset(m.sealed);
  }

  lemma MemberStates(m: Manager, x: nat)
    requires Valid(m) && x < |m.regions|
    ensures x in m.active ==> m.regions[x].state == Active
    ensures x in m.free ==> m.regions[x].state == Free
    ensures x in m.sealed || Reclaiming(m, x) || Outgoing(m, x) ==> m.regions[x].state == Sealed
  {
    assert m in States(Queued);
    if x in m.active {
      var s: nat :| s < |m.active| && m.active[s] == x;
      ShardOf(m, s);
    }
    if Reclaiming(m, x) {
      var k :| 0 <= k < |m.reclaiming| && m.reclaiming[k].region == x;
      assert ReclaimOk(m, m.reclaiming[k]);
    }
  }

  lemma GatheredOwners(m: Manager, x: nat)
    ensures x in Gather(m.reclaiming, ReclaimedId) <==> Reclaiming(m, x)
    ensures x in Gather(m.shards, OutgoingId) <==> Outgoing(m, x)
  {
    if x in Gather(m.reclaiming, ReclaimedId) {
      var k := GatherSource(m.reclaiming, x, ReclaimedId);
      assert m.reclaiming[k].region == x;
    }
    if Reclaiming(m, x) {
      var k: nat :| k < |m.reclaiming| && m.reclaiming[k].region == x;
      GatherMember(m.reclaiming, k, ReclaimedId);
    }
    if x in Gather(m.shards, OutgoingId) {
      var s := GatherSource(m.shards, x, OutgoingId);
      assert m.shards[s].rotation.Some? && m.shards[s].rotation.value.outgoing == x;
    }
    if Outgoing(m, x) {
      var s: nat :| s < |m.shards| && m.shards[s].rotation.Some? && m.shards[s].rotation.value.outgoing == x;
      GatherMember(m.shards, s, OutgoingId);
    }
  }

  /** Free and pinned Regions together never exceed the capacity reserved at recovery. */
  lemma {:induction false} ReserveBounded(m: Manager, ops: seq<Op>, capacity: nat)
    requires Valid(m) && |m.active| <= capacity && |m.free| + |m.reclaiming| <= capacity
    ensures |Run(m, ops).free| + |Run(m, ops).reclaiming| <= capacity
    decreases ops
  {
    if ops != [] {
      StepKeeps(m, ops[0]);
      ReserveStep(m, ops[0]);
      ReserveBounded(Step(m, ops[0]), ops[1..], capacity);
    }
  }

  lemma ReserveStep(m: Manager, op: Op)
    requires Valid(m)
    ensures var m' := Step(m, op);
            && |m'.active| == |m.active|
            && |m'.free| + |m'.reclaiming| <= Max(|m.free| + |m.reclaiming|, |m.active|)
  {
    assert m in States(Sizes);
    match op
    case Begin(c) => SelectKinds(m, c.shard);
    case Pin => BeginReclaimKeeps(m);
    case _ =>
  }

  // ----- receipts over whole runs -----

  /** What one step may do to a shard: keep a field, clear it, or refill it from the stage before. */
  predicate ShardEvolves(sh: Shard, sh': Shard, next: nat) {
    && (sh'.tail == sh.tail || sh'.tail.None? || sh'.tail.value.seqno >= next)
    && (|| sh'.open == sh.open || sh'.open.None?
        || (sh.tail.Some? && sh'.open.value.maxSeqno >= sh.tail.value.seqno))
    && (|| sh'.submitted == sh.submitted || sh'.submitted.None?
        || (sh.open.Some? && sh'.submitted.value.maxSeqno == sh.open.value.maxSeqno))
    && (|| sh'.padding == sh.padding || sh'.padding.None?
        || (sh.open.Some? && sh'.padding.value.maxSeqno == sh.open.value.maxSeqno))
    && (sh'.rotation == sh.rotation || sh'.rotation.None? || sh'.rotation.value.created >= next)
  }

  predicate RegionEvolves(r: RegionDesc, r': RegionDesc, next: nat) {
    r'.created == r.created || r'.created == 0 || r'.created >= next
  }

  predicate Evolves(m: Manager, m': Manager) {
    && |m'.shards| == |m.shards| == |m'.active| == |m.active| && |m'.regions| == |m.regions|
    && m.nextSeqno <= m'.nextSeqno
    && (forall s :: 0 <= s < |m.shards| ==> ShardEvolves(m.shards[s], m'.shards[s], m.nextSeqno))
    && (forall x :: 0 <= x < |m.regions| ==> RegionEvolves(m.regions[x], m'.regions[x], m.nextSeqno))
    && (forall c :: c in m'.reclaiming && c !in m.reclaiming ==>
          c.region < |m.regions| && c.created == m.regions[c.region].created)
    && (forall s :: 0 <= s < |m.shards| && !m.shards[s].Quiescent() && m.active[s] < |m.regions| ==>
          m'.active[s] == m.active[s] && m'.regions[m.active[s]].created == m.regions[m.active[s]].created)
  }

  /** A step confined to one shard that keeps its Region's generation. */
  lemma ConfinedEvolves(m: Manager, m': Manager, s: nat)
    requires InRange(m) && s < |m.shards|
    requires |m'.shards| == |m.shards| && |m'.regions| == |m.regions| && m'.active == m.active
    requires m.nextSeqno <= m'.nextSeqno && m'.reclaiming == m.reclaiming
    requires m'.shards == m.shards[s := m'.shards[s]]
    requires ShardEvolves(m.shards[s], m'.shards[s], m.nextSeqno)
    requires m'.regions == m.regions[m.active[s] := m'.regions[m.active[s]]]
    requires m'.regions[m.active[s]].created == m.regions[m.active[s]].created
    ensures Evolves(m, m')
  {
  }

  lemma ReserveEvolves(m: Manager, s: nat, bytes: nat)
    requires InRange(m)
    ensures Evolves(m, ReserveAppend(m, s, bytes).0)
  {
    var m' := ReserveAppend(m, s, bytes).0;
    if m' != m {
      ConfinedEvolves(m, m', s);
    }
  }

  lemma StageEvolves(m: Manager, t: Reservation)
    requires InRange(m)
    ensures Evolves(m, StageReservation(m, t).0)
  {
    var m' := StageReservation(m, t).0;
    if m' != m {
      ConfinedEvolves(m, m', t.shard);
    }
  }

  lemma PadEvolves(m: Manager, s: nat)
    requires InRange(m)
    ensures Evolves(m, ReserveWritePadding(m, s).0)
  {
    var m' := ReserveWritePadding(m, s).0;
    if m' != m {
      ConfinedEvolves(m, m', s);
    }
  }

  lemma SealEvolves(m: Manager, s: nat)
    requires InRange(m)
    ensures Evolves(m, SealWriteSpan(m, s).0)
  {
    var m' := SealWriteSpan(m, s).0;
    if m' != m {
      ConfinedEvolves(m, m', s);
    }
  }

  lemma SealPaddedEvolves(m: Manager, p: Padding)
    requires InRange(m)
    ensures Evolves(m, SealWithPadding(m, p).0)
  {
    var m' := SealWithPadding(m, p).0;
    if m' != m {
      ConfinedEvolves(m, m', p.shard);
    }
  }

  lemma CompleteEvolves(m: Manager, w: Span)
    requires InRange(m)
    ensures Evolves(m, CompleteWriteSpan(m, w).0)
  {
    var m' := CompleteWriteSpan(m, w).0;
    if m' != m {
      ConfinedEvolves(m, m', w.shard);
    }
  }

  lemma RequestEvolves(m: Manager, s: nat, bytes: nat)
    requires InRange(m)
    ensures Evolves(m, RequestRotationForAppend(m, s, bytes).0)
  {
    var m' := RequestRotationForAppend(m, s, bytes).0;
    if m' != m {
      ConfinedEvolves(m, m', s);
    }
  }

  lemma FinishEvolves(m: Manager, q: Rotation)
    requires InRange(m)
    ensures Evolves(m, FinishRotation(m, q).0)
  {
    var m' := FinishRotation(m, q).0;
    if m' != m {
      ConfinedEvolves(m, m', q.shard);
    }
  }

  lemma StepEvolves(m: Manager, op: Op)
    requires Valid(m)
    ensures Evolves(m, Step(m, op))
  {
    assert m in States(Ranges);
    match op
    case Begin(c) => BeginEvolves(m, c);
    case Finish(q) => FinishEvolves(m, q);
    case Pin => BeginReclaimKeeps(m);
    case Release(c) => ReleaseEvolves(m, c);
    case Configure(_) =>
    case _ => AppendEvolves(m, op);
  }

  /** The operations of the append pipeline. */
  lemma AppendEvolves(m: Manager, op: Op)
    requires InRange(m) && !op.Begin? && !op.Finish? && !op.Pin? && !op.Release? && !op.Configure?
    ensures Evolves(m, Step(m, op))
  {
    match op
    case Allocate =>
    case Reserve(s, bytes) => ReserveEvolves(m, s, bytes);
    case Stage(t) => StageEvolves(m, t);
    case Pad(s) => PadEvolves(m, s);
    case Seal(s) => SealEvolves(m, s);
    case SealPadded(p) => SealPaddedEvolves(m, p);
    case Complete(w) => CompleteEvolves(m, w);
    case RequestRotation(s, bytes) => RequestEvolves(m, s, bytes);
  }

  lemma BeginEvolves(m: Manager, c: Candidate)
    requires Valid(m) && InRange(m)
    ensures Evolves(m, BeginRotation(m, c).0)
  {
    SelectKinds(m, c.shard);
    if BeginRotation(m, c).1.Ok? {
      FreeExclusive(m, 0);
      forall s | 0 <= s < |m.shards| && !m.shards[s].Quiescent()
        ensures BeginRotation(m, c).0.active[s] == m.active[s] && m.active[s] != m.free[0]
      {
        assert m.active[s] in m.active;
      }
    }
  }

  lemma ReleaseEvolves(m: Manager, c: Reclaim)
    requires Valid(m) && InRange(m)
    ensures Evolves(m, FinishReclaim(m, c).0)
  {
    FinishReclaimKeeps(m, c);
    if c in m.reclaiming {
      var k := Position(m.reclaiming, c);
      ReclaimExclusive(m, k);
      var m' := FinishReclaim(m, c).0;
      assert m' == Released(m, k);
      forall d | d in m'.reclaiming ensures d in m.reclaiming {
        var i :| 0 <= i < |m'.reclaiming| && m'.reclaiming[i] == d;
        assert d == m.reclaiming[if i == k then |m.reclaiming| - 1 else i];
      }
      forall s | 0 <= s < |m.shards| ensures m.active[s] != c.region {
        assert m.active[s] in m.active;
      }
    }
  }
}
