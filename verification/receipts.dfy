/** Receipts over whole runs of the Region manager: each is accepted at most once, and never in a
    Region generation other than the one it was issued for. */
module Receipts {
  import opened Machine
  import opened Regions
  import opened Pipelines
  import opened Authority
  import opened Lifecycle
  import opened Runs

  /** Everything still ahead of the submitted stage carries a later sequence number than k. */
  predicate Later(sh: Shard, k: nat) {
    && (sh.tail.Some? ==> sh.tail.value.seqno > k)
    && (sh.open.Some? ==> sh.open.value.maxSeqno > k)
  }

  /** The receipt consumed by `op` can no longer be accepted. */
  predicate Spent(m: Manager, op: Op) {
    match op
    case Stage(t) =>
      t.shard < |m.shards| ==> t.seqno < m.nextSeqno && m.shards[t.shard].tail != Some(t)
    case SealPadded(p) =>
      p.shard < |m.shards| ==>
        var sh := m.shards[p.shard];
        p.maxSeqno < m.nextSeqno && Later(sh, p.maxSeqno) && (sh.padding.Some? ==> sh.padding.value.maxSeqno > p.maxSeqno)
    case Complete(w) =>
      w.shard < |m.shards| ==>
        var sh := m.shards[w.shard];
        w.maxSeqno < m.nextSeqno && Later(sh, w.maxSeqno) && (sh.submitted.Some? ==> sh.submitted.value.maxSeqno > w.maxSeqno)
    case Finish(q) =>
      q.shard < |m.shards| ==> q.created < m.nextSeqno && m.shards[q.shard].rotation != Some(q)
    case Release(c) =>
      && c !in m.reclaiming && 0 < c.created < m.nextSeqno
      && (c.region < |m.regions| ==> m.regions[c.region].created != c.created)
    case _ => false
  }

  lemma SpentRefused(m: Manager, op: Op)
    requires Spent(m, op)
    ensures !Accepts(m, op)
  {
  }

  lemma SpentShard(m: Manager, m': Manager, op: Op)
    requires Evolves(m, m') && Spent(m, op) && (op.Stage? || op.SealPadded? || op.Complete? || op.Finish?)
    ensures Spent(m', op)
  {
    match op
    case Stage(t) =>
    case SealPadded(p) =>
    case Complete(w) =>
    case Finish(q) =>
  }

  lemma SpentRegion(m: Manager, m': Manager, c: Reclaim)
    requires Evolves(m, m') && Spent(m, Release(c))
    ensures Spent(m', Release(c))
  {
    if c.region < |m.regions| {
      assert RegionEvolves(m.regions[c.region], m'.regions[c.region], m.nextSeqno);
    }
  }

  lemma SpentStable(m: Manager, op: Op, other: Op)
    requires Valid(m) && Spent(m, op)
    ensures Spent(Step(m, other), op)
  {
    StepEvolves(m, other);
    if op.Release? {
      SpentRegion(m, Step(m, other), op.reclaim);
    } else {
      SpentShard(m, Step(m, other), op);
    }
  }

  /** Accepting a receipt spends it. */
  lemma AcceptSpends(m: Manager, op: Op)
    requires Valid(m) && Accepts(m, op)
    ensures Spent(Step(m, op), op)
  {
    match op
    case Stage(t) => ShardOf(m, t.shard);
    case SealPadded(p) => ShardOf(m, p.shard);
    case Complete(w) => ShardOf(m, w.shard);
    case Finish(q) => ShardOf(m, q.shard);
    case Release(c) =>
      FinishReclaimKeeps(m, c);
      var k := Position(m.reclaiming, c);
      ReclaimExclusive(m, k);
      PinnedCreated(m, k);
      assert Step(m, op) == Released(m, k);
      assert c !in Released(m, k).reclaiming;
  }

  lemma PinnedCreated(m: Manager, k: nat)
    requires Valid(m) && k < |m.reclaiming|
    ensures 0 < m.reclaiming[k].created < m.nextSeqno
    ensures m.reclaiming[k].region < |m.regions|
    ensures m.regions[m.reclaiming[k].region].created == m.reclaiming[k].created
  {
    PinnedIs(m, k);
  }

  lemma {:induction false} SpentForever(m: Manager, op: Op, ops: seq<Op>)
    requires Valid(m) && Spent(m, op)
    ensures Spent(Run(m, ops), op)
    decreases ops
  {
    if ops != [] {
      SpentStable(m, op, ops[0]);
      StepKeeps(m, ops[0]);
      SpentForever(Step(m, ops[0]), op, ops[1..]);
    }
  }

  /** Exactly once: after a receipt has been accepted, no continuation of the run accepts it again. */
  lemma {:induction false} AcceptedOnce(m: Manager, op: Op, ops: seq<Op>)
    requires Valid(m) && Accepts(m, op)
    ensures !Accepts(Run(Step(m, op), ops), op)
  {
    AcceptSpends(m, op);
    StepKeeps(m, op);
    SpentForever(Step(m, op), op, ops);
    SpentRefused(Run(Step(m, op), ops), op);
  }

  // ----- generations -----

  /** The Region named by the receipt is in generation g. */
  predicate InGeneration(m: Manager, region: nat, g: nat) {
    region < |m.regions| && m.regions[region].created == g
  }

  /** The write span is in flight in generation g of its Region, or can no longer complete. */
  predicate SpanHeld(m: Manager, w: Span, g: nat) {
    || (w.shard < |m.shards| && m.shards[w.shard].submitted == Some(w) && InGeneration(m, w.region, g))
    || Spent(m, Complete(w))
  }

  lemma SpanHeldStep(m: Manager, w: Span, g: nat, op: Op)
    requires Valid(m) && SpanHeld(m, w, g)
    ensures SpanHeld(Step(m, op), w, g)
  {
    var m' := Step(m, op);
    if Spent(m, Complete(w)) {
      SpentStable(m, Complete(w), op);
    } else {
      StepEvolves(m, op);
      ShardOf(m, w.shard);
      assert ShardEvolves(m.shards[w.shard], m'.shards[w.shard], m.nextSeqno);
      assert !m.shards[w.shard].Quiescent();
    }
  }

  /** A write span issued in one generation never completes in another. */
  lemma {:induction false} SpanGeneration(m: Manager, w: Span, g: nat, ops: seq<Op>)
    requires Valid(m) && SpanHeld(m, w, g)
    ensures Accepts(Run(m, ops), Complete(w)) ==> InGeneration(Run(m, ops), w.region, g)
    decreases ops
  {
    if ops == [] {
      if Spent(m, Complete(w)) {
        SpentRefused(m, Complete(w));
      }
    } else {
      SpanHeldStep(m, w, g, ops[0]);
      StepKeeps(m, ops[0]);
      SpanGeneration(Step(m, ops[0]), w, g, ops[1..]);
    }
  }

  predicate PaddingHeld(m: Manager, p: Padding, g: nat) {
    || (p.shard < |m.shards| && m.shards[p.shard].padding == Some(p) && InGeneration(m, p.region, g))
    || Spent(m, SealPadded(p))
  }

  lemma PaddingHeldStep(m: Manager, p: Padding, g: nat, op: Op)
    requires Valid(m) && PaddingHeld(m, p, g)
    ensures PaddingHeld(Step(m, op), p, g)
  {
    var m' := Step(m, op);
    if Spent(m, SealPadded(p)) {
      SpentStable(m, SealPadded(p), op);
    } else {
      StepEvolves(m, op);
      StepKeeps(m, op);
      ShardOf(m, p.shard);
      if m'.shards[p.shard].padding != Some(p) {
        PaddingLeaves(m, p, op);
      } else {
        assert !m.shards[p.shard].Quiescent();
      }
    }
  }

  /** Only sealing takes a pending padding receipt away, and it leaves nothing older behind. */
  lemma PaddingLeaves(m: Manager, p: Padding, op: Op)
    requires Valid(m) && p.shard < |m.shards| && m.shards[p.shard].padding == Some(p)
    requires p.shard < |Step(m, op).shards| && Step(m, op).shards[p.shard].padding != Some(p)
    ensures op == SealPadded(p) && Accepts(m, op) && Spent(Step(m, op), SealPadded(p))
  {
    ShardOf(m, p.shard);
    match op
    case Begin(c) => SelectKinds(m, c.shard);
    case Pin => BeginReclaimKeeps(m);
    case SealPadded(p') =>
      SealPaddedKeeps(m, p');
      if p'.shard < |m.shards| {
        ShardOf(m, p'.shard);
      }
      AcceptSpends(m, op);
    case _ =>
  }

  /** A padding receipt issued in one generation never seals a span of another. */
  lemma {:induction false} PaddingGeneration(m: Manager, p: Padding, g: nat, ops: seq<Op>)
    requires Valid(m) && PaddingHeld(m, p, g)
    ensures Accepts(Run(m, ops), SealPadded(p)) ==> InGeneration(Run(m, ops), p.region, g)
    decreases ops
  {
    if ops == [] {
      if Spent(m, SealPadded(p)) {
        SpentRefused(m, SealPadded(p));
      }
    } else {
      PaddingHeldStep(m, p, g, ops[0]);
      StepKeeps(m, ops[0]);
      PaddingGeneration(Step(m, ops[0]), p, g, ops[1..]);
    }
  }

  /** The remaining receipts carry their generation, and are accepted only while it is current. */
  lemma NamedGeneration(m: Manager, op: Op)
    requires Valid(m) && Accepts(m, op)
    ensures op.Stage? ==> InGeneration(m, op.tail.region, op.tail.created)
    ensures op.Finish? ==> InGeneration(m, op.rotation.activated, op.rotation.created)
    ensures op.Release? ==> InGeneration(m, op.reclaim.region, op.reclaim.created)
  {
    match op
    case Stage(t) => ShardOf(m, t.shard);
    case Finish(q) => ShardOf(m, q.shard);
    case Release(c) => PinnedCreated(m, Position(m.reclaiming, c));
    case _ =>
  }

  // ----- issued sequence numbers -----

  /** The sequence number issued by a step, if any. */
  function Issued(m: Manager, op: Op): Option<nat> {
    match op
    case Allocate => if AllocateSeqno(m).1.Ok? then Some(AllocateSeqno(m).1.value) else None
    case Reserve(s, bytes) =>
      var r := ReserveAppend(m, s, bytes).1;
      if r.Ok? then Some(r.value.seqno) else None
    case Begin(c) =>
      var r := BeginRotation(m, c).1;
      if r.Ok? then Some(r.value.created) else None
    case _ => None
  }

  /** Sequence numbers strictly increase along every run and u64::MAX is never issued. */
  lemma {:induction false} IssuedIncrease(m: Manager, op: Op, ops: seq<Op>, later: Op)
    requires Valid(m) && Issued(m, op).Some? && Issued(Run(Step(m, op), ops), later).Some?
    ensures Issued(m, op).value < Issued(Run(Step(m, op), ops), later).value < U64_MAX
  {
    StepKeeps(m, op);
    RunMonotone(Step(m, op), ops);
    IssuedNext(m, op);
    IssuedNext(Run(Step(m, op), ops), later);
  }

  lemma IssuedNext(m: Manager, op: Op)
    requires Issued(m, op).Some?
    ensures Issued(m, op).value == m.nextSeqno < U64_MAX && Step(m, op).nextSeqno == m.nextSeqno + 1
  {
  }

  lemma {:induction false} RunMonotone(m: Manager, ops: seq<Op>)
    requires Valid(m)
    ensures m.nextSeqno <= Run(m, ops).nextSeqno
    decreases ops
  {
    if ops != [] {
      StepEvolves(m, ops[0]);
      StepKeeps(m, ops[0]);
      RunMonotone(Step(m, ops[0]), ops[1..]);
    }
  }
}
