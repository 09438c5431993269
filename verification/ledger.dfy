/** What a run wrote into one Region generation: the completed spans tile its prefix and no record
    is lost or counted twice between staging, submission and completion. */
module Ledgers {
  import opened Machine
  import opened Regions
  import opened Pipelines
  import opened Authority
  import opened Lifecycle
  import opened Runs

  /** Spans completed and records staged in the current generation of one Region, since `base`. */
  datatype Ledger = Ledger(base: nat, records: nat, held: nat, spans: seq<Span>, staged: nat)

  /** Records of a shard that are staged but not completed. */
  function Load(sh: Shard): nat {
    (if sh.submitted.Some? then sh.submitted.value.records else 0) + (if sh.open.Some? then sh.open.value.records else 0)
  }

  /** Records of Region x that are staged but not completed. */
  function Pending(m: Manager, x: nat): nat {
    var s := Position(m.active, x);
    if s < |m.active| && s < |m.shards| then Load(m.shards[s]) else 0
  }

  function Held(m: Manager, x: nat): nat
    requires x < |m.regions|
  {
    m.regions[x].records + Pending(m, x)
  }

  function Opening(m: Manager, x: nat): Ledger
    requires x < |m.regions|
  {
    Ledger(m.regions[x].completed, m.regions[x].records, Held(m, x), [], 0)
  }

  predicate Completes(m: Manager, op: Op, x: nat) {
    op.Complete? && op.span.region == x && Accepts(m, op)
  }

  predicate Stages(m: Manager, op: Op, x: nat) {
    op.Stage? && op.tail.region == x && Accepts(m, op)
  }

  predicate Renewed(m: Manager, op: Op, x: nat) {
    x < |m.regions| && x < |Step(m, op).regions| && Step(m, op).regions[x].created != m.regions[x].created
  }

  function Post(l: Ledger, m: Manager, op: Op, x: nat): Ledger {
    if Renewed(m, op, x) then Ledger(0, 0, 0, [], 0)
    else if Completes(m, op, x) then l.(spans := l.spans + [op.span])
    else if Stages(m, op, x) then l.(staged := l.staged + 1)
    else l
  }

  function LedgerFrom(l: Ledger, m: Manager, ops: seq<Op>, x: nat): Ledger
    decreases ops
  {
    if ops == [] then l else LedgerFrom(Post(l, m, ops[0], x), Step(m, ops[0]), ops[1..], x)
  }

  /** Consecutive non-empty spans from `from` to `to`, each ending on a direct-I/O boundary. */
  predicate Covers(spans: seq<Span>, from: nat, to: nat) {
    if spans == [] then from == to
    else
      var last := spans[|spans| - 1];
      last.start < last.end == to && to % DIRECT_IO_ALIGNMENT == 0 && Covers(spans[..|spans| - 1], from, last.start)
  }

  function Total(spans: seq<Span>): nat {
    if spans == [] then 0 else Total(spans[..|spans| - 1]) + spans[|spans| - 1].records
  }

  predicate Balanced(l: Ledger, m: Manager, x: nat) {
    && x < |m.regions|
    && Covers(l.spans, l.base, m.regions[x].completed)
    && m.regions[x].records == l.records + Total(l.spans)
    && Held(m, x) == l.held + l.staged
  }

  lemma PendingAt(m: Manager, s: nat)
    requires Valid(m) && s < |m.active| && s < |m.shards|
    ensures Pending(m, m.active[s]) == Load(m.shards[s])
  {
    var p := Position(m.active, m.active[s]);
    if p != s {
      ActiveDistinct(m, p, s);
    }
  }

  /** The effect of one step on Region x. */
  predicate Effect(m: Manager, m': Manager, op: Op, x: nat)
    requires x < |m.regions| && x < |m'.regions|
  {
    var r, r' := m.regions[x], m'.regions[x];
    if r'.created != r.created then r'.completed == 0 && r'.records == 0 && Pending(m', x) == 0
    else if Completes(m, op, x) then
      && r.completed == op.span.start < op.span.end == r'.completed
      && op.span.end % DIRECT_IO_ALIGNMENT == 0
      && r'.records == r.records + op.span.records
      && Pending(m', x) + op.span.records == Pending(m, x)
    else
      && r'.completed == r.completed && r'.records == r.records
      && Pending(m', x) == Pending(m, x) + (if Stages(m, op, x) then 1 else 0)
  }

  /** Pipeline operations touch one shard and keep the Active set. */
  lemma ShardEffect(m: Manager, op: Op, x: nat, s: nat)
    requires Valid(m) && Valid(Step(m, op)) && x < |m.regions| && s < |m.shards|
    requires InRange(m) && |Step(m, op).regions| == |m.regions|
    requires Step(m, op).active == m.active
    requires forall t :: 0 <= t < |m.shards| && t != s ==> t < |Step(m, op).shards| && Step(m, op).shards[t] == m.shards[t]
    requires s < |Step(m, op).shards|
    requires forall y :: 0 <= y < |m.regions| && y != m.active[s] ==> Step(m, op).regions[y] == m.regions[y]
    requires Completes(m, op, x) || Stages(m, op, x) ==> x == m.active[s]
    requires PieceEffect(m.shards[s], Step(m, op).shards[s], m.regions[m.active[s]], Step(m, op).regions[m.active[s]],
                     if Completes(m, op, m.active[s]) then Some(op.span) else None, Stages(m, op, m.active[s]))
    ensures Effect(m, Step(m, op), op, x)
  {
    var m' := Step(m, op);
    if x in m.active {
      var t: nat :| t < |m.active| && m.active[t] == x;
      PendingAt(m, t);
      PendingAt(m', t);
      if t != s {
        ActiveDistinct(m, s, t);
      }
    } else {
      assert m.active[s] in m.active;
    }
  }

  predicate PieceEffect(sh: Shard, sh': Shard, r: RegionDesc, r': RegionDesc, w: Option<Span>, staged: bool) {
    && r'.created == r.created
    && match w
       case Some(span) =>
         && r.completed == span.start < span.end == r'.completed && span.end % DIRECT_IO_ALIGNMENT == 0
         && r'.records == r.records + span.records && Load(sh') + span.records == Load(sh)
       case None =>
         && r'.completed == r.completed && r'.records == r.records
         && Load(sh') == Load(sh) + (if staged then 1 else 0)
  }

  lemma StageEffect(m: Manager, t: Reservation, x: nat)
    requires Valid(m) && InRange(m) && x < |m.regions|
    ensures |Step(m, Stage(t)).regions| == |m.regions| && Effect(m, Step(m, Stage(t)), Stage(t), x)
  {
    StageKeeps(m, t);
    if Accepts(m, Stage(t)) {
      ShardOf(m, t.shard);
      ShardEffect(m, Stage(t), x, t.shard);
    }
  }

  lemma CompleteEffect(m: Manager, w: Span, x: nat)
    requires Valid(m) && InRange(m) && x < |m.regions|
    ensures |Step(m, Complete(w)).regions| == |m.regions| && Effect(m, Step(m, Complete(w)), Complete(w), x)
  {
    CompleteKeeps(m, w);
    if Accepts(m, Complete(w)) {
      ShardOf(m, w.shard);
      ShardEffect(m, Complete(w), x, w.shard);
    }
  }

  lemma SealPaddedEffect(m: Manager, p: Padding, x: nat)
    requires Valid(m) && InRange(m) && x < |m.regions|
    ensures |Step(m, SealPadded(p)).regions| == |m.regions| && Effect(m, Step(m, SealPadded(p)), SealPadded(p), x)
  {
    SealPaddedKeeps(m, p);
    if p.shard < |m.shards| && m.shards[p.shard].padding == Some(p) {
      ShardOf(m, p.shard);
      ShardEffect(m, SealPadded(p), x, p.shard);
    }
  }

  lemma ReserveEffect(m: Manager, s: nat, bytes: nat, x: nat)
    requires Valid(m) && InRange(m) && x < |m.regions| && s < |m.shards|
    ensures |Step(m, Reserve(s, bytes)).regions| == |m.regions| && Effect(m, Step(m, Reserve(s, bytes)), Reserve(s, bytes), x)
  {
    StepKeeps(m, Reserve(s, bytes));
    ShardOf(m, s);
    ReserveShape(m, s, bytes);
    ShardEffect(m, Reserve(s, bytes), x, s);
  }

  lemma PadEffect(m: Manager, s: nat, x: nat)
    requires Valid(m) && InRange(m) && x < |m.regions| && s < |m.shards|
    ensures |Step(m, Pad(s)).regions| == |m.regions| && Effect(m, Step(m, Pad(s)), Pad(s), x)
  {
    StepKeeps(m, Pad(s));
    ShardOf(m, s);
    ShardEffect(m, Pad(s), x, s);
  }

  lemma SealEffect(m: Manager, s: nat, x: nat)
    requires Valid(m) && InRange(m) && x < |m.regions| && s < |m.shards|
    ensures |Step(m, Seal(s)).regions| == |m.regions| && Effect(m, Step(m, Seal(s)), Seal(s), x)
  {
    StepKeeps(m, Seal(s));
    ShardOf(m, s);
    ShardEffect(m, Seal(s), x, s);
  }

  lemma RequestEffect(m: Manager, s: nat, bytes: nat, x: nat)
    requires Valid(m) && InRange(m) && x < |m.regions| && s < |m.shards|
    ensures |Step(m, RequestRotation(s, bytes)).regions| == |m.regions| && Effect(m, Step(m, RequestRotation(s, bytes)), RequestRotation(s, bytes), x)
  {
    StepKeeps(m, RequestRotation(s, bytes));
    ShardOf(m, s);
    ShardEffect(m, RequestRotation(s, bytes), x, s);
  }

  lemma BeginEffect(m: Manager, c: Candidate, x: nat)
    requires Valid(m) && InRange(m) && x < |m.regions|
    ensures |Step(m, Begin(c)).regions| == |m.regions| && Effect(m, Step(m, Begin(c)), Begin(c), x)
  {
    var m' := Step(m, Begin(c));
    SelectKinds(m, c.shard);
    BeginRotationKeeps(m, c);
    if BeginRotation(m, c).1.Ok? {
      var s := c.shard;
      ShardOf(m, s);
      ShardOf(m', s);
      FreeExclusive(m, 0);
      PendingAt(m', s);
      if x == m.active[s] {
        PendingAt(m, s);
        ActiveExclusiveLater(m', s, x);
      } else if x in m.active {
        var t: nat :| t < |m.active| && m.active[t] == x;
        PendingAt(m, t);
        PendingAt(m', t);
      } else if x != m.free[0] {
        assert x !in m'.active;
      }
    }
  }

  lemma ActiveExclusiveLater(m: Manager, s: nat, x: nat)
    requires Valid(m) && InRange(m) && s < |m.shards| && m.shards[s].rotation.Some? && m.shards[s].rotation.value.outgoing == x
    ensures x !in m.active
  {
    forall t: nat | t < |m.active| ensures m.active[t] != x {
      ActiveExclusive(m, t);
    }
  }

  lemma FinishEffect(m: Manager, q: Rotation, x: nat)
    requires Valid(m) && InRange(m) && x < |m.regions|
    ensures |Step(m, Finish(q)).regions| == |m.regions| && Effect(m, Step(m, Finish(q)), Finish(q), x)
  {
  }

  lemma ReleaseEffect(m: Manager, c: Reclaim, x: nat)
    requires Valid(m) && InRange(m) && x < |m.regions|
    ensures |Step(m, Release(c)).regions| == |m.regions| && Effect(m, Step(m, Release(c)), Release(c), x)
  {
    FinishReclaimKeeps(m, c);
    if c in m.reclaiming {
      var k := Position(m.reclaiming, c);
      ReclaimExclusive(m, k);
      assert m in States(Queued);
      assert ReclaimOk(m, c);
    }
  }

  lemma StepEffect(m: Manager, op: Op, x: nat)
    requires Valid(m) && x < |m.regions|
    ensures |Step(m, op).regions| == |m.regions| && Effect(m, Step(m, op), op, x)
  {
    assert m in States(Ranges);
    match op
    case Allocate =>
    case Reserve(s, bytes) => if s < |m.shards| { ReserveEffect(m, s, bytes, x); }
    case Stage(t) => StageEffect(m, t, x);
    case Pad(s) => if s < |m.shards| { PadEffect(m, s, x); }
    case Seal(s) => if s < |m.shards| { SealEffect(m, s, x); }
    case SealPadded(p) => SealPaddedEffect(m, p, x);
    case Complete(w) => CompleteEffect(m, w, x);
    case RequestRotation(s, bytes) => if s < |m.shards| { RequestEffect(m, s, bytes, x); }
    case Begin(c) => BeginEffect(m, c, x);
    case Finish(q) => FinishEffect(m, q, x);
    case Pin => BeginReclaimKeeps(m);
    case Release(c) => ReleaseEffect(m, c, x);
    case Configure(_) =>
  }

  lemma BalancedStep(l: Ledger, m: Manager, op: Op, x: nat)
    requires Valid(m) && Balanced(l, m, x)
    ensures Balanced(Post(l, m, op, x), Step(m, op), x)
  {
    StepEffect(m, op, x);
    if Completes(m, op, x) && !Renewed(m, op, x) {
      assert (l.spans + [op.span])[..|l.spans|] == l.spans;
    }
  }

  /** Along every run, for every Region: the spans completed in its current generation tile its
      completed prefix with aligned ends, their record counts add up to the Region's count, and each
      staged record is in exactly one of open span, submitted span and completed prefix. */
  lemma {:induction false} RunBalanced(l: Ledger, m: Manager, ops: seq<Op>, x: nat)
    requires Valid(m) && Balanced(l, m, x)
    ensures Balanced(LedgerFrom(l, m, ops, x), Run(m, ops), x)
    decreases ops
  {
    if ops != [] {
      BalancedStep(l, m, ops[0], x);
      StepKeeps(m, ops[0]);
      RunBalanced(Post(l, m, ops[0], x), Step(m, ops[0]), ops[1..], x);
    }
  }

  lemma {:induction false} LedgerBalances(m: Manager, ops: seq<Op>, x: nat)
    requires Valid(m) && x < |m.regions|
    ensures Balanced(LedgerFrom(Opening(m, x), m, ops, x), Run(m, ops), x)
  {
    RunBalanced(Opening(m, x), m, ops, x);
  }
}
