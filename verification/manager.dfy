/** `RegionManager`: the imperative owner of Region allocation, proved against the functions of
    `Regions` and the invariant of `Authority`. */
module Managers {
  import opened Machine
  import opened Regions
  import opened Authority
  import opened Lifecycle

  /** The open span of shard s can be submitted up to `end`: nothing else is pending, and `end` is the
      aligned reservation cursor. */
  predicate Sealable(m: Manager, s: nat, end: nat) {
    && s < |m.shards| && s < |m.active| && m.active[s] < |m.regions|
    && m.shards[s].tail.None? && m.shards[s].submitted.None? && m.shards[s].rotation.None? && m.shards[s].open.Some?
    && m.regions[m.active[s]].reserved == end && end % DIRECT_IO_ALIGNMENT == 0
  }

  class RegionManager {
    const regionSize: nat
    var nextSeqno: nat
    var regions: seq<RegionDesc>
    var activeRegions: seq<nat>
    var appendStates: seq<Shard>
    var freeRegions: seq<nat>
    var sealedRegions: seq<nat>
    var reclaiming: seq<Reclaim>
    var reclaimLimit: nat
    var queueCapacity: nat
    var rotations: nat

    ghost function View(): Manager
      reads this
    {
      Manager(regionSize, nextSeqno, regions, activeRegions, appendStates, freeRegions, sealedRegions,
              reclaiming, reclaimLimit, queueCapacity, rotations)
    }

    ghost predicate Healthy()
      reads this
    {
      Valid(View())
    }

    constructor (size: nat, max: nat, descs: seq<RegionDesc>, active: seq<nat>, free: seq<nat>, sealed: seq<nat>)
      requires |active| <= |descs|
      ensures View() == Manager(size, max + 1, descs, active, seq(|active|, _ => IdleShard), free, sealed,
                                [], 1, |descs| - |active|, 0)
    {
      regionSize := size;
      nextSeqno := max + 1;
      regions := descs;
      activeRegions := active;
      appendStates := seq(|active|, _ => IdleShard);
      freeRegions := free;
      sealedRegions := sealed;
      reclaiming := [];
      reclaimLimit := 1;
      queueCapacity := |descs| - |active|;
      rotations := 0;
    }

    method Allocate() returns (r: Result<nat, Error>)
      modifies this`nextSeqno
      ensures (View(), r) == AllocateSeqno(old(View()))
      ensures old(Healthy()) ==> Healthy()
    {
      ghost var m := View();
      if nextSeqno >= U64_MAX {
        return Err(SequenceExhausted);
      }
      r := Ok(nextSeqno);
      nextSeqno := nextSeqno + 1;
      if Valid(m) {
        AllocateKeeps(m);
      }
    }

    method Reserve(s: nat, bytes: nat) returns (r: Result<Reservation, Error>)
      modifies this`nextSeqno, this`regions, this`appendStates
      ensures (View(), r) == ReserveAppend(old(View()), s, bytes)
      ensures old(Healthy()) ==> Healthy()
    {
      ghost var m := View();
      if Valid(m) {
        ReserveKeeps(m, s, bytes);
      }
      if bytes == 0 || bytes % RECORD_ALIGNMENT != 0 {
        return Err(InvalidRecordLength);
      }
      if s >= |appendStates| {
        return Err(InvalidShard);
      }
      var shard := appendStates[s];
      if shard.tail.Some? || shard.padding.Some? || shard.rotation.Some? {
        return Err(WouldBlock);
      }
      if s >= |activeRegions| {
        return Err(InvalidShard);
      }
      var id := activeRegions[s];
      if id >= |regions| {
        return Err(Invariant);
      }
      var region := regions[id];
      if region.state != Active {
        return Err(Invariant);
      }
      var end := region.reserved + bytes;
      if end > U64_MAX {
        return Err(ArithmeticOverflow);
      }
      if end > regionSize {
        appendStates := appendStates[s := shard.(requested := true)];
        return Err(if shard.open.Some? || shard.submitted.Some? then FlushBeforeRotation else RegionFull);
      }
      if region.reserved > U32_MAX {
        return Err(ArithmeticOverflow);
      }
      if nextSeqno >= U64_MAX {
        return Err(SequenceExhausted);
      }
      var receipt := Reservation(s, id, region.created, region.reserved, bytes, nextSeqno);
      nextSeqno := nextSeqno + 1;
      regions := regions[id := region.(reserved := end)];
      appendStates := appendStates[s := shard.(tail := Some(receipt))];
      r := Ok(receipt);
    }

    method Stage(t: Reservation) returns (r: Result<(), Error>)
      modifies this`appendStates
      ensures (View(), r) == StageReservation(old(View()), t)
      ensures old(Healthy()) ==> Healthy()
    {
      ghost var m := View();
      if Valid(m) {
        StageKeeps(m, t);
      }
      if t.shard >= |appendStates| {
        return Err(InvalidShard);
      }
      var shard := appendStates[t.shard];
      if shard.tail != Some(t) {
        return Err(StaleReceipt);
      }
      var end := t.offset + t.bytes;
      if end > U64_MAX {
        return Err(ArithmeticOverflow);
      }
      var next;
      match shard.open {
        case Some(span) =>
          if span.region != t.region || span.end != t.offset || span.maxSeqno >= t.seqno {
            return Err(Invariant);
          }
          if span.records >= U64_MAX {
            return Err(ArithmeticOverflow);
          }
          next := span.(end := end, records := span.records + 1, maxSeqno := Max(span.maxSeqno, t.seqno));
        case None =>
          next := OpenSpan(t.region, t.offset, end, 1, t.seqno);
      }
      appendStates := appendStates[t.shard := shard.(open := Some(next), tail := None)];
      r := Ok(());
    }

    method ReservePadding(s: nat) returns (r: Result<Option<Padding>, Error>)
      modifies this`regions, this`appendStates
      ensures (View(), r) == ReserveWritePadding(old(View()), s)
      ensures old(Healthy()) ==> Healthy()
    {
      ghost var m := View();
      if Valid(m) {
        PadKeeps(m, s);
      }
      if s >= |appendStates| {
        return Err(InvalidShard);
      }
      var shard := appendStates[s];
      if shard.tail.Some? || shard.padding.Some? || shard.submitted.Some? || shard.rotation.Some? {
        return Err(WouldBlock);
      }
      if shard.open.None? {
        return Err(Invariant);
      }
      var open := shard.open.value;
      if || open.start >= open.end || open.start % DIRECT_IO_ALIGNMENT != 0 || open.end % RECORD_ALIGNMENT != 0
         || open.records == 0 || open.maxSeqno == 0 || open.end > U64_MAX
      {
        return Err(Invariant);
      }
      if || s >= |activeRegions| || activeRegions[s] != open.region || open.region >= |regions|
         || regions[open.region].state != Active || open.maxSeqno < regions[open.region].created
         || regions[open.region].reserved != open.end
      {
        return Err(Invariant);
      }
      var padding := TailPadding(open.end);
      if padding == 0 {
        return Ok(None);
      }
      var padded := open.end + padding;
      if padded > U64_MAX {
        return Err(ArithmeticOverflow);
      }
      if padding % RECORD_ALIGNMENT != 0 || padded % DIRECT_IO_ALIGNMENT != 0 || padded > regionSize {
        return Err(Invariant);
      }
      var receipt := Padding(s, open.region, open.start, open.end, padded, open.records, open.maxSeqno);
      regions := regions[open.region := regions[open.region].(reserved := padded)];
      appendStates := appendStates[s := shard.(padding := Some(receipt))];
      r := Ok(Some(receipt));
    }

    method Submit(s: nat, end: nat) returns (r: Result<Span, Error>)
      modifies this`appendStates
      ensures (View(), r) == SubmitOpenSpan(old(View()), s, end)
      ensures old(Healthy() && Sealable(View(), s, end)) ==> Healthy() && r.Ok?
    {
      ghost var m := View();
      if Valid(m) && Sealable(m, s, end) {
        SubmitShape(m, s);
      }
      if s >= |appendStates| {
        return Err(InvalidShard);
      }
      var shard := appendStates[s];
      if shard.open.None? {
        return Err(Invariant);
      }
      var open := shard.open.value;
      if open.start % DIRECT_IO_ALIGNMENT != 0 || end % DIRECT_IO_ALIGNMENT != 0 || end <= open.start {
        return Err(Invariant);
      }
      var span := Span(s, open.region, open.start, end, open.records, open.maxSeqno);
      appendStates := appendStates[s := shard.(open := None, padding := None, submitted := Some(span))];
      r := Ok(span);
    }

    method Seal(s: nat) returns (r: Result<Span, Error>)
      modifies this`appendStates
      ensures (View(), r) == SealWriteSpan(old(View()), s)
      ensures old(Healthy()) ==> Healthy()
    {
      ghost var m := View();
      if Valid(m) {
        SealKeeps(m, s);
      }
      if s >= |appendStates| {
        return Err(InvalidShard);
      }
      var shard := appendStates[s];
      if shard.tail.Some? || shard.padding.Some? || shard.rotation.Some? || shard.submitted.Some? {
        return Err(WouldBlock);
      }
      if shard.open.None? {
        return Err(Invariant);
      }
      r := Submit(s, shard.open.value.end);
    }

    method SealPadded(p: Padding) returns (r: Result<Span, Error>)
      modifies this`appendStates
      ensures (View(), r) == SealWithPadding(old(View()), p)
      ensures old(Healthy()) ==> Healthy()
    {
      ghost var m := View();
      if Valid(m) {
        SealPaddedKeeps(m, p);
      }
      if p.shard >= |appendStates| {
        return Err(InvalidShard);
      }
      var shard := appendStates[p.shard];
      if || shard.tail.Some? || shard.rotation.Some? || shard.submitted.Some? || shard.padding != Some(p)
         || shard.open.None?
      {
        return Err(StaleReceipt);
      }
      var open := shard.open.value;
      if || open.region != p.region || open.start != p.start || open.end != p.unpadded
         || open.records != p.records || open.maxSeqno != p.maxSeqno
         || p.padded <= p.unpadded || p.padded - p.unpadded >= DIRECT_IO_ALIGNMENT
         || p.padded % DIRECT_IO_ALIGNMENT != 0
      {
        return Err(StaleReceipt);
      }
      if || p.region >= |regions| || p.shard >= |activeRegions| || activeRegions[p.shard] != p.region
         || regions[p.region].state != Active || p.maxSeqno < regions[p.region].created
         || regions[p.region].reserved != p.padded
      {
        return Err(StaleReceipt);
      }
      r := Submit(p.shard, p.padded);
    }

    method Complete(w: Span) returns (r: Result<(), Error>)
      modifies this`regions, this`appendStates
      ensures (View(), r) == CompleteWriteSpan(old(View()), w)
      ensures old(Healthy()) ==> Healthy()
    {
      ghost var m := View();
      if Valid(m) {
        CompleteKeeps(m, w);
      }
      if w.shard >= |appendStates| {
        return Err(InvalidShard);
      }
      var shard := appendStates[w.shard];
      if shard.submitted != Some(w) || w.region >= |regions| {
        return Err(StaleReceipt);
      }
      var region := regions[w.region];
      if || w.shard >= |activeRegions| || activeRegions[w.shard] != w.region
         || region.state != Active || w.maxSeqno < region.created
         || region.completed != w.start || w.end > region.reserved || w.start >= w.end || w.records == 0
      {
        return Err(StaleReceipt);
      }
      if region.records + w.records > U64_MAX {
        return Err(ArithmeticOverflow);
      }
      regions := regions[w.region := region.(completed := w.end, records := region.records + w.records)];
      appendStates := appendStates[w.shard := shard.(submitted := None)];
      r := Ok(());
    }

    method RequestRotation(s: nat, bytes: nat) returns (r: Result<bool, Error>)
      modifies this`appendStates
      ensures (View(), r) == RequestRotationForAppend(old(View()), s, bytes)
      ensures old(Healthy()) ==> Healthy()
    {
      ghost var m := View();
      if Valid(m) {
        RequestKeeps(m, s, bytes);
      }
      if s >= |activeRegions| {
        return Err(InvalidShard);
      }
      if activeRegions[s] >= |regions| {
        return Err(Invariant);
      }
      var region := regions[activeRegions[s]];
      if region.state != Active {
        return Err(Invariant);
      }
      if region.reserved > U64_MAX {
        return Err(ArithmeticOverflow);
      }
      var end := region.reserved + TailPadding(region.reserved) + bytes;
      if end > U64_MAX {
        return Err(ArithmeticOverflow);
      }
      var needsRotation := end > regionSize;
      if needsRotation {
        if s >= |appendStates| {
          return Err(InvalidShard);
        }
        appendStates := appendStates[s := appendStates[s].(requested := true)];
      }
      r := Ok(needsRotation);
    }

    method RotationCandidate(s: nat) returns (r: Result<Candidate, Error>)
      ensures r == SelectRotation(View(), s)
      ensures Healthy() ==> (r.Ok? <==> s < |appendStates| && appendStates[s].requested && appendStates[s].Quiescent() && freeRegions != [])
      ensures Healthy() && r.Ok? ==> r.value == Candidate(s, freeRegions[0], 0)
    {
      ghost var m := View();
      if Valid(m) {
        SelectKinds(m, s);
        if s < |m.shards| {
          ShardOf(m, s);
        }
      }
      if s >= |appendStates| {
        return Err(InvalidShard);
      }
      if !appendStates[s].requested || !appendStates[s].Quiescent() {
        return Err(WouldBlock);
      }
      if s >= |activeRegions| {
        return Err(InvalidShard);
      }
      if activeRegions[s] >= |regions| {
        return Err(Invariant);
      }
      var outgoing := regions[activeRegions[s]];
      if outgoing.state != Active || outgoing.reserved != outgoing.completed || freeRegions == [] {
        return Err(WouldBlock);
      }
      var victim := freeRegions[0];
      if victim >= |regions| || regions[victim].state != Free || victim == activeRegions[s] {
        return Err(Invariant);
      }
      r := Ok(Candidate(s, victim, regions[victim].created));
    }

    method Begin(c: Candidate) returns (r: Result<Rotation, Error>)
      modifies this
      ensures (View(), r) == BeginRotation(old(View()), c)
      ensures old(Healthy()) ==> Healthy()
    {
      ghost var m := View();
      if Valid(m) {
        BeginRotationKeeps(m, c);
      }
      var selected := RotationCandidate(c.shard);
      if selected.Err? {
        return Err(selected.error);
      }
      if selected.value != c {
        return Err(StaleReceipt);
      }
      if nextSeqno >= U64_MAX {
        return Err(SequenceExhausted);
      }
      var created := nextSeqno;
      nextSeqno := nextSeqno + 1;
      freeRegions := freeRegions[1..];
      var outgoing := activeRegions[c.shard];
      regions := regions[outgoing := regions[outgoing].(state := Sealed)];
      regions := regions[c.victim := RegionDesc(Active, created, 0, 0, 0)];
      activeRegions := activeRegions[c.shard := c.victim];
      var receipt := Rotation(c.shard, outgoing, c.victim, created);
      appendStates := appendStates[c.shard := appendStates[c.shard].(requested := false, rotation := Some(receipt))];
      r := Ok(receipt);
    }

    method Finish(q: Rotation) returns (r: Result<(), Error>)
      modifies this`sealedRegions, this`rotations, this`appendStates
      ensures (View(), r) == FinishRotation(old(View()), q)
      ensures old(Healthy()) ==> Healthy()
    {
      ghost var m := View();
      if Valid(m) {
        FinishRotationKeeps(m, q);
      }
      if q.shard >= |appendStates| {
        return Err(InvalidShard);
      }
      if appendStates[q.shard].rotation != Some(q) || q.outgoing >= |regions| || q.activated >= |regions| {
        return Err(StaleReceipt);
      }
      if || q.shard >= |activeRegions| || activeRegions[q.shard] != q.activated
         || regions[q.outgoing].state != Sealed || regions[q.activated].state != Active
         || regions[q.activated].created != q.created
      {
        return Err(StaleReceipt);
      }
      if |freeRegions| + |sealedRegions| >= queueCapacity {
        return Err(Invariant);
      }
      sealedRegions := sealedRegions + [q.outgoing];
      rotations := Min(rotations + 1, U64_MAX);
      appendStates := appendStates[q.shard := appendStates[q.shard].(rotation := None)];
      r := Ok(());
    }

    method BeginReclaiming() returns (r: Result<Option<Reclaim>, Error>)
      modifies this`sealedRegions, this`reclaiming
      ensures (View(), r) == BeginReclaim(old(View()))
      ensures old(Healthy()) ==> Healthy()
    {
      ghost var m := View();
      if Valid(m) {
        BeginReclaimKeeps(m);
      }
      if || |reclaiming| >= reclaimLimit || sealedRegions == []
         || |freeRegions| + |reclaiming| >= Max(|activeRegions|, 1)
      {
        return Ok(None);
      }
      var id := sealedRegions[0];
      sealedRegions := sealedRegions[1..];
      if id >= |regions| {
        return Err(Invariant);
      }
      var region := regions[id];
      if region.state != Sealed || region.completed != region.reserved {
        return Err(Invariant);
      }
      var receipt := Reclaim(id, region.created, region.completed, region.records);
      reclaiming := reclaiming + [receipt];
      r := Ok(Some(receipt));
    }

    method FinishReclaiming(c: Reclaim) returns (r: Result<(), Error>)
      modifies this`regions, this`freeRegions, this`reclaiming
      ensures (View(), r) == FinishReclaim(old(View()), c)
      ensures old(Healthy()) ==> Healthy()
    {
      ghost var m := View();
      if Valid(m) {
        FinishReclaimKeeps(m, c);
      }
      var k := 0;
      while k < |reclaiming| && reclaiming[k] != c
        invariant k <= |reclaiming|
        invariant forall i :: 0 <= i < k ==> reclaiming[i] != c
      {
        k := k + 1;
      }
      assert k == Position(reclaiming, c);
      if k == |reclaiming| || c.region >= |regions| {
        return Err(StaleReceipt);
      }
      var region := regions[c.region];
      if region.state != Sealed || region.created != c.created || region.completed != c.used || region.records != c.records {
        return Err(StaleReceipt);
      }
      if |freeRegions| + |sealedRegions| >= queueCapacity {
        return Err(Invariant);
      }
      regions := regions[c.region := FreeDesc];
      freeRegions := freeRegions + [c.region];
      reclaiming := reclaiming[k := reclaiming[|reclaiming| - 1]];
      reclaiming := reclaiming[..|reclaiming| - 1];
      r := Ok(());
    }

    method ConfigureWorkers(workers: nat) returns (ok: bool)
      modifies this`reclaimLimit
      ensures (View(), ok) == ConfigureReclaimWorkers(old(View()), workers)
      ensures old(Healthy()) ==> Healthy()
    {
      ghost var m := View();
      if Valid(m) {
        ConfigureKeeps(m, workers);
      }
      if workers == 0 || workers > |activeRegions| || reclaiming != [] {
        return false;
      }
      reclaimLimit := workers;
      ok := true;
    }
  }
}
