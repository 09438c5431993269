/** The append pipeline of one shard: how its spans tile the Active Region, and that each pipeline
    operation keeps the tiling. */
module Pipelines {
  import opened Machine
  import opened Regions

  /** End of the completed prefix together with the submitted span. */
  function SubmittedEnd(sh: Shard, r: RegionDesc): nat {
    if sh.submitted.Some? then sh.submitted.value.end else r.completed
  }

  /** End of everything staged: completed prefix, submitted span and open span. */
  function StagedEnd(sh: Shard, r: RegionDesc): nat {
    if sh.open.Some? then sh.open.value.end else SubmittedEnd(sh, r)
  }

  predicate SubmittedOk(sh: Shard, s: nat, id: nat, r: RegionDesc, next: nat) {
    sh.submitted.Some? ==>
      var w := sh.submitted.value;
      && w.shard == s && w.region == id
      && w.start == r.completed < w.end && w.end % DIRECT_IO_ALIGNMENT == 0
      && r.created < w.maxSeqno < next
      && 0 < w.records && w.records * RECORD_ALIGNMENT <= w.end - w.start
  }

  predicate OpenOk(sh: Shard, id: nat, r: RegionDesc, next: nat) {
    sh.open.Some? ==>
      var o := sh.open.value;
      && o.region == id
      && o.start == SubmittedEnd(sh, r) < o.end && o.end % RECORD_ALIGNMENT == 0
      && r.created < o.maxSeqno < next
      && (sh.submitted.Some? ==> sh.submitted.value.maxSeqno < o.maxSeqno)
      && 0 < o.records && o.records * RECORD_ALIGNMENT <= o.end - o.start
  }

  predicate PaddingOk(sh: Shard, s: nat, id: nat, r: RegionDesc) {
    sh.padding.Some? ==>
      && sh.open.Some? && sh.tail.None? && sh.submitted.None?
      && var o := sh.open.value;
      && sh.padding.value == Padding(s, id, o.start, o.end, r.reserved, o.records, o.maxSeqno)
      && o.end < r.reserved < o.end + DIRECT_IO_ALIGNMENT
      && r.reserved % DIRECT_IO_ALIGNMENT == 0
  }

  predicate TailOk(sh: Shard, s: nat, id: nat, r: RegionDesc, next: nat) {
    sh.tail.Some? ==>
      var t := sh.tail.value;
      && t.shard == s && t.region == id && t.created == r.created
      && t.offset == StagedEnd(sh, r) && t.offset + t.bytes == r.reserved
      && 0 < t.bytes && t.bytes % RECORD_ALIGNMENT == 0
      && r.created < t.seqno < next
      && (sh.open.Some? ==> sh.open.value.maxSeqno < t.seqno)
      && (sh.submitted.Some? ==> sh.submitted.value.maxSeqno < t.seqno)
  }

  predicate RotationOk(sh: Shard, s: nat, id: nat, r: RegionDesc) {
    sh.rotation.Some? ==>
      && sh.tail.None? && sh.open.None? && sh.padding.None? && sh.submitted.None?
      && sh.rotation.value.shard == s && sh.rotation.value.activated == id
      && sh.rotation.value.created == r.created
      && r.completed == 0
  }

  /** Completed prefix, submitted span, open span and tail or padding tile the Region exactly up to
      its reservation cursor, and every receipt names this shard, Region and generation. */
  predicate Pipeline(sh: Shard, s: nat, id: nat, r: RegionDesc, next: nat, size: nat) {
    && r.state == Active && 0 < r.created < next
    && r.completed % DIRECT_IO_ALIGNMENT == 0
    && r.records * RECORD_ALIGNMENT <= r.completed
    && r.reserved <= size
    && SubmittedOk(sh, s, id, r, next)
    && OpenOk(sh, id, r, next)
    && PaddingOk(sh, s, id, r)
    && TailOk(sh, s, id, r, next)
    && RotationOk(sh, s, id, r)
    && (sh.tail.None? && sh.padding.None? ==> r.reserved == StagedEnd(sh, r))
  }

  lemma PipelineLater(sh: Shard, s: nat, id: nat, r: RegionDesc, next: nat, next': nat, size: nat)
    requires Pipeline(sh, s, id, r, next, size) && next <= next'
    ensures Pipeline(sh, s, id, r, next', size)
  {
  }

  lemma Requested(sh: Shard, s: nat, id: nat, r: RegionDesc, next: nat, size: nat)
    requires Pipeline(sh, s, id, r, next, size)
    ensures Pipeline(sh.(requested := true), s, id, r, next, size)
  {
  }

  lemma Reserved(sh: Shard, s: nat, id: nat, r: RegionDesc, next: nat, size: nat, bytes: nat)
    requires Pipeline(sh, s, id, r, next, size)
    requires sh.tail.None? && sh.padding.None? && sh.rotation.None?
    requires 0 < bytes && bytes % RECORD_ALIGNMENT == 0 && r.reserved + bytes <= size
    ensures var t := Reservation(s, id, r.created, r.reserved, bytes, next);
            Pipeline(sh.(tail := Some(t)), s, id, r.(reserved := r.reserved + bytes), next + 1, size)
  {
  }

  /** The open span after staging the tail reservation t. */
  function Extended(sh: Shard, t: Reservation): OpenSpan {
    match sh.open
    case None => OpenSpan(t.region, t.offset, t.offset + t.bytes, 1, t.seqno)
    case Some(o) => o.(end := t.offset + t.bytes, records := o.records + 1, maxSeqno := Max(o.maxSeqno, t.seqno))
  }

  /** One more record keeps the span at 32 bytes or more per record, ending on a record boundary. */
  lemma OneMore(records: nat, length: nat, end: nat, bytes: nat)
    requires records * 32 <= length && 0 < bytes && bytes % 32 == 0 && end % 32 == 0
    ensures (records + 1) * 32 <= length + bytes && (end + bytes) % 32 == 0
  {
  }

  lemma StagedAligned(sh: Shard, s: nat, id: nat, r: RegionDesc, next: nat, size: nat)
    requires Pipeline(sh, s, id, r, next, size)
    ensures StagedEnd(sh, r) % RECORD_ALIGNMENT == 0
  {
    BlockIsRecord(SubmittedEnd(sh, r));
  }

  lemma BlockIsRecord(x: nat)
    ensures x % 4096 == 0 ==> x % 32 == 0
  {
  }

  lemma StagedOpen(sh: Shard, s: nat, id: nat, r: RegionDesc, next: nat, size: nat)
    requires Pipeline(sh, s, id, r, next, size) && sh.tail.Some?
    ensures OpenOk(sh.(tail := None, open := Some(Extended(sh, sh.tail.value))), id, r, next)
  {
    var t, end := sh.tail.value, StagedEnd(sh, r);
    var start := SubmittedEnd(sh, r);
    StagedAligned(sh, s, id, r, next, size);
    OneMore(if sh.open.Some? then sh.open.value.records else 0, end - start, end, t.bytes);
  }

  lemma Staged(sh: Shard, s: nat, id: nat, r: RegionDesc, next: nat, size: nat)
    requires Pipeline(sh, s, id, r, next, size) && sh.tail.Some?
    ensures Pipeline(sh.(tail := None, open := Some(Extended(sh, sh.tail.value))), s, id, r, next, size)
  {
    StagedOpen(sh, s, id, r, next, size);
  }

  lemma Padded(sh: Shard, s: nat, id: nat, r: RegionDesc, next: nat, size: nat, padded: nat)
    requires Pipeline(sh, s, id, r, next, size)
    requires sh.tail.None? && sh.padding.None? && sh.submitted.None? && sh.rotation.None? && sh.open.Some?
    requires sh.open.value.end < padded < sh.open.value.end + DIRECT_IO_ALIGNMENT
    requires padded % DIRECT_IO_ALIGNMENT == 0 && padded <= size
    ensures var o := sh.open.value;
            Pipeline(sh.(padding := Some(Padding(s, id, o.start, o.end, padded, o.records, o.maxSeqno))),
                     s, id, r.(reserved := padded), next, size)
  {
  }

  lemma SubmittedSpan(sh: Shard, s: nat, id: nat, r: RegionDesc, next: nat, size: nat)
    requires Pipeline(sh, s, id, r, next, size)
    requires sh.tail.None? && sh.submitted.None? && sh.rotation.None? && sh.open.Some?
    requires r.reserved % DIRECT_IO_ALIGNMENT == 0
    ensures var o := sh.open.value;
            Pipeline(sh.(open := None, padding := None,
                         submitted := Some(Span(s, id, o.start, r.reserved, o.records, o.maxSeqno))),
                     s, id, r, next, size)
  {
  }

  lemma Completed(sh: Shard, s: nat, id: nat, r: RegionDesc, next: nat, size: nat)
    requires Pipeline(sh, s, id, r, next, size) && sh.submitted.Some?
    ensures var w := sh.submitted.value;
            Pipeline(sh.(submitted := None), s, id, r.(completed := w.end, records := r.records + w.records), next, size)
  {
    var w := sh.submitted.value;
    assert (r.records + w.records) * RECORD_ALIGNMENT <= w.end;
  }
}
