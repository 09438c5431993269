/** The canonical partition directory of the index image: which pages and slots each partition owns for a
    given slot capacity. */
module IndexLayout {
  import opened Machine
  import opened Bits

  const INDEX_IMAGE_PAGE_SIZE := 4096
  const INDEX_IMAGE_SLOTS_PER_PAGE := 504
  const INDEX_CANDIDATES := 4
  const MAX_INDEX_PARTITIONS := 4096
  const ISIZE_MAX := 0x7FFF_FFFF_FFFF_FFFF

  /** One persisted partition record. */
  datatype Partition = Partition(
    id: nat, firstPage: nat, pages: nat, firstSlot: nat, slots: nat, valueSlots: nat, deletedSlots: nat)

  datatype Range = Range(id: nat, firstPage: nat, pages: nat, firstSlot: nat, slots: nat)

  function Pages(slots: nat): nat {
    (slots + INDEX_IMAGE_SLOTS_PER_PAGE - 1) / INDEX_IMAGE_SLOTS_PER_PAGE
  }

  /** The slot capacity has an image layout. */
  predicate FitsImage(slots: nat) {
    && INDEX_CANDIDATES <= slots && slots + INDEX_IMAGE_SLOTS_PER_PAGE - 1 <= U64_MAX
    && Pages(slots) * INDEX_IMAGE_PAGE_SIZE <= ISIZE_MAX
  }

  function GreatestPowerOfTwo(limit: nat): (r: nat)
    requires limit > 0
    ensures 0 < r <= limit < 2 * r && IsPowerOfTwo(r)
  {
    if limit == 1 then 1 else 2 * GreatestPowerOfTwo(limit / 2)
  }

  function FinalPartitionSlots(slots: nat, count: nat): int
    requires count > 0
  {
    var pages := Pages(slots);
    var last := pages / count + (if pages % count != 0 then 1 else 0);
    slots - (pages - last) * INDEX_IMAGE_SLOTS_PER_PAGE
  }

  /** Halves the partition count until the last partition has enough buckets. */
  function Halved(slots: nat, count: nat): (r: nat)
    requires IsPowerOfTwo(count)
    ensures IsPowerOfTwo(r) && 0 < r <= count
  {
    if count > 1 && FinalPartitionSlots(slots, count) < INDEX_CANDIDATES then Halved(slots, count / 2) else count
  }

  function PartitionCount(slots: nat): (r: nat)
    requires slots > 0
    ensures IsPowerOfTwo(r) && 0 < r <= MAX_INDEX_PARTITIONS && r <= Pages(slots)
  {
    Halved(slots, GreatestPowerOfTwo(Min(Pages(slots), MAX_INDEX_PARTITIONS)))
  }

  /** Pages of partition id; the extra pages go to the last partitions. */
  function PageCount(pages: nat, count: nat, id: nat): nat
    requires 0 < count
  {
    pages / count + (if id + pages % count >= count then 1 else 0)
  }

  function FirstPage(pages: nat, count: nat, id: nat): nat
    requires 0 < count
  {
    if id == 0 then 0 else FirstPage(pages, count, id - 1) + PageCount(pages, count, id - 1)
  }

  function RangeAt(slots: nat, count: nat, id: nat): Range
    requires 0 < count
  {
    var first, pages := FirstPage(Pages(slots), count, id), PageCount(Pages(slots), count, id);
    var start := first * INDEX_IMAGE_SLOTS_PER_PAGE;
    Range(id, first, pages, start, Min(SaturatingSub(slots, start), pages * INDEX_IMAGE_SLOTS_PER_PAGE))
  }

  predicate Matches(p: Partition, r: Range) {
    && Range(p.id, p.firstPage, p.pages, p.firstSlot, p.slots) == r
    && p.slots <= U32_MAX && p.deletedSlots == 0 && p.valueSlots <= p.slots
  }

  /** The records are the canonical directory of this slot capacity. */
  predicate CanonicalPartitions(slots: nat, partitions: seq<Partition>) {
    && FitsImage(slots) && |partitions| == PartitionCount(slots)
    && forall i :: 0 <= i < |partitions| ==> Matches(partitions[i], RangeAt(slots, |partitions|, i))
  }

  function PageTotal(q: seq<Partition>): nat {
    if q == [] then 0 else PageTotal(q[..|q| - 1]) + q[|q| - 1].pages
  }

  function SlotTotal(q: seq<Partition>): nat {
    if q == [] then 0 else SlotTotal(q[..|q| - 1]) + q[|q| - 1].slots
  }

  // ----- the directory covers the image -----

  /** The first k partitions own `k * base` pages and the extra ones among them. */
  lemma {:induction false} FirstPageIs(pages: nat, count: nat, k: nat)
    requires 0 < count && k <= count
    ensures FirstPage(pages, count, k) == k * (pages / count) + SaturatingSub(k + pages % count, count)
  {
    if k > 0 {
      FirstPageIs(pages, count, k - 1);
      assert k * (pages / count) == (k - 1) * (pages / count) + pages / count;
    }
  }

  lemma {:induction false} AllPages(pages: nat, count: nat)
    requires 0 < count
    ensures FirstPage(pages, count, count) == pages
  {
    FirstPageIs(pages, count, count);
    assert pages == count * (pages / count) + pages % count;
  }

  lemma {:induction false} FirstPageGrows(pages: nat, count: nat, j: nat, k: nat)
    requires 0 < count <= pages && j < k <= count
    ensures FirstPage(pages, count, j) < FirstPage(pages, count, k)
    decreases k
  {
    assert pages / count >= 1 by {
      BaseAtLeastOne(pages, count);
    }
    if j < k - 1 {
      FirstPageGrows(pages, count, j, k - 1);
    }
  }

  lemma BaseAtLeastOne(pages: nat, count: nat)
    requires 0 < count <= pages
    ensures pages / count >= 1
  {
    assert pages == count * (pages / count) + pages % count;
  }

  /** Every partition but the last ends on a page boundary inside the image. */
  lemma {:induction false} StartsInside(slots: nat, count: nat, k: nat)
    requires 0 < slots && 0 < count <= Pages(slots) && k < count
    ensures FirstPage(Pages(slots), count, k) * INDEX_IMAGE_SLOTS_PER_PAGE < slots
  {
    AllPages(Pages(slots), count);
    FirstPageGrows(Pages(slots), count, k, count);
    PagesCover(slots, FirstPage(Pages(slots), count, k));
  }

  lemma PagesCover(slots: nat, page: nat)
    requires 0 < slots
    ensures page < Pages(slots) <==> page * 504 < slots
  {
  }

  /** The canonical directory adds up to exactly the pages and slots of the image. */
  lemma {:induction false} CanonicalTotals(slots: nat, partitions: seq<Partition>)
    requires CanonicalPartitions(slots, partitions)
    ensures PageTotal(partitions) == Pages(slots) && SlotTotal(partitions) == slots
  {
    var count := |partitions|;
    PrefixTotals(slots, partitions, count);
    assert partitions[..count] == partitions;
    AllPages(Pages(slots), count);
    PagesCover(slots, Pages(slots));
  }

  lemma {:induction false} PrefixTotals(slots: nat, partitions: seq<Partition>, k: nat)
    requires CanonicalPartitions(slots, partitions) && k <= |partitions|
    ensures PageTotal(partitions[..k]) == FirstPage(Pages(slots), |partitions|, k)
    ensures SlotTotal(partitions[..k]) == Min(slots, FirstPage(Pages(slots), |partitions|, k) * INDEX_IMAGE_SLOTS_PER_PAGE)
    decreases k
  {
    if k > 0 {
      PrefixTotals(slots, partitions, k - 1);
      assert partitions[..k][..k - 1] == partitions[..k - 1];
      assert Matches(partitions[k - 1], RangeAt(slots, |partitions|, k - 1));
      StartsInside(slots, |partitions|, k - 1);
    }
  }

  /** The ranges follow each other without a gap: the first begins the image, each next one begins where the
      one before ends, and the last ends with the last slot. */
  lemma {:induction false} RangesTile(slots: nat, count: nat, i: nat)
    requires 0 < slots && 0 < count <= Pages(slots) && i < count
    ensures i == 0 ==> RangeAt(slots, count, i).firstPage == 0 && RangeAt(slots, count, i).firstSlot == 0
    ensures var r := RangeAt(slots, count, i);
            if i + 1 < count then
              var next := RangeAt(slots, count, i + 1);
              next.firstPage == r.firstPage + r.pages && next.firstSlot == r.firstSlot + r.slots
            else r.firstPage + r.pages == Pages(slots) && r.firstSlot + r.slots == slots
  {
    StartsInside(slots, count, i);
    if i + 1 < count {
      StartsInside(slots, count, i + 1);
    } else {
      AllPages(Pages(slots), count);
      PagesCover(slots, Pages(slots));
    }
  }

  /** Of two powers of two the smaller is at most half of the larger. */
  lemma {:induction false} HalfPower(c: nat, d: nat)
    requires IsPowerOfTwo(c) && IsPowerOfTwo(d) && c < d
    ensures c <= d / 2
  {
    if c > 1 {
      HalfPower(c / 2, d / 2);
    }
  }

  lemma {:induction false} HalvedMaximal(slots: nat, count: nat, c: nat)
    requires IsPowerOfTwo(count) && IsPowerOfTwo(c) && c <= count && FinalPartitionSlots(slots, c) >= INDEX_CANDIDATES
    ensures c <= Halved(slots, count)
    ensures FinalPartitionSlots(slots, Halved(slots, count)) >= INDEX_CANDIDATES
  {
    if count > 1 && FinalPartitionSlots(slots, count) < INDEX_CANDIDATES {
      HalfPower(c, count);
      HalvedMaximal(slots, count / 2, c);
    }
  }

  /** The partition count is the greatest power of two, within the pages and the maximum, that leaves the
      last partition its four buckets. */
  lemma {:induction false} CountMaximal(slots: nat, c: nat)
    requires INDEX_CANDIDATES <= slots
    ensures FinalPartitionSlots(slots, PartitionCount(slots)) >= INDEX_CANDIDATES
    ensures IsPowerOfTwo(c) && c <= Pages(slots) && c <= 4096 && FinalPartitionSlots(slots, c) >= 4 ==> c <= PartitionCount(slots)
  {
    var limit := Min(Pages(slots), MAX_INDEX_PARTITIONS);
    var top := GreatestPowerOfTwo(limit);
    HalvedMaximal(slots, top, 1);
    if IsPowerOfTwo(c) && c <= limit && FinalPartitionSlots(slots, c) >= 4 {
      if c > top {
        HalfPower(top, c);
      }
      HalvedMaximal(slots, top, c);
    }
  }

  /** Every range of the canonical directory holds a bounded-probe table, so none is refused; page counts
      differ by at most one, the larger ones last. */
  lemma {:induction false} RangesUsable(slots: nat, i: nat)
    requires INDEX_CANDIDATES <= slots && i < PartitionCount(slots)
    ensures var r := RangeAt(slots, PartitionCount(slots), i);
            && r.slots >= 4 && 1 <= r.pages
            && Pages(slots) / PartitionCount(slots) <= r.pages <= Pages(slots) / PartitionCount(slots) + 1
            && (i + 1 < PartitionCount(slots) ==> r.pages <= RangeAt(slots, PartitionCount(slots), i + 1).pages)
  {
    var count, pages := PartitionCount(slots), Pages(slots);
    BaseAtLeastOne(pages, count);
    RangesTile(slots, count, i);
    if i + 1 < count {
      StartsInside(slots, count, i + 1);
    } else {
      CountMaximal(slots, 1);
      assert PageCount(pages, count, i) == pages / count + (if pages % count != 0 then 1 else 0);
    }
  }

  /** The smallest capacities are one partition on one page. */
  lemma SinglePage(slots: nat)
    requires 8 <= slots <= INDEX_IMAGE_SLOTS_PER_PAGE
    ensures CanonicalPartitions(slots, [Partition(0, 0, 1, 0, slots, 0, 0)])
  {
    assert Pages(slots) == 1;
    assert GreatestPowerOfTwo(1) == 1 && PartitionCount(slots) == 1;
    assert RangeAt(slots, 1, 0) == Range(0, 0, 1, 0, slots);
  }
}
