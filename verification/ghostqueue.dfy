/** The S3-FIFO ghost queue: hash history in insertion order, threaded through a link array with its own
    free list and found through the fixed directory. */
module GhostQueues {
  import opened Machine
  import opened Collect
  import opened Directory
  import opened Lists

  // ----- what the queue stands for -----

  datatype Hint = Hint(hash: u64, weight: nat)

  function HintBytes(q: seq<Hint>): nat {
    if q == [] then 0 else HintBytes(q[..|q| - 1]) + q[|q| - 1].weight
  }

  predicate DistinctPrints(q: seq<Hint>) {
    forall i, j :: 0 <= i < j < |q| ==> Fingerprint(q[i].hash) != Fingerprint(q[j].hash)
  }

  /** Position of the hint with fingerprint fp, or |q|. */
  function Find(q: seq<Hint>, fp: u32): (k: nat)
    ensures k <= |q|
    ensures k < |q| ==> Fingerprint(q[k].hash) == fp
    ensures forall i :: 0 <= i < k ==> Fingerprint(q[i].hash) != fp
  {
    if q == [] || Fingerprint(q[0].hash) == fp then 0 else 1 + Find(q[1..], fp)
  }

  function Dropped(q: seq<Hint>, k: nat): seq<Hint>
    requires k < |q|
  {
    q[..k] + q[k + 1..]
  }

  /** Consumes the hint with this hash's fingerprint; true when it was the same hash. */
  function TakeHint(q: seq<Hint>, hash: u64): (seq<Hint>, bool) {
    var k := Find(q, Fingerprint(hash));
    if k == |q| then (q, false) else (Dropped(q, k), q[k].hash == hash)
  }

  /** The history once it has room for `weight`, giving up its oldest hint if it must. */
  function Room(q: seq<Hint>, weight: nat, slots: nat, capacity: nat): Option<seq<Hint>> {
    if weight > U32_MAX || weight == 0 || weight > capacity || slots == 0 || capacity == 0 then None
    else if |q| < slots && HintBytes(q) + weight <= capacity then Some(q)
    else if q == [] || HintBytes(q) - q[0].weight + weight > capacity then None
    else Some(q[1..])
  }

  /** The newest hint replaces the one with its fingerprint; the directory may refuse a new one. */
  function PutHint(q: seq<Hint>, h: Hint, accepted: bool): seq<Hint> {
    var k := Find(q, Fingerprint(h.hash));
    if k < |q| then Dropped(q, k) + [h] else if accepted then q + [h] else q
  }

  /** Records one eviction. */
  function InsertHint(q: seq<Hint>, hash: u64, weight: nat, slots: nat, capacity: nat, accepted: bool): seq<Hint> {
    var room := Room(q, weight, slots, capacity);
    if room.None? then q else PutHint(room.value, Hint(hash, weight), accepted)
  }

  predicate History(q: seq<Hint>, slots: nat, capacity: nat) {
    DistinctPrints(q) && |q| <= slots && HintBytes(q) <= capacity
  }

  lemma TakeSplits(q: seq<Hint>, hash: u64)
    requires DistinctPrints(q)
    ensures forall h :: h in TakeHint(q, hash).0 <==> h in q && Fingerprint(h.hash) != Fingerprint(hash)
  {
    var k := Find(q, Fingerprint(hash));
    if k < |q| {
      DroppedSplits(q, k);
    }
  }

  lemma DroppedSplits(q: seq<Hint>, k: nat)
    requires DistinctPrints(q) && k < |q|
    ensures forall h :: h in Dropped(q, k) <==> h in q && Fingerprint(h.hash) != Fingerprint(q[k].hash)
  {
    var d := Dropped(q, k);
    assert forall i :: 0 <= i < |d| ==> d[i] == q[if i < k then i else i + 1];
    forall h | h in q && Fingerprint(h.hash) != Fingerprint(q[k].hash) ensures h in d {
      var i :| 0 <= i < |q| && q[i] == h;
      assert d[if i < k then i else i - 1] == h;
    }
  }

  /** A hash is taken exactly when it is queued, and a collision never counts as a hit. */
  lemma TakeExact(q: seq<Hint>, hash: u64)
    requires DistinctPrints(q)
    ensures TakeHint(q, hash).1 <==> exists i :: 0 <= i < |q| && q[i].hash == hash
    ensures forall i :: 0 <= i < |TakeHint(q, hash).0| ==> TakeHint(q, hash).0[i].hash != hash
    ensures forall h :: h in TakeHint(q, hash).0 <==> h in q && Fingerprint(h.hash) != Fingerprint(hash)
  {
    var k := Find(q, Fingerprint(hash));
    TakeSplits(q, hash);
    if k < |q| {
      forall i | 0 <= i < |q| && q[i].hash == hash ensures i == k {
      }
    }
  }

  lemma {:induction false} DroppedBytes(q: seq<Hint>, k: nat)
    requires k < |q|
    ensures HintBytes(Dropped(q, k)) + q[k].weight == HintBytes(q)
  {
    var n := |q| - 1;
    if k == n {
      assert Dropped(q, k) == q[..n];
    } else {
      assert Dropped(q, k)[..n - 1] == Dropped(q[..n], k);
      assert Dropped(q, k)[n - 1] == q[n];
      DroppedBytes(q[..n], k);
    }
  }

  lemma {:induction false} AppendBytes(q: seq<Hint>, h: Hint)
    ensures HintBytes(q + [h]) == HintBytes(q) + h.weight
  {
    assert (q + [h])[..|q|] == q;
  }

  /** Taking and inserting keep fingerprints distinct and the history within its slots and bytes. */
  lemma TakeKeeps(q: seq<Hint>, hash: u64, slots: nat, capacity: nat)
    requires History(q, slots, capacity)
    ensures History(TakeHint(q, hash).0, slots, capacity)
  {
    var k := Find(q, Fingerprint(hash));
    if k < |q| {
      DroppedBytes(q, k);
    }
  }

  lemma InsertKeeps(q: seq<Hint>, hash: u64, weight: nat, slots: nat, capacity: nat, accepted: bool)
    requires History(q, slots, capacity)
    ensures History(InsertHint(q, hash, weight, slots, capacity, accepted), slots, capacity)
  {
    var room := Room(q, weight, slots, capacity);
    if room.Some? {
      RoomFits(q, weight, slots, capacity);
      PutKeeps(room.value, Hint(hash, weight), accepted);
    }
  }

  /** The hints of p occur in q in the same order. */
  predicate InOrder(p: seq<Hint>, q: seq<Hint>) {
    p == [] || (q != [] && (InOrder(p, q[1..]) || (p[0] == q[0] && InOrder(p[1..], q[1..]))))
  }

  lemma {:induction false} InOrderSelf(q: seq<Hint>)
    ensures InOrder(q, q)
  {
    if q != [] {
      InOrderSelf(q[1..]);
    }
  }

  lemma {:induction false} InOrderDropped(q: seq<Hint>, k: nat)
    requires k < |q|
    ensures InOrder(Dropped(q, k), q)
    decreases |q|
  {
    if k == 0 {
      assert Dropped(q, k) == q[1..];
      InOrderSelf(q[1..]);
    } else {
      InOrderDropped(q[1..], k - 1);
      assert Dropped(q, k)[1..] == Dropped(q[1..], k - 1) && Dropped(q, k)[0] == q[0];
    }
  }

  lemma {:induction false} InOrderTail(p: seq<Hint>, q: seq<Hint>)
    requires q != [] && InOrder(p, q[1..])
    ensures InOrder(p, q)
  {
  }

  /** The hints besides the newest one. */
  lemma {:induction false} PutOrder(q: seq<Hint>, h: Hint)
    ensures var q' := PutHint(q, h, true);
            q' != [] && q'[|q'| - 1] == h && InOrder(q'[..|q'| - 1], q)
  {
    var k := Find(q, Fingerprint(h.hash));
    var others := if k < |q| then Dropped(q, k) else q;
    assert (others + [h])[..|others|] == others;
    if k < |q| {
      InOrderDropped(q, k);
    } else {
      InOrderSelf(q);
    }
  }

  /** A recorded eviction is the newest hint and will be found; the others are old hints in their old
      order. */
  lemma {:induction false} InsertRemembers(q: seq<Hint>, hash: u64, weight: nat, slots: nat, capacity: nat)
    requires History(q, slots, capacity) && Room(q, weight, slots, capacity).Some?
    ensures var q' := InsertHint(q, hash, weight, slots, capacity, true);
            && q' != [] && q'[|q'| - 1] == Hint(hash, weight) && TakeHint(q', hash).1
            && InOrder(q'[..|q'| - 1], q)
  {
    var rest, h := Room(q, weight, slots, capacity).value, Hint(hash, weight);
    var q' := PutHint(rest, h, true);
    PutOrder(rest, h);
    if rest != q {
      InOrderTail(q'[..|q'| - 1], q);
    }
    RoomFits(q, weight, slots, capacity);
    PutKeeps(rest, h, true);
    TakeExact(q', hash);
  }

  /** An eviction of a recordable weight is recorded exactly when the history has room for it once its oldest
      hint is gone. */
  lemma {:induction false} RoomExact(q: seq<Hint>, weight: nat, slots: nat, capacity: nat)
    requires History(q, slots, capacity)
    ensures Room(q, weight, slots, capacity).Some? <==>
            0 < weight <= 0xFFFF_FFFF && weight <= capacity && slots > 0
            && (q == [] || HintBytes(q) - q[0].weight + weight <= capacity)
  {
    if q != [] {
      DroppedBytes(q, 0);
    }
  }

  lemma {:induction false} RoomSplits(q: seq<Hint>, weight: nat, slots: nat, capacity: nat, h: Hint)
    requires DistinctPrints(q) && Room(q, weight, slots, capacity).Some?
    ensures h in Room(q, weight, slots, capacity).value <==>
            h in q && (h == q[0] ==> |q| < slots && HintBytes(q) + weight <= capacity)
  {
    var rest := Room(q, weight, slots, capacity).value;
    if |q| >= slots || HintBytes(q) + weight > capacity {
      TailSplits(q, h);
      assert rest == q[1..];
    }
  }

  lemma TailSplits(q: seq<Hint>, h: Hint)
    requires DistinctPrints(q) && q != []
    ensures h in q[1..] <==> h in q && h != q[0]
  {
    assert q == [q[0]] + q[1..];
    if h in q[1..] {
      var i :| 0 < i < |q| && q[i] == h;
    }
  }

  lemma PutSplits(q: seq<Hint>, newest: Hint, h: Hint)
    requires DistinctPrints(q)
    ensures h in PutHint(q, newest, true) <==> h == newest || (h in q && Fingerprint(h.hash) != Fingerprint(newest.hash))
  {
    var k := Find(q, Fingerprint(newest.hash));
    if k < |q| {
      DroppedSplits(q, k);
    }
  }

  /** Recording an eviction gives up the hint with its fingerprint, and the oldest hint exactly when a slot or
      its bytes are needed; every other hint stays. */
  lemma {:induction false} InsertExact(q: seq<Hint>, hash: u64, weight: nat, slots: nat, capacity: nat, h: Hint)
    requires History(q, slots, capacity) && Room(q, weight, slots, capacity).Some?
    ensures h in InsertHint(q, hash, weight, slots, capacity, true) <==>
            || h == Hint(hash, weight)
            || (&& h in q && Fingerprint(h.hash) != Fingerprint(hash)
                && (h == q[0] ==> |q| < slots && HintBytes(q) + weight <= capacity))
  {
    RoomFits(q, weight, slots, capacity);
    RoomSplits(q, weight, slots, capacity, h);
    PutSplits(Room(q, weight, slots, capacity).value, Hint(hash, weight), h);
  }

  lemma RoomFits(q: seq<Hint>, weight: nat, slots: nat, capacity: nat)
    requires History(q, slots, capacity) && Room(q, weight, slots, capacity).Some?
    ensures var rest := Room(q, weight, slots, capacity).value;
            DistinctPrints(rest) && |rest| < slots && HintBytes(rest) + weight <= capacity
  {
    var rest := Room(q, weight, slots, capacity).value;
    if rest != q {
      DroppedKeeps(q, 0);
      assert Dropped(q, 0) == rest;
    }
  }

  lemma {:induction false} PutKeeps(q: seq<Hint>, h: Hint, accepted: bool)
    requires DistinctPrints(q)
    ensures DistinctPrints(PutHint(q, h, accepted))
    ensures |PutHint(q, h, accepted)| <= |q| + 1 && HintBytes(PutHint(q, h, accepted)) <= HintBytes(q) + h.weight
  {
    var k := Find(q, Fingerprint(h.hash));
    if k < |q| {
      DroppedKeeps(q, k);
      AppendKeeps(Dropped(q, k), h);
    } else {
      AppendKeeps(q, h);
    }
  }

  lemma {:induction false} DroppedKeeps(q: seq<Hint>, k: nat)
    requires DistinctPrints(q) && k < |q|
    ensures DistinctPrints(Dropped(q, k)) && HintBytes(Dropped(q, k)) + q[k].weight == HintBytes(q)
    ensures forall i :: 0 <= i < |Dropped(q, k)| ==> Fingerprint(Dropped(q, k)[i].hash) != Fingerprint(q[k].hash)
  {
    DroppedBytes(q, k);
    var d := Dropped(q, k);
    assert forall i :: 0 <= i < |d| ==> d[i] == q[if i < k then i else i + 1];
  }

  lemma DroppedAppend(q: seq<Hint>, h: Hint, k: nat)
    requires k < |q|
    ensures Dropped(q + [h], k) == Dropped(q, k) + [h]
  {
  }

  lemma {:induction false} AppendKeeps(q: seq<Hint>, h: Hint)
    requires DistinctPrints(q) && forall i :: 0 <= i < |q| ==> Fingerprint(q[i].hash) != Fingerprint(h.hash)
    ensures DistinctPrints(q + [h]) && HintBytes(q + [h]) == HintBytes(q) + h.weight
  {
    AppendBytes(q, h);
  }

  // ----- links and free list -----

  /** The free slots, chained through their next links. */
  ghost predicate FreeChain(links: seq<Link>, free: seq<nat>) {
    && Distinct(free)
    && forall i :: 0 <= i < |free| ==> free[i] < |links| && links[free[i]].next == Behind(free, i)
  }

  ghost predicate Split(links: seq<Link>, items: seq<nat>, free: seq<nat>) {
    && Chained(links, items) && FreeChain(links, free)
    && (forall i :: 0 <= i < |free| ==> free[i] !in items)
    && |items| + |free| == |links|
  }

  /** The links after slot `index` joins the free list. */
  function Unlinking(links: seq<Link>, index: nat, freeHead: nat): seq<Link>
    requires index < |links|
  {
    Removed(links, index)[index := Link(NIL, freeHead, 0)]
  }

  lemma {:induction false} UnlinkChain(links: seq<Link>, items: seq<nat>, i: nat, freeHead: nat)
    requires Chained(links, items) && i < |items|
    ensures items[i] < |links|
    ensures var links' := Unlinking(links, items[i], freeHead);
            && Chained(links', Without(items, i))
            && Weight(links', Without(items, i)) + WeightAt(links, items[i]) == Weight(links, items)
            && (forall k :: 0 <= k < |links| && k != items[i] ==> links'[k].weight == links[k].weight)
            && (forall k :: 0 <= k < |links| && k !in items ==> links'[k] == links[k])
  {
    RemoveWeight(links, items, i);
    RemoveFrame(links, items, i);
    WithoutMembers(items, i);
    var items' := Without(items, i);
    forall j | 0 <= j < |items'| ensures items'[j] != items[i] {
      assert items'[j] in items';
    }
    ChainFrame(Removed(links, items[i]), Unlinking(links, items[i], freeHead), items');
  }

  lemma UnlinkSplit(links: seq<Link>, items: seq<nat>, free: seq<nat>, i: nat)
    requires Split(links, items, free) && i < |items| && items[i] < |links|
    ensures Split(Unlinking(links, items[i], First(free)), Without(items, i), [items[i]] + free)
  {
    var index := items[i];
    var links', items' := Unlinking(links, index, First(free)), Without(items, i);
    UnlinkChain(links, items, i, First(free));
    WithoutMembers(items, i);
    assert index in items;
    FreePush(links, links', free, index);
  }

  lemma FreePush(links: seq<Link>, links': seq<Link>, free: seq<nat>, index: nat)
    requires FreeChain(links, free) && index < |links| == |links'| && index !in free
    requires links'[index].next == First(free)
    requires forall i :: 0 <= i < |free| ==> links'[free[i]] == links[free[i]]
    ensures FreeChain(links', [index] + free)
  {
    var free' := [index] + free;
    forall j | 0 <= j < |free'| ensures free'[j] < |links'| && links'[free'[j]].next == Behind(free', j) {
      if j > 0 {
        assert free'[j] == free[j - 1];
      }
    }
  }

  lemma {:induction false} ClaimSplit(links: seq<Link>, items: seq<nat>, free: seq<nat>, weight: nat)
    requires Split(links, items, free) && free != [] && 0 < weight <= U32_MAX
    ensures free[0] < |links|
    ensures var links' := Pushed(links, Last(items), free[0], weight);
            && Split(links', items + [free[0]], free[1..])
            && Weight(links', items + [free[0]]) == Weight(links, items) + weight
            && WeightAt(links', free[0]) == weight
            && (forall k :: 0 <= k < |items| ==> WeightAt(links', items[k]) == WeightAt(links, items[k]))
  {
    var index := free[0];
    var links', items', free' := Pushed(links, Last(items), index, weight), items + [index], free[1..];
    PushChains(links, items, index, weight);
    PushFrame(links, items, index, weight);
    forall k | 0 <= k < |items| ensures WeightAt(links', items[k]) == WeightAt(links, items[k]) {
      assert items[k] in items;
    }
    WeightPush(links', items, index);
    WeightFrame(links, links', items);
    forall j | 0 <= j < |free'| ensures free'[j] < |links'| && links'[free'[j]].next == Behind(free', j) && free'[j] !in items' {
      assert free'[j] == free[j + 1] && free[j + 1] !in items;
    }
  }

  function HashAt(hashes: seq<u64>, k: nat): u64 {
    if k < |hashes| then hashes[k] else 0
  }

  function HintAt(hashes: seq<u64>, links: seq<Link>, k: nat): Hint {
    Hint(HashAt(hashes, k), WeightAt(links, k))
  }

  /** The history that the arrays spell out. */
  function Hints(hashes: seq<u64>, links: seq<Link>, items: seq<nat>): (q: seq<Hint>)
    ensures |q| == |items|
  {
    seq(|items|, i requires 0 <= i < |items| => HintAt(hashes, links, items[i]))
  }

  lemma {:induction false} HintsBytes(hashes: seq<u64>, links: seq<Link>, items: seq<nat>)
    ensures HintBytes(Hints(hashes, links, items)) == Weight(links, items)
  {
    if items != [] {
      var n := |items| - 1;
      HintsBytes(hashes, links, items[..n]);
      assert Hints(hashes, links, items)[..n] == Hints(hashes, links, items[..n]);
    }
  }

  // ----- the directory names exactly the queued slots -----

  ghost predicate Indexed(m: map<u32, u32>, hashes: seq<u64>, items: seq<nat>) {
    && (forall i :: 0 <= i < |items| ==> Fingerprint(HashAt(hashes, items[i])) in m && m[Fingerprint(HashAt(hashes, items[i]))] == items[i])
    && (forall fp :: fp in m ==> m[fp] in items && Fingerprint(HashAt(hashes, m[fp])) == fp)
  }

  lemma {:induction false} IndexedFind(m: map<u32, u32>, hashes: seq<u64>, links: seq<Link>, items: seq<nat>, fp: u32)
    requires Indexed(m, hashes, items) && Distinct(items)
    ensures var k := Find(Hints(hashes, links, items), fp);
            if k < |items| then fp in m && m[fp] == items[k] else fp !in m
    ensures DistinctPrints(Hints(hashes, links, items))
  {
    var q := Hints(hashes, links, items);
    var k := Find(q, fp);
    forall i | 0 <= i < |items| ensures Fingerprint(q[i].hash) == fp ==> fp in m && m[fp] == items[i] {
      assert q[i].hash == HashAt(hashes, items[i]);
    }
    if fp in m {
      var i :| 0 <= i < |items| && items[i] == m[fp];
      assert q[i].hash == HashAt(hashes, items[i]);
    }
  }

  /** Hints of slots whose hash and weight stay are unchanged. */
  lemma HintsFrame(hashes: seq<u64>, hashes': seq<u64>, links: seq<Link>, links': seq<Link>, items: seq<nat>)
    requires forall i :: 0 <= i < |items| ==> HintAt(hashes', links', items[i]) == HintAt(hashes, links, items[i])
    ensures Hints(hashes', links', items) == Hints(hashes, links, items)
  {
  }

  lemma HintsWithout(hashes: seq<u64>, hashes': seq<u64>, links: seq<Link>, links': seq<Link>, items: seq<nat>, i: nat)
    requires Distinct(items) && i < |items|
    requires forall k: nat :: k != items[i] ==> HintAt(hashes', links', k) == HintAt(hashes, links, k)
    ensures Hints(hashes', links', Without(items, i)) == Dropped(Hints(hashes, links, items), i)
  {
    var p, q := Hints(hashes', links', Without(items, i)), Dropped(Hints(hashes, links, items), i);
    WithoutMembers(items, i);
    forall j | 0 <= j < |p| ensures p[j] == q[j] {
      WithoutAt(items, i, j);
      assert Without(items, i)[j] in Without(items, i);
    }
  }

  lemma IndexedWithout(m: map<u32, u32>, hashes: seq<u64>, hashes': seq<u64>, items: seq<nat>, k: nat)
    requires Indexed(m, hashes, items) && Distinct(items) && k < |items|
    requires forall x: nat :: x != items[k] ==> HashAt(hashes', x) == HashAt(hashes, x)
    ensures Indexed(m - {Fingerprint(HashAt(hashes, items[k]))}, hashes', Without(items, k))
  {
    var items', gone := Without(items, k), Fingerprint(HashAt(hashes, items[k]));
    var m' := m - {gone};
    WithoutMembers(items, k);
    forall i | 0 <= i < |items'|
      ensures Fingerprint(HashAt(hashes', items'[i])) in m' && m'[Fingerprint(HashAt(hashes', items'[i]))] == items'[i]
    {
      assert items'[i] in items';
      var j :| 0 <= j < |items| && items[j] == items'[i];
    }
    forall fp | fp in m' ensures m'[fp] in items' && Fingerprint(HashAt(hashes', m'[fp])) == fp {
      assert m[fp] != items[k];
      WithoutHas(items, k, m[fp]);
    }
  }

  /** A new slot takes over its fingerprint, which no queued slot has. */
  lemma IndexedAppend(m: map<u32, u32>, hashes: seq<u64>, hashes': seq<u64>, items: seq<nat>, index: u32)
    requires index !in items && Fingerprint(HashAt(hashes', index)) !in m
    requires Indexed(m, hashes, items)
    requires forall x: nat :: x != index ==> HashAt(hashes', x) == HashAt(hashes, x)
    ensures Indexed(m[Fingerprint(HashAt(hashes', index)) := index], hashes', items + [index])
  {
    var fp, items' := Fingerprint(HashAt(hashes', index)), items + [index];
    var m' := m[fp := index];
    forall i | 0 <= i < |items'|
      ensures Fingerprint(HashAt(hashes', items'[i])) in m' && m'[Fingerprint(HashAt(hashes', items'[i]))] == items'[i]
    {
      if i < |items| {
        assert items[i] in items && items'[i] == items[i];
      }
    }
    forall f | f in m' ensures m'[f] in items' && Fingerprint(HashAt(hashes', m'[f])) == f {
      if f != fp {
        assert m[f] in items;
      }
    }
  }

  lemma IndexedFrame(m: map<u32, u32>, hashes: seq<u64>, hashes': seq<u64>, items: seq<nat>)
    requires Indexed(m, hashes, items)
    requires forall i :: 0 <= i < |items| ==> HashAt(hashes', items[i]) == HashAt(hashes, items[i])
    ensures Indexed(m, hashes', items)
  {
  }

  /** The new slot `index` takes over the fingerprint of the k-th queued slot, which leaves. */
  lemma Replaced(m: map<u32, u32>, hashes: seq<u64>, hashes': seq<u64>, items: seq<nat>, k: nat, index: u32)
    requires Indexed(m, hashes, items) && Distinct(items) && k < |items| && index !in items
    requires forall x: nat :: x != index && x != items[k] ==> HashAt(hashes', x) == HashAt(hashes, x)
    requires Fingerprint(HashAt(hashes', index)) == Fingerprint(HashAt(hashes, items[k]))
    ensures Indexed(m[Fingerprint(HashAt(hashes', index)) := index], hashes', Without(items + [index], k))
  {
    var fp, items' := Fingerprint(HashAt(hashes', index)), Without(items, k);
    var m' := m[fp := index];
    assert items[k] in items;
    WithoutMembers(items, k);
    assert Without(items + [index], k) == items' + [index];
    forall i | 0 <= i < |items'|
      ensures Fingerprint(HashAt(hashes', items'[i])) in m' && m'[Fingerprint(HashAt(hashes', items'[i]))] == items'[i]
    {
      assert items'[i] in items';
      var j :| 0 <= j < |items| && items[j] == items'[i];
      assert m[Fingerprint(HashAt(hashes, items[j]))] == items[j];
    }
    forall f | f in m' && f != fp ensures m'[f] in items' && Fingerprint(HashAt(hashes', m'[f])) == f {
      assert m[f] in items && m[f] != items[k];
      WithoutHas(items, k, m[f]);
    }
  }

  // ----- the stored fields and what they mean -----

  datatype Fields = Fields(
    links: seq<Link>, hashes: seq<u64>, freeHead: nat, freeCount: nat, head: nat, tail: nat, bytes: nat)

  /** The neighbours named by a slot's link exist. */
  predicate Unlinkable(f: Fields, index: nat) {
    && index < |f.links| == |f.hashes|
    && (f.links[index].previous == NIL || f.links[index].previous < |f.links|)
    && (f.links[index].next == NIL || f.links[index].next < |f.links|)
    && |f.links| <= NIL
  }

  function UnlinkFields(f: Fields, index: nat): Fields
    requires index < |f.links| == |f.hashes|
  {
    var link := f.links[index];
    Fields(Unlinking(f.links, index, f.freeHead),
           f.hashes[index := 0],
           index,
           f.freeCount + 1,
           if link.previous == NIL then link.next else f.head,
           if link.next == NIL then link.previous else f.tail,
           SaturatingSub(f.bytes, link.weight))
  }

  function AppendFields(f: Fields, hash: u64, weight: nat): Fields
    requires f.freeHead < |f.links| == |f.hashes|
  {
    var index := f.freeHead;
    Fields(Pushed(f.links, f.tail, index, weight),
           f.hashes[index := hash],
           f.links[index].next,
           SaturatingSub(f.freeCount, 1),
           if f.tail == NIL then index else f.head,
           index,
           Min(f.bytes + weight, U64_MAX))
  }

  /** Queue and free list partition the slots, and the counters agree with them. */
  ghost predicate Linked(f: Fields, items: seq<nat>, free: seq<nat>) {
    && |f.hashes| == |f.links| <= DELETED_VALUE
    && Split(f.links, items, free)
    && f.head == First(items) && f.tail == Last(items)
    && f.freeHead == First(free) && f.freeCount == |free|
    && f.bytes == Weight(f.links, items)
  }

  lemma UnlinkLinked(f: Fields, items: seq<nat>, free: seq<nat>, i: nat)
    requires Linked(f, items, free) && i < |items|
    ensures Unlinkable(f, items[i])
    ensures Linked(UnlinkFields(f, items[i]), Without(items, i), [items[i]] + free)
  {
    UnlinkChain(f.links, items, i, First(free));
    UnlinkSplit(f.links, items, free, i);
    RemoveEnds(f.links, items, i);
  }

  lemma AppendLinked(f: Fields, items: seq<nat>, free: seq<nat>, hash: u64, weight: nat)
    requires Linked(f, items, free) && free != [] && 0 < weight <= U32_MAX
    ensures f.freeHead == free[0] < |f.links|
    ensures Linked(AppendFields(f, hash, weight), items + [free[0]], free[1..])
    ensures AppendFields(f, hash, weight).bytes == f.bytes + weight
  {
    assert items != [] ==> LinkedAt(f.links, items, |items| - 1);
    ClaimSplit(f.links, items, free, weight);
    WeightFits(f.links, items);
  }

  function HintsOf(f: Fields, items: seq<nat>): seq<Hint> {
    Hints(f.hashes, f.links, items)
  }

  lemma UnlinkHints(f: Fields, items: seq<nat>, i: nat)
    requires Chained(f.links, items) && i < |items| && |f.hashes| == |f.links| && items[i] < |f.links|
    ensures HintsOf(UnlinkFields(f, items[i]), Without(items, i)) == Dropped(HintsOf(f, items), i)
  {
    UnlinkChain(f.links, items, i, f.freeHead);
    var f' := UnlinkFields(f, items[i]);
    HintsWithout(f.hashes, f'.hashes, f.links, f'.links, items, i);
  }

  lemma AppendHints(f: Fields, items: seq<nat>, free: seq<nat>, hash: u64, weight: nat)
    requires Linked(f, items, free) && free != [] && 0 < weight <= U32_MAX && f.freeHead < |f.links|
    ensures HintsOf(AppendFields(f, hash, weight), items + [free[0]]) == HintsOf(f, items) + [Hint(hash, weight)]
  {
    ClaimSplit(f.links, items, free, weight);
    var f' := AppendFields(f, hash, weight);
    forall i | 0 <= i < |items| ensures HintAt(f'.hashes, f'.links, items[i]) == HintAt(f.hashes, f.links, items[i]) {
      assert items[i] in items;
    }
    HintsFrame(f.hashes, f'.hashes, f.links, f'.links, items);
  }

  /** The whole ghost queue: its fields, what the directory maps, and the sequences they stand for. */
  datatype Ghost = Ghost(fields: Fields, model: map<u32, u32>, items: seq<nat>, free: seq<nat>, capacity: nat) {
    function Queue(): seq<Hint> {
      HintsOf(fields, items)
    }
  }

  datatype Clause = Structure | Naming

  ghost function Ghosts(clause: Clause): iset<Ghost> {
    match clause
    case Structure => iset g: Ghost | Linked(g.fields, g.items, g.free) && g.fields.bytes <= g.capacity
    case Naming => iset g: Ghost | Indexed(g.model, g.fields.hashes, g.items)
  }

  /** The invariant.  Proofs open a clause by mentioning it. */
  ghost predicate Good(g: Ghost) {
    forall clause {:trigger g in Ghosts(clause)} :: g in Ghosts(clause)
  }

  lemma GoodIs(g: Ghost)
    requires g in Ghosts(Structure) && g in Ghosts(Naming)
    ensures Good(g)
  {
    forall clause ensures g in Ghosts(clause) {
      match clause
      case Structure =>
      case Naming =>
    }
  }

  /** A good queue is a history within its slots and bytes; slots are queued or free. */
  lemma GoodHistory(g: Ghost)
    requires Good(g)
    ensures History(g.Queue(), |g.fields.links|, g.capacity)
    ensures HintBytes(g.Queue()) == g.fields.bytes
    ensures |g.Queue()| + g.fields.freeCount == |g.fields.links|
  {
    assert g in Ghosts(Structure) && g in Ghosts(Naming);
    IndexedFind(g.model, g.fields.hashes, g.fields.links, g.items, 0);
    HintsBytes(g.fields.hashes, g.fields.links, g.items);
  }

  /** The directory finds exactly the queued fingerprints. */
  lemma {:induction false} FoundSlot(g: Ghost, fp: u32)
    requires Good(g)
    ensures var k := Find(g.Queue(), fp);
            && |g.Queue()| == |g.items|
            && (k < |g.items| <==> fp in g.model)
            && (k < |g.items| ==> g.model[fp] == g.items[k] && Unlinkable(g.fields, g.items[k])
                                  && g.Queue()[k].hash == g.fields.hashes[g.items[k]])
  {
    assert g in Ghosts(Structure) && g in Ghosts(Naming);
    var k := Find(g.Queue(), fp);
    IndexedFind(g.model, g.fields.hashes, g.fields.links, g.items, fp);
    if k < |g.items| {
      UnlinkLinked(g.fields, g.items, g.free, k);
    }
  }

  /** Removing the k-th hint from the directory and the queue. */
  function Forgotten(g: Ghost, k: nat): Ghost
    requires k < |g.items| && g.items[k] < |g.fields.links| == |g.fields.hashes|
  {
    g.(fields := UnlinkFields(g.fields, g.items[k]),
       model := g.model - {Fingerprint(g.fields.hashes[g.items[k]])},
       items := Without(g.items, k),
       free := [g.items[k]] + g.free)
  }

  lemma ForgottenGood(g: Ghost, k: nat)
    requires Good(g) && k < |g.items|
    ensures Unlinkable(g.fields, g.items[k])
    ensures Good(Forgotten(g, k)) && Forgotten(g, k).Queue() == Dropped(g.Queue(), k)
  {
    assert g in Ghosts(Structure) && g in Ghosts(Naming);
    UnlinkLinked(g.fields, g.items, g.free, k);
    UnlinkHints(g.fields, g.items, k);
    var g' := Forgotten(g, k);
    assert g' in Ghosts(Structure);
    IndexedWithout(g.model, g.fields.hashes, g'.fields.hashes, g.items, k);
    assert g' in Ghosts(Naming);
    GoodIs(g');
  }

  ghost predicate HasRoom(g: Ghost, weight: nat) {
    Good(g) && g.free != [] && 0 < weight <= U32_MAX && g.fields.bytes + weight <= g.capacity
  }

  /** A hint appended but not yet in the directory. */
  function Appended(g: Ghost, hash: u64, weight: nat): Ghost
    requires g.free != [] && g.fields.freeHead < |g.fields.links| == |g.fields.hashes|
  {
    g.(fields := AppendFields(g.fields, hash, weight), items := g.items + [g.free[0]], free := g.free[1..])
  }

  lemma AppendedStructure(g: Ghost, hash: u64, weight: nat)
    requires HasRoom(g, weight)
    ensures g.fields.freeHead == g.free[0] < |g.fields.links| == |g.fields.hashes| <= DELETED_VALUE
    ensures g.fields.tail == NIL || g.fields.tail < |g.fields.links|
    ensures g.fields.freeCount > 0 && g.free[0] !in g.items
    ensures Appended(g, hash, weight) in Ghosts(Structure)
    ensures Appended(g, hash, weight).Queue() == g.Queue() + [Hint(hash, weight)]
  {
    assert g in Ghosts(Structure);
    assert g.items != [] ==> LinkedAt(g.fields.links, g.items, |g.items| - 1);
    AppendLinked(g.fields, g.items, g.free, hash, weight);
    AppendHints(g.fields, g.items, g.free, hash, weight);
  }

  /** The i-th slot leaves the queue but not the directory. */
  function Lost(g: Ghost, i: nat): Ghost
    requires i < |g.items| && g.items[i] < |g.fields.links| == |g.fields.hashes|
  {
    g.(fields := UnlinkFields(g.fields, g.items[i]), items := Without(g.items, i), free := [g.items[i]] + g.free)
  }

  lemma LostStructure(g: Ghost, i: nat)
    requires g in Ghosts(Structure) && i < |g.items|
    ensures Unlinkable(g.fields, g.items[i])
    ensures Lost(g, i) in Ghosts(Structure) && Lost(g, i).Queue() == Dropped(g.Queue(), i)
  {
    UnlinkLinked(g.fields, g.items, g.free, i);
    UnlinkHints(g.fields, g.items, i);
  }

  predicate Claimable(g: Ghost) {
    g.free != [] && g.fields.freeHead == g.free[0] < |g.fields.links| == |g.fields.hashes| <= DELETED_VALUE
  }

  /** The directory refuses the new fingerprint, and the appended slot is freed again. */
  function TurnedAway(g: Ghost, hash: u64, weight: nat): Ghost
    requires Claimable(g)
  {
    Lost(Appended(g, hash, weight), |g.items|)
  }

  /** The new fingerprint is in the directory. */
  function Joined(g: Ghost, hash: u64, weight: nat): Ghost
    requires Claimable(g)
  {
    Appended(g, hash, weight).(model := g.model[Fingerprint(hash) := g.free[0]])
  }

  /** The new slot replaces the k-th one, which has the same fingerprint. */
  function Renewed(g: Ghost, hash: u64, weight: nat, k: nat): Ghost
    requires Claimable(g) && k < |g.items| && g.items[k] < |g.fields.links|
  {
    Lost(Appended(g, hash, weight), k).(model := g.model[Fingerprint(hash) := g.free[0]])
  }

  lemma PutRefused(g: Ghost, hash: u64, weight: nat)
    requires HasRoom(g, weight) && Find(g.Queue(), Fingerprint(hash)) == |g.items|
    ensures Claimable(g) && Unlinkable(Appended(g, hash, weight).fields, g.free[0])
    ensures Good(TurnedAway(g, hash, weight))
    ensures TurnedAway(g, hash, weight).Queue() == PutHint(g.Queue(), Hint(hash, weight), false)
  {
    AppendedStructure(g, hash, weight);
    var appended, n := Appended(g, hash, weight), |g.items|;
    LostStructure(appended, n);
    var g' := TurnedAway(g, hash, weight);
    assert g' in Ghosts(Structure);
    assert Dropped(g.Queue() + [Hint(hash, weight)], n) == g.Queue();
    RefusedNaming(g, g', hash);
    GoodIs(g');
  }

  lemma RefusedNaming(g: Ghost, g': Ghost, hash: u64)
    requires Good(g) && Claimable(g) && g.free[0] !in g.items && g'.model == g.model
    requires g'.fields.hashes == g.fields.hashes[g.free[0] := hash][g.free[0] := 0]
    requires g'.items == Without(g.items + [g.free[0]], |g.items|)
    ensures g' in Ghosts(Naming)
  {
    assert g in Ghosts(Naming);
    assert g'.items == g.items;
    forall i | 0 <= i < |g.items| ensures HashAt(g'.fields.hashes, g.items[i]) == HashAt(g.fields.hashes, g.items[i]) {
      assert g.items[i] in g.items;
    }
    IndexedFrame(g.model, g.fields.hashes, g'.fields.hashes, g.items);
  }

  lemma PutNew(g: Ghost, hash: u64, weight: nat)
    requires HasRoom(g, weight) && Find(g.Queue(), Fingerprint(hash)) == |g.items|
    ensures Claimable(g)
    ensures Good(Joined(g, hash, weight))
    ensures Joined(g, hash, weight).Queue() == PutHint(g.Queue(), Hint(hash, weight), true)
  {
    AppendedStructure(g, hash, weight);
    FoundSlot(g, Fingerprint(hash));
    var g' := Joined(g, hash, weight);
    assert g' in Ghosts(Structure);
    assert g in Ghosts(Naming);
    IndexedAppend(g.model, g.fields.hashes, g'.fields.hashes, g.items, g.free[0]);
    assert g' in Ghosts(Naming);
    GoodIs(g');
  }

  lemma RenewedStructure(g: Ghost, hash: u64, weight: nat, k: nat)
    requires HasRoom(g, weight) && k < |g.items|
    ensures Claimable(g) && g.free[0] !in g.items
    ensures Unlinkable(Appended(g, hash, weight).fields, g.items[k])
    ensures Renewed(g, hash, weight, k) in Ghosts(Structure)
    ensures Renewed(g, hash, weight, k).Queue() == Dropped(g.Queue(), k) + [Hint(hash, weight)]
  {
    AppendedStructure(g, hash, weight);
    var appended := Appended(g, hash, weight);
    assert appended.items[k] == g.items[k];
    LostStructure(appended, k);
    assert |g.Queue()| == |g.items|;
    DroppedAppend(g.Queue(), Hint(hash, weight), k);
  }

  lemma PutReplaces(g: Ghost, hash: u64, weight: nat, k: nat)
    requires HasRoom(g, weight) && k == Find(g.Queue(), Fingerprint(hash)) < |g.items|
    ensures Claimable(g) && Unlinkable(Appended(g, hash, weight).fields, g.items[k])
    ensures Good(Renewed(g, hash, weight, k))
    ensures Renewed(g, hash, weight, k).Queue() == PutHint(g.Queue(), Hint(hash, weight), true)
  {
    RenewedStructure(g, hash, weight, k);
    FoundSlot(g, Fingerprint(hash));
    var g' := Renewed(g, hash, weight, k);
    RenewedNaming(g, g', hash, k);
    GoodIs(g');
  }

  lemma RenewedNaming(g: Ghost, g': Ghost, hash: u64, k: nat)
    requires Good(g) && Claimable(g) && g.free[0] !in g.items
    requires k == Find(g.Queue(), Fingerprint(hash)) < |g.items| && g.items[k] < |g.fields.links|
    requires g.Queue()[k].hash == g.fields.hashes[g.items[k]]
    requires g'.model == g.model[Fingerprint(hash) := g.free[0]] && g'.items == Without(g.items + [g.free[0]], k)
    requires g'.fields.hashes == g.fields.hashes[g.free[0] := hash][g.items[k] := 0]
    ensures g' in Ghosts(Naming)
  {
    assert g in Ghosts(Naming) && g in Ghosts(Structure);
    assert g.items[k] in g.items;
    Replaced(g.model, g.fields.hashes, g'.fields.hashes, g.items, k, g.free[0]);
  }

  /** Every slot on the free list, in order. */
  function FreshFields(n: nat): Fields {
    Fields(seq(n, (i: nat) => Link(NIL, if i + 1 == n then NIL else i + 1, 0)), seq(n, _ => 0),
           if n == 0 then NIL else 0, n, NIL, NIL, 0)
  }

  lemma FreshChain(n: nat)
    ensures FreeChain(FreshFields(n).links, seq(n, i => i))
  {
    var links, free := FreshFields(n).links, seq(n, i => i);
    forall i | 0 <= i < |free| ensures free[i] < |links| && links[free[i]].next == Behind(free, i) {
      assert free[i] == i;
    }
  }

  lemma FreshGood(n: nat, capacity: nat)
    requires n <= DELETED_VALUE
    ensures Good(Ghost(FreshFields(n), map[], [], seq(n, i => i), capacity))
    ensures Ghost(FreshFields(n), map[], [], seq(n, i => i), capacity).Queue() == []
  {
    var g := Ghost(FreshFields(n), map[], [], seq(n, i => i), capacity);
    FreshChain(n);
    assert g in Ghosts(Structure);
    assert g in Ghosts(Naming);
    GoodIs(g);
  }

  // ----- what the directory answers -----

  /** Whether the directory accepts a new eviction: it is asked after the oldest hint, if it has to make
      room, has left. */
  ghost predicate Answers(s: seq<Slot>, q: seq<Hint>, hash: u64, weight: nat, slots: nat, capacity: nat) {
    var room := Room(q, weight, slots, capacity);
    CanUpsert(if room.Some? && room.value != q && q != [] then Forgetting(s, Fingerprint(q[0].hash)) else s, Fingerprint(hash))
  }

  /** The directory holds at most one key per queued slot. */
  lemma {:induction false} NamedCount(m: map<u32, u32>, hashes: seq<u64>, items: seq<nat>)
    requires forall fp :: fp in m ==> m[fp] in items && Fingerprint(HashAt(hashes, m[fp])) == fp
    ensures |m.Keys| <= |items|
    decreases |items|
  {
    if items == [] {
      assert m.Keys == {};
    } else {
      var n := |items| - 1;
      var fp := Fingerprint(HashAt(hashes, items[n]));
      var m' := m - {fp};
      forall f | f in m' ensures m'[f] in items[..n] {
        assert m[f] != items[n];
      }
      NamedCount(m', hashes, items[..n]);
      assert m.Keys <= m'.Keys + {fp};
      assert |m.Keys| <= |m'.Keys + {fp}| by {
        KeysBound(m.Keys, m'.Keys + {fp});
      }
    }
  }

  lemma KeysBound(a: set<u32>, b: set<u32>)
    requires a <= b
    ensures |a| <= |b|
  {
    assert b == a + (b - a);
  }

  /** A history of at most 32 slots is never refused. */
  lemma SmallHistory(g: Ghost, s: seq<Slot>, fp: u32)
    requires Good(g) && g.free != [] && Inv(s) && ModelOf(s) == g.model && |s| == 2 * |g.fields.links| <= MAX_PROBES
    ensures CanUpsert(s, fp)
  {
    assert g in Ghosts(Structure) && g in Ghosts(Naming);
    NamedCount(g.model, g.fields.hashes, g.items);
    SmallAccepts(s, fp);
  }

  // ----- the queue itself -----

  class GhostQueue {
    const directory: FixedPrehashedMap
    const hashes: array<u64>
    const links: array<Link>
    const capacity: nat
    var freeHead: nat
    var freeCount: nat
    var head: nat
    var tail: nat
    var bytes: nat
    ghost var items: seq<nat>
    ghost var free: seq<nat>

    ghost function View(): Fields
      reads this, links, hashes
    {
      Fields(links[..], hashes[..], freeHead, freeCount, head, tail, bytes)
    }

    ghost function State(): Ghost
      reads this, links, hashes, directory.slots
    {
      Ghost(View(), directory.Model(), items, free, capacity)
    }

    ghost predicate Valid()
      reads this, links, hashes, directory.slots
    {
      directory.Valid() && directory.slots.Length == 2 * links.Length && Good(State())
    }

    constructor (maximumEntries: nat, capacityBytes: nat)
      requires maximumEntries <= DELETED_VALUE
      ensures Valid() && State().Queue() == [] && links.Length == maximumEntries && capacity == capacityBytes
      ensures fresh(links) && fresh(hashes) && fresh(directory) && fresh(directory.slots)
    {
      directory := new FixedPrehashedMap(maximumEntries);
      hashes := new u64[maximumEntries](_ => 0);
      links := new Link[maximumEntries](i => Link(NIL, if i + 1 == maximumEntries then NIL else i + 1, 0));
      capacity := capacityBytes;
      freeHead := if maximumEntries == 0 then NIL else 0;
      freeCount := maximumEntries;
      head, tail, bytes := NIL, NIL, 0;
      items, free := [], seq(maximumEntries, i => i);
      new;
      FreshGood(maximumEntries, capacityBytes);
      assert links[..] == FreshFields(maximumEntries).links && hashes[..] == FreshFields(maximumEntries).hashes;
      assert State() == Ghost(FreshFields(maximumEntries), map[], [], seq(maximumEntries, i => i), capacityBytes);
    }

    /** Moves one queued slot to the free list. */
    method Unlink(index: nat)
      requires Unlinkable(View(), index)
      modifies this`freeHead, this`freeCount, this`head, this`tail, this`bytes, links, hashes
      ensures View() == UnlinkFields(old(View()), index)
    {
      ghost var before, hashed := links[..], hashes[..];
      var link := links[index];
      if link.previous == NIL {
        head := link.next;
      } else {
        links[link.previous] := links[link.previous].(next := link.next);
      }
      if link.next == NIL {
        tail := link.previous;
      } else {
        links[link.next] := links[link.next].(previous := link.previous);
      }
      bytes := SaturatingSub(bytes, link.weight);
      hashes[index] := 0;
      links[index] := Unlinked.(next := freeHead);
      assert links[..] == Unlinking(before, index, freeHead);
      assert hashes[..] == hashed[index := 0];
      freeHead := index;
      freeCount := freeCount + 1;
    }

    /** Takes a slot from the free list to the tail of the queue. */
    method Append(hash: u64, weight: nat) returns (index: nat)
      requires freeHead < links.Length == hashes.Length <= NIL && freeCount > 0 && (tail == NIL || tail < links.Length)
      modifies this`freeHead, this`freeCount, this`head, this`tail, this`bytes, links, hashes
      ensures index == old(freeHead) && View() == AppendFields(old(View()), hash, weight)
    {
      ghost var before, hashed := links[..], hashes[..];
      index := freeHead;
      freeHead := links[index].next;
      freeCount := freeCount - 1;
      hashes[index] := hash;
      links[index] := Link(tail, NIL, weight);
      if tail == NIL {
        head := index;
      } else {
        links[tail] := links[tail].(next := index);
      }
      assert links[..] == Pushed(before, tail, index, weight);
      assert hashes[..] == hashed[index := hash];
      tail := index;
      bytes := Min(bytes + weight, U64_MAX);
    }

    /** Consumes the history of this hash. */
    method Take(hash: u64) returns (matched: bool)
      requires Valid()
      modifies this, links, hashes, directory.slots
      ensures Valid()
      ensures (State().Queue(), matched) == TakeHint(old(State().Queue()), hash)
    {
      ghost var g, fp := State(), Fingerprint(hash);
      ghost var k := Find(g.Queue(), fp);
      FoundSlot(g, fp);
      var removed := directory.Remove(hash);
      if removed.None? {
        assert State() == g;
        return false;
      }
      ForgottenGood(g, k);
      var index := removed.value;
      matched := hashes[index] == hash;
      Unlink(index);
      items, free := Without(items, k), [items[k]] + free;
      assert State() == Forgotten(g, k);
    }

    /** Drops the oldest hint. */
    method RemoveHead()
      requires Valid() && items != []
      modifies this, links, hashes, directory.slots
      ensures Valid() && State().Queue() == old(State().Queue())[1..] && free != []
      ensures directory.slots[..] == Forgetting(old(directory.slots[..]), Fingerprint(old(State().Queue()[0].hash)))
    {
      ghost var g := State();
      ForgottenGood(g, 0);
      assert g in Ghosts(Structure);
      var index := head;
      assert g.Queue()[0].hash == hashes[index];
      FoundSlot(g, Fingerprint(hashes[index]));
      ghost var listed := directory.slots[..];
      var removed := directory.Remove(hashes[index]);
      ForgetsOne(listed, directory.slots[..], Fingerprint(hashes[index]), removed);
      Unlink(index);
      items, free := Without(items, 0), [items[0]] + free;
      assert State() == Forgotten(g, 0);
      assert Dropped(g.Queue(), 0) == g.Queue()[1..];
    }

    /** Appends a hint that fits and points the directory at it. */
    method Put(hash: u64, weight: nat)
      requires Valid() && HasRoom(State(), weight)
      modifies this, links, hashes, directory.slots
      ensures Valid()
      ensures State().Queue()
           == PutHint(old(State().Queue()), Hint(hash, weight), CanUpsert(old(directory.slots[..]), Fingerprint(hash)))
    {
      ghost var g, fp := State(), Fingerprint(hash);
      ghost var k := Find(g.Queue(), fp);
      FoundSlot(g, fp);
      AppendedStructure(g, hash, weight);
      var index := Append(hash, weight);
      assert View() == Appended(g, hash, weight).fields;
      var previous := directory.Insert(hash, index);
      items, free := items + [free[0]], free[1..];
      if previous.None? {
        PutRefused(g, hash, weight);
        Unlink(index);
        items, free := Without(items, |g.items|), [items[|g.items|]] + free;
        assert State() == TurnedAway(g, hash, weight);
      } else if previous.value.Some? {
        PutReplaces(g, hash, weight, k);
        Unlink(previous.value.value);
        items, free := Without(items, k), [items[k]] + free;
        assert State() == Renewed(g, hash, weight, k);
      } else {
        PutNew(g, hash, weight);
        assert State() == Joined(g, hash, weight);
      }
    }

    /** Records the eviction of this hash, exactly as the directory answers; up to 32 slots it always
        accepts. */
    method Insert(hash: u64, weight: nat)
      requires Valid()
      modifies this, links, hashes, directory.slots
      ensures Valid()
      ensures State().Queue() == InsertHint(old(State().Queue()), hash, weight, links.Length, capacity,
                Answers(old(directory.slots[..]), old(State().Queue()), hash, weight, links.Length, capacity))
      ensures directory.slots.Length <= MAX_PROBES ==>
                State().Queue() == InsertHint(old(State().Queue()), hash, weight, links.Length, capacity, true)
    {
      ghost var g, s := State(), directory.slots[..];
      InsertRoom(g, weight);
      if weight > U32_MAX || weight == 0 || weight > capacity || links.Length == 0 || capacity == 0 {
        return;
      }
      if freeHead == NIL || Min(bytes + weight, U64_MAX) > capacity {
        if head == NIL || Min(SaturatingSub(bytes, links[head].weight) + weight, U64_MAX) > capacity {
          return;
        }
        RemoveHead();
      }
      ghost var q := State().Queue();
      assert Room(g.Queue(), weight, links.Length, capacity) == Some(q);
      assert Answers(s, g.Queue(), hash, weight, links.Length, capacity) == CanUpsert(directory.slots[..], Fingerprint(hash));
      InsertFits(g, State(), weight);
      if directory.slots.Length <= MAX_PROBES {
        SmallHistory(State(), directory.slots[..], Fingerprint(hash));
      }
      Put(hash, weight);
    }
  }

  /** The fields decide exactly what `Room` decides on the history. */
  lemma InsertRoom(g: Ghost, weight: nat)
    requires Good(g)
    ensures var f, q, room := g.fields, g.Queue(), Room(g.Queue(), weight, |g.fields.links|, g.capacity);
            && |q| == |g.items|
            && (f.freeHead == NIL <==> |q| >= |f.links|) && (f.head == NIL <==> q == [])
            && HintBytes(q) == f.bytes && f.bytes + U32_MAX <= U64_MAX
            && (q != [] ==> f.head < |f.links| && f.links[f.head].weight == q[0].weight <= f.bytes)
  {
    assert g in Ghosts(Structure);
    GoodHistory(g);
    WeightFits(g.fields.links, g.items);
    if g.items != [] {
      assert LinkedAt(g.fields.links, g.items, 0);
      DroppedBytes(g.Queue(), 0);
    }
  }

  lemma InsertFits(g: Ghost, g': Ghost, weight: nat)
    requires Good(g) && Good(g') && g'.capacity == g.capacity && |g'.fields.links| == |g.fields.links|
    requires Room(g.Queue(), weight, |g.fields.links|, g.capacity) == Some(g'.Queue())
    ensures HasRoom(g', weight)
  {
    GoodHistory(g);
    GoodHistory(g');
    RoomFits(g.Queue(), weight, |g.fields.links|, g.capacity);
    assert g' in Ghosts(Structure);
  }
}
