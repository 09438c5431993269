/** The fixed open-addressing directory (`FixedPrehashedMap`).

    The table is an array of (fingerprint, owner) slots probed linearly for at most 64
    steps.  `ModelOf` is the plain map from fingerprint to owner that the table stands
    for; the class at the end is proved against it. */
module Directory {
  import opened Machine
  import opened Bits

  const EMPTY_VALUE: u32 := 0xFFFF_FFFF
  const DELETED_VALUE: u32 := 0xFFFF_FFFE
  const MAX_PROBES := 64

  datatype Slot = Slot(fingerprint: u32, value: u32) {
    predicate Empty() { value == EMPTY_VALUE }
    predicate Deleted() { value == DELETED_VALUE }
    predicate Live() { value < DELETED_VALUE }
  }

  const DefaultSlot := Slot(0, EMPTY_VALUE)

  // ----- probe arithmetic -----

  /** `rotate_left(13)` on a 32-bit word. */
  function RotateLeft13(x: u32): u32 {
    (x * 0x2000) % 0x1_0000_0000 + x / 0x8_0000
  }

  /** Folds a 64-bit hash to its 32-bit identity in the table. */
  function Fingerprint(hash: u64): u32 {
    var low, high := hash % 0x1_0000_0000, hash / 0x1_0000_0000;
    Pow2Values();
    XorBound(RotateLeft13(low), high, 32);
    Xor(RotateLeft13(low), high)
  }

  /** Multiply-high placement of a scrambled fingerprint in a table of n slots. */
  function Home(fp: u32, n: nat): (h: nat)
    requires n > 0
    ensures h < n
  {
    var mixed := (fp * 0x9e37_79b9) % 0x1_0000_0000;
    MulHighBound(mixed, n);
    mixed * n / 0x1_0000_0000
  }

  lemma MulHighBound(mixed: nat, n: nat)
    requires mixed < 0x1_0000_0000 && n > 0
    ensures 0 <= mixed * n / 0x1_0000_0000 < n
  {
    assert mixed * n <= 0xFFFF_FFFF * n;
  }

  function ProbeIndex(start: nat, step: nat, n: nat): (i: nat)
    requires start < n && step < n
    ensures i < n
  {
    if step < n - start then start + step else step - (n - start)
  }

  function Next(index: nat, n: nat): (i: nat)
    requires index < n
    ensures i < n
  {
    if index + 1 == n then 0 else index + 1
  }

  /** Number of probe steps from `home` to `index`. */
  function Distance(home: nat, index: nat, n: nat): (d: nat)
    requires home < n && index < n
    ensures d < n
    ensures ProbeIndex(home, d, n) == index
  {
    if index >= home then index - home else n - (home - index)
  }

  function Window(n: nat): nat {
    Min(n, MAX_PROBES)
  }

  // ----- the invariant and the map a table stands for -----

  /** Probe distance of the entry stored at slot i from its home. */
  function Offset(s: seq<Slot>, i: nat): nat
    requires i < |s|
  {
    Distance(Home(s[i].fingerprint, |s|), i, |s|)
  }

  ghost predicate Unique(s: seq<Slot>) {
    forall i, j :: 0 <= i < j < |s| && s[i].Live() && s[j].Live() ==> s[i].fingerprint != s[j].fingerprint
  }

  /** The entry at i is within the probe bound of its home, with no empty slot before it. */
  ghost predicate ReachableAt(s: seq<Slot>, i: nat)
    requires i < |s|
  {
    && Offset(s, i) < Window(|s|)
    && forall j: nat :: j < |s| && OnPath(s, i, j) ==> !s[j].Empty()
  }

  ghost predicate Reachable(s: seq<Slot>) {
    forall i: nat :: i < |s| && s[i].Live() ==> ReachableAt(s, i)
  }

  /** Slot j is probed before slot i when looking for the entry stored at i. */
  predicate OnPath(s: seq<Slot>, i: nat, j: nat)
    requires i < |s| && j < |s|
  {
    Distance(Home(s[i].fingerprint, |s|), j, |s|) < Offset(s, i)
  }

  ghost predicate Inv(s: seq<Slot>) {
    Unique(s) && Reachable(s)
  }

  /** The fingerprints that own a live slot. */
  ghost function Fingerprints(s: seq<Slot>): set<u32> {
    set i | 0 <= i < |s| && s[i].Live() :: s[i].fingerprint
  }

  ghost function SlotOf(s: seq<Slot>, fp: u32): (i: nat)
    requires fp in Fingerprints(s)
    ensures i < |s| && s[i].Live() && s[i].fingerprint == fp
  {
    var i: nat :| i < |s| && s[i].Live() && s[i].fingerprint == fp;
    i
  }

  ghost function ModelOf(s: seq<Slot>): map<u32, u32> {
    map fp | fp in Fingerprints(s) :: s[SlotOf(s, fp)].value
  }

  lemma ModelAt(s: seq<Slot>, i: nat)
    requires Unique(s) && i < |s| && s[i].Live()
    ensures s[i].fingerprint in ModelOf(s) && ModelOf(s)[s[i].fingerprint] == s[i].value
    ensures SlotOf(s, s[i].fingerprint) == i
  {
  }

  /** Tables whose live entries are the same stand for the same map. */
  lemma SameModel(s: seq<Slot>, t: seq<Slot>)
    requires Unique(s) && Unique(t)
    requires forall i :: 0 <= i < |s| && s[i].Live() ==> s[i] in t
    requires forall i :: 0 <= i < |t| && t[i].Live() ==> t[i] in s
    ensures ModelOf(s) == ModelOf(t)
  {
    forall fp | fp in ModelOf(s)
      ensures fp in ModelOf(t) && ModelOf(t)[fp] == ModelOf(s)[fp]
    {
      var i := SlotOf(s, fp);
      var j :| 0 <= j < |t| && t[j] == s[i];
      ModelAt(t, j);
    }
    forall fp | fp in ModelOf(t) ensures fp in ModelOf(s) {
      var i := SlotOf(t, fp);
      var j :| 0 <= j < |s| && s[j] == t[i];
      ModelAt(s, j);
    }
  }

  ghost function LiveSet(s: seq<Slot>): set<nat> {
    set i: nat | i < |s| && s[i].Live()
  }

  ghost function Tombstones(s: seq<Slot>): set<nat> {
    set i: nat | i < |s| && s[i].Deleted()
  }

  /** Slot j lies in the probe window of fingerprint fp. */
  predicate InWindow(fp: u32, j: nat, n: nat)
    requires j < n
  {
    Distance(Home(fp, n), j, n) < Window(n)
  }

  ghost predicate WindowFull(s: seq<Slot>, fp: u32) {
    forall j :: 0 <= j < |s| && InWindow(fp, j, |s|) ==> s[j].Live()
  }

  /** What `can_upsert` decides. */
  ghost predicate CanUpsert(s: seq<Slot>, fp: u32) {
    fp in ModelOf(s) || !WindowFull(s, fp)
  }

  // ----- bounded backward-shift compaction -----

  /** The entry at `cursor` is displaced past `hole` and may move into it. */
  predicate Moves(s: seq<Slot>, hole: nat, cursor: nat)
    requires hole < |s| && cursor < |s|
  {
    s[cursor].Live() && OnPath(s, cursor, hole)
  }

  function Shift(s: seq<Slot>, hole: nat, cursor: nat): (r: seq<Slot>)
    requires hole < |s| && cursor < |s|
    ensures |r| == |s|
  {
    s[hole := s[cursor]][cursor := s[cursor].(value := DELETED_VALUE)]
  }

  function Compact(s: seq<Slot>, hole: nat, cursor: nat, steps: nat): (r: seq<Slot>)
    requires hole < |s| && cursor < |s|
    ensures |r| == |s|
    decreases steps
  {
    if steps == 0 then s
    else if s[cursor].Empty() then s[hole := DefaultSlot]
    else if Moves(s, hole, cursor) then Compact(Shift(s, hole, cursor), cursor, Next(cursor, |s|), steps - 1)
    else Compact(s, hole, Next(cursor, |s|), steps - 1)
  }

  /** Where the deletion hole ends up. */
  function FinalHole(s: seq<Slot>, hole: nat, cursor: nat, steps: nat): (h: nat)
    requires hole < |s| && cursor < |s|
    ensures h < |s|
    decreases steps
  {
    if steps == 0 || s[cursor].Empty() then hole
    else FinalHole(s, if Moves(s, hole, cursor) then cursor else hole, Next(cursor, |s|), steps - 1)
  }

  /** The scan meets an empty slot within its budget. */
  predicate ReachesEmpty(s: seq<Slot>, cursor: nat, steps: nat)
    requires cursor < |s|
    decreases steps
  {
    steps > 0 && (s[cursor].Empty() || ReachesEmpty(s, Next(cursor, |s|), steps - 1))
  }

  function ScanSteps(n: nat): nat {
    Min(SaturatingSub(n, 1), MAX_PROBES)
  }

  /** The table with the entry at `index` turned into a tombstone. */
  function Deleted(s: seq<Slot>, index: nat): (t: seq<Slot>)
    requires index < |s|
    ensures |t| == |s|
  {
    s[index := s[index].(value := DELETED_VALUE)]
  }

  /** The table after removing the entry stored at `index`. */
  function RemovedAt(s: seq<Slot>, index: nat): (r: seq<Slot>)
    requires index < |s|
    ensures |r| == |s|
  {
    Compact(Deleted(s, index), index, Next(index, |s|), ScanSteps(|s|))
  }

  function HoleAfter(s: seq<Slot>, index: nat): (h: nat)
    requires index < |s|
    ensures h < |s|
  {
    FinalHole(Deleted(s, index), index, Next(index, |s|), ScanSteps(|s|))
  }

  /** Entries strictly between the hole and the cursor do not probe through the hole. */
  ghost predicate Settled(s: seq<Slot>, hole: nat, cursor: nat)
    requires hole < |s| && cursor < |s|
  {
    forall j :: 0 <= j < |s| && 0 < Distance(hole, j, |s|) < Distance(hole, cursor, |s|) && s[j].Live()
      ==> !OnPath(s, j, hole)
  }

  lemma ShiftReachable(s: seq<Slot>, hole: nat, cursor: nat, i: nat)
    requires hole < |s| && cursor < |s| && hole != cursor && i < |s|
    requires Reachable(s) && s[hole].Deleted() && Moves(s, hole, cursor)
    requires Shift(s, hole, cursor)[i].Live()
    ensures ReachableAt(Shift(s, hole, cursor), i)
  {
    var t := Shift(s, hole, cursor);
    var i' := if i == hole then cursor else i;
    assert s[i'] == t[i] && ReachableAt(s, i');
    forall j: nat | j < |t| && OnPath(t, i, j) ensures !t[j].Empty() {
      assert OnPath(s, i', j);
    }
  }

  lemma ShiftModel(s: seq<Slot>, hole: nat, cursor: nat)
    requires hole < |s| && cursor < |s| && hole != cursor
    requires Unique(s) && s[hole].Deleted() && s[cursor].Live()
    ensures Unique(Shift(s, hole, cursor))
    ensures ModelOf(Shift(s, hole, cursor)) == ModelOf(s)
  {
    var t := Shift(s, hole, cursor);
    forall i | 0 <= i < |s| && s[i].Live() ensures s[i] in t {
      assert t[if i == cursor then hole else i] == s[i];
    }
    forall i | 0 <= i < |t| && t[i].Live() ensures t[i] in s {
      assert s[if i == hole then cursor else i] == t[i];
    }
    SameModel(s, t);
  }

  lemma ShiftKeeps(s: seq<Slot>, hole: nat, cursor: nat)
    requires hole < |s| && cursor < |s| && hole != cursor
    requires Inv(s) && s[hole].Deleted() && Moves(s, hole, cursor)
    ensures Inv(Shift(s, hole, cursor))
    ensures ModelOf(Shift(s, hole, cursor)) == ModelOf(s)
  {
    var t := Shift(s, hole, cursor);
    forall i: nat | i < |t| && t[i].Live() ensures ReachableAt(t, i) {
      ShiftReachable(s, hole, cursor, i);
    }
    ShiftModel(s, hole, cursor);
  }

  lemma SettledNext(s: seq<Slot>, hole: nat)
    requires hole < |s|
    ensures Settled(s, hole, Next(hole, |s|))
  {
  }

  lemma SettledStep(s: seq<Slot>, hole: nat, cursor: nat)
    requires hole < |s| && cursor < |s| && hole != cursor && Next(cursor, |s|) != hole
    requires Settled(s, hole, cursor) && !Moves(s, hole, cursor)
    ensures Settled(s, hole, Next(cursor, |s|))
  {
  }

  /** Compaction keeps the invariant and the map.  It moves entries only into the hole, so the
      only slot that stops being live is the final hole, which becomes empty exactly when the
      scan met an empty slot. */
  lemma {:induction false} CompactKeeps(s: seq<Slot>, hole: nat, cursor: nat, steps: nat)
    requires hole < |s| && cursor < |s|
    requires Inv(s) && s[hole].Deleted() && Settled(s, hole, cursor)
    requires steps > 0 ==> 0 < Distance(hole, cursor, |s|) <= |s| - steps
    ensures Inv(Compact(s, hole, cursor, steps))
    ensures ModelOf(Compact(s, hole, cursor, steps)) == ModelOf(s)
    decreases steps
  {
    var next := Next(cursor, |s|);
    var result := Compact(s, hole, cursor, steps);
    if steps == 0 {
      assert result == s;
    } else if s[cursor].Empty() {
      assert result == s[hole := DefaultSlot];
      ClearKeeps(s, hole, cursor);
    } else if Moves(s, hole, cursor) {
      var t := Shift(s, hole, cursor);
      assert result == Compact(t, cursor, next, steps - 1);
      ShiftKeeps(s, hole, cursor);
      SettledNext(t, cursor);
      CompactKeeps(t, cursor, next, steps - 1);
    } else {
      assert result == Compact(s, hole, next, steps - 1);
      if steps > 1 {
        SettledStep(s, hole, cursor);
        CompactKeeps(s, hole, next, steps - 1);
      }
    }
  }

  /** Emptying the hole is safe once the scan stands on an empty slot: no probe path crosses it. */
  lemma ClearKeeps(s: seq<Slot>, hole: nat, cursor: nat)
    requires hole < |s| && cursor < |s|
    requires Inv(s) && s[hole].Deleted() && s[cursor].Empty() && Settled(s, hole, cursor)
    ensures Inv(s[hole := DefaultSlot])
    ensures ModelOf(s[hole := DefaultSlot]) == ModelOf(s)
  {
    var t := s[hole := DefaultSlot];
    forall i: nat | i < |t| && t[i].Live() ensures ReachableAt(t, i) {
      HoleOffPath(s, hole, cursor, i);
      SameReach(s, t, i);
    }
    forall i | 0 <= i < |s| && s[i].Live() ensures s[i] in t {
      assert t[i] == s[i];
    }
    SameModel(s, t);
  }

  lemma HoleOffPath(s: seq<Slot>, hole: nat, cursor: nat, i: nat)
    requires hole < |s| && cursor < |s| && i < |s|
    requires Reachable(s) && s[cursor].Empty() && Settled(s, hole, cursor) && s[i].Live()
    ensures !OnPath(s, i, hole)
  {
    assert ReachableAt(s, i) && !OnPath(s, i, cursor);
  }

  /** An entry that stays put stays reachable when no slot on its path becomes empty. */
  lemma SameReach(s: seq<Slot>, t: seq<Slot>, i: nat)
    requires |s| == |t| && i < |s| && ReachableAt(s, i) && t[i] == s[i]
    requires forall j: nat :: j < |s| && t[j].Empty() ==> s[j].Empty() || !OnPath(s, i, j)
    ensures ReachableAt(t, i)
  {
    forall j: nat | j < |t| && OnPath(t, i, j) ensures !t[j].Empty() {
      assert OnPath(s, i, j);
    }
  }

  lemma ShiftSets(s: seq<Slot>, hole: nat, cursor: nat)
    requires hole < |s| && cursor < |s| && hole != cursor && s[hole].Deleted() && s[cursor].Live()
    ensures LiveSet(Shift(s, hole, cursor)) == LiveSet(s) + {hole} - {cursor}
    ensures Tombstones(Shift(s, hole, cursor)) == Tombstones(s) - {hole} + {cursor}
  {
  }

  lemma HoleAlgebra(live: set<nat>, dead: set<nat>, hole: nat, cursor: nat, h: nat, stop: set<nat>)
    requires cursor in live && cursor !in dead
    ensures live + {hole} - {cursor} + {cursor} - {h} == live + {hole} - {h}
    ensures dead - {hole} + {cursor} - {cursor} + stop == dead - {hole} + stop
  {
  }

  lemma EmptiedSets(s: seq<Slot>, hole: nat)
    requires hole < |s| && s[hole].Deleted()
    ensures LiveSet(s[hole := DefaultSlot]) == LiveSet(s) + {hole} - {hole}
    ensures Tombstones(s[hole := DefaultSlot]) == Tombstones(s) - {hole}
  {
  }

  /** The hole moves to the cursor and ends at h. */
  lemma MovedSets(s: seq<Slot>, t: seq<Slot>, result: seq<Slot>, hole: nat, cursor: nat, h: nat, stop: set<nat>)
    requires hole < |s| && cursor < |s| && hole != cursor && s[hole].Deleted() && s[cursor].Live() && t == Shift(s, hole, cursor)
    requires LiveSet(result) == LiveSet(t) + {cursor} - {h} && Tombstones(result) == Tombstones(t) - {cursor} + stop
    ensures LiveSet(result) == LiveSet(s) + {hole} - {h} && Tombstones(result) == Tombstones(s) - {hole} + stop
  {
    ShiftSets(s, hole, cursor);
    HoleAlgebra(LiveSet(s), Tombstones(s), hole, cursor, h, stop);
  }

  lemma {:induction false} CompactSets(s: seq<Slot>, hole: nat, cursor: nat, steps: nat)
    requires hole < |s| && cursor < |s| && s[hole].Deleted()
    requires 0 < Distance(hole, cursor, |s|) <= |s| - steps || steps == 0
    ensures var h := FinalHole(s, hole, cursor, steps);
            LiveSet(Compact(s, hole, cursor, steps)) == LiveSet(s) + {hole} - {h}
    ensures Tombstones(Compact(s, hole, cursor, steps)) == Tombstones(s) - {hole}
              + (if ReachesEmpty(s, cursor, steps) then {} else {FinalHole(s, hole, cursor, steps)})
    decreases steps
  {
    var next := Next(cursor, |s|);
    var result := Compact(s, hole, cursor, steps);
    if steps == 0 {
      assert result == s;
    } else if s[cursor].Empty() {
      EmptiedSets(s, hole);
    } else if Moves(s, hole, cursor) {
      var t := Shift(s, hole, cursor);
      CompactSets(t, cursor, next, steps - 1);
      AheadUnchanged(s, t, hole, cursor, next, steps - 1);
      var stop := if ReachesEmpty(s, next, steps - 1) then {} else {FinalHole(s, cursor, next, steps - 1)};
      MovedSets(s, t, result, hole, cursor, FinalHole(s, cursor, next, steps - 1), stop);
    } else {
      CompactSets(s, hole, next, steps - 1);
    }
  }

  /** The scan only looks ahead of the cursor, which shifting leaves alone. */
  lemma {:induction false} AheadUnchanged(s: seq<Slot>, t: seq<Slot>, base: nat, hole: nat, cursor: nat, steps: nat)
    requires |s| == |t| && base < |s| && hole < |s| && cursor < |s|
    requires 0 < Distance(base, cursor, |s|) <= |s| - steps || steps == 0
    requires steps > 0 ==>
      forall j :: 0 <= j < |s| && Distance(base, cursor, |s|) <= Distance(base, j, |s|) ==> s[j] == t[j]
    ensures ReachesEmpty(s, cursor, steps) == ReachesEmpty(t, cursor, steps)
    ensures FinalHole(s, hole, cursor, steps) == FinalHole(t, hole, cursor, steps)
    decreases steps
  {
    if steps > 0 {
      assert s[cursor] == t[cursor];
      AheadUnchanged(s, t, base, if Moves(s, hole, cursor) then cursor else hole, Next(cursor, |s|), steps - 1);
    }
  }

  lemma DeleteModel(s: seq<Slot>, index: nat)
    requires index < |s| && Unique(s) && s[index].Live()
    ensures Unique(Deleted(s, index))
    ensures ModelOf(Deleted(s, index)) == ModelOf(s) - {s[index].fingerprint}
  {
    var t := Deleted(s, index);
    var m := ModelOf(s) - {s[index].fingerprint};
    forall fp | fp in m ensures fp in ModelOf(t) && ModelOf(t)[fp] == m[fp] {
      ModelAt(t, SlotOf(s, fp));
    }
    forall fp | fp in ModelOf(t) ensures fp in m {
      var i := SlotOf(t, fp);
      assert t[i] == s[i];
      ModelAt(s, i);
      ModelAt(s, index);
    }
  }

  lemma DeleteKeeps(s: seq<Slot>, index: nat)
    requires index < |s| && Inv(s) && s[index].Live()
    ensures Inv(Deleted(s, index))
  {
    var t := Deleted(s, index);
    DeleteModel(s, index);
    forall i: nat | i < |t| && t[i].Live() ensures ReachableAt(t, i) {
      SameReach(s, t, i);
    }
  }

  /** Removing an entry deletes exactly its fingerprint from the map. */
  lemma RemoveRefines(s: seq<Slot>, index: nat)
    requires index < |s| && Inv(s) && s[index].Live()
    ensures Inv(RemovedAt(s, index))
    ensures ModelOf(RemovedAt(s, index)) == ModelOf(s) - {s[index].fingerprint}
  {
    var t := Deleted(s, index);
    DeleteKeeps(s, index);
    DeleteModel(s, index);
    SettledNext(t, index);
    CompactKeeps(t, index, Next(index, |s|), ScanSteps(|s|));
  }

  /** Removing an entry makes no slot live and exactly one slot not live.  At most that slot becomes
      a tombstone, and it does not when the compaction scan reaches an empty slot. */
  lemma {:induction false} RemoveFootprint(s: seq<Slot>, index: nat)
    requires index < |s| && s[index].Live()
    ensures LiveSet(RemovedAt(s, index)) == LiveSet(s) - {HoleAfter(s, index)}
    ensures HoleAfter(s, index) in LiveSet(s)
    ensures Tombstones(RemovedAt(s, index)) == Tombstones(s)
              + (if ReachesEmpty(s, Next(index, |s|), ScanSteps(|s|)) then {} else {HoleAfter(s, index)})
  {
    var t := Deleted(s, index);
    var next, steps := Next(index, |s|), ScanSteps(|s|);
    DeletedSets(s, index);
    CompactSets(t, index, next, steps);
    DeletedScan(s, index);
    HoleWasLive(t, index, next, steps);
    var h := HoleAfter(s, index);
    assert h == index || h in LiveSet(t);
    FootprintAlgebra(LiveSet(s), Tombstones(s), index, h, if ReachesEmpty(s, next, steps) then {} else {h});
  }

  lemma DeletedSets(s: seq<Slot>, index: nat)
    requires index < |s| && s[index].Live()
    ensures LiveSet(Deleted(s, index)) == LiveSet(s) - {index} && index in LiveSet(s)
    ensures Tombstones(Deleted(s, index)) == Tombstones(s) + {index} && index !in Tombstones(s)
  {
  }

  lemma {:induction false} DeletedScan(s: seq<Slot>, index: nat)
    requires index < |s|
    ensures ReachesEmpty(s, Next(index, |s|), ScanSteps(|s|))
         == ReachesEmpty(Deleted(s, index), Next(index, |s|), ScanSteps(|s|))
  {
    AheadUnchanged(s, Deleted(s, index), index, index, Next(index, |s|), ScanSteps(|s|));
  }

  lemma FootprintAlgebra(live: set<nat>, dead: set<nat>, index: nat, h: nat, stop: set<nat>)
    requires index in live && index !in dead
    ensures live - {index} + {index} - {h} == live - {h}
    ensures dead + {index} - {index} + stop == dead + stop
  {
  }

  lemma {:induction false} HoleWasLive(s: seq<Slot>, hole: nat, cursor: nat, steps: nat)
    requires hole < |s| && cursor < |s|
    ensures FinalHole(s, hole, cursor, steps) == hole || s[FinalHole(s, hole, cursor, steps)].Live()
    decreases steps
  {
    if steps > 0 && !s[cursor].Empty() {
      HoleWasLive(s, if Moves(s, hole, cursor) then cursor else hole, Next(cursor, |s|), steps - 1);
    }
  }

  /** Removing another fingerprint never invalidates a successful preflight. */
  lemma PreflightSurvivesOthers(s: seq<Slot>, index: nat, fp: u32)
    requires index < |s| && Inv(s) && s[index].Live() && s[index].fingerprint != fp
    requires CanUpsert(s, fp)
    ensures CanUpsert(RemovedAt(s, index), fp)
  {
    RemoveRefines(s, index);
    RemoveFootprint(s, index);
    var t := RemovedAt(s, index);
    if !WindowFull(s, fp) {
      var j: nat :| j < |s| && InWindow(fp, j, |s|) && !s[j].Live();
      assert j !in LiveSet(s) && j !in LiveSet(t);
    }
  }

  /** Removing the fingerprint itself keeps its preflight exactly when its window had a slot to
      spare, or the deletion hole does not leave the window. */
  lemma PreflightExact(s: seq<Slot>, index: nat)
    requires index < |s| && Inv(s) && s[index].Live()
    ensures var fp := s[index].fingerprint;
            CanUpsert(RemovedAt(s, index), fp) <==>
              !WindowFull(s, fp) || InWindow(fp, HoleAfter(s, index), |s|)
  {
    RemoveRefines(s, index);
    RemoveFootprint(s, index);
    var fp, t, h := s[index].fingerprint, RemovedAt(s, index), HoleAfter(s, index);
    assert fp !in ModelOf(t);
    assert h !in LiveSet(t);
    if WindowFull(s, fp) && !InWindow(fp, h, |s|) {
      forall j | 0 <= j < |t| && InWindow(fp, j, |t|) ensures t[j].Live() {
        assert j in LiveSet(s);
        assert j in LiveSet(t);
      }
    }
    if !WindowFull(s, fp) {
      var j: nat :| j < |s| && InWindow(fp, j, |s|) && !s[j].Live();
      assert j !in LiveSet(s) && j !in LiveSet(t);
    }
  }

  /** Tables of at most 64 slots (32 entries) are one window, so every preflight survives. */
  lemma PreflightSurvivesSmall(s: seq<Slot>, index: nat)
    requires index < |s| <= MAX_PROBES && Inv(s) && s[index].Live()
    ensures CanUpsert(RemovedAt(s, index), s[index].fingerprint)
  {
    PreflightExact(s, index);
  }

  // ----- a table in which the preflight does not survive -----

  const INVERSE_MULTIPLIER := 0x144c_bc89

  /** The fingerprint that scrambles to `mixed`. */
  function Unmix(mixed: u32): u32 {
    (mixed * INVERSE_MULTIPLIER) % 0x1_0000_0000
  }

  lemma UnmixMixes(mixed: u32)
    ensures (Unmix(mixed) * 0x9e37_79b9) % 0x1_0000_0000 == mixed
  {
    var w := 0x1_0000_0000;
    var c := 0x9e37_79b9;
    var q := mixed * INVERSE_MULTIPLIER / w;
    var k := 210485888;
    assert INVERSE_MULTIPLIER * c == 1 + k * w;
    assert Unmix(mixed) == mixed * INVERSE_MULTIPLIER - q * w;
    calc {
      Unmix(mixed) * c;
      (mixed * INVERSE_MULTIPLIER - q * w) * c;
      mixed * (INVERSE_MULTIPLIER * c) - q * w * c;
      mixed * (1 + k * w) - q * w * c;
      mixed + w * (mixed * k - q * c);
    }
    DivModUnique(Unmix(mixed) * c, w, mixed * k - q * c, mixed);
  }

  /** Scrambled value of the i-th entry: 64 entries share home 0, the 65th has home 1. */
  function CrowdMixed(i: nat): u32
    requires i <= 64
  {
    if i < 64 then i else 33038210
  }

  function Crowded(): (s: seq<Slot>)
    ensures |s| == 130
  {
    seq(130, i requires 0 <= i < 130 => if i <= 64 then Slot(Unmix(CrowdMixed(i)), i) else DefaultSlot)
  }

  lemma CrowdHome(i: nat)
    requires i <= 64
    ensures Home(Crowded()[i].fingerprint, 130) == if i < 64 then 0 else 1
  {
    UnmixMixes(CrowdMixed(i));
  }

  lemma CrowdedInv()
    ensures Inv(Crowded())
  {
    var s := Crowded();
    forall i, j | 0 <= i < j < |s| && s[i].Live() && s[j].Live()
      ensures s[i].fingerprint != s[j].fingerprint
    {
      UnmixMixes(CrowdMixed(i));
      UnmixMixes(CrowdMixed(j));
    }
    forall i: nat | i < |s| && s[i].Live() ensures ReachableAt(s, i) {
      CrowdHome(i);
    }
  }

  lemma {:induction false} CrowdCascade(s: seq<Slot>, k: nat)
    requires |s| == 130 && k <= 64
    requires forall i :: 0 < i < 130 ==> s[i] == Crowded()[i]
    ensures FinalHole(s, k, k + 1, 64 - k) == 64
    decreases 64 - k
  {
    if k < 64 {
      CrowdHome(k + 1);
      assert s[k + 1] == Crowded()[k + 1];
      assert Moves(s, k, k + 1);
      CrowdCascade(s, k + 1);
    }
  }

  /** The preflight of the L1 shard is not stable: this table accepts an upsert of a fingerprint it
      already holds, and refuses it once that entry has been removed. */
  lemma PreflightCanFail()
    ensures var s := Crowded(); var fp := s[0].fingerprint;
            && Inv(s) && s[0].Live()
            && CanUpsert(s, fp)
            && !CanUpsert(RemovedAt(s, 0), fp)
  {
    var s := Crowded();
    CrowdedInv();
    CrowdedFull(s);
    PreflightExact(s, 0);
  }

  lemma CrowdedFull(s: seq<Slot>)
    requires s == Crowded()
    ensures WindowFull(s, s[0].fingerprint)
    ensures !InWindow(s[0].fingerprint, HoleAfter(s, 0), |s|)
  {
    CrowdHome(0);
    CrowdCascade(Deleted(s, 0), 0);
    forall j | 0 <= j < |s| && InWindow(s[0].fingerprint, j, |s|) ensures s[j].Live() {
    }
  }

  // ----- upsert -----

  /** Slot i may receive fingerprint fp: its own slot, or a reusable one with no empty slot before it. */
  ghost predicate Accepts(s: seq<Slot>, fp: u32, i: nat)
    requires i < |s|
  {
    && InWindow(fp, i, |s|)
    && (if fp in Fingerprints(s) then s[i].Live() && s[i].fingerprint == fp else !s[i].Live())
    && forall j: nat :: j < |s| && Distance(Home(fp, |s|), j, |s|) < Distance(Home(fp, |s|), i, |s|) ==> !s[j].Empty()
  }

  /** Writing an accepted slot updates the map at fp and nowhere else. */
  lemma UpsertRefines(s: seq<Slot>, i: nat, fp: u32, value: u32)
    requires i < |s| && Inv(s) && Accepts(s, fp, i) && value < DELETED_VALUE
    ensures Inv(s[i := Slot(fp, value)])
    ensures ModelOf(s[i := Slot(fp, value)]) == ModelOf(s)[fp := value]
    ensures LiveSet(s[i := Slot(fp, value)]) == LiveSet(s) + {i}
  {
    var t := s[i := Slot(fp, value)];
    forall k: nat | k < |t| && t[k].Live() ensures ReachableAt(t, k) {
      if k == i {
        forall j: nat | j < |t| && OnPath(t, i, j) ensures !t[j].Empty() {
        }
      } else {
        SameReach(s, t, k);
      }
    }
    UpsertModel(s, i, fp, value);
  }

  lemma UpsertModel(s: seq<Slot>, i: nat, fp: u32, value: u32)
    requires i < |s| && Unique(s) && value < DELETED_VALUE
    requires if fp in Fingerprints(s) then s[i].Live() && s[i].fingerprint == fp else !s[i].Live()
    ensures Unique(s[i := Slot(fp, value)])
    ensures ModelOf(s[i := Slot(fp, value)]) == ModelOf(s)[fp := value]
  {
    var t, m := s[i := Slot(fp, value)], ModelOf(s)[fp := value];
    assert Unique(t);
    forall g | g in m ensures g in ModelOf(t) && ModelOf(t)[g] == m[g] {
      ModelAt(t, if g == fp then i else SlotOf(s, g));
    }
    forall g | g in ModelOf(t) ensures g in m {
      var k := SlotOf(t, g);
      if k != i {
        ModelAt(s, k);
      }
    }
  }

  /** An accepted write stores its value exactly when the value is not one of the two markers. */
  lemma StoredExactly(s: seq<Slot>, i: nat, fp: u32, value: u32)
    requires i < |s| && Inv(s) && Accepts(s, fp, i)
    ensures var t := s[i := Slot(fp, value)];
            && ((fp in ModelOf(t) && ModelOf(t)[fp] == value) <==> value < DELETED_VALUE)
            && (value >= DELETED_VALUE ==> fp !in ModelOf(t))
  {
    var t := s[i := Slot(fp, value)];
    if value < DELETED_VALUE {
      UpsertRefines(s, i, fp, value);
    } else if fp in ModelOf(t) {
      var k := SlotOf(t, fp);
    }
  }

  // ----- which slot indices the directory can own -----

  /** Every slot index of an n-entry shard can be stored, wherever it is accepted, exactly when n is at
      most the tombstone value. */
  lemma IndicesStorable(n: nat, s: seq<Slot>, i: nat, fp: u32)
    requires n <= U32_MAX && i < |s| && Inv(s) && Accepts(s, fp, i)
    ensures (forall k: u32 :: k < n ==> StoresAt(s, i, fp, k)) <==> n <= DELETED_VALUE
  {
    forall k: u32 | k < n ensures StoresAt(s, i, fp, k) <==> k < DELETED_VALUE {
      StoredExactly(s, i, fp, k);
    }
    if n > DELETED_VALUE {
      StoredExactly(s, i, fp, DELETED_VALUE);
      assert !StoresAt(s, i, fp, DELETED_VALUE);
    }
  }

  ghost predicate StoresAt(s: seq<Slot>, i: nat, fp: u32, value: u32)
    requires i < |s|
  {
    var t := s[i := Slot(fp, value)]; fp in ModelOf(t) && ModelOf(t)[fp] == value
  }

  /** A fresh table accepts every fingerprint at its home slot. */
  lemma FreshAccepts(s: seq<Slot>, fp: u32)
    requires |s| > 0 && forall i :: 0 <= i < |s| ==> s[i] == DefaultSlot
    ensures Inv(s) && Accepts(s, fp, Home(fp, |s|))
  {
    assert forall k :: 0 <= k < |s| ==> !s[k].Live();
    assert fp !in Fingerprints(s);
  }

  /** A fingerprint whose probe meets an empty slot, or runs out of window, is absent. */
  lemma Absent(s: seq<Slot>, fp: u32, step: nat)
    requires |s| > 0 && Inv(s) && step <= Window(|s|)
    requires forall k: nat :: k < step ==> NotAt(s, fp, k)
    requires step == Window(|s|) || s[ProbeIndex(Home(fp, |s|), step, |s|)].Empty()
    ensures fp !in Fingerprints(s)
  {
    if fp in Fingerprints(s) {
      var k := Located(s, fp);
    }
  }

  /** A present fingerprint is met by some probe within the window, before any empty slot. */
  lemma Located(s: seq<Slot>, fp: u32) returns (k: nat)
    requires |s| > 0 && Inv(s) && fp in Fingerprints(s)
    ensures k < Window(|s|) && !NotAt(s, fp, k)
    ensures forall j: nat :: j < k ==> !s[ProbeIndex(Home(fp, |s|), j, |s|)].Empty()
  {
    var i := SlotOf(s, fp);
    assert ReachableAt(s, i);
    k := Offset(s, i);
    forall j: nat | j < k ensures !s[ProbeIndex(Home(fp, |s|), j, |s|)].Empty() {
      assert OnPath(s, i, ProbeIndex(Home(fp, |s|), j, |s|));
    }
  }

  /** The k-th probe of fp does not hold fp. */
  predicate NotAt(s: seq<Slot>, fp: u32, k: nat)
    requires |s| > 0
  {
    k < |s| ==> var x := s[ProbeIndex(Home(fp, |s|), k, |s|)]; !(x.Live() && x.fingerprint == fp)
  }

  class FixedPrehashedMap {
    const slots: array<Slot>

    ghost predicate Valid()
      reads slots
    {
      Inv(slots[..])
    }

    ghost function Model(): map<u32, u32>
      reads slots
    {
      ModelOf(slots[..])
    }

    constructor (maximumEntries: nat)
      ensures Valid() && Model() == map[] && fresh(slots)
      ensures slots.Length == 2 * maximumEntries && LiveSet(slots[..]) == {}
      ensures forall i :: 0 <= i < slots.Length ==> slots[i] == DefaultSlot
    {
      slots := new Slot[2 * maximumEntries](i => DefaultSlot);
      new;
      assert forall i :: 0 <= i < |slots[..]| ==> slots[..][i] == DefaultSlot;
    }

    /** The probe loop shared by `get` and `remove`. */
    method Probe(fp: u32) returns (found: Option<nat>)
      requires Valid()
      ensures found.None? <==> fp !in Model()
      ensures found.Some? ==> found.value < slots.Length && slots[found.value].Live()
      ensures found.Some? ==> slots[found.value] == Slot(fp, Model()[fp])
    {
      if slots.Length == 0 {
        return None;
      }
      ghost var s := slots[..];
      var start := Home(fp, slots.Length);
      for step := 0 to Window(slots.Length)
        invariant forall k: nat :: k < step ==> NotAt(s, fp, k)
      {
        var index := ProbeIndex(start, step, slots.Length);
        var slot := slots[index];
        assert s[index] == slot;
        if slot.Empty() {
          Absent(s, fp, step);
          return None;
        }
        if slot.Live() && slot.fingerprint == fp {
          ModelAt(s, index);
          return Some(index);
        }
      }
      Absent(s, fp, Window(slots.Length));
      return None;
    }

    method Get(hash: u64) returns (owner: Option<u32>)
      requires Valid()
      ensures owner == if Fingerprint(hash) in Model() then Some(Model()[Fingerprint(hash)]) else None
    {
      var found := Probe(Fingerprint(hash));
      owner := if found.Some? then Some(slots[found.value].value) else None;
    }

    method FindUpsertSlot(fp: u32) returns (found: Option<nat>)
      requires Valid()
      ensures found.Some? <==> CanUpsert(slots[..], fp)
      ensures found.Some? ==> found.value < slots.Length && Accepts(slots[..], fp, found.value)
    {
      if slots.Length == 0 {
        return None;
      }
      ghost var s := slots[..];
      var start := Home(fp, slots.Length);
      var deleted: Option<nat> := None;
      for step := 0 to Window(slots.Length)
        invariant forall k: nat :: k < step ==> NotAt(s, fp, k) && !s[ProbeIndex(start, k, |s|)].Empty()
        invariant deleted.None? ==> forall k: nat :: k < step ==> s[ProbeIndex(start, k, |s|)].Live()
        invariant deleted.Some? ==> deleted.value < slots.Length && !s[deleted.value].Live()
        invariant deleted.Some? ==> Distance(start, deleted.value, |s|) < step
      {
        var index := ProbeIndex(start, step, slots.Length);
        var slot := slots[index];
        assert s[index] == slot;
        if slot.Empty() {
          Absent(s, fp, step);
          return if deleted.Some? then deleted else Some(index);
        }
        if slot.Deleted() {
          if deleted.None? {
            deleted := Some(index);
          }
        } else if slot.fingerprint == fp {
          assert fp in Fingerprints(s);
          return Some(index);
        }
      }
      Absent(s, fp, Window(slots.Length));
      assert deleted.None? ==> WindowFull(s, fp);
      return deleted;
    }

    /** None when the window is full of other entries; otherwise the previous owner. */
    method Insert(hash: u64, value: u32) returns (r: Option<Option<u32>>)
      requires Valid() && value < DELETED_VALUE
      modifies slots
      ensures Valid()
      ensures r.Some? <==> old(CanUpsert(slots[..], Fingerprint(hash)))
      ensures r.None? ==> slots[..] == old(slots[..])
      ensures r.Some? ==> Model() == old(Model())[Fingerprint(hash) := value]
      ensures r.Some? ==> r.value == if Fingerprint(hash) in old(Model()) then Some(old(Model())[Fingerprint(hash)]) else None
      ensures r.Some? ==> exists i: nat :: i < slots.Length && Accepts(old(slots[..]), Fingerprint(hash), i)
                                           && slots[..] == old(slots[..])[i := Slot(Fingerprint(hash), value)]
      ensures r.Some? && r.value.Some? ==> LiveSet(slots[..]) == LiveSet(old(slots[..]))
    {
      var fp := Fingerprint(hash);
      var found := FindUpsertSlot(fp);
      if found.None? {
        return None;
      }
      ghost var s := slots[..];
      var i := found.value;
      UpsertRefines(s, i, fp, value);
      var previous := if slots[i].Live() then Some(slots[i].value) else None;
      if slots[i].Live() {
        ModelAt(s, i);
      }
      slots[i] := Slot(fp, value);
      assert slots[..] == s[i := Slot(fp, value)];
      r := Some(previous);
    }

    method CompactDeleted(index: nat)
      requires index < slots.Length
      modifies slots
      ensures slots[..] == Compact(old(slots[..]), index, Next(index, slots.Length), ScanSteps(slots.Length))
    {
      var n := slots.Length;
      var hole: nat, cursor: nat := index, Next(index, n);
      for step := 0 to ScanSteps(n)
        invariant hole < n && cursor < n
        invariant step <= ScanSteps(n)
        invariant Compact(slots[..], hole, cursor, ScanSteps(n) - step)
               == Compact(old(slots[..]), index, Next(index, n), ScanSteps(n))
      {
        ghost var s := slots[..];
        var candidate := slots[cursor];
        if candidate.Empty() {
          slots[hole] := DefaultSlot;
          assert slots[..] == s[hole := DefaultSlot];
          return;
        }
        if !candidate.Deleted() {
          var home := Home(candidate.fingerprint, n);
          if Distance(home, hole, n) < Distance(home, cursor, n) {
            slots[hole] := candidate;
            slots[cursor] := candidate.(value := DELETED_VALUE);
            assert slots[..] == Shift(s, hole, cursor);
            hole := cursor;
          }
        }
        cursor := Next(cursor, n);
      }
    }

    method Remove(hash: u64) returns (owner: Option<u32>)
      requires Valid()
      modifies slots
      ensures Valid()
      ensures owner == if Fingerprint(hash) in old(Model()) then Some(old(Model())[Fingerprint(hash)]) else None
      ensures Model() == old(Model()) - {Fingerprint(hash)}
      ensures owner.None? ==> slots[..] == old(slots[..])
      ensures owner.Some? ==>
                exists i: nat :: i < slots.Length && old(slots[i]) == Slot(Fingerprint(hash), owner.value)
                                 && slots[..] == RemovedAt(old(slots[..]), i)
      ensures LiveSet(slots[..]) <= LiveSet(old(slots[..]))
    {
      var found := Probe(Fingerprint(hash));
      if found.None? {
        return None;
      }
      ghost var s := slots[..];
      var index := found.value;
      owner := Some(slots[index].value);
      slots[index] := slots[index].(value := DELETED_VALUE);
      assert slots[..] == Deleted(s, index);
      CompactDeleted(index);
      RemoveRefines(s, index);
      RemoveFootprint(s, index);
    }
  }

  // ----- tables of one window -----

  lemma {:induction false} ImageSize(s: seq<Slot>, live: set<nat>, prints: set<u32>)
    requires forall i :: i in live ==> i < |s|
    requires forall i, j :: i in live && j in live && i != j ==> s[i].fingerprint != s[j].fingerprint
    requires prints == set i | i in live :: s[i].fingerprint
    ensures |prints| == |live|
    decreases live
  {
    if live != {} {
      var i :| i in live;
      var rest := live - {i};
      ImageSize(s, rest, set j | j in rest :: s[j].fingerprint);
      assert prints == (set j | j in rest :: s[j].fingerprint) + {s[i].fingerprint};
      assert s[i].fingerprint !in set j | j in rest :: s[j].fingerprint;
    }
  }

  /** As many slots are live as the map has keys. */
  lemma LiveCount(s: seq<Slot>)
    requires Inv(s)
    ensures |LiveSet(s)| == |ModelOf(s).Keys|
  {
    var live := LiveSet(s);
    ImageSize(s, live, set i | i in live :: s[i].fingerprint);
    assert ModelOf(s).Keys == set i | i in live :: s[i].fingerprint;
  }

  lemma {:induction false} AllLive(n: nat, live: set<nat>)
    requires forall i: nat :: i < n ==> i in live
    ensures |live| >= n
    decreases n
  {
    if n > 0 {
      AllLive(n - 1, live - {n - 1});
    }
  }

  /** A table of at most 64 slots refuses nobody while it holds fewer keys than slots. */
  lemma SmallAccepts(s: seq<Slot>, fp: u32)
    requires Inv(s) && |s| <= MAX_PROBES && |ModelOf(s).Keys| < |s|
    ensures CanUpsert(s, fp)
  {
    LiveCount(s);
    if WindowFull(s, fp) {
      forall i: nat | i < |s| ensures i in LiveSet(s) {
        assert InWindow(fp, i, |s|);
      }
      AllLive(|s|, LiveSet(s));
    }
  }

  // ----- the crowded table is reached by insertions -----

  /** The crowded table after its first k insertions. */
  function CrowdPrefix(k: nat): (s: seq<Slot>)
    requires k <= 65
    ensures |s| == 130
  {
    seq(130, i requires 0 <= i < 130 => if i < k then Crowded()[i] else DefaultSlot)
  }

  lemma CrowdDistinct(i: nat, j: nat)
    requires i < j <= 64
    ensures Crowded()[i].fingerprint != Crowded()[j].fingerprint
  {
    UnmixMixes(CrowdMixed(i));
    UnmixMixes(CrowdMixed(j));
  }

  /** The k-th fingerprint is new, fits its window, and can go to slot k only. */
  lemma CrowdNext(k: nat, i: nat)
    requires k <= 64 && i < 130
    ensures CanUpsert(CrowdPrefix(k), Crowded()[k].fingerprint)
    ensures Accepts(CrowdPrefix(k), Crowded()[k].fingerprint, i) ==> i == k
  {
    var s, fp := CrowdPrefix(k), Crowded()[k].fingerprint;
    CrowdHome(k);
    assert InWindow(fp, k, 130) && !s[k].Live();
    if fp in Fingerprints(s) {
      var j := SlotOf(s, fp);
      CrowdDistinct(j, k);
    }
    if Accepts(s, fp, i) && i != k {
      assert i > k && s[k].Empty();
    }
  }

  /** A hash with the given fingerprint. */
  function HashOf(fp: u32): u64 {
    fp * 0x1_0000_0000
  }

  lemma HashHasPrint(fp: u32)
    ensures Fingerprint(HashOf(fp)) == fp
  {
    assert HashOf(fp) % 0x1_0000_0000 == 0 && HashOf(fp) / 0x1_0000_0000 == fp;
    assert RotateLeft13(0) == 0;
  }

  method CrowdInsert(table: FixedPrehashedMap, k: nat)
    requires k <= 64 && table.Valid() && table.slots[..] == CrowdPrefix(k)
    modifies table.slots
    ensures table.Valid() && table.slots[..] == CrowdPrefix(k + 1)
  {
    var fp := Crowded()[k].fingerprint;
    HashHasPrint(fp);
    CrowdNext(k, 0);
    var r := table.Insert(HashOf(fp), k);
    ghost var i: nat :| i < 130 && Accepts(CrowdPrefix(k), fp, i) && table.slots[..] == CrowdPrefix(k)[i := Slot(fp, k)];
    CrowdNext(k, i);
    CrowdGrows(k);
  }

  lemma CrowdGrows(k: nat)
    requires k <= 64
    ensures CrowdPrefix(k)[k := Slot(Crowded()[k].fingerprint, k)] == CrowdPrefix(k + 1)
  {
  }

  /** Sixty-five insertions into a fresh table for sixty-five entries produce the crowded table. */
  method CrowdTable() returns (table: FixedPrehashedMap)
    ensures fresh(table) && fresh(table.slots) && table.Valid() && table.slots[..] == Crowded()
  {
    table := new FixedPrehashedMap(65);
    assert table.slots[..] == CrowdPrefix(0);
    for k := 0 to 65
      invariant fresh(table) && fresh(table.slots) && table.Valid() && table.slots[..] == CrowdPrefix(k)
    {
      CrowdInsert(table, k);
    }
    assert CrowdPrefix(65) == Crowded();
  }

  /** Removing one of its fingerprints leaves the crowded table unable to take it back. */
  method CrowdRefuses(table: FixedPrehashedMap) returns (owner: Option<u32>, r: Option<Option<u32>>)
    requires table.Valid() && table.slots[..] == Crowded()
    modifies table.slots
    ensures owner == Some(0) && r == None
  {
    var fp := Crowded()[0].fingerprint;
    HashHasPrint(fp);
    PreflightCanFail();
    ModelAt(Crowded(), 0);
    owner := table.Remove(HashOf(fp));
    ghost var i: nat :| i < 130 && Crowded()[i] == Slot(fp, owner.value) && table.slots[..] == RemovedAt(Crowded(), i);
    CrowdOwner(i, owner.value);
    r := table.Insert(HashOf(fp), 0);
  }

  lemma CrowdOwner(i: nat, owner: u32)
    requires i < 130 && Crowded()[i] == Slot(Crowded()[0].fingerprint, owner) && Crowded()[i].Live()
    ensures i == 0
  {
    if 0 < i <= 64 {
      CrowdDistinct(0, i);
    }
  }

  // ----- what removals spare -----

  ghost function Sparing(veil: Veil, s: seq<Slot>): iset<seq<Slot>> {
    match veil
    case Veil => iset t: seq<Slot> | |t| == |s| && LiveSet(t) <= LiveSet(s)
  }

  /** No slot is live in t that was not live in s.  Proofs open the clause by mentioning it. */
  ghost predicate Spares(s: seq<Slot>, t: seq<Slot>) {
    forall veil {:trigger t in Sparing(veil, s)} :: t in Sparing(veil, s)
  }

  lemma SparesIs(s: seq<Slot>, t: seq<Slot>)
    ensures Spares(s, t) <==> |t| == |s| && LiveSet(t) <= LiveSet(s)
  {
    assert t in Sparing(Veil, s) <==> |t| == |s| && LiveSet(t) <= LiveSet(s);
    forall veil ensures t in Sparing(veil, s) <==> t in Sparing(Veil, s) {
      match veil
      case Veil =>
    }
  }

  lemma SparesTwice(s: seq<Slot>, t: seq<Slot>, u: seq<Slot>)
    requires Spares(s, t) && Spares(t, u)
    ensures Spares(s, u)
  {
    SparesIs(s, t);
    SparesIs(t, u);
    SparesIs(s, u);
  }

  /** A preflight that found a free slot in the window survives any number of removals. */
  lemma SparePreflight(s: seq<Slot>, t: seq<Slot>, fp: u32)
    requires Spares(s, t) && !WindowFull(s, fp)
    ensures CanUpsert(t, fp)
  {
    SparesIs(s, t);
    var j: nat :| j < |s| && InWindow(fp, j, |s|) && !s[j].Live();
    assert j !in LiveSet(s);
    assert j !in LiveSet(t);
  }

  /** The table without fingerprint fp. */
  ghost function Forgetting(s: seq<Slot>, fp: u32): seq<Slot> {
    if fp in Fingerprints(s) then RemovedAt(s, SlotOf(s, fp)) else s
  }

  /** Removing a present fingerprint takes it out of the one slot that holds it. */
  lemma ForgetsOne(s: seq<Slot>, t: seq<Slot>, fp: u32, owner: Option<u32>)
    requires Inv(s) && fp in ModelOf(s) && owner == Some(ModelOf(s)[fp])
    requires exists i: nat :: i < |s| && s[i] == Slot(fp, owner.value) && t == RemovedAt(s, i)
    ensures t == Forgetting(s, fp)
  {
    var i: nat :| i < |s| && s[i] == Slot(fp, owner.value) && t == RemovedAt(s, i);
    var j := SlotOf(s, fp);
    ModelAt(s, j);
    assert s[i].Live();
    ModelAt(s, i);
  }

  /** Writing a listed fingerprint again rewrites the one slot that holds it. */
  lemma RewritesOne(s: seq<Slot>, t: seq<Slot>, fp: u32, value: u32)
    requires Inv(s) && fp in Fingerprints(s)
    requires exists i: nat :: i < |s| && Accepts(s, fp, i) && t == s[i := Slot(fp, value)]
    ensures t == s[SlotOf(s, fp) := Slot(fp, value)]
  {
    var i: nat :| i < |s| && Accepts(s, fp, i) && t == s[i := Slot(fp, value)];
    ModelAt(s, i);
    ModelAt(s, SlotOf(s, fp));
  }

  /** Taking the fingerprint out and putting it back is refused: its window was full, and the hole it
      left ended up outside. */
  ghost predicate Locked(s: seq<Slot>, fp: u32) {
    fp in Fingerprints(s) && WindowFull(s, fp) && !InWindow(fp, HoleAfter(s, SlotOf(s, fp)), |s|)
  }

  /** `Locked` is exactly when the preflight of a present fingerprint does not survive its removal. */
  lemma LockedExact(s: seq<Slot>, fp: u32)
    requires Inv(s) && fp in Fingerprints(s)
    ensures Locked(s, fp) <==> !CanUpsert(Forgetting(s, fp), fp)
  {
    PreflightExact(s, SlotOf(s, fp));
  }

  // ----- every operation sequence -----

  datatype MapOp = GetOp(hash: u64) | RemoveOp(hash: u64) | InsertOp(hash: u64, owner: u32)
  datatype Answer = Found(owner: Option<u32>) | Inserted(previous: Option<u32>) | Refused

  function Lookup(m: map<u32, u32>, fp: u32): Option<u32> {
    if fp in m then Some(m[fp]) else None
  }

  /** A plain map allows this answer: an insert may be refused only for an absent fingerprint. */
  predicate Allowed(m: map<u32, u32>, op: MapOp, answer: Answer) {
    var fp := Fingerprint(op.hash);
    match op
    case GetOp(_) => answer == Found(Lookup(m, fp))
    case RemoveOp(_) => answer == Found(Lookup(m, fp))
    case InsertOp(_, _) => if answer == Refused then fp !in m else answer == Inserted(Lookup(m, fp))
  }

  function Advance(m: map<u32, u32>, op: MapOp, answer: Answer): map<u32, u32> {
    match op
    case GetOp(_) => m
    case RemoveOp(hash) => m - {Fingerprint(hash)}
    case InsertOp(hash, owner) => if answer == Refused then m else m[Fingerprint(hash) := owner]
  }

  function After(m: map<u32, u32>, ops: seq<MapOp>, answers: seq<Answer>): map<u32, u32>
    requires |ops| == |answers|
    decreases ops
  {
    if ops == [] then m else After(Advance(m, ops[0], answers[0]), ops[1..], answers[1..])
  }

  predicate Explained(m: map<u32, u32>, ops: seq<MapOp>, answers: seq<Answer>)
    requires |ops| == |answers|
    decreases ops
  {
    ops == [] || (Allowed(m, ops[0], answers[0]) && Explained(Advance(m, ops[0], answers[0]), ops[1..], answers[1..]))
  }

  lemma {:induction false} ExplainedAppend(m: map<u32, u32>, ops: seq<MapOp>, answers: seq<Answer>, op: MapOp, answer: Answer)
    requires |ops| == |answers| && Explained(m, ops, answers)
    requires Allowed(After(m, ops, answers), op, answer)
    ensures Explained(m, ops + [op], answers + [answer])
    ensures After(m, ops + [op], answers + [answer]) == Advance(After(m, ops, answers), op, answer)
    decreases ops
  {
    if ops == [] {
      assert ops + [op] == [op] && answers + [answer] == [answer] && [op][1..] == [] && [answer][1..] == [];
    } else {
      assert (ops + [op])[1..] == ops[1..] + [op] && (answers + [answer])[1..] == answers[1..] + [answer];
      ExplainedAppend(Advance(m, ops[0], answers[0]), ops[1..], answers[1..], op, answer);
    }
  }

  /** Runs any operation sequence on a fresh table; a plain map explains every answer. */
  method Replay(capacity: nat, ops: seq<MapOp>) returns (answers: seq<Answer>)
    requires forall k :: 0 <= k < |ops| && ops[k].InsertOp? ==> ops[k].owner < DELETED_VALUE
    ensures |answers| == |ops| && Explained(map[], ops, answers)
  {
    var table := new FixedPrehashedMap(capacity);
    answers := [];
    for k := 0 to |ops|
      invariant |answers| == k && Explained(map[], ops[..k], answers)
      invariant table.Valid() && fresh(table.slots)
      invariant table.Model() == After(map[], ops[..k], answers)
    {
      var answer := Perform(table, ops[k]);
      ExplainedAppend(map[], ops[..k], answers, ops[k], answer);
      assert ops[..k + 1] == ops[..k] + [ops[k]];
      answers := answers + [answer];
    }
    assert ops[..|ops|] == ops;
  }

  method Perform(table: FixedPrehashedMap, op: MapOp) returns (answer: Answer)
    requires table.Valid() && (op.InsertOp? ==> op.owner < DELETED_VALUE)
    modifies table.slots
    ensures table.Valid() && Allowed(old(table.Model()), op, answer) && table.Model() == Advance(old(table.Model()), op, answer)
  {
    match op {
      case GetOp(hash) =>
        var owner := table.Get(hash);
        answer := Found(owner);
      case RemoveOp(hash) =>
        var owner := table.Remove(hash);
        answer := Found(owner);
      case InsertOp(hash, owner) =>
        var r := table.Insert(hash, owner);
        answer := if r.None? then Refused else Inserted(r.value);
    }
  }

  // ----- shard routing -----

  /** Routes a hash to a bucket, masking instead of dividing for power-of-two counts. */
  function RouteHash(hash: u64, buckets: nat): nat
    requires buckets > 0
  {
    if IsPowerOfTwo(buckets) then And(hash, buckets - 1) else hash % buckets
  }

  lemma {:induction false} PowerOfTwoExponent(n: nat) returns (k: nat)
    requires IsPowerOfTwo(n)
    ensures n == Pow2(k)
  {
    if n == 1 {
      k := 0;
    } else {
      var j := PowerOfTwoExponent(n / 2);
      k := j + 1;
    }
  }

  /** Both routes agree with plain modulo assignment. */
  lemma RouteIsModulo(hash: u64, buckets: nat)
    requires buckets > 0
    ensures RouteHash(hash, buckets) == hash % buckets
  {
    if IsPowerOfTwo(buckets) {
      var k := PowerOfTwoExponent(buckets);
      MaskIsMod(hash, k);
    }
  }
}
