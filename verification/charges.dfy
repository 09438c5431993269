/** Byte accounting of one L1 shard.  Admissions run under the shard lock; callers that retained a value
    clone and drop their handles at any moment in between. */
module Charges {
  import opened Machine
  import opened Sums
  import opened Tables

  /** One shared allocation: its content, its charge, and who owns it.  `local` is a reference held by
      the running admission; `owed` marks a victim whose charge has been transferred but is still armed. */
  datatype Cell = Cell(item: Item, bytes: nat, armed: bool, owed: bool, handles: nat, resident: bool, local: bool) {
    predicate Owned() {
      handles > 0 || resident || local
    }

    /** The only owner is the resident slot. */
    predicate Exclusive() {
      resident && handles == 0 && !local
    }
  }

  /** The budget, every allocation, and the charge the running admission has in hand. */
  datatype Ledger = Ledger(capacity: nat, used: nat, cells: seq<Cell>, hand: Option<nat>)

  datatype Action =
    | CloneHandle(c: nat)
    | DropHandle(c: nat)
    | Hit(c: nat)
    | TryCharge(bytes: nat)
    | Transfer(victims: seq<nat>, required: nat)
    | Disarm(c: nat)
    | Take(c: nat)
    | DropLocal(c: nat)
    | NewValue(item: Item)
    | Recycle(c: nat, item: Item)
    | DropHand

  /** A charge counts until it is disarmed or transferred. */
  function Charged(cell: Cell): nat {
    if cell.armed && !cell.owed then cell.bytes else 0
  }

  function InHand(l: Ledger): nat {
    if l.hand.Some? then l.hand.value else 0
  }

  predicate Settled(l: Ledger) {
    l.hand.None? && forall c :: 0 <= c < |l.cells| ==> !l.cells[c].owed
  }

  function Bytes(cells: seq<Cell>, victims: seq<nat>): nat
    requires forall i :: 0 <= i < |victims| ==> victims[i] < |cells|
  {
    if victims == [] then 0 else Bytes(cells, victims[..|victims| - 1]) + cells[victims[|victims| - 1]].bytes
  }

  predicate Victims(l: Ledger, victims: seq<nat>) {
    && (forall i :: 0 <= i < |victims| ==> victims[i] < |l.cells|)
    && (forall i :: 0 <= i < |victims| ==>
          l.cells[victims[i]].Exclusive() && l.cells[victims[i]].armed && !l.cells[victims[i]].owed)
    && (forall i, j :: 0 <= i < j < |victims| ==> victims[i] != victims[j])
  }

  predicate Enabled(l: Ledger, a: Action) {
    match a
    case CloneHandle(c) => c < |l.cells| && l.cells[c].handles > 0
    case DropHandle(c) => c < |l.cells| && l.cells[c].handles > 0
    case Hit(c) => c < |l.cells| && l.cells[c].resident && Settled(l)
    case TryCharge(bytes) => l.hand.None? && l.used + bytes <= l.capacity
    case Transfer(victims, required) =>
      && l.hand.None? && Victims(l, victims)
      && l.used + required <= l.capacity + Bytes(l.cells, victims)
    case Disarm(c) => c < |l.cells| && l.cells[c].owed
    case Take(c) => c < |l.cells| && l.cells[c].resident && !l.cells[c].owed && !l.cells[c].local
    case DropLocal(c) => c < |l.cells| && l.cells[c].local
    case NewValue(_) => l.hand.Some?
    case Recycle(c, _) => c < |l.cells| && l.hand.Some? && l.cells[c].local && l.cells[c].handles == 0 && !l.cells[c].resident
    case DropHand => l.hand.Some?
  }

  /** The last owner to go releases an armed charge. */
  function Released(l: Ledger, c: nat, cell: Cell): Ledger
    requires c < |l.cells|
  {
    if cell.Owned() then l.(cells := l.cells[c := cell])
    else l.(used := SaturatingSub(l.used, Charged(cell)), cells := l.cells[c := cell.(armed := false)])
  }

  function Marked(cells: seq<Cell>, victims: seq<nat>): seq<Cell>
    requires forall i :: 0 <= i < |victims| ==> victims[i] < |cells|
    ensures |Marked(cells, victims)| == |cells|
  {
    if victims == [] then cells
    else
      var n := |victims| - 1;
      var rest := Marked(cells, victims[..n]);
      rest[victims[n] := rest[victims[n]].(owed := true)]
  }

  function Do(l: Ledger, a: Action): Ledger
    requires Enabled(l, a)
  {
    match a
    case CloneHandle(c) => l.(cells := l.cells[c := l.cells[c].(handles := l.cells[c].handles + 1)])
    case DropHandle(c) => Released(l, c, l.cells[c].(handles := l.cells[c].handles - 1))
    case Hit(c) => l.(cells := l.cells[c := l.cells[c].(handles := l.cells[c].handles + 1)])
    case TryCharge(bytes) => l.(used := l.used + bytes, hand := Some(bytes))
    case Transfer(victims, required) =>
      l.(used := SaturatingSub(l.used, Bytes(l.cells, victims)) + required, cells := Marked(l.cells, victims), hand := Some(required))
    case Disarm(c) => l.(cells := l.cells[c := l.cells[c].(armed := false, owed := false)])
    case Take(c) => l.(cells := l.cells[c := l.cells[c].(resident := false, local := true)])
    case DropLocal(c) => Released(l, c, l.cells[c].(local := false))
    case NewValue(item) => l.(cells := l.cells + [Cell(item, l.hand.value, true, false, 0, true, false)], hand := None)
    case Recycle(c, item) =>
      l.(used := SaturatingSub(l.used, Charged(l.cells[c])),
         cells := l.cells[c := Cell(item, l.hand.value, true, false, 0, true, false)],
         hand := None)
    case DropHand => l.(used := SaturatingSub(l.used, l.hand.value), hand := None)
  }

  // ----- invariant -----

  predicate CellOk(cell: Cell) {
    (!cell.Owned() ==> !cell.armed) && (cell.owed ==> cell.armed && cell.Exclusive())
  }

  /** The budget is exactly what the armed charges and the charge in hand add up to. */
  predicate Balanced(l: Ledger) {
    && l.used == Sum(l.cells, Charged) + InHand(l)
    && l.used <= l.capacity
    && forall c :: 0 <= c < |l.cells| ==> CellOk(l.cells[c])
  }

  lemma CellStep(l: Ledger, l': Ledger, c: nat, cell: Cell)
    requires Balanced(l) && c < |l.cells| && l'.cells == l.cells[c := cell] && CellOk(cell)
    requires l'.capacity == l.capacity && l'.used <= l.capacity
    requires l'.used + InHand(l) + Charged(l.cells[c]) == l.used + InHand(l') + Charged(cell)
    ensures Balanced(l')
  {
    SumUpdate(l.cells, c, cell, Charged);
  }

  lemma ReleaseStep(l: Ledger, c: nat, cell: Cell)
    requires Balanced(l) && c < |l.cells| && Charged(cell) == Charged(l.cells[c])
    requires cell.Owned() ==> CellOk(cell)
    requires !cell.Owned() ==> !cell.owed
    ensures Balanced(Released(l, c, cell)) && Charged(cell) <= l.used
  {
    SumMember(l.cells, c, Charged);
    var l' := Released(l, c, cell);
    CellStep(l, l', c, l'.cells[c]);
  }

  /** Marking distinct victims takes exactly their bytes out of the sum. */
  lemma {:induction false} MarkedSum(l: Ledger, victims: seq<nat>)
    requires Victims(l, victims)
    ensures Sum(Marked(l.cells, victims), Charged) + Bytes(l.cells, victims) == Sum(l.cells, Charged)
    ensures forall c :: 0 <= c < |l.cells| ==>
              Marked(l.cells, victims)[c] == if c in victims then l.cells[c].(owed := true) else l.cells[c]
    decreases |victims|
  {
    if victims != [] {
      var n := |victims| - 1;
      var rest := victims[..n];
      MarkedSum(l, rest);
      var marked, v := Marked(l.cells, rest), victims[n];
      assert v !in rest;
      assert marked[v] == l.cells[v];
      SumUpdate(marked, v, marked[v].(owed := true), Charged);
      forall c | 0 <= c < |l.cells|
        ensures Marked(l.cells, victims)[c] == if c in victims then l.cells[c].(owed := true) else l.cells[c]
      {
        assert c in victims <==> c in rest || c == v;
      }
    }
  }

  lemma {:induction false} TransferStep(l: Ledger, victims: seq<nat>, required: nat)
    requires Balanced(l) && Enabled(l, Transfer(victims, required))
    ensures Balanced(Do(l, Transfer(victims, required)))
    ensures Bytes(l.cells, victims) <= l.used
  {
    MarkedSum(l, victims);
    var l' := Do(l, Transfer(victims, required));
    forall c | 0 <= c < |l'.cells| ensures CellOk(l'.cells[c]) {
      assert CellOk(l.cells[c]);
      if c in victims {
        var i :| 0 <= i < |victims| && victims[i] == c;
        assert l.cells[victims[i]].Exclusive();
      }
    }
  }

  /** A reference moves or appears; no charge changes. */
  lemma OwnerStep(l: Ledger, a: Action)
    requires Balanced(l) && Enabled(l, a) && (a.CloneHandle? || a.Hit? || a.Take?)
    ensures Balanced(Do(l, a))
  {
    assert CellOk(l.cells[a.c]);
    CellStep(l, Do(l, a), a.c, Do(l, a).cells[a.c]);
  }

  lemma DisarmStep(l: Ledger, c: nat)
    requires Balanced(l) && Enabled(l, Disarm(c))
    ensures Balanced(Do(l, Disarm(c)))
  {
    CellStep(l, Do(l, Disarm(c)), c, l.cells[c].(armed := false, owed := false));
  }

  lemma DropStep(l: Ledger, a: Action)
    requires Balanced(l) && Enabled(l, a) && (a.DropHandle? || a.DropLocal?)
    ensures Balanced(Do(l, a))
  {
    var cell := l.cells[a.c];
    assert CellOk(cell);
    ReleaseStep(l, a.c, if a.DropHandle? then cell.(handles := cell.handles - 1) else cell.(local := false));
  }

  /** The reused buffer gives up its old charge, if still armed, for the one in hand. */
  lemma RecycleStep(l: Ledger, c: nat, item: Item)
    requires Balanced(l) && Enabled(l, Recycle(c, item))
    ensures Balanced(Do(l, Recycle(c, item)))
  {
    SumMember(l.cells, c, Charged);
    var l' := Do(l, Recycle(c, item));
    CellStep(l, l', c, Cell(item, l.hand.value, true, false, 0, true, false));
  }

  lemma HandStep(l: Ledger, a: Action)
    requires Balanced(l) && Enabled(l, a) && (a.TryCharge? || a.DropHand?)
    ensures Balanced(Do(l, a))
  {
  }

  lemma NewStep(l: Ledger, item: Item)
    requires Balanced(l) && Enabled(l, NewValue(item))
    ensures Balanced(Do(l, NewValue(item)))
  {
    var cell := Cell(item, l.hand.value, true, false, 0, true, false);
    SumAppend(l.cells, cell, Charged);
    assert Do(l, NewValue(item)).cells == l.cells + [cell];
  }

  lemma StepBalanced(l: Ledger, a: Action)
    requires Balanced(l) && Enabled(l, a)
    ensures Balanced(Do(l, a))
  {
    match a
    case CloneHandle(_) => OwnerStep(l, a);
    case Hit(_) => OwnerStep(l, a);
    case Take(_) => OwnerStep(l, a);
    case DropHandle(_) => DropStep(l, a);
    case DropLocal(_) => DropStep(l, a);
    case TryCharge(_) => HandStep(l, a);
    case Transfer(victims, required) => TransferStep(l, victims, required);
    case Disarm(c) => DisarmStep(l, c);
    case NewValue(item) => NewStep(l, item);
    case Recycle(c, item) => RecycleStep(l, c, item);
    case DropHand => HandStep(l, a);
  }

  // ----- whole runs -----

  predicate Feasible(l: Ledger, run: seq<Action>)
    decreases |run|
  {
    run == [] || (Enabled(l, run[0]) && Feasible(Do(l, run[0]), run[1..]))
  }

  function Execute(l: Ledger, run: seq<Action>): Ledger
    requires Feasible(l, run)
    decreases |run|
  {
    if run == [] then l else Execute(Do(l, run[0]), run[1..])
  }

  lemma {:induction false} RunBalanced(l: Ledger, run: seq<Action>)
    requires Balanced(l) && Feasible(l, run)
    ensures Balanced(Execute(l, run))
    decreases |run|
  {
    if run != [] {
      StepBalanced(l, run[0]);
      RunBalanced(Do(l, run[0]), run[1..]);
    }
  }

  function Armed(cell: Cell): nat {
    if cell.armed then cell.bytes else 0
  }

  /** Whenever no admission is in flight, the used bytes are the sum of the armed charges of the live
      allocations, resident or retained by callers, and fit the capacity. */
  lemma {:induction false} ChargesConserved(capacity: nat, run: seq<Action>)
    requires Feasible(Ledger(capacity, 0, [], None), run) && Settled(Execute(Ledger(capacity, 0, [], None), run))
    ensures var end := Execute(Ledger(capacity, 0, [], None), run);
            && end.used == Sum(end.cells, Armed) && end.used <= capacity
            && forall c :: 0 <= c < |end.cells| && end.cells[c].armed ==> end.cells[c].Owned()
  {
    var start := Ledger(capacity, 0, [], None);
    RunBalanced(start, run);
    var end := Execute(start, run);
    CapacityFixed(start, run);
    SameSums(end.cells);
  }

  lemma {:induction false} SameSums(cells: seq<Cell>)
    requires forall c :: 0 <= c < |cells| ==> !cells[c].owed
    ensures Sum(cells, Charged) == Sum(cells, Armed)
  {
    if cells != [] {
      SameSums(cells[..|cells| - 1]);
    }
  }

  lemma {:induction false} CapacityFixed(l: Ledger, run: seq<Action>)
    requires Feasible(l, run)
    ensures Execute(l, run).capacity == l.capacity
    decreases |run|
  {
    if run != [] {
      CapacityFixed(Do(l, run[0]), run[1..]);
    }
  }

  // ----- retained values -----

  lemma RetainedStep(l: Ledger, a: Action, c: nat)
    requires Enabled(l, a) && c < |l.cells| && l.cells[c].Owned() && (l.cells[c].handles > 0 || l.cells[c].resident)
    ensures c < |Do(l, a).cells|
    ensures Do(l, a).cells[c].item == l.cells[c].item && Do(l, a).cells[c].bytes == l.cells[c].bytes
  {
    match a
    case Transfer(victims, required) => MarkedSum(l, victims);
    case _ =>
  }

  /** The allocation keeps a caller handle throughout the run. */
  predicate HeldThrough(l: Ledger, run: seq<Action>, c: nat)
    decreases |run|
  {
    && c < |l.cells| && l.cells[c].handles > 0
    && (run == [] || (Enabled(l, run[0]) && HeldThrough(Do(l, run[0]), run[1..], c)))
  }

  /** A value that a caller holds keeps its bytes and its charge, whatever is published, evicted or
      recycled meanwhile: buffers are reused only when nobody else can see them. */
  lemma {:induction false} HeldImmutable(l: Ledger, run: seq<Action>, c: nat)
    requires Balanced(l) && Feasible(l, run) && HeldThrough(l, run, c)
    ensures c < |Execute(l, run).cells|
    ensures Execute(l, run).cells[c].item == l.cells[c].item && Execute(l, run).cells[c].bytes == l.cells[c].bytes
    ensures Execute(l, run).cells[c].armed == l.cells[c].armed
    decreases |run|
  {
    if run != [] {
      StepBalanced(l, run[0]);
      RetainedStep(l, run[0], c);
      HeldArmed(l, run[0], c);
      HeldImmutable(Do(l, run[0]), run[1..], c);
    }
  }

  lemma HeldArmed(l: Ledger, a: Action, c: nat)
    requires Balanced(l) && Enabled(l, a) && c < |l.cells| && l.cells[c].handles > 0
    requires c < |Do(l, a).cells| && Do(l, a).cells[c].handles > 0
    ensures Do(l, a).cells[c].armed == l.cells[c].armed
  {
    assert CellOk(l.cells[c]);
    match a
    case Transfer(victims, required) => MarkedSum(l, victims);
    case _ =>
  }
}
