/** The pause and recovery fences of background I/O: attempts, their observations and the admission
    checks of fills, interleaved at every atomic access. */
module Fences {
  import opened Machine
  import opened Sums

  /** A worker-owned observation: its slot, whether it holds the pause, and whether the slot is still
      taken. */
  datatype Observation = Observation(index: nat, slow: bool, listed: bool)

  /** Where an attempt is between two of its atomic accesses. */
  datatype Phase = Absent | Running | Raising | Finishing | Dropping | Lowering | Exchanging(seen: nat)

  /** One background attempt.  `retiring` is an observation whose destructor is running. */
  datatype Attempt = Attempt(
    phase: Phase,
    recovering: bool,
    slow: bool,
    observation: Option<Observation>,
    retiring: Option<Observation>)

  const NoAttempt := Attempt(Absent, false, false, None, None)

  /** An admission check, which reads the stop flag, the recovery count and the pause count in turn. */
  datatype Reader = Fresh | SawRunning | SawSettled | Decided(admitted: bool)

  /** The two shared policies, the attempts, the admission checks, and how many recovering attempts
      were dropped unfinished. */
  datatype Fence = Fence(
    enforcing: bool,
    stopped: bool,
    recovering: nat,
    pauseHolders: nat,
    pending: nat,
    slots: seq<bool>,
    attempts: seq<Attempt>,
    readers: seq<Reader>,
    leaked: nat)

  datatype Action =
    | New(i: nat)
    | Start(i: nat, slot: Option<nat>)
    | FreeSlot(i: nat)
    | ReleasePause(i: nat)
    | NoteSlow(i: nat)
    | ClearSlow(i: nat)
    | Raise(i: nat)
    | Count(i: nat)
    | Finish(i: nat)
    | Settle(i: nat)
    | LoadHolds(i: nat)
    | Exchange(i: nat)
    | Abandon(i: nat)
    | Leave(i: nat)
    | Stop
    | Check(r: nat)
    | Read(r: nat)

  /** The attempt may take its next own step. */
  predicate At(f: Fence, i: nat, phase: Phase) {
    i < |f.attempts| && f.attempts[i].phase == phase && f.attempts[i].retiring.None?
  }

  predicate Enabled(f: Fence, a: Action) {
    match a
    case New(i) => At(f, i, Absent)
    case Start(i, slot) => At(f, i, Running) && (slot.Some? ==> slot.value < |f.slots| && !f.slots[slot.value])
    case FreeSlot(i) => i < |f.attempts| && f.attempts[i].retiring.Some? && f.attempts[i].retiring.value.listed
    case ReleasePause(i) => i < |f.attempts| && f.attempts[i].retiring.Some? && !f.attempts[i].retiring.value.listed
    case NoteSlow(i) => At(f, i, Running)
    case ClearSlow(i) => At(f, i, Running)
    case Raise(i) => At(f, i, Running)
    case Count(i) => At(f, i, Raising)
    case Finish(i) => At(f, i, Running)
    case Settle(i) => At(f, i, Finishing)
    case LoadHolds(i) => At(f, i, Lowering)
    case Exchange(i) => i < |f.attempts| && f.attempts[i].phase.Exchanging? && f.attempts[i].retiring.None?
    case Abandon(i) => At(f, i, Running)
    case Leave(i) => At(f, i, Dropping)
    case Stop => true
    case Check(r) => r < |f.readers|
    case Read(r) => r < |f.readers|
  }

  function Set(f: Fence, i: nat, a: Attempt): Fence
    requires i < |f.attempts|
  {
    f.(attempts := f.attempts[i := a])
  }

  /** The next read of admission check r: any raised fence rejects, unless nothing is enforced. */
  function Reading(f: Fence, r: Reader): Reader {
    match r
    case Fresh => if f.stopped then Decided(!f.enforcing) else SawRunning
    case SawRunning => if f.recovering != 0 then Decided(!f.enforcing) else SawSettled
    case SawSettled => Decided(!f.enforcing || f.pauseHolders == 0)
    case Decided(_) => r
  }

  function Noted(f: Fence, i: nat): Fence
    requires i < |f.attempts|
  {
    var a := f.attempts[i];
    if a.slow then f
    else if a.observation.Some? && !a.observation.value.slow then
      Set(f, i, a.(slow := true, observation := Some(a.observation.value.(slow := true)))).(pauseHolders := f.pauseHolders + 1)
    else Set(f, i, a.(slow := true))
  }

  function Cleared(f: Fence, i: nat): Fence
    requires i < |f.attempts|
  {
    var a := f.attempts[i];
    if !a.slow then f
    else if a.observation.Some? && a.observation.value.slow then
      Set(f, i, a.(slow := false, observation := Some(a.observation.value.(slow := false))))
        .(pauseHolders := SaturatingSub(f.pauseHolders, 1))
    else Set(f, i, a.(slow := false))
  }

  function Do(f: Fence, action: Action): Fence
    requires Enabled(f, action)
  {
    match action
    case New(i) => Set(f, i, NoAttempt.(phase := Running))
    case Start(i, slot) =>
      var a := f.attempts[i];
      if slot.None? then Set(f, i, a.(observation := None, retiring := a.observation))
      else
        Set(f, i, a.(observation := Some(Observation(slot.value, false, true)), retiring := a.observation))
          .(slots := f.slots[slot.value := true])
    case FreeSlot(i) =>
      var a := f.attempts[i];
      var o := a.retiring.value;
      Set(f, i, a.(retiring := if o.slow then Some(o.(listed := false)) else None))
        .(slots := if o.index < |f.slots| then f.slots[o.index := false] else f.slots)
    case ReleasePause(i) =>
      Set(f, i, f.attempts[i].(retiring := None)).(pauseHolders := SaturatingSub(f.pauseHolders, 1))
    case NoteSlow(i) => Noted(f, i)
    case ClearSlow(i) => Cleared(f, i)
    case Raise(i) =>
      var a := f.attempts[i];
      if a.recovering then f else Set(f, i, a.(phase := Raising, recovering := true)).(recovering := f.recovering + 1)
    case Count(i) => Set(f, i, f.attempts[i].(phase := Running)).(pending := f.pending + 1)
    case Finish(i) =>
      var a := f.attempts[i];
      Set(f, i, a.(phase := Finishing, observation := None, retiring := a.observation))
    case Settle(i) =>
      var a := f.attempts[i];
      if a.recovering then Set(f, i, a.(phase := Lowering)).(pending := SaturatingSub(f.pending, 1))
      else Set(f, i, NoAttempt)
    case LoadHolds(i) =>
      if f.recovering == 0 then Set(f, i, NoAttempt) else Set(f, i, f.attempts[i].(phase := Exchanging(f.recovering)))
    case Exchange(i) =>
      var a := f.attempts[i];
      if f.recovering == a.phase.seen then Set(f, i, NoAttempt).(recovering := SaturatingSub(f.recovering, 1))
      else Set(f, i, a.(phase := Lowering))
    case Abandon(i) =>
      var a := f.attempts[i];
      Set(f, i, a.(phase := Dropping, recovering := false, observation := None, retiring := a.observation))
        .(leaked := f.leaked + (if a.recovering then 1 else 0))
    case Leave(i) => Set(f, i, NoAttempt)
    case Stop => f.(stopped := true)
    case Check(r) => f.(readers := f.readers[r := Fresh])
    case Read(r) => f.(readers := f.readers[r := Reading(f, f.readers[r])])
  }

  // ----- what the counters count -----

  function One(b: bool): nat {
    if b then 1 else 0
  }

  /** Slow observations an attempt still holds. */
  function Slow(a: Attempt): nat {
    One(a.observation.Some? && a.observation.value.slow) + One(a.retiring.Some? && a.retiring.value.slow)
  }

  /** The attempt has raised the controller's recovery count and not lowered it. */
  function Raised(a: Attempt): nat {
    One(a.recovering)
  }

  /** The attempt is included in the shared count of recovering operations. */
  function Counted(a: Attempt): nat {
    One(a.recovering && (a.phase == Running || a.phase == Finishing))
  }

  function Lists(o: Option<Observation>, k: nat): nat {
    One(o.Some? && o.value.listed && o.value.index == k)
  }

  /** The attempt occupies slot k. */
  function Occupies(k: nat): Attempt -> nat {
    (a: Attempt) => Lists(a.observation, k) + Lists(a.retiring, k)
  }

  predicate AttemptOk(a: Attempt, slots: nat) {
    && (a.phase == Absent ==> a == NoAttempt)
    && (a.phase == Raising || a.phase == Lowering || a.phase.Exchanging? ==> a.recovering)
    && (a.phase.Exchanging? ==> a.phase.seen > 0)
    && (a.phase == Dropping ==> !a.recovering)
    && (a.phase != Running && a.phase != Raising ==> a.observation.None?)
    && (a.observation.Some? ==> a.observation.value.listed && a.observation.value.index < slots)
    && (a.retiring.Some? ==> a.retiring.value.index < slots && (a.retiring.value.listed || a.retiring.value.slow))
    && (a.retiring.Some? ==> a.phase == Running || a.phase == Finishing || a.phase == Dropping)
  }

  predicate SlotsOwned(f: Fence) {
    forall k :: 0 <= k < |f.slots| ==> Sum(f.attempts, Occupies(k)) == One(f.slots[k])
  }

  predicate Valid(f: Fence) {
    && (forall i :: 0 <= i < |f.attempts| ==> AttemptOk(f.attempts[i], |f.slots|))
    && f.pauseHolders == Sum(f.attempts, Slow)
    && f.recovering == Sum(f.attempts, Raised) + f.leaked
    && f.pending == Sum(f.attempts, Counted) + f.leaked
    && SlotsOwned(f)
  }

  // ----- every step -----

  /** Attempt i becomes a, and every counter moves with it. */
  lemma AttemptStep(f: Fence, f': Fence, i: nat, a: Attempt)
    requires Valid(f) && i < |f.attempts| && f'.attempts == f.attempts[i := a]
    requires |f'.slots| == |f.slots| && AttemptOk(a, |f.slots|)
    requires f'.pauseHolders + Slow(f.attempts[i]) == f.pauseHolders + Slow(a)
    requires f'.recovering + Raised(f.attempts[i]) + f.leaked == f.recovering + Raised(a) + f'.leaked
    requires f'.pending + Counted(f.attempts[i]) + f.leaked == f.pending + Counted(a) + f'.leaked
    requires forall k :: 0 <= k < |f.slots| ==>
               One(f'.slots[k]) + Occupies(k)(f.attempts[i]) == One(f.slots[k]) + Occupies(k)(a)
    ensures Valid(f')
  {
    SumUpdate(f.attempts, i, a, Slow);
    SumUpdate(f.attempts, i, a, Raised);
    SumUpdate(f.attempts, i, a, Counted);
    forall k | 0 <= k < |f'.slots| ensures Sum(f'.attempts, Occupies(k)) == One(f'.slots[k]) {
      SumUpdate(f.attempts, i, a, Occupies(k));
    }
  }

  /** What attempt i contributes is included in the counters. */
  lemma Included(f: Fence, i: nat)
    requires Valid(f) && i < |f.attempts|
    ensures Slow(f.attempts[i]) <= f.pauseHolders
    ensures Raised(f.attempts[i]) <= f.recovering
    ensures Counted(f.attempts[i]) <= f.pending
    ensures forall k :: 0 <= k < |f.slots| ==> Occupies(k)(f.attempts[i]) <= One(f.slots[k])
  {
    SumMember(f.attempts, i, Slow);
    SumMember(f.attempts, i, Raised);
    SumMember(f.attempts, i, Counted);
    forall k | 0 <= k < |f.slots| ensures Occupies(k)(f.attempts[i]) <= One(f.slots[k]) {
      SumMember(f.attempts, i, Occupies(k));
    }
  }

  lemma ReaderStep(f: Fence, r: nat, reader: Reader)
    requires Valid(f) && r < |f.readers|
    ensures Valid(f.(readers := f.readers[r := reader]))
  {
  }

  lemma Observing(f: Fence, action: Action)
    requires Valid(f) && Enabled(f, action) && (action.New? || action.Start?)
    ensures Valid(Do(f, action))
  {
    var f', i := Do(f, action), action.i;
    Included(f, i);
    assert AttemptOk(f.attempts[i], |f.slots|);
    AttemptStep(f, f', i, f'.attempts[i]);
  }

  lemma Retiring(f: Fence, action: Action)
    requires Valid(f) && Enabled(f, action) && (action.FreeSlot? || action.ReleasePause?)
    ensures Valid(Do(f, action))
  {
    var f', i := Do(f, action), action.i;
    Included(f, i);
    assert AttemptOk(f.attempts[i], |f.slots|);
    AttemptStep(f, f', i, f'.attempts[i]);
  }

  lemma Noticing(f: Fence, i: nat)
    requires Valid(f) && At(f, i, Running)
    ensures Valid(Noted(f, i))
  {
    var f', a := Noted(f, i), f.attempts[i];
    assert AttemptOk(a, |f.slots|);
    if !a.slow {
      var a' := f'.attempts[i];
      assert a' == a.(slow := true, observation := a'.observation);
      AttemptStep(f, f', i, a');
    }
  }

  lemma Clearing(f: Fence, i: nat)
    requires Valid(f) && At(f, i, Running)
    ensures Valid(Cleared(f, i))
  {
    var f', a := Cleared(f, i), f.attempts[i];
    assert AttemptOk(a, |f.slots|);
    Included(f, i);
    if a.slow {
      var a' := f'.attempts[i];
      assert a' == a.(slow := false, observation := a'.observation);
      AttemptStep(f, f', i, a');
    }
  }

  lemma Recovering(f: Fence, action: Action)
    requires Valid(f) && Enabled(f, action) && (action.Raise? || action.Count?)
    ensures Valid(Do(f, action))
  {
    var f', i := Do(f, action), action.i;
    Included(f, i);
    assert AttemptOk(f.attempts[i], |f.slots|);
    AttemptStep(f, f', i, f'.attempts[i]);
  }

  lemma Closing(f: Fence, action: Action)
    requires Valid(f) && Enabled(f, action) && (action.Finish? || action.Abandon? || action.Leave?)
    ensures Valid(Do(f, action))
  {
    var f', i := Do(f, action), action.i;
    Included(f, i);
    assert AttemptOk(f.attempts[i], |f.slots|);
    AttemptStep(f, f', i, f'.attempts[i]);
  }

  lemma Settling(f: Fence, action: Action)
    requires Valid(f) && Enabled(f, action) && (action.Settle?)
    ensures Valid(Do(f, action))
  {
    var f', i := Do(f, action), action.i;
    Included(f, i);
    assert AttemptOk(f.attempts[i], |f.slots|);
    AttemptStep(f, f', i, f'.attempts[i]);
  }

  lemma Lowers(f: Fence, action: Action)
    requires Valid(f) && Enabled(f, action) && (action.LoadHolds? || action.Exchange?)
    ensures Valid(Do(f, action))
  {
    var f', i := Do(f, action), action.i;
    Included(f, i);
    assert AttemptOk(f.attempts[i], |f.slots|);
    AttemptStep(f, f', i, f'.attempts[i]);
  }

  lemma StepKeeps(f: Fence, action: Action)
    requires Valid(f) && Enabled(f, action)
    ensures Valid(Do(f, action))
  {
    match action
    case Stop =>
    case Check(r) => ReaderStep(f, r, Fresh);
    case Read(r) => ReaderStep(f, r, Reading(f, f.readers[r]));
    case New(_) => Observing(f, action);
    case Start(_, _) => Observing(f, action);
    case FreeSlot(_) => Retiring(f, action);
    case ReleasePause(_) => Retiring(f, action);
    case NoteSlow(i) => Noticing(f, i);
    case ClearSlow(i) => Clearing(f, i);
    case Raise(_) => Recovering(f, action);
    case Count(_) => Recovering(f, action);
    case Finish(_) => Closing(f, action);
    case Abandon(_) => Closing(f, action);
    case Leave(_) => Closing(f, action);
    case Settle(_) => Settling(f, action);
    case LoadHolds(_) => Lowers(f, action);
    case Exchange(_) => Lowers(f, action);
  }

  // ----- whole runs -----

  predicate Feasible(f: Fence, run: seq<Action>)
    decreases |run|
  {
    run == [] || (Enabled(f, run[0]) && Feasible(Do(f, run[0]), run[1..]))
  }

  function Execute(f: Fence, run: seq<Action>): Fence
    requires Feasible(f, run)
    decreases |run|
  {
    if run == [] then f else Execute(Do(f, run[0]), run[1..])
  }

  /** Before any attempt: nothing is raised and every slot is free. */
  function Opened(enforcing: bool, slots: nat, attempts: nat, readers: nat): Fence {
    Fence(enforcing, false, 0, 0, 0, seq(slots, _ => false), seq(attempts, _ => NoAttempt), seq(readers, _ => Fresh), 0)
  }

  lemma OpenedValid(enforcing: bool, slots: nat, attempts: nat, readers: nat)
    ensures Valid(Opened(enforcing, slots, attempts, readers))
  {
    var f := Opened(enforcing, slots, attempts, readers);
    SumZero(f.attempts, Slow);
    SumZero(f.attempts, Raised);
    SumZero(f.attempts, Counted);
    forall k | 0 <= k < |f.slots| ensures Sum(f.attempts, Occupies(k)) == One(f.slots[k]) {
      SumZero(f.attempts, Occupies(k));
    }
  }

  lemma {:induction false} RunKeeps(f: Fence, run: seq<Action>)
    requires Valid(f) && Feasible(f, run)
    ensures Valid(Execute(f, run))
    decreases |run|
  {
    if run != [] {
      StepKeeps(f, run[0]);
      RunKeeps(Do(f, run[0]), run[1..]);
    }
  }

  /** In every reachable state the pause count is the number of live slow observations, and the
      controller's recovery count is never below the shared one, even between their paired updates. */
  lemma {:induction false} FenceCounts(f: Fence, run: seq<Action>)
    requires Valid(f) && Feasible(f, run)
    ensures var end := Execute(f, run);
            && end.pauseHolders == Sum(end.attempts, Slow)
            && end.pending <= end.recovering
            && end.recovering - end.pending <= Sum(end.attempts, InTransit)
  {
    RunKeeps(f, run);
    var end := Execute(f, run);
    SumAtMost(end.attempts, Counted, Raised);
    Difference(end.attempts);
  }

  /** The attempt is between its two counter updates. */
  function InTransit(a: Attempt): nat {
    One(a.phase == Raising || a.phase == Lowering || a.phase.Exchanging?)
  }

  lemma {:induction false} Difference(attempts: seq<Attempt>)
    requires forall i :: 0 <= i < |attempts| ==> attempts[i].phase == Dropping || attempts[i].phase == Absent ==> !attempts[i].recovering
    ensures Sum(attempts, Raised) <= Sum(attempts, Counted) + Sum(attempts, InTransit)
  {
    if attempts != [] {
      Difference(attempts[..|attempts| - 1]);
    }
  }

  /** Once every attempt is gone, admission is open exactly when the controller was not stopped and
      no recovering attempt was dropped unfinished; and every slot is free. */
  lemma {:induction false} OpensExactly(f: Fence, run: seq<Action>)
    requires Valid(f) && Feasible(f, run)
    requires forall i :: 0 <= i < |Execute(f, run).attempts| ==> Execute(f, run).attempts[i].phase == Absent
    ensures var end := Execute(f, run);
            && (end.stopped || end.recovering != 0 || end.pauseHolders != 0 <==> end.stopped || end.leaked > 0)
            && end.pauseHolders == 0 && end.recovering == end.pending == end.leaked
            && forall k :: 0 <= k < |end.slots| ==> !end.slots[k]
  {
    RunKeeps(f, run);
    var end := Execute(f, run);
    SumZero(end.attempts, Slow);
    SumZero(end.attempts, Raised);
    SumZero(end.attempts, Counted);
    forall k | 0 <= k < |end.slots| ensures !end.slots[k] {
      SumZero(end.attempts, Occupies(k));
    }
  }

  // ----- the fence never reopens -----

  predicate Fenced(f: Fence) {
    f.stopped || f.leaked > 0
  }

  /** An admission check that cannot miss the fence any more. */
  predicate Barred(f: Fence, r: Reader) {
    match r
    case Fresh => true
    case SawRunning => f.leaked > 0
    case SawSettled => false
    case Decided(admitted) => !admitted
  }

  lemma BarredStep(f: Fence, action: Action, r: nat)
    requires f.leaked <= f.recovering && Enabled(f, action) && f.enforcing && Fenced(f) && r < |f.readers| && Barred(f, f.readers[r])
    ensures var f' := Do(f, action);
            f'.enforcing && Fenced(f') && |f'.readers| == |f.readers| && Barred(f', f'.readers[r])
  {
  }

  /** Once a recovering attempt is dropped unfinished, or the controller is stopped, every Adaptive
      admission check that starts afterwards rejects, however it interleaves with everything else. */
  lemma {:induction false} NeverReopens(f: Fence, run: seq<Action>, r: nat)
    requires Valid(f) && Feasible(f, run) && f.enforcing && Fenced(f) && r < |f.readers| && Barred(f, f.readers[r])
    ensures var end := Execute(f, run);
            && Fenced(end) && r < |end.readers| && end.readers[r] != Decided(true)
            && (end.stopped || end.recovering > 0)
    decreases |run|
  {
    if run != [] {
      StepKeeps(f, run[0]);
      BarredStep(f, run[0], r);
      NeverReopens(Do(f, run[0]), run[1..], r);
    }
  }

  /** Dropping a recovering attempt and stopping both raise the fence. */
  lemma RaisesFence(f: Fence, action: Action)
    requires Enabled(f, action)
    ensures Fenced(Do(f, action)) <==>
              Fenced(f) || action.Stop? || (action.Abandon? && f.attempts[action.i].recovering)
  {
  }

  /** No two live observations share a slot. */
  lemma {:induction false} SlotsExclusive(f: Fence, run: seq<Action>, i: nat, j: nat)
    requires Valid(f) && Feasible(f, run)
    requires i < j < |Execute(f, run).attempts|
    requires Execute(f, run).attempts[i].observation.Some? && Execute(f, run).attempts[j].observation.Some?
    ensures Execute(f, run).attempts[i].observation.value.index != Execute(f, run).attempts[j].observation.value.index
  {
    RunKeeps(f, run);
    var end := Execute(f, run);
    var k := end.attempts[i].observation.value.index;
    SumPair(end.attempts, i, j, Occupies(k));
  }

  // ----- what an admission check answers -----

  /** The run contains no step of admission check r. */
  predicate LeavesReader(run: seq<Action>, r: nat) {
    forall k :: 0 <= k < |run| ==> run[k] != Check(r) && run[k] != Read(r)
  }

  /** Other steps neither move a check nor change what is enforced. */
  lemma {:induction false} ReaderWaits(f: Fence, run: seq<Action>, r: nat)
    requires Feasible(f, run) && LeavesReader(run, r) && r < |f.readers|
    ensures var end := Execute(f, run);
            |end.readers| == |f.readers| && end.readers[r] == f.readers[r] && end.enforcing == f.enforcing
    decreases |run|
  {
    if run != [] {
      assert run[0] != Check(r) && run[0] != Read(r);
      ReaderWaits(Do(f, run[0]), run[1..], r);
    }
  }

  /** One admission check from its start in f, with anything else going on before its three reads. */
  predicate Checked(f: Fence, r: nat, a: seq<Action>, b: seq<Action>, c: seq<Action>) {
    && r < |f.readers|
    && LeavesReader(a, r) && LeavesReader(b, r) && LeavesReader(c, r)
    && var f0 := Do(f, Check(r));
    && Feasible(f0, a) && Enabled(Execute(f0, a), Read(r))
    && var f1 := Do(Execute(f0, a), Read(r));
    && Feasible(f1, b) && Enabled(Execute(f1, b), Read(r))
    && var f2 := Do(Execute(f1, b), Read(r));
    && Feasible(f2, c) && Enabled(Execute(f2, c), Read(r))
  }

  /** The state of the first, second or third read. */
  function FirstRead(f: Fence, r: nat, a: seq<Action>, b: seq<Action>, c: seq<Action>): Fence
    requires Checked(f, r, a, b, c)
  {
    Execute(Do(f, Check(r)), a)
  }

  function SecondRead(f: Fence, r: nat, a: seq<Action>, b: seq<Action>, c: seq<Action>): Fence
    requires Checked(f, r, a, b, c)
  {
    Execute(Do(FirstRead(f, r, a, b, c), Read(r)), b)
  }

  function ThirdRead(f: Fence, r: nat, a: seq<Action>, b: seq<Action>, c: seq<Action>): Fence
    requires Checked(f, r, a, b, c)
  {
    Execute(Do(SecondRead(f, r, a, b, c), Read(r)), c)
  }

  /** A check is admitted exactly when nothing is enforced, or its three reads found the controller not
      stopped, nobody recovering and nobody holding the pause. */
  lemma {:induction false} CheckExact(f: Fence, r: nat, a: seq<Action>, b: seq<Action>, c: seq<Action>)
    requires Checked(f, r, a, b, c)
    ensures var f1, f2, f3 := FirstRead(f, r, a, b, c), SecondRead(f, r, a, b, c), ThirdRead(f, r, a, b, c);
            && r < |f3.readers|
            && Do(f3, Read(r)).readers[r]
               == Decided(!f.enforcing || (!f1.stopped && f2.recovering == 0 && f3.pauseHolders == 0))
  {
    var f1, f2 := FirstRead(f, r, a, b, c), SecondRead(f, r, a, b, c);
    ReaderWaits(Do(f, Check(r)), a, r);
    ReaderWaits(Do(f1, Read(r)), b, r);
    ReaderWaits(Do(f2, Read(r)), c, r);
  }

  // ----- what pauses admission, and for how long -----

  /** The attempt has a live observation that holds the pause. */
  predicate Pausing(f: Fence, i: nat) {
    i < |f.attempts| && Slow(f.attempts[i]) > 0
  }

  /** Noting slowness pauses exactly if the attempt is observed and either had not noted it yet or holds
      the pause already; an attempt that was restarted while slow does not hold it again. */
  lemma NotePauses(f: Fence, i: nat)
    requires At(f, i, Running)
    ensures var o, o' := f.attempts[i].observation, Do(f, NoteSlow(i)).attempts[i].observation;
            (o'.Some? && o'.value.slow <==> o.Some? && (o.value.slow || !f.attempts[i].slow))
    ensures f.attempts[i].observation.Some? && !f.attempts[i].slow ==> Pausing(Do(f, NoteSlow(i)), i)
  {
  }

  /** Starting observes the attempt, if a slot was free, and lets the previous observation go. */
  lemma StartObserves(f: Fence, i: nat, slot: Option<nat>)
    requires Enabled(f, Start(i, slot))
    ensures var a, a' := f.attempts[i], Do(f, Start(i, slot)).attempts[i];
            && a'.retiring == a.observation && (a'.observation.Some? <==> slot.Some?)
            && (slot.Some? ==> a'.observation.value.index == slot.value && !a'.observation.value.slow
                               && Do(f, Start(i, slot)).slots[slot.value])
  {
  }

  /** The run neither clears the slowness of attempt i nor releases its pause. */
  predicate KeepsPause(run: seq<Action>, i: nat) {
    forall k :: 0 <= k < |run| ==> run[k] != ClearSlow(i) && run[k] != ReleasePause(i)
  }

  /** The attempt that makes the action, if one does. */
  function Actor(action: Action): Option<nat> {
    match action
    case Stop => None
    case Check(_) => None
    case Read(_) => None
    case Start(i, _) => Some(i)
    case _ => Some(action.i)
  }

  /** An action changes only the attempt that makes it. */
  lemma Elsewhere(f: Fence, action: Action, i: nat)
    requires Enabled(f, action) && i < |f.attempts| && Actor(action) != Some(i)
    ensures |Do(f, action).attempts| == |f.attempts| && Do(f, action).attempts[i] == f.attempts[i]
  {
  }

  lemma PauseOwn(f: Fence, action: Action, i: nat)
    requires Enabled(f, action) && Actor(action) == Some(i) && Pausing(f, i) && AttemptOk(f.attempts[i], |f.slots|)
    requires action != ClearSlow(i) && action != ReleasePause(i)
    ensures Pausing(Do(f, action), i)
  {
  }

  lemma PauseStep(f: Fence, action: Action, i: nat)
    requires Valid(f) && Enabled(f, action) && Pausing(f, i) && action != ClearSlow(i) && action != ReleasePause(i)
    ensures Pausing(Do(f, action), i)
  {
    if Actor(action) == Some(i) {
      assert AttemptOk(f.attempts[i], |f.slots|);
      PauseOwn(f, action, i);
    } else {
      Elsewhere(f, action, i);
    }
  }

  lemma {:induction false} PauseLasts(f: Fence, run: seq<Action>, i: nat)
    requires Valid(f) && Feasible(f, run) && Pausing(f, i) && KeepsPause(run, i)
    ensures Valid(Execute(f, run)) && Pausing(Execute(f, run), i) && Execute(f, run).pauseHolders > 0
    decreases |run|
  {
    if run == [] {
      Included(f, i);
    } else {
      assert run[0] != ClearSlow(i) && run[0] != ReleasePause(i);
      StepKeeps(f, run[0]);
      PauseStep(f, run[0], i);
      PauseLasts(Do(f, run[0]), run[1..], i);
    }
  }

  /** While an observation that was found slow is neither cleared nor released, every enforcing check
      rejects. */
  lemma {:induction false} SlowRejects(f: Fence, i: nat, r: nat, a: seq<Action>, b: seq<Action>, c: seq<Action>)
    requires Valid(f) && f.enforcing && Pausing(f, i) && Checked(f, r, a, b, c)
    requires KeepsPause(a, i) && KeepsPause(b, i) && KeepsPause(c, i)
    ensures r < |ThirdRead(f, r, a, b, c).readers|
    ensures Do(ThirdRead(f, r, a, b, c), Read(r)).readers[r] == Decided(false)
  {
    CheckExact(f, r, a, b, c);
    var f0, f1, f2 := Do(f, Check(r)), FirstRead(f, r, a, b, c), SecondRead(f, r, a, b, c);
    StepKeeps(f, Check(r));
    PauseLasts(f0, a, i);
    StepKeeps(f1, Read(r));
    PauseLasts(Do(f1, Read(r)), b, i);
    StepKeeps(f2, Read(r));
    PauseLasts(Do(f2, Read(r)), c, i);
  }

  /** The attempt has raised the recovery count, or was dropped with it raised. */
  predicate Fencing(f: Fence, i: nat) {
    f.leaked > 0 || (i < |f.attempts| && f.attempts[i].recovering)
  }

  lemma RaiseFences(f: Fence, i: nat)
    requires At(f, i, Running)
    ensures Do(f, Raise(i)).attempts[i].recovering && Fencing(Do(f, Raise(i)), i)
  {
  }

  predicate KeepsFence(run: seq<Action>, i: nat) {
    forall k :: 0 <= k < |run| ==> run[k] != Exchange(i)
  }

  lemma LeakedStays(f: Fence, action: Action)
    requires Enabled(f, action)
    ensures Do(f, action).leaked >= f.leaked
  {
  }

  lemma FenceOwn(f: Fence, action: Action, i: nat)
    requires Enabled(f, action) && Actor(action) == Some(i) && i < |f.attempts| && f.attempts[i].recovering
    requires AttemptOk(f.attempts[i], |f.slots|) && f.recovering > 0 && action != Exchange(i)
    ensures Fencing(Do(f, action), i)
  {
  }

  lemma FenceStep(f: Fence, action: Action, i: nat)
    requires Valid(f) && Enabled(f, action) && Fencing(f, i) && action != Exchange(i)
    ensures Fencing(Do(f, action), i)
  {
    if f.leaked > 0 {
      LeakedStays(f, action);
    } else if Actor(action) == Some(i) {
      assert AttemptOk(f.attempts[i], |f.slots|);
      Included(f, i);
      FenceOwn(f, action, i);
    } else {
      Elsewhere(f, action, i);
    }
  }

  lemma {:induction false} FenceLasts(f: Fence, run: seq<Action>, i: nat)
    requires Valid(f) && Feasible(f, run) && Fencing(f, i) && KeepsFence(run, i)
    ensures Valid(Execute(f, run)) && Fencing(Execute(f, run), i) && Execute(f, run).recovering > 0
    decreases |run|
  {
    if run == [] {
      if f.leaked == 0 {
        Included(f, i);
      }
    } else {
      assert run[0] != Exchange(i);
      StepKeeps(f, run[0]);
      FenceStep(f, run[0], i);
      FenceLasts(Do(f, run[0]), run[1..], i);
    }
  }

  /** From the moment an attempt starts recovering until its last exchange succeeds, which only a
      finished attempt makes, every enforcing check rejects. */
  lemma {:induction false} RecoveryRejects(f: Fence, i: nat, r: nat, a: seq<Action>, b: seq<Action>, c: seq<Action>)
    requires Valid(f) && f.enforcing && Fencing(f, i) && Checked(f, r, a, b, c)
    requires KeepsFence(a, i) && KeepsFence(b, i)
    ensures r < |ThirdRead(f, r, a, b, c).readers|
    ensures Do(ThirdRead(f, r, a, b, c), Read(r)).readers[r] == Decided(false)
  {
    CheckExact(f, r, a, b, c);
    var f0, f1 := Do(f, Check(r)), FirstRead(f, r, a, b, c);
    StepKeeps(f, Check(r));
    FenceLasts(f0, a, i);
    StepKeeps(f1, Read(r));
    FenceLasts(Do(f1, Read(r)), b, i);
  }

  /** With nothing raised a check is admitted: the controller was not stopped, then nobody was recovering
      and nobody had been dropped recovering, then nobody held a slow observation. */
  lemma {:induction false} QuietAdmits(f: Fence, r: nat, a: seq<Action>, b: seq<Action>, c: seq<Action>)
    requires Valid(f) && Checked(f, r, a, b, c) && !FirstRead(f, r, a, b, c).stopped
    requires var f2 := SecondRead(f, r, a, b, c);
             f2.leaked == 0 && forall i :: 0 <= i < |f2.attempts| ==> !f2.attempts[i].recovering
    requires var f3 := ThirdRead(f, r, a, b, c); forall i :: 0 <= i < |f3.attempts| ==> !Pausing(f3, i)
    ensures r < |ThirdRead(f, r, a, b, c).readers|
    ensures Do(ThirdRead(f, r, a, b, c), Read(r)).readers[r] == Decided(true)
  {
    CheckExact(f, r, a, b, c);
    var f0, f1, f2, f3 := Do(f, Check(r)), FirstRead(f, r, a, b, c), SecondRead(f, r, a, b, c), ThirdRead(f, r, a, b, c);
    StepKeeps(f, Check(r));
    RunKeeps(f0, a);
    StepKeeps(f1, Read(r));
    RunKeeps(Do(f1, Read(r)), b);
    StepKeeps(f2, Read(r));
    RunKeeps(Do(f2, Read(r)), c);
    SumZero(f2.attempts, Raised);
    forall i | 0 <= i < |f3.attempts| ensures Slow(f3.attempts[i]) == 0 {
      assert !Pausing(f3, i);
    }
    SumZero(f3.attempts, Slow);
  }

  // ----- the way back -----

  lemma {:induction false} Then(f: Fence, action: Action, run: seq<Action>)
    requires Enabled(f, action) && Feasible(Do(f, action), run)
    ensures Feasible(f, [action] + run) && Execute(f, [action] + run) == Execute(Do(f, action), run)
  {
    assert ([action] + run)[1..] == run;
  }

  /** The end of a recovering attempt: the shared count, then the controller's. */
  function Unfencing(i: nat): seq<Action> {
    [Settle(i)] + ([LoadHolds(i)] + ([Exchange(i)] + []))
  }

  lemma {:induction false} UnfencesClean(f: Fence, i: nat)
    requires i < |f.attempts| && f.recovering > 0 && f.pending > 0
    requires f.attempts[i].phase == Finishing && f.attempts[i].retiring.None? && f.attempts[i].recovering
    ensures Feasible(f, Unfencing(i))
    ensures Execute(f, Unfencing(i))
            == f.(attempts := f.attempts[i := NoAttempt], recovering := f.recovering - 1, pending := f.pending - 1)
  {
    var f1 := Do(f, Settle(i));
    var f2 := Do(f1, LoadHolds(i));
    var f3 := Do(f2, Exchange(i));
    Then(f2, Exchange(i), []);
    Then(f1, LoadHolds(i), [Exchange(i)] + []);
    Then(f, Settle(i), [LoadHolds(i)] + ([Exchange(i)] + []));
    assert f3.attempts == f.attempts[i := NoAttempt];
  }

  /** A slow, recovering attempt that was validated and published gives everything back. */
  function Leaving(i: nat): seq<Action> {
    [Finish(i)] + ([FreeSlot(i)] + ([ReleasePause(i)] + Unfencing(i)))
  }

  lemma {:induction false} LeavesClean(f: Fence, i: nat, slot: nat)
    requires i < |f.attempts| && slot < |f.slots| && f.pauseHolders > 0 && f.recovering > 0 && f.pending > 0
    requires f.attempts[i] == Attempt(Running, true, true, Some(Observation(slot, true, true)), None)
    ensures Feasible(f, Leaving(i))
    ensures Execute(f, Leaving(i))
            == f.(attempts := f.attempts[i := NoAttempt], slots := f.slots[slot := false],
                  pauseHolders := f.pauseHolders - 1, recovering := f.recovering - 1, pending := f.pending - 1)
  {
    var f1 := Do(f, Finish(i));
    var f2 := Do(f1, FreeSlot(i));
    var f3 := Do(f2, ReleasePause(i));
    UnfencesClean(f3, i);
    Then(f2, ReleasePause(i), Unfencing(i));
    Then(f1, FreeSlot(i), [ReleasePause(i)] + Unfencing(i));
    Then(f, Finish(i), [FreeSlot(i)] + ([ReleasePause(i)] + Unfencing(i)));
    assert f3.attempts[i := NoAttempt] == f.attempts[i := NoAttempt];
  }

  /** A running attempt that turns out slow and then has to recover. */
  function Struggling(i: nat): seq<Action> {
    [NoteSlow(i)] + ([Raise(i)] + ([Count(i)] + []))
  }

  /** An observed attempt of that kind, from its beginning. */
  function Entering(i: nat, slot: nat): seq<Action> {
    [New(i)] + ([Start(i, Some(slot))] + Struggling(i))
  }

  lemma {:induction false} StrugglesRaised(f: Fence, i: nat, slot: nat)
    requires i < |f.attempts| && f.attempts[i] == Attempt(Running, false, false, Some(Observation(slot, false, true)), None)
    ensures Feasible(f, Struggling(i))
    ensures Execute(f, Struggling(i))
            == f.(attempts := f.attempts[i := Attempt(Running, true, true, Some(Observation(slot, true, true)), None)],
                  pauseHolders := f.pauseHolders + 1, recovering := f.recovering + 1, pending := f.pending + 1)
  {
    var f1 := Do(f, NoteSlow(i));
    var f2 := Do(f1, Raise(i));
    var f3 := Do(f2, Count(i));
    Then(f2, Count(i), []);
    Then(f1, Raise(i), [Count(i)] + []);
    Then(f, NoteSlow(i), [Raise(i)] + ([Count(i)] + []));
    assert f3.attempts == f.attempts[i := f3.attempts[i]];
  }

  lemma {:induction false} EntersRaised(f: Fence, i: nat, slot: nat)
    requires At(f, i, Absent) && slot < |f.slots| && !f.slots[slot]
    ensures Feasible(f, Entering(i, slot))
    ensures Execute(f, Entering(i, slot))
            == f.(attempts := f.attempts[i := Attempt(Running, true, true, Some(Observation(slot, true, true)), None)],
                  slots := f.slots[slot := true],
                  pauseHolders := f.pauseHolders + 1, recovering := f.recovering + 1, pending := f.pending + 1)
  {
    var f1 := Do(f, New(i));
    var f2 := Do(f1, Start(i, Some(slot)));
    StrugglesRaised(f2, i, slot);
    Then(f1, Start(i, Some(slot)), Struggling(i));
    Then(f, New(i), [Start(i, Some(slot))] + Struggling(i));
    var end := Execute(f, Entering(i, slot));
    assert end.attempts == f.attempts[i := end.attempts[i]];
  }

  /** An attempt that entered, was slow, recovered and finished leaves no trace: counters, slots, attempts
      and checks are as before it began. */
  lemma {:induction false} CycleRestores(f: Fence, i: nat, slot: nat)
    requires Valid(f) && At(f, i, Absent) && slot < |f.slots| && !f.slots[slot]
    ensures Feasible(f, Entering(i, slot)) && Feasible(Execute(f, Entering(i, slot)), Leaving(i))
    ensures Execute(Execute(f, Entering(i, slot)), Leaving(i)) == f
  {
    assert AttemptOk(f.attempts[i], |f.slots|);
    EntersRaised(f, i, slot);
    var middle := Execute(f, Entering(i, slot));
    LeavesClean(middle, i, slot);
    assert f.slots[slot := true][slot := false] == f.slots;
    assert middle.attempts[i := NoAttempt] == f.attempts;
  }

  /** Clearing slowness gives the pause back, and a dropped observation frees its slot. */
  lemma ClearReleases(f: Fence, i: nat)
    requires Valid(f) && At(f, i, Running) && f.attempts[i].slow && f.attempts[i].observation.Some?
    ensures var f' := Do(f, ClearSlow(i));
            && !f'.attempts[i].slow && !f'.attempts[i].observation.value.slow
            && f'.pauseHolders + One(f.attempts[i].observation.value.slow) == f.pauseHolders
  {
    Included(f, i);
  }
}
