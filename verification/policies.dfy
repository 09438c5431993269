/** Victim selection of the two L1 policies, on the sequences their linked structures stand for. */
module Policies {
  import opened Machine
  import opened Collect
  import opened Lists

  const MAX_POLICY_SCAN_STEPS := 64

  /** The largest slot index of the policy queues. */
  const MAX_POLICY_SLOT_INDEX: nat := 0xFFFF_FFFE

  const S3FIFO_MAX_FREQUENCY := 3
  const S3FIFO_MOVE_TO_MAIN_THRESHOLD := 2

  /** The scan bound of one selection over n slots. */
  function MaximumScanSteps(n: nat): nat {
    Min(2 * n + 1, MAX_POLICY_SCAN_STEPS)
  }

  // ----- S3-FIFO -----

  /** The small and main queues, and frequency and weight by slot. */
  datatype Fifo = Fifo(small: seq<nat>, main: seq<nat>, frequency: seq<nat>, weight: seq<nat>, mainCapacity: nat)

  function At(values: seq<nat>, k: nat): nat {
    if k < |values| then values[k] else 0
  }

  /** Sum of the values of a queue's members. */
  function Total(values: seq<nat>, q: seq<nat>): nat {
    if q == [] then 0 else Total(values, q[..|q| - 1]) + At(values, q[|q| - 1])
  }

  ghost predicate FifoOk(f: Fifo) {
    && Distinct(f.small + f.main)
    && |f.weight| == |f.frequency|
    && (forall i :: 0 <= i < |f.small| ==> f.small[i] < |f.frequency|)
    && (forall i :: 0 <= i < |f.main| ==> f.main[i] < |f.frequency|)
  }

  /** Whether the next look is at the small queue, and whether the preference for it remains. */
  function LooksSmall(f: Fifo, prefer: bool): (bool, bool) {
    if prefer && f.small != [] then (true, false)
    else (!(Total(f.weight, f.main) > f.mainCapacity || f.small == []), prefer)
  }

  /** The head of the small queue moves behind the main queue. */
  function Promote(f: Fifo): Fifo
    requires f.small != []
  {
    f.(small := f.small[1..], main := f.main + [f.small[0]])
  }

  /** The head of the main queue moves behind it, with frequency `left`. */
  function Recycle(f: Fifo, left: nat): Fifo
    requires f.main != []
  {
    f.(main := f.main[1..] + [f.main[0]],
       frequency := if f.main[0] < |f.frequency| then f.frequency[f.main[0] := left] else f.frequency)
  }

  /** Queues after the scan, remaining steps and the victim, if one was found. */
  function SelectVictim(f: Fifo, prefer: bool, rounds: nat, steps: nat, reclaimable: set<nat>): (Fifo, nat, Option<nat>)
    decreases rounds
  {
    if rounds == 0 || steps == 0 then (f, steps, None)
    else
      var (small, prefer') := LooksSmall(f, prefer);
      if small then
        if f.small == [] then (f, steps - 1, None)
        else
          var x := f.small[0];
          if At(f.frequency, x) >= S3FIFO_MOVE_TO_MAIN_THRESHOLD then
            SelectVictim(Promote(f), prefer', rounds - 1, steps - 1, reclaimable)
          else if x in reclaimable then (f, steps - 1, Some(x))
          else SelectVictim(Promote(f), prefer', rounds - 1, steps - 1, reclaimable)
      else if f.main == [] then (f, steps - 1, None)
      else
        var x := f.main[0];
        if At(f.frequency, x) > 0 then
          SelectVictim(Recycle(f, At(f.frequency, x) - 1), prefer', rounds - 1, steps - 1, reclaimable)
        else if x in reclaimable then (f, steps - 1, Some(x))
        else SelectVictim(Recycle(f, 0), true, rounds - 1, steps - 1, reclaimable)
  }

  /** The same residents, weights and capacity; frequencies only fall, and not in the small queue. */
  ghost predicate Rearranged(f: Fifo, f': Fifo) {
    && multiset(f'.small + f'.main) == multiset(f.small + f.main)
    && f'.weight == f.weight && f'.mainCapacity == f.mainCapacity
    && |f'.frequency| == |f.frequency|
    && (forall k :: 0 <= k < |f.frequency| ==> f'.frequency[k] <= f.frequency[k])
    && (forall x :: x in f'.small ==> x in f.small && At(f'.frequency, x) == At(f.frequency, x))
  }

  lemma PromoteKeeps(f: Fifo)
    requires FifoOk(f) && f.small != []
    ensures FifoOk(Promote(f)) && Rearranged(f, Promote(f))
  {
    var f' := Promote(f);
    var p, q := f.small + f.main, f'.small + f'.main;
    assert p == [f.small[0]] + f.small[1..] + f.main;
    assert q == f.small[1..] + f.main + [f.small[0]];
    forall i, j | 0 <= i < j < |q| ensures q[i] != q[j] {
      assert q[i] == p[i + 1] && q[j] == p[if j == |q| - 1 then 0 else j + 1];
    }
  }

  lemma HeadElsewhere(small: seq<nat>, main: seq<nat>)
    requires Distinct(small + main) && main != []
    ensures main[0] !in small
  {
    var p := small + main;
    assert p[|small|] == main[0];
    forall i | 0 <= i < |small| ensures small[i] != main[0] {
      assert p[i] == small[i];
    }
  }

  lemma TurnedDistinct(small: seq<nat>, main: seq<nat>)
    requires Distinct(small + main) && main != []
    ensures Distinct(small + (main[1..] + [main[0]]))
    ensures multiset(small + (main[1..] + [main[0]])) == multiset(small + main)
  {
    var p, q := small + main, small + (main[1..] + [main[0]]);
    var n := |small|;
    assert main == [main[0]] + main[1..];
    forall i, j | 0 <= i < j < |q| ensures q[i] != q[j] {
      assert q[i] == p[if i < n then i else if i == |q| - 1 then n else i + 1];
      assert q[j] == p[if j < n then j else if j == |q| - 1 then n else j + 1];
    }
  }

  lemma RecycleKeeps(f: Fifo, left: nat)
    requires FifoOk(f) && f.main != [] && left <= At(f.frequency, f.main[0])
    ensures FifoOk(Recycle(f, left)) && Rearranged(f, Recycle(f, left))
  {
    TurnedDistinct(f.small, f.main);
    HeadElsewhere(f.small, f.main);
  }

  /** The well-formed rearrangements of f, as a clause that proofs open by mentioning it. */
  ghost function Rearrangements(f: Fifo, veil: Veil): iset<Fifo> {
    match veil
    case Veil => iset g: Fifo | FifoOk(g) && Rearranged(f, g)
  }

  ghost predicate Kept(f: Fifo, g: Fifo) {
    forall veil {:trigger g in Rearrangements(f, veil)} :: g in Rearrangements(f, veil)
  }

  lemma KeptIs(f: Fifo, g: Fifo)
    ensures Kept(f, g) <==> FifoOk(g) && Rearranged(f, g)
  {
    assert g in Rearrangements(f, Veil) <==> FifoOk(g) && Rearranged(f, g);
    forall veil ensures g in Rearrangements(f, veil) <==> g in Rearrangements(f, Veil) {
      match veil
      case Veil =>
    }
  }

  /** The state from which the scan goes on, if this look does not end it. */
  function Looked(f: Fifo, prefer: bool): (r: (Fifo, bool))
    requires LooksSmall(f, prefer).0 ==> f.small != []
    requires !LooksSmall(f, prefer).0 ==> f.main != []
  {
    var (small, prefer') := LooksSmall(f, prefer);
    if small then (Promote(f), prefer')
    else
      var count := At(f.frequency, f.main[0]);
      if count > 0 then (Recycle(f, count - 1), prefer') else (Recycle(f, 0), true)
  }

  /** The victim of this look, if it has one. */
  function Caught(f: Fifo, prefer: bool, reclaimable: set<nat>): Option<nat>
    requires LooksSmall(f, prefer).0 ==> f.small != []
    requires !LooksSmall(f, prefer).0 ==> f.main != []
  {
    var small := LooksSmall(f, prefer).0;
    var x := if small then f.small[0] else f.main[0];
    var spent := if small then At(f.frequency, x) < S3FIFO_MOVE_TO_MAIN_THRESHOLD else At(f.frequency, x) == 0;
    if spent && x in reclaimable then Some(x) else None
  }

  predicate CanLook(f: Fifo, prefer: bool) {
    if LooksSmall(f, prefer).0 then f.small != [] else f.main != []
  }

  /** Selection is a chain of looks that ends at the first victim, the bounds, or an empty queue. */
  lemma SelectUnfolds(f: Fifo, prefer: bool, rounds: nat, steps: nat, reclaimable: set<nat>)
    ensures SelectVictim(f, prefer, rounds, steps, reclaimable) ==
            if rounds == 0 || steps == 0 then (f, steps, None)
            else if !CanLook(f, prefer) then (f, steps - 1, None)
            else if Caught(f, prefer, reclaimable).Some? then (f, steps - 1, Caught(f, prefer, reclaimable))
            else SelectVictim(Looked(f, prefer).0, Looked(f, prefer).1, rounds - 1, steps - 1, reclaimable)
  {
  }

  lemma LookedKeeps(f: Fifo, prefer: bool)
    requires FifoOk(f) && CanLook(f, prefer)
    ensures FifoOk(Looked(f, prefer).0) && Rearranged(f, Looked(f, prefer).0)
  {
    if LooksSmall(f, prefer).0 {
      PromoteKeeps(f);
    } else {
      RecycleKeeps(f, SaturatingSub(At(f.frequency, f.main[0]), 1));
    }
  }

  lemma LookedKept(f: Fifo, g: Fifo, prefer: bool)
    requires Kept(f, g) && CanLook(g, prefer)
    ensures Kept(f, Looked(g, prefer).0)
  {
    KeptIs(f, g);
    LookedKeeps(g, prefer);
    KeptIs(f, Looked(g, prefer).0);
  }

  ghost function Selections(veil: Veil, f: Fifo, prefer: bool, rounds: nat, steps: nat, reclaimable: set<nat>): iset<(Fifo, nat, Option<nat>)> {
    match veil
    case Veil => iset{SelectVictim(f, prefer, rounds, steps, reclaimable)}
  }

  /** The selection from f ends in `goal`. */
  ghost predicate SelectEnds(f: Fifo, prefer: bool, rounds: nat, steps: nat, reclaimable: set<nat>, goal: (Fifo, nat, Option<nat>)) {
    forall veil {:trigger goal in Selections(veil, f, prefer, rounds, steps, reclaimable)} ::
      goal in Selections(veil, f, prefer, rounds, steps, reclaimable)
  }

  lemma {:induction false} SelectEndsIs(f: Fifo, prefer: bool, rounds: nat, steps: nat, reclaimable: set<nat>, goal: (Fifo, nat, Option<nat>))
    ensures SelectEnds(f, prefer, rounds, steps, reclaimable, goal) <==> goal == SelectVictim(f, prefer, rounds, steps, reclaimable)
  {
    var expected := SelectVictim(f, prefer, rounds, steps, reclaimable);
    assert goal in Selections(Veil, f, prefer, rounds, steps, reclaimable) <==> goal == expected;
    forall veil ensures goal in Selections(veil, f, prefer, rounds, steps, reclaimable) <==> goal == expected {
      match veil
      case Veil =>
    }
  }

  lemma SelectGoal(f: Fifo, prefer: bool, rounds: nat, steps: nat, reclaimable: set<nat>) returns (goal: (Fifo, nat, Option<nat>))
    ensures SelectEnds(f, prefer, rounds, steps, reclaimable, goal)
  {
    goal := SelectVictim(f, prefer, rounds, steps, reclaimable);
    SelectEndsIs(f, prefer, rounds, steps, reclaimable, goal);
  }

  /** A selection goes on from where a look leaves the queues. */
  lemma SelectLooks(f: Fifo, prefer: bool, rounds: nat, steps: nat, reclaimable: set<nat>, goal: (Fifo, nat, Option<nat>))
    requires SelectEnds(f, prefer, rounds, steps, reclaimable, goal)
    ensures rounds == 0 || steps == 0 ==> goal == (f, steps, None)
    ensures rounds > 0 && steps > 0 && !CanLook(f, prefer) ==> goal == (f, steps - 1, None)
    ensures rounds > 0 && steps > 0 && CanLook(f, prefer) ==>
              var victim := Caught(f, prefer, reclaimable);
              if victim.Some? then goal == (f, steps - 1, victim)
              else SelectEnds(Looked(f, prefer).0, Looked(f, prefer).1, rounds - 1, steps - 1, reclaimable, goal)
  {
    SelectEndsIs(f, prefer, rounds, steps, reclaimable, goal);
    SelectUnfolds(f, prefer, rounds, steps, reclaimable);
    if rounds > 0 && steps > 0 && CanLook(f, prefer) {
      SelectEndsIs(Looked(f, prefer).0, Looked(f, prefer).1, rounds - 1, steps - 1, reclaimable, goal);
    }
  }

  lemma {:induction false} SelectKept(f: Fifo, g: Fifo, prefer: bool, rounds: nat, steps: nat, reclaimable: set<nat>, goal: (Fifo, nat, Option<nat>))
    requires Kept(f, g) && SelectEnds(g, prefer, rounds, steps, reclaimable, goal)
    ensures Kept(f, goal.0) && goal.1 <= steps
    decreases rounds
  {
    SelectLooks(g, prefer, rounds, steps, reclaimable, goal);
    if rounds > 0 && steps > 0 && CanLook(g, prefer) && Caught(g, prefer, reclaimable).None? {
      LookedKept(f, g, prefer);
      SelectKept(f, Looked(g, prefer).0, Looked(g, prefer).1, rounds - 1, steps - 1, reclaimable, goal);
    }
  }

  /** Selection only rearranges the residents. */
  lemma {:induction false} SelectKeeps(f: Fifo, prefer: bool, rounds: nat, steps: nat, reclaimable: set<nat>)
    requires FifoOk(f)
    ensures var (f', steps', _) := SelectVictim(f, prefer, rounds, steps, reclaimable);
            FifoOk(f') && Rearranged(f, f') && steps' <= steps
  {
    var goal := SelectVictim(f, prefer, rounds, steps, reclaimable);
    SelectEndsIs(f, prefer, rounds, steps, reclaimable, goal);
    KeptIs(f, f);
    SelectKept(f, f, prefer, rounds, steps, reclaimable, goal);
    KeptIs(f, goal.0);
  }

  /** A victim is reclaimable, at the head of its queue, and has used up its second chances. */
  lemma {:induction false} VictimSpent(f: Fifo, prefer: bool, rounds: nat, steps: nat, reclaimable: set<nat>)
    requires SelectVictim(f, prefer, rounds, steps, reclaimable).2.Some?
    ensures var (f', _, victim) := SelectVictim(f, prefer, rounds, steps, reclaimable);
            && victim.value in reclaimable
            && (|| (f'.small != [] && victim.value == f'.small[0] && At(f'.frequency, victim.value) < S3FIFO_MOVE_TO_MAIN_THRESHOLD)
                || (f'.main != [] && victim.value == f'.main[0] && At(f'.frequency, victim.value) == 0))
    decreases rounds
  {
    SelectUnfolds(f, prefer, rounds, steps, reclaimable);
    if CanLook(f, prefer) && Caught(f, prefer, reclaimable).None? {
      var (g, prefer') := Looked(f, prefer);
      VictimSpent(g, prefer', rounds - 1, steps - 1, reclaimable);
    }
  }

  lemma {:induction false} StepsSpent(f: Fifo, prefer: bool, rounds: nat, steps: nat, reclaimable: set<nat>)
    requires SelectVictim(f, prefer, rounds, steps, reclaimable).2.Some?
    ensures SelectVictim(f, prefer, rounds, steps, reclaimable).1 < steps
    decreases rounds
  {
    SelectUnfolds(f, prefer, rounds, steps, reclaimable);
    if CanLook(f, prefer) && Caught(f, prefer, reclaimable).None? {
      var (g, prefer') := Looked(f, prefer);
      StepsSpent(g, prefer', rounds - 1, steps - 1, reclaimable);
    }
  }

  /** A queue is due and its head, x, is reclaimable and spent: the small queue, below two hits, while the
      main queue is within its share; the main queue, at no hit, while it is over its share or nobody is in
      the small queue. */
  predicate Due(f: Fifo, reclaimable: set<nat>, x: nat) {
    var crowded := Total(f.weight, f.main) > f.mainCapacity;
    && x in reclaimable
    && (|| (!crowded && f.small != [] && x == f.small[0] && At(f.frequency, x) < 2)
        || ((crowded || f.small == []) && f.main != [] && x == f.main[0] && At(f.frequency, x) == 0))
  }

  lemma DueCaught(f: Fifo, reclaimable: set<nat>, x: nat)
    ensures Due(f, reclaimable, x) <==> CanLook(f, false) && Caught(f, false, reclaimable) == Some(x)
  {
  }

  /** A selection takes its victim at the first look exactly when that victim is due. */
  lemma {:induction false} FirstVictim(f: Fifo, rounds: nat, steps: nat, reclaimable: set<nat>, x: nat)
    requires rounds > 0 && steps > 0
    ensures var (_, steps', victim) := SelectVictim(f, false, rounds, steps, reclaimable);
            victim == Some(x) && steps' == steps - 1 <==> Due(f, reclaimable, x)
  {
    DueCaught(f, reclaimable, x);
    var goal := SelectGoal(f, false, rounds, steps, reclaimable);
    SelectEndsIs(f, false, rounds, steps, reclaimable, goal);
    SelectLooks(f, false, rounds, steps, reclaimable, goal);
    if CanLook(f, false) && Caught(f, false, reclaimable).None? {
      var (g, prefer') := Looked(f, false);
      SelectEndsIs(g, prefer', rounds - 1, steps - 1, reclaimable, goal);
      if goal.2.Some? {
        StepsSpent(g, prefer', rounds - 1, steps - 1, reclaimable);
      }
    }
  }

  /** Somebody in the main queue has no hits left and cannot be reclaimed. */
  ghost predicate Stuck(f: Fifo, reclaimable: set<nat>) {
    exists i :: 0 <= i < |f.main| && f.main[i] !in reclaimable && At(f.frequency, f.main[i]) == 0
  }

  lemma StuckStays(f: Fifo, prefer: bool, reclaimable: set<nat>)
    requires CanLook(f, prefer) && Caught(f, prefer, reclaimable).None?
    ensures Stuck(f, reclaimable) ==> Stuck(Looked(f, prefer).0, reclaimable)
    ensures Looked(f, prefer).1 && !prefer ==> Stuck(Looked(f, prefer).0, reclaimable)
  {
    var (g, prefer') := Looked(f, prefer);
    if Stuck(f, reclaimable) {
      var i :| 0 <= i < |f.main| && f.main[i] !in reclaimable && At(f.frequency, f.main[i]) == 0;
      if LooksSmall(f, prefer).0 {
        assert g.main[i] == f.main[i];
      } else {
        var j := if i == 0 then |f.main| - 1 else i - 1;
        assert g.main[j] == f.main[i];
      }
    }
    if prefer' && !prefer {
      assert g.main[|f.main| - 1] == f.main[0];
    }
  }

  /** From the main queue, a victim has no hits left, and the queue was over its share or nobody was in the
      small queue; from the small queue, it had fewer than two hits, and the main queue was within its share
      or held a spent resident that cannot be reclaimed. */
  ghost predicate Sourced(f: Fifo, x: nat, reclaimable: set<nat>) {
    var crowded := Total(f.weight, f.main) > f.mainCapacity;
    || ((crowded || f.small == []) && f.main != [] && x == f.main[0] && At(f.frequency, x) == 0)
    || ((crowded ==> Stuck(f, reclaimable)) && f.small != [] && x == f.small[0] && At(f.frequency, x) < 2)
  }

  lemma CaughtSourced(f: Fifo, prefer: bool, reclaimable: set<nat>)
    requires CanLook(f, prefer) && Caught(f, prefer, reclaimable).Some? && (prefer ==> Stuck(f, reclaimable))
    ensures Sourced(f, Caught(f, prefer, reclaimable).value, reclaimable)
  {
  }

  lemma {:induction false} SelectSourced(f: Fifo, prefer: bool, rounds: nat, steps: nat, reclaimable: set<nat>, goal: (Fifo, nat, Option<nat>))
    requires SelectEnds(f, prefer, rounds, steps, reclaimable, goal) && goal.2.Some? && (prefer ==> Stuck(f, reclaimable))
    ensures Sourced(goal.0, goal.2.value, reclaimable)
    decreases rounds
  {
    SelectLooks(f, prefer, rounds, steps, reclaimable, goal);
    if Caught(f, prefer, reclaimable).Some? {
      CaughtSourced(f, prefer, reclaimable);
    } else {
      StuckStays(f, prefer, reclaimable);
      SelectSourced(Looked(f, prefer).0, Looked(f, prefer).1, rounds - 1, steps - 1, reclaimable, goal);
    }
  }

  /** Which queue the victim of a whole selection comes from, at whichever look it is found. */
  lemma {:induction false} VictimQueue(f: Fifo, rounds: nat, steps: nat, reclaimable: set<nat>)
    requires SelectVictim(f, false, rounds, steps, reclaimable).2.Some?
    ensures var (f', _, victim) := SelectVictim(f, false, rounds, steps, reclaimable);
            Sourced(f', victim.value, reclaimable)
  {
    var goal := SelectVictim(f, false, rounds, steps, reclaimable);
    SelectEndsIs(f, false, rounds, steps, reclaimable, goal);
    SelectSourced(f, false, rounds, steps, reclaimable, goal);
  }

  /** The residents that a selection moves: out of the small queue, round the main queue, and behind the main
      queue, in the order of its looks. */
  datatype Moves = Moves(promoted: seq<nat>, recycled: seq<nat>, behind: seq<nat>)

  /** Both queues are first in, first out, and every turn in the main queue costs exactly one hit. */
  ghost predicate Ordered(f: Fifo, moves: Moves, f': Fifo) {
    && multiset(moves.behind) == multiset(moves.promoted) + multiset(moves.recycled)
    && f.small == moves.promoted + f'.small
    && f.main + moves.behind == moves.recycled + f'.main
    && |f'.frequency| == |f.frequency|
    && forall k :: 0 <= k < |f.frequency| ==> f'.frequency[k] == SaturatingSub(f.frequency[k], multiset(moves.recycled)[k])
  }

  lemma PromoteOrders(f: Fifo, rest: Moves, f': Fifo)
    requires f.small != [] && Ordered(Promote(f), rest, f')
    ensures Ordered(f, Moves([f.small[0]] + rest.promoted, rest.recycled, [f.small[0]] + rest.behind), f')
  {
    var x := f.small[0];
    assert f.small == [x] + f.small[1..];
    assert f.main + ([x] + rest.behind) == (f.main + [x]) + rest.behind;
    assert multiset([x] + rest.behind) == multiset{x} + multiset(rest.behind);
    assert multiset([x] + rest.promoted) == multiset{x} + multiset(rest.promoted);
  }

  lemma RecycleOrders(f: Fifo, rest: Moves, f': Fifo)
    requires f.main != [] && f.main[0] < |f.frequency|
    requires Ordered(Recycle(f, SaturatingSub(At(f.frequency, f.main[0]), 1)), rest, f')
    ensures Ordered(f, Moves(rest.promoted, [f.main[0]] + rest.recycled, [f.main[0]] + rest.behind), f')
  {
    var x := f.main[0];
    assert f.main + ([x] + rest.behind) == [x] + ((f.main[1..] + [x]) + rest.behind);
    assert [x] + (rest.recycled + f'.main) == ([x] + rest.recycled) + f'.main;
    assert multiset([x] + rest.behind) == multiset{x} + multiset(rest.behind);
    assert multiset([x] + rest.recycled) == multiset{x} + multiset(rest.recycled);
  }

  lemma LookedOrders(f: Fifo, prefer: bool, rest: Moves, f': Fifo) returns (moves: Moves)
    requires FifoOk(f) && CanLook(f, prefer) && Ordered(Looked(f, prefer).0, rest, f')
    ensures Ordered(f, moves, f') && |moves.behind| == |rest.behind| + 1
  {
    if LooksSmall(f, prefer).0 {
      PromoteOrders(f, rest, f');
      moves := Moves([f.small[0]] + rest.promoted, rest.recycled, [f.small[0]] + rest.behind);
    } else {
      RecycleOrders(f, rest, f');
      moves := Moves(rest.promoted, [f.main[0]] + rest.recycled, [f.main[0]] + rest.behind);
    }
  }

  lemma Unordered(f: Fifo)
    ensures Ordered(f, Moves([], [], []), f)
  {
    assert [] + f.small == f.small && f.main + [] == [] + f.main;
  }

  lemma {:induction false} SelectMoves(f: Fifo, prefer: bool, rounds: nat, steps: nat, reclaimable: set<nat>, goal: (Fifo, nat, Option<nat>))
    returns (moves: Moves)
    requires FifoOk(f) && SelectEnds(f, prefer, rounds, steps, reclaimable, goal)
    ensures Ordered(f, moves, goal.0) && steps - 1 <= goal.1 + |moves.behind| <= steps
    ensures goal.2.Some? ==> goal.1 + |moves.behind| == steps - 1
    decreases rounds
  {
    SelectLooks(f, prefer, rounds, steps, reclaimable, goal);
    if rounds > 0 && steps > 0 && CanLook(f, prefer) && Caught(f, prefer, reclaimable).None? {
      LookedKeeps(f, prefer);
      var rest := SelectMoves(Looked(f, prefer).0, Looked(f, prefer).1, rounds - 1, steps - 1, reclaimable, goal);
      moves := LookedOrders(f, prefer, rest, goal.0);
    } else {
      Unordered(f);
      moves := Moves([], [], []);
    }
  }

  /** A selection treats both queues first in, first out: the small queue loses its oldest residents, the
      main queue gets every moved resident behind it, in order, and a resident that goes round it n times
      has n hits fewer.  Each look moves one resident, except a last one that finds a victim or nobody. */
  lemma SelectOrdered(f: Fifo, prefer: bool, rounds: nat, steps: nat, reclaimable: set<nat>) returns (moves: Moves)
    requires FifoOk(f)
    ensures var (f', steps', victim) := SelectVictim(f, prefer, rounds, steps, reclaimable);
            && Ordered(f, moves, f')
            && steps - 1 <= steps' + |moves.behind| <= steps && (victim.Some? ==> steps' + |moves.behind| == steps - 1)
  {
    var goal := SelectVictim(f, prefer, rounds, steps, reclaimable);
    SelectEndsIs(f, prefer, rounds, steps, reclaimable, goal);
    moves := SelectMoves(f, prefer, rounds, steps, reclaimable, goal);
  }

  // ----- searches in vain -----

  /** The queue and the frequency of every resident are as before. */
  predicate Unchanged(f: Fifo, f': Fifo) {
    && (forall x :: x in f.small ==> x in f'.small && At(f'.frequency, x) == At(f.frequency, x))
    && (forall x :: x in f.main ==> x !in f'.small && At(f'.frequency, x) == At(f.frequency, x))
  }

  lemma UnchangedSelf(f: Fifo)
    requires FifoOk(f)
    ensures Unchanged(f, f)
  {
    var p := f.small + f.main;
    forall i, j | 0 <= i < |f.small| && 0 <= j < |f.main| ensures f.small[i] != f.main[j] {
      assert p[i] == f.small[i] && p[|f.small| + j] == f.main[j];
    }
  }

  /** The first n members of the main queue have used up their frequencies. */
  predicate Idle(f: Fifo, n: nat) {
    forall i :: 0 <= i < |f.main| && i < n ==> At(f.frequency, f.main[i]) == 0
  }

  lemma IdleTurn(f: Fifo, n: nat)
    requires f.main != [] && n > 0 && At(f.frequency, f.main[0]) == 0
    ensures forall h :: Unchanged(f, h) <==> Unchanged(Recycle(f, 0), h)
    ensures Idle(f, n) <==> Idle(Recycle(f, 0), n - 1)
  {
    var g := Recycle(f, 0);
    assert g.frequency == f.frequency && g.small == f.small;
    assert f.main == [f.main[0]] + f.main[1..];
    forall x ensures x in g.main <==> x in f.main {
    }
    assert forall i :: 0 <= i < |f.main| - 1 ==> g.main[i] == f.main[i + 1];
    if Idle(g, n - 1) {
      forall i | 0 < i < |f.main| && i < n ensures At(f.frequency, f.main[i]) == 0 {
        assert g.main[i - 1] == f.main[i];
      }
    }
  }

  /** A fruitless look that promotes, or spends a frequency, is never undone. */
  lemma {:induction false} LookChanges(f: Fifo, prefer: bool, rounds: nat, steps: nat, reclaimable: set<nat>, goal: (Fifo, nat, Option<nat>))
    requires FifoOk(f) && CanLook(f, prefer) && (LooksSmall(f, prefer).0 || At(f.frequency, f.main[0]) > 0)
    requires SelectEnds(Looked(f, prefer).0, Looked(f, prefer).1, rounds, steps, reclaimable, goal)
    ensures !Unchanged(f, goal.0)
  {
    var (g, prefer') := Looked(f, prefer);
    LookedKeeps(f, prefer);
    KeptIs(g, g);
    SelectKept(g, g, prefer', rounds, steps, reclaimable, goal);
    KeptIs(g, goal.0);
    if LooksSmall(f, prefer).0 {
      PromotedAway(f.small, f.main);
      assert f.small[0] !in goal.0.small;
    } else {
      var x := f.main[0];
      assert goal.0.frequency[x] <= g.frequency[x] < f.frequency[x];
    }
  }

  lemma PromotedAway(small: seq<nat>, main: seq<nat>)
    requires Distinct(small + main) && small != []
    ensures small[0] !in small[1..]
  {
    var p := small + main;
    forall i | 0 <= i < |small[1..]| ensures small[1..][i] != small[0] {
      assert p[0] == small[0] && p[i + 1] == small[1..][i];
    }
  }

  /** With an empty small queue a search in vain changes nothing exactly if it only met spent residents. */
  lemma {:induction false} MainSearch(f: Fifo, prefer: bool, rounds: nat, steps: nat, reclaimable: set<nat>, goal: (Fifo, nat, Option<nat>))
    requires FifoOk(f) && f.small == [] && SelectEnds(f, prefer, rounds, steps, reclaimable, goal) && goal.2.None?
    ensures Unchanged(f, goal.0) <==> Idle(f, Min(rounds, steps))
    decreases rounds
  {
    UnchangedSelf(f);
    SelectLooks(f, prefer, rounds, steps, reclaimable, goal);
    if rounds > 0 && steps > 0 && f.main != [] {
      if At(f.frequency, f.main[0]) > 0 {
        LookChanges(f, prefer, rounds - 1, steps - 1, reclaimable, goal);
      } else {
        IdleTurn(f, Min(rounds, steps));
        RecycleOk(f);
        MainSearch(Recycle(f, 0), true, rounds - 1, steps - 1, reclaimable, goal);
      }
    }
  }

  lemma RecycleOk(f: Fifo)
    requires FifoOk(f) && f.main != []
    ensures FifoOk(Recycle(f, 0))
  {
    RecycleKeeps(f, 0);
  }

  /** When a search in vain changes nothing: it makes no look; or its only look is at a spent resident of
      the main queue; or there is no small queue and all the residents it meets are spent. */
  predicate SettledQueues(f: Fifo, looks: nat) {
    if looks <= 1 then
      looks == 0 || !CanLook(f, false) || (!LooksSmall(f, false).0 && At(f.frequency, f.main[0]) == 0)
    else f.small == [] && Idle(f, looks)
  }

  lemma {:induction false} SelectUnmoved(f: Fifo, rounds: nat, steps: nat, reclaimable: set<nat>, goal: (Fifo, nat, Option<nat>))
    requires FifoOk(f) && SelectEnds(f, false, rounds, steps, reclaimable, goal) && goal.2.None?
    ensures Unchanged(f, goal.0) <==> SettledQueues(f, Min(rounds, steps))
  {
    UnchangedSelf(f);
    SelectLooks(f, false, rounds, steps, reclaimable, goal);
    if Min(rounds, steps) > 0 && CanLook(f, false) {
      if LooksSmall(f, false).0 || At(f.frequency, f.main[0]) > 0 {
        LookChanges(f, false, rounds - 1, steps - 1, reclaimable, goal);
      } else if f.small == [] {
        MainSearch(f, false, rounds, steps, reclaimable, goal);
      } else {
        SecondLook(f, rounds, steps, reclaimable, goal);
      }
    }
  }

  /** A spent head of the main queue turns the search to the small queue. */
  lemma {:induction false} SecondLook(f: Fifo, rounds: nat, steps: nat, reclaimable: set<nat>, goal: (Fifo, nat, Option<nat>))
    requires FifoOk(f) && rounds > 0 && steps > 0 && f.small != [] && f.main != [] && At(f.frequency, f.main[0]) == 0
    requires SelectEnds(Recycle(f, 0), true, rounds - 1, steps - 1, reclaimable, goal) && goal.2.None?
    ensures Unchanged(f, goal.0) <==> Min(rounds, steps) == 1
  {
    IdleTurn(f, 1);
    RecycleOk(f);
    UnchangedSelf(Recycle(f, 0));
    SelectLooks(Recycle(f, 0), true, rounds - 1, steps - 1, reclaimable, goal);
    if Min(rounds, steps) > 1 {
      LookChanges(Recycle(f, 0), true, rounds - 2, steps - 2, reclaimable, goal);
    }
  }

  // ----- S3-FIFO progress -----

  /** Looks that can end without a victim when everything is reclaimable. */
  function Patience(f: Fifo): nat {
    Total(f.frequency, f.small) + Total(f.frequency, f.main) + |f.small|
  }

  lemma {:induction false} TotalHead(values: seq<nat>, q: seq<nat>)
    requires q != []
    ensures Total(values, q) == At(values, q[0]) + Total(values, q[1..])
    decreases |q|
  {
    if |q| > 1 {
      var n := |q| - 1;
      TotalHead(values, q[..n]);
      assert q[..n][1..] == q[1..][..n - 1];
    }
  }

  lemma {:induction false} TotalPush(values: seq<nat>, q: seq<nat>, x: nat)
    ensures Total(values, q + [x]) == Total(values, q) + At(values, x)
  {
    assert (q + [x])[..|q|] == q;
  }

  lemma {:induction false} TotalElsewhere(values: seq<nat>, q: seq<nat>, x: nat, v: nat)
    requires x < |values| && x !in q
    ensures Total(values[x := v], q) == Total(values, q)
  {
    if q != [] {
      assert q[|q| - 1] in q;
      TotalElsewhere(values, q[..|q| - 1], x, v);
    }
  }

  lemma PromotePatience(f: Fifo)
    requires f.small != []
    ensures Patience(Promote(f)) + 1 == Patience(f)
  {
    TotalHead(f.frequency, f.small);
    TotalPush(f.frequency, f.main, f.small[0]);
  }

  lemma RecyclePatience(f: Fifo)
    requires FifoOk(f) && f.main != [] && At(f.frequency, f.main[0]) > 0
    ensures Patience(Recycle(f, At(f.frequency, f.main[0]) - 1)) + 1 == Patience(f)
  {
    var x := f.main[0];
    var left := At(f.frequency, x) - 1;
    var f' := Recycle(f, left);
    var p := f.small + f.main;
    assert x == p[|f.small|];
    forall i | 0 <= i < |f.small| ensures f.small[i] != x {
      assert p[i] == f.small[i];
    }
    forall i | 0 <= i < |f.main[1..]| ensures f.main[1..][i] != x {
      assert p[|f.small| + 1 + i] == f.main[1..][i];
    }
    TotalElsewhere(f.frequency, f.small, x, left);
    TotalElsewhere(f.frequency, f.main[1..], x, left);
    TotalHead(f.frequency, f.main);
    TotalPush(f'.frequency, f.main[1..], x);
  }

  lemma ResidentHead(f: Fifo, reclaimable: set<nat>)
    requires forall x :: x in f.small + f.main ==> x in reclaimable
    ensures f.small != [] ==> f.small[0] in reclaimable
    ensures f.main != [] ==> f.main[0] in reclaimable
  {
    assert f.small != [] ==> f.small[0] in f.small + f.main;
    assert f.main != [] ==> f.main[0] in f.small + f.main;
  }

  lemma RearrangedResidents(f: Fifo, f': Fifo)
    requires Rearranged(f, f')
    ensures forall x :: x in f'.small + f'.main <==> x in f.small + f.main
    ensures f.small + f.main != [] ==> f'.small + f'.main != []
  {
    var p, q := f.small + f.main, f'.small + f'.main;
    forall x ensures x in q <==> x in p {
      assert x in q <==> x in multiset(q);
      assert x in p <==> x in multiset(p);
    }
    assert |multiset(q)| == |q| && |multiset(p)| == |p|;
  }

  lemma LookedResidents(f: Fifo, prefer: bool)
    requires FifoOk(f) && CanLook(f, prefer) && f.small + f.main != []
    ensures var g := Looked(f, prefer).0;
            FifoOk(g) && g.small + g.main != [] && forall x :: x in g.small + g.main <==> x in f.small + f.main
  {
    LookedKeeps(f, prefer);
    RearrangedResidents(f, Looked(f, prefer).0);
  }

  /** With nothing retained, a look that does not end the scan uses up one unit of patience. */
  lemma LookedPatience(f: Fifo, reclaimable: set<nat>)
    requires FifoOk(f) && f.small + f.main != [] && forall x :: x in f.small + f.main ==> x in reclaimable
    ensures CanLook(f, false)
    ensures Caught(f, false, reclaimable).None? ==>
              Patience(Looked(f, false).0) + 1 == Patience(f) && !Looked(f, false).1
  {
    ResidentHead(f, reclaimable);
    assert f.main == [] ==> f.small + f.main == f.small;
    if Caught(f, false, reclaimable).None? {
      if LooksSmall(f, false).0 {
        PromotePatience(f);
      } else {
        RecyclePatience(f);
      }
    }
  }

  lemma {:induction false} SelectSoon(f: Fifo, rounds: nat, steps: nat, reclaimable: set<nat>, goal: (Fifo, nat, Option<nat>))
    requires FifoOk(f) && f.small + f.main != [] && forall x :: x in f.small + f.main ==> x in reclaimable
    requires rounds > Patience(f) && steps > Patience(f) && SelectEnds(f, false, rounds, steps, reclaimable, goal)
    ensures goal.2.Some? && steps <= goal.1 + Patience(f) + 1
    decreases rounds
  {
    SelectLooks(f, false, rounds, steps, reclaimable, goal);
    LookedPatience(f, reclaimable);
    if Caught(f, false, reclaimable).None? {
      LookedResidents(f, false);
      SelectSoon(Looked(f, false).0, rounds - 1, steps - 1, reclaimable, goal);
    }
  }

  /** When every resident is reclaimable, selection finds a victim after at most
      (sum of frequencies + length of the small queue) further looks, if the bounds allow that many. */
  lemma {:induction false} SelectProgress(f: Fifo, rounds: nat, steps: nat, reclaimable: set<nat>)
    requires FifoOk(f) && f.small + f.main != [] && forall x :: x in f.small + f.main ==> x in reclaimable
    requires rounds > Patience(f) && steps > Patience(f)
    ensures var (_, steps', victim) := SelectVictim(f, false, rounds, steps, reclaimable);
            victim.Some? && steps <= steps' + Patience(f) + 1
  {
    var goal := SelectVictim(f, false, rounds, steps, reclaimable);
    SelectEndsIs(f, false, rounds, steps, reclaimable, goal);
    SelectSoon(f, rounds, steps, reclaimable, goal);
  }

  // ----- CLOCK -----

  /** The hand, the resident vector and the visited bit by slot. */
  datatype Clock = Clock(hand: nat, residents: seq<nat>, visited: seq<bool>)

  predicate ClockOk(c: Clock) {
    && Distinct(c.residents)
    && (forall i :: 0 <= i < |c.residents| ==> c.residents[i] < |c.visited|)
    && (c.residents != [] ==> c.hand < |c.residents|)
  }

  /** The hand after looking at position p of n. */
  function Turn(p: nat, n: nat): nat {
    if p + 1 == n then 0 else p + 1
  }

  function Sweep(c: Clock, rounds: nat, steps: nat, reclaimable: set<nat>): (Clock, nat, Option<nat>)
    decreases rounds
  {
    if rounds == 0 || c.residents == [] || steps == 0 then (c, steps, None)
    else
      var position := if c.hand < |c.residents| then c.hand else 0;
      var x, c' := c.residents[position], c.(hand := Turn(position, |c.residents|));
      if x < |c.visited| && c.visited[x] then Sweep(c'.(visited := c.visited[x := false]), rounds - 1, steps - 1, reclaimable)
      else if x in reclaimable then (c', steps - 1, Some(x))
      else Sweep(c', rounds - 1, steps - 1, reclaimable)
  }

  /** One look of the hand: the clock afterwards and the victim, if this look finds one. */
  function LookClock(c: Clock, reclaimable: set<nat>): (Clock, Option<nat>)
    requires c.residents != []
  {
    var position := if c.hand < |c.residents| then c.hand else 0;
    var x, c' := c.residents[position], c.(hand := Turn(position, |c.residents|));
    if x < |c.visited| && c.visited[x] then (c'.(visited := c.visited[x := false]), None)
    else if x in reclaimable then (c', Some(x))
    else (c', None)
  }

  ghost function Sweeps(veil: Veil, c: Clock, rounds: nat, steps: nat, reclaimable: set<nat>): iset<(Clock, nat, Option<nat>)> {
    match veil
    case Veil => iset{Sweep(c, rounds, steps, reclaimable)}
  }

  /** The sweep from c ends in `goal`. */
  ghost predicate SweepEnds(c: Clock, rounds: nat, steps: nat, reclaimable: set<nat>, goal: (Clock, nat, Option<nat>)) {
    forall veil {:trigger goal in Sweeps(veil, c, rounds, steps, reclaimable)} ::
      goal in Sweeps(veil, c, rounds, steps, reclaimable)
  }

  lemma {:induction false} SweepEndsIs(c: Clock, rounds: nat, steps: nat, reclaimable: set<nat>, goal: (Clock, nat, Option<nat>))
    ensures SweepEnds(c, rounds, steps, reclaimable, goal) <==> goal == Sweep(c, rounds, steps, reclaimable)
  {
    assert goal in Sweeps(Veil, c, rounds, steps, reclaimable) <==> goal == Sweep(c, rounds, steps, reclaimable);
    forall veil ensures goal in Sweeps(veil, c, rounds, steps, reclaimable) <==> goal == Sweep(c, rounds, steps, reclaimable) {
      match veil
      case Veil =>
    }
  }

  lemma SweepGoal(c: Clock, rounds: nat, steps: nat, reclaimable: set<nat>) returns (goal: (Clock, nat, Option<nat>))
    ensures SweepEnds(c, rounds, steps, reclaimable, goal)
  {
    goal := Sweep(c, rounds, steps, reclaimable);
    SweepEndsIs(c, rounds, steps, reclaimable, goal);
  }

  /** A sweep goes on from where a look leaves the clock. */
  lemma SweepLooks(c: Clock, rounds: nat, steps: nat, reclaimable: set<nat>, goal: (Clock, nat, Option<nat>))
    requires SweepEnds(c, rounds, steps, reclaimable, goal)
    ensures rounds == 0 || steps == 0 || c.residents == [] ==> goal == (c, steps, None)
    ensures rounds > 0 && steps > 0 && c.residents != [] ==>
              var (c', victim) := LookClock(c, reclaimable);
              if victim.Some? then goal == (c', steps - 1, victim) else SweepEnds(c', rounds - 1, steps - 1, reclaimable, goal)
  {
    SweepEndsIs(c, rounds, steps, reclaimable, goal);
    if rounds > 0 && steps > 0 && c.residents != [] {
      SweepEndsIs(LookClock(c, reclaimable).0, rounds - 1, steps - 1, reclaimable, goal);
    }
  }

  /** Positions from the hand to p, going around. */
  function Ahead(c: Clock, p: nat): nat
    requires c.hand < |c.residents| && p < |c.residents|
  {
    if p >= c.hand then p - c.hand else p + |c.residents| - c.hand
  }

  /** A sweep keeps the residents, sets no bit, and returns only reclaimable residents. */
  lemma {:induction false} SweepKeeps(c: Clock, rounds: nat, steps: nat, reclaimable: set<nat>)
    requires ClockOk(c)
    ensures var (c', steps', victim) := Sweep(c, rounds, steps, reclaimable);
            && ClockOk(c') && c'.residents == c.residents && |c'.visited| == |c.visited| && steps' <= steps
            && (forall k :: 0 <= k < |c.visited| && c'.visited[k] ==> c.visited[k])
            && (victim.Some? ==> victim.value in c.residents && victim.value in reclaimable && !c'.visited[victim.value])
    decreases rounds
  {
    if rounds > 0 && c.residents != [] && steps > 0 {
      var x, c' := c.residents[c.hand], c.(hand := Turn(c.hand, |c.residents|));
      if c.visited[x] {
        SweepKeeps(c'.(visited := c.visited[x := false]), rounds - 1, steps - 1, reclaimable);
      } else if x !in reclaimable {
        SweepKeeps(c', rounds - 1, steps - 1, reclaimable);
      }
    }
  }

  /** One look turns the hand by one position. */
  lemma LookAhead(c: Clock, reclaimable: set<nat>, p: nat)
    requires ClockOk(c) && p < |c.residents| && p != c.hand
    ensures var g := LookClock(c, reclaimable).0;
            ClockOk(g) && g.residents == c.residents && Ahead(g, p) + 1 == Ahead(c, p) && c.residents[p] != c.residents[c.hand]
  {
  }

  /** A sweep in vain clears exactly the bits of the residents it looks at. */
  lemma {:induction false} SweepSpends(c: Clock, rounds: nat, steps: nat, reclaimable: set<nat>, p: nat, goal: (Clock, nat, Option<nat>))
    requires ClockOk(c) && SweepEnds(c, rounds, steps, reclaimable, goal) && goal.2.None? && p < |c.residents|
    ensures |goal.0.visited| == |c.visited|
    ensures goal.0.visited[c.residents[p]] == (c.visited[c.residents[p]] && Ahead(c, p) >= Min(rounds, steps))
    decreases rounds
  {
    SweepLooks(c, rounds, steps, reclaimable, goal);
    if rounds > 0 && steps > 0 {
      if p != c.hand {
        LookAhead(c, reclaimable, p);
      }
      SweepSpends(LookClock(c, reclaimable).0, rounds - 1, steps - 1, reclaimable, p, goal);
    }
  }

  /** A sweep changes no bit of a slot without a resident. */
  lemma {:induction false} SweepElsewhere(c: Clock, rounds: nat, steps: nat, reclaimable: set<nat>, k: nat, goal: (Clock, nat, Option<nat>))
    requires ClockOk(c) && SweepEnds(c, rounds, steps, reclaimable, goal) && k < |c.visited| && k !in c.residents
    ensures |goal.0.visited| == |c.visited| && goal.0.visited[k] == c.visited[k]
    decreases rounds
  {
    SweepLooks(c, rounds, steps, reclaimable, goal);
    if rounds > 0 && steps > 0 && c.residents != [] && LookClock(c, reclaimable).1.None? {
      SweepElsewhere(LookClock(c, reclaimable).0, rounds - 1, steps - 1, reclaimable, k, goal);
    }
  }

  /** The residents that a sweep of that many looks passes are all unvisited. */
  predicate SettledHand(c: Clock, looks: nat)
    requires ClockOk(c)
  {
    forall p :: 0 <= p < |c.residents| && Ahead(c, p) < looks ==> !c.visited[c.residents[p]]
  }

  /** A sweep in vain changes nothing exactly if it passes nobody visited. */
  lemma {:induction false} SweepUnmoved(c: Clock, rounds: nat, steps: nat, reclaimable: set<nat>, goal: (Clock, nat, Option<nat>))
    requires ClockOk(c) && SweepEnds(c, rounds, steps, reclaimable, goal) && goal.2.None?
    ensures goal.0.visited == c.visited <==> SettledHand(c, Min(rounds, steps))
  {
    forall p | 0 <= p < |c.residents|
      ensures |goal.0.visited| == |c.visited|
      ensures goal.0.visited[c.residents[p]] == (c.visited[c.residents[p]] && Ahead(c, p) >= Min(rounds, steps))
    {
      SweepSpends(c, rounds, steps, reclaimable, p, goal);
    }
    if SettledHand(c, Min(rounds, steps)) {
      SweepEndsIs(c, rounds, steps, reclaimable, goal);
      SweepKeeps(c, rounds, steps, reclaimable);
      forall k | 0 <= k < |c.visited| ensures goal.0.visited[k] == c.visited[k] {
        if k in c.residents {
          var p :| 0 <= p < |c.residents| && c.residents[p] == k;
        } else {
          SweepElsewhere(c, rounds, steps, reclaimable, k, goal);
        }
      }
    }
  }

  /** An unvisited reclaimable resident d positions ahead is found, or an earlier one is. */
  lemma {:induction false} FindsUnvisited(c: Clock, p: nat, rounds: nat, steps: nat, reclaimable: set<nat>)
    requires ClockOk(c) && p < |c.residents| && c.residents[p] in reclaimable && !c.visited[c.residents[p]]
    requires rounds > Ahead(c, p) && steps > Ahead(c, p)
    ensures Sweep(c, rounds, steps, reclaimable).2.Some?
    decreases rounds
  {
    var x, c' := c.residents[c.hand], c.(hand := Turn(c.hand, |c.residents|));
    if p != c.hand {
      if c.visited[x] {
        FindsUnvisited(c'.(visited := c.visited[x := false]), p, rounds - 1, steps - 1, reclaimable);
      } else if x !in reclaimable {
        FindsUnvisited(c', p, rounds - 1, steps - 1, reclaimable);
      }
    }
  }

  /** A reclaimable resident, visited or not, is found within one more turn of the hand. */
  lemma {:induction false} FindsReclaimable(c: Clock, p: nat, rounds: nat, steps: nat, reclaimable: set<nat>)
    requires ClockOk(c) && p < |c.residents| && c.residents[p] in reclaimable
    requires steps >= rounds > Ahead(c, p) + |c.residents|
    ensures Sweep(c, rounds, steps, reclaimable).2.Some?
    decreases rounds
  {
    var x, c' := c.residents[c.hand], c.(hand := Turn(c.hand, |c.residents|));
    var seen := c'.(visited := c.visited[x := false]);
    if p == c.hand {
      if c.visited[x] {
        FindsUnvisited(seen, p, rounds - 1, steps - 1, reclaimable);
      }
    } else if c.visited[x] {
      FindsReclaimable(seen, p, rounds - 1, steps - 1, reclaimable);
    } else if x !in reclaimable {
      FindsReclaimable(c', p, rounds - 1, steps - 1, reclaimable);
    }
  }

  /** With at most 32 residents and a fresh budget, CLOCK finds a victim exactly when some resident is
      reclaimable. */
  lemma {:induction false} ClockExact(c: Clock, steps: nat, reclaimable: set<nat>)
    requires ClockOk(c) && |c.residents| <= 32 && steps >= MAX_POLICY_SCAN_STEPS
    ensures Sweep(c, MaximumScanSteps(|c.residents|), steps, reclaimable).2.Some?
        <==> exists p :: 0 <= p < |c.residents| && c.residents[p] in reclaimable
  {
    var rounds := MaximumScanSteps(|c.residents|);
    SweepKeeps(c, rounds, steps, reclaimable);
    if p: nat :| p < |c.residents| && c.residents[p] in reclaimable {
      FindsReclaimable(c, p, rounds, steps, reclaimable);
    }
  }

  /** A sweep, whether it finds a victim or not, clears exactly the bits of the residents it looked at. */
  lemma {:induction false} SweepBits(c: Clock, rounds: nat, steps: nat, reclaimable: set<nat>, p: nat, goal: (Clock, nat, Option<nat>))
    requires ClockOk(c) && SweepEnds(c, rounds, steps, reclaimable, goal) && p < |c.residents|
    ensures |goal.0.visited| == |c.visited| && goal.1 <= steps
    ensures goal.0.visited[c.residents[p]] == (c.visited[c.residents[p]] && Ahead(c, p) >= steps - goal.1)
    decreases rounds
  {
    SweepLooks(c, rounds, steps, reclaimable, goal);
    if rounds > 0 && steps > 0 {
      if p != c.hand {
        LookAhead(c, reclaimable, p);
      }
      if LookClock(c, reclaimable).1.None? {
        SweepBits(LookClock(c, reclaimable).0, rounds - 1, steps - 1, reclaimable, p, goal);
      }
    }
  }

  /** Looks before the hand can take the resident at p: a visited one waits for one more turn of the hand. */
  function Wait(c: Clock, p: nat): nat
    requires ClockOk(c) && p < |c.residents|
  {
    Ahead(c, p) + if c.visited[c.residents[p]] then |c.residents| else 0
  }

  /** Of the reclaimable residents, the one at p waits least. */
  predicate Soonest(c: Clock, reclaimable: set<nat>, p: nat)
    requires ClockOk(c)
  {
    && p < |c.residents| && c.residents[p] in reclaimable
    && forall q :: 0 <= q < |c.residents| && c.residents[q] in reclaimable ==> Wait(c, p) <= Wait(c, q)
  }

  /** A look that takes nobody shortens every reclaimable resident's wait by one. */
  lemma WaitTurn(c: Clock, reclaimable: set<nat>, p: nat)
    requires ClockOk(c) && p < |c.residents| && c.residents[p] in reclaimable && LookClock(c, reclaimable).1.None?
    ensures ClockOk(LookClock(c, reclaimable).0) && LookClock(c, reclaimable).0.residents == c.residents
    ensures Wait(LookClock(c, reclaimable).0, p) + 1 == Wait(c, p)
  {
    if p != c.hand {
      LookAhead(c, reclaimable, p);
    }
  }

  lemma SoonestTurn(c: Clock, reclaimable: set<nat>, p: nat)
    requires ClockOk(c) && Soonest(c, reclaimable, p) && LookClock(c, reclaimable).1.None?
    ensures ClockOk(LookClock(c, reclaimable).0) && Soonest(LookClock(c, reclaimable).0, reclaimable, p)
    ensures Wait(LookClock(c, reclaimable).0, p) + 1 == Wait(c, p)
  {
    var c' := LookClock(c, reclaimable).0;
    WaitTurn(c, reclaimable, p);
    forall q | 0 <= q < |c.residents| && c.residents[q] in reclaimable ensures Wait(c', p) <= Wait(c', q) {
      WaitTurn(c, reclaimable, q);
    }
  }

  /** The soonest reclaimable resident is the victim if the bounds reach it, and nobody is otherwise. */
  lemma {:induction false} SweepTakes(c: Clock, rounds: nat, steps: nat, reclaimable: set<nat>, p: nat, goal: (Clock, nat, Option<nat>))
    requires ClockOk(c) && Soonest(c, reclaimable, p) && SweepEnds(c, rounds, steps, reclaimable, goal)
    ensures Wait(c, p) >= Min(rounds, steps) ==> goal.2 == None
    ensures Wait(c, p) < Min(rounds, steps) ==>
              goal.2 == Some(c.residents[p]) && goal.1 + Wait(c, p) + 1 == steps && goal.0.hand == Turn(p, |c.residents|)
    decreases rounds
  {
    SweepLooks(c, rounds, steps, reclaimable, goal);
    if rounds > 0 && steps > 0 {
      if LookClock(c, reclaimable).1.None? {
        SoonestTurn(c, reclaimable, p);
        SweepTakes(LookClock(c, reclaimable).0, rounds - 1, steps - 1, reclaimable, p, goal);
      } else {
        assert Wait(c, c.hand) == 0;
      }
    }
  }

  /** Of the first n residents, the reclaimable one that waits least, or n if none is reclaimable. */
  lemma {:induction false} SoonestAmong(c: Clock, reclaimable: set<nat>, n: nat) returns (p: nat)
    requires ClockOk(c) && n <= |c.residents|
    ensures (p < n && c.residents[p] in reclaimable) || p == n
    ensures p == n ==> forall q :: 0 <= q < n ==> c.residents[q] !in reclaimable
    ensures p < n ==> forall q :: 0 <= q < n && c.residents[q] in reclaimable ==> Wait(c, p) <= Wait(c, q)
  {
    if n == 0 {
      return 0;
    }
    p := SoonestAmong(c, reclaimable, n - 1);
    if c.residents[n - 1] in reclaimable {
      if p == n - 1 || Wait(c, n - 1) < Wait(c, p) {
        p := n - 1;
      }
    } else if p == n - 1 {
      p := n;
    }
  }

  lemma {:induction false} NobodyReclaimable(c: Clock, rounds: nat, steps: nat, reclaimable: set<nat>)
    requires ClockOk(c) && forall q :: 0 <= q < |c.residents| ==> c.residents[q] !in reclaimable
    ensures Sweep(c, rounds, steps, reclaimable).2.None?
  {
    SweepKeeps(c, rounds, steps, reclaimable);
  }

  /** CLOCK takes exactly the reclaimable resident that waits least, if the bounds of the sweep reach it:
      unvisited residents in hand order first, and then the visited ones in hand order. */
  lemma {:induction false} SweepExact(c: Clock, rounds: nat, steps: nat, reclaimable: set<nat>, p: nat)
    requires ClockOk(c) && p < |c.residents|
    ensures Sweep(c, rounds, steps, reclaimable).2 == Some(c.residents[p])
        <==> Soonest(c, reclaimable, p) && Wait(c, p) < Min(rounds, steps)
    ensures Sweep(c, rounds, steps, reclaimable).2 == Some(c.residents[p]) ==>
              Sweep(c, rounds, steps, reclaimable).0.hand == Turn(p, |c.residents|)
  {
    var goal := SweepGoal(c, rounds, steps, reclaimable);
    SweepEndsIs(c, rounds, steps, reclaimable, goal);
    var first := SoonestAmong(c, reclaimable, |c.residents|);
    if first == |c.residents| {
      NobodyReclaimable(c, rounds, steps, reclaimable);
    } else {
      SweepTakes(c, rounds, steps, reclaimable, first, goal);
      if Soonest(c, reclaimable, p) {
        SweepTakes(c, rounds, steps, reclaimable, p, goal);
      }
    }
  }
}
