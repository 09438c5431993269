/** The fill controller: a two-dimensional token bucket packed into one word and shared by threads
    that only ever load and compare-exchange it.  A load, and a failed exchange, may return any word
    at all, so what is proved here holds under every memory ordering. */
module FillControl {
  import opened Machine
  import opened Bits

  const CREDIT_UNIT_BYTES := 64
  const MAX_CAS_ATTEMPTS := 4
  const MIN_BYTES_PER_SECOND := 640
  const MAX_BYTES_PER_SECOND := 0x100_0000_0000
  const MIN_RECORDS_PER_SECOND := 10
  const TICKS_PER_SECOND := 10
  const NANOS := 1_000_000_000
  const UNIT_NANOS := 64_000_000_000

  // ----- the packed word -----

  /** `(records << 32) | units`, with the bits shifted out of the word lost. */
  function Pack(records: u64, units: u64): nat {
    Or((records * 0x1_0000_0000) % (U64_MAX + 1), units)
  }

  function Records(word: u64): nat {
    word / 0x1_0000_0000
  }

  function Units(word: u64): nat {
    And(word, U32_MAX)
  }

  lemma PackIsSum(records: u64, units: u64)
    requires records <= U32_MAX && units <= U32_MAX
    ensures Pack(records, units) == records * 0x1_0000_0000 + units <= U64_MAX
  {
    Pow2Values();
    var high := records * 0x1_0000_0000;
    assert high <= U64_MAX - U32_MAX && high % (U64_MAX + 1) == high;
    OrIsAdd(records, units, 32);
  }

  lemma UnitsAreLow(word: u64)
    ensures Units(word) == word % 0x1_0000_0000
  {
    Pow2Values();
    MaskIsMod(word, 32);
  }

  /** Both halves of a packed word come back, and neither spills into the other. */
  lemma PackRoundTrip(records: u64, units: u64)
    requires records <= U32_MAX && units <= U32_MAX
    ensures Pack(records, units) <= U64_MAX
    ensures Records(Pack(records, units)) == records && Units(Pack(records, units)) == units
  {
    PackIsSum(records, units);
    UnitsAreLow(Pack(records, units));
  }

  lemma UnpackRoundTrip(word: u64)
    ensures Records(word) <= U32_MAX && Units(word) <= U32_MAX
    ensures Pack(Records(word), Units(word)) == word
  {
    UnitsAreLow(word);
    PackIsSum(Records(word), Units(word));
  }

  // ----- the controller -----

  datatype Charge = Charge(records: nat, units: nat) {
    function Plus(other: Charge): Charge {
      Charge(records + other.records, units + other.units)
    }
  }

  const Nothing := Charge(0, 0)

  datatype Want = Want(bytes: nat, records: nat)

  datatype Controller = Controller(
    bytesPerSecond: nat,
    recordsPerSecond: nat,
    enforcing: bool,
    maxUnits: nat,
    maxRecords: nat,
    credit: u64,
    last: nat)

  function CeilDiv(a: nat, b: nat): nat
    requires b > 0
  {
    (a + b - 1) / b
  }

  /** A full bucket, or None when the limits are out of range. */
  function Open(enforcing: bool, bytesPerSecond: nat, recordsPerSecond: nat, maxFlushBytes: nat): Option<Controller> {
    if || !(MIN_BYTES_PER_SECOND <= bytesPerSecond <= MAX_BYTES_PER_SECOND)
       || !(MIN_RECORDS_PER_SECOND <= recordsPerSecond <= U32_MAX)
    then None
    else
      var units := CeilDiv(Max(bytesPerSecond / TICKS_PER_SECOND, maxFlushBytes), CREDIT_UNIT_BYTES);
      if units > U32_MAX then None
      else
        var records := Max(recordsPerSecond / TICKS_PER_SECOND, 1);
        PackRoundTrip(records, units);
        Some(Controller(bytesPerSecond, recordsPerSecond, enforcing, units, records, Pack(records, units), 0))
  }

  /** What `now - last` nanoseconds are worth, saturating and rounding down as the source does. */
  function Earned(c: Controller, now: nat, last: nat): Charge
    requires last <= now
  {
    var dt := now - last;
    Charge(Min(c.recordsPerSecond * dt, U64_MAX) / NANOS,
           Min(c.bytesPerSecond * dt, U64_MAX) / NANOS / CREDIT_UNIT_BYTES)
  }

  /** What one flush takes from the bucket `word`, or None when it has to wait. */
  function Take(c: Controller, want: Want, word: u64): (r: Option<Charge>)
  {
    var rawUnits := Max(CeilDiv(want.bytes, CREDIT_UNIT_BYTES), 1);
    var rawRecords := Max(want.records, 1);
    var haveUnits, haveRecords := Units(word), Records(word);
    if haveUnits == 0 || haveRecords == 0 then None
    else if rawUnits < c.maxUnits && haveUnits < Min(rawUnits, c.maxUnits) then None
    else if rawRecords < c.maxRecords && haveRecords < Min(rawRecords, c.maxRecords) then None
    else
      Some(Charge(if rawRecords >= c.maxRecords then haveRecords else Min(rawRecords, c.maxRecords),
                  if rawUnits >= c.maxUnits then haveUnits else Min(rawUnits, c.maxUnits)))
  }

  /** The bucket after `add`, capped at the burst. */
  function Added(c: Controller, word: u64, add: Charge): (Charge) {
    Charge(Min(Records(word) + add.records, c.maxRecords), Min(Units(word) + add.units, c.maxUnits))
  }

  // ----- threads -----

  /** Where a worker is between two of its atomic accesses. */
  datatype Pc =
    | Idle(held: Charge)
    | Clocked(want: Want, now: nat)
    | Claiming(want: Want, now: nat, last: nat)
    | Granting(add: Charge, next: Option<Want>)
    | Adding(add: Charge, word: u64, next: Option<Want>)
    | Asking(want: Want)
    | Taking(want: Want, word: u64, attempts: nat)

  /** The controller, the clock, every worker, and what has been charged, claimed by refills and
      handed back so far. */
  datatype System = System(
    c: Controller, clock: nat, threads: seq<Pc>, charged: Charge, claimed: Charge, refunded: Charge)

  datatype Action =
    | Tick(ns: nat)
    | Begin(i: nat, bytes: nat, records: nat, essential: bool)
    | Move(i: nat, seen: u64)
    | Refund(i: nat)

  function Elapsed(clock: nat): nat {
    Min(clock, U64_MAX)
  }

  function After(next: Option<Want>): Pc {
    if next.Some? then Asking(next.value) else Idle(Nothing)
  }

  function At(sys: System, i: nat, pc: Pc): System
    requires i < |sys.threads|
  {
    sys.(threads := sys.threads[i := pc])
  }

  /** One atomic access of worker i; `seen` is what a load returns. */
  function Moved(sys: System, i: nat, seen: u64): System
    requires i < |sys.threads|
    requires sys.c.maxRecords <= U32_MAX && sys.c.maxUnits <= U32_MAX
  {
    match sys.threads[i]
    case Idle(_) => sys
    case Clocked(want, now) =>
      if now <= seen then At(sys, i, Asking(want))
      else if Earned(sys.c, now, seen) == Nothing then At(sys, i, Asking(want))
      else At(sys, i, Claiming(want, now, seen))
    case Claiming(want, now, last) =>
      if sys.c.last != last || now < last then At(sys, i, Asking(want))
      else
        var add := Earned(sys.c, now, last);
        At(sys, i, Granting(add, Some(want))).(c := sys.c.(last := now), claimed := sys.claimed.Plus(add))
    case Granting(add, next) => At(sys, i, Adding(add, seen, next))
    case Adding(add, word, next) =>
      if sys.c.credit != word then At(sys, i, Adding(add, seen, next))
      else
        var total := Added(sys.c, word, add);
        PackRoundTrip(total.records, total.units);
        At(sys, i, After(next)).(c := sys.c.(credit := Pack(total.records, total.units)))
    case Asking(want) => At(sys, i, Taking(want, seen, 0))
    case Taking(want, word, attempts) =>
      var take := Take(sys.c, want, word);
      if attempts >= MAX_CAS_ATTEMPTS || take.None? then At(sys, i, Idle(Nothing))
      else if sys.c.credit != word then At(sys, i, Taking(want, seen, attempts + 1))
      else
        UnpackRoundTrip(word);
        var r, u := SaturatingSub(Records(word), take.value.records), SaturatingSub(Units(word), take.value.units);
        PackRoundTrip(r, u);
        At(sys, i, Idle(take.value)).(c := sys.c.(credit := Pack(r, u)), charged := sys.charged.Plus(take.value))
  }

  predicate Enabled(sys: System, a: Action) {
    match a
    case Tick(_) => true
    case Begin(i, _, _, _) => i < |sys.threads| && sys.threads[i].Idle?
    case Move(i, _) => i < |sys.threads|
    case Refund(i) => i < |sys.threads| && sys.threads[i].Idle?
  }

  function Do(sys: System, a: Action): System
    requires sys.c.maxRecords <= U32_MAX && sys.c.maxUnits <= U32_MAX && Enabled(sys, a)
  {
    match a
    case Tick(ns) => sys.(clock := sys.clock + ns)
    case Begin(i, bytes, records, essential) =>
      if essential || !sys.c.enforcing then At(sys, i, Idle(Nothing))
      else At(sys, i, Clocked(Want(bytes, records), Elapsed(sys.clock)))
    case Move(i, seen) => Moved(sys, i, seen)
    case Refund(i) =>
      var held := sys.threads[i].held;
      if !sys.c.enforcing || held == Nothing then At(sys, i, Idle(Nothing))
      else At(sys, i, Granting(held, None)).(refunded := sys.refunded.Plus(held))
  }

  // ----- invariant -----

  /** Credit a worker has claimed or is handing back, but not yet added. */
  function Pending(pc: Pc): Charge {
    if pc.Granting? || pc.Adding? then pc.add else Nothing
  }

  function AllPending(threads: seq<Pc>): Charge {
    if threads == [] then Nothing else AllPending(threads[..|threads| - 1]).Plus(Pending(threads[|threads| - 1]))
  }

  lemma {:induction false} PendingUpdate(threads: seq<Pc>, i: nat, pc: Pc)
    requires i < |threads|
    ensures AllPending(threads[i := pc]).Plus(Pending(threads[i])) == AllPending(threads).Plus(Pending(pc))
    decreases |threads|
  {
    var n := |threads| - 1;
    var threads' := threads[i := pc];
    if i == n {
      assert threads'[..n] == threads[..n];
    } else {
      assert threads'[..n] == threads[..n][i := pc];
      PendingUpdate(threads[..n], i, pc);
    }
  }

  predicate Bounded(c: Controller) {
    && 0 < c.maxRecords <= U32_MAX && 0 < c.maxUnits <= U32_MAX
    && c.recordsPerSecond <= U32_MAX && c.bytesPerSecond <= MAX_BYTES_PER_SECOND
    && Records(c.credit) <= c.maxRecords && Units(c.credit) <= c.maxUnits
  }

  predicate ThreadOk(pc: Pc, clock: nat) {
    match pc
    case Idle(held) => held.records <= U32_MAX && held.units <= U32_MAX
    case Clocked(_, now) => now <= clock
    case Claiming(_, now, last) => last < now <= clock
    case Granting(add, _) => add.records <= U64_MAX / NANOS && add.units <= U64_MAX / NANOS
    case Adding(add, _, _) => add.records <= U64_MAX / NANOS && add.units <= U64_MAX / NANOS
    case _ => true
  }

  predicate Valid(sys: System) {
    && Bounded(sys.c)
    && sys.c.last <= sys.clock
    && (forall i :: 0 <= i < |sys.threads| ==> ThreadOk(sys.threads[i], sys.clock))
  }

  /** Credit in the bucket, on its way there, and already charged. */
  function Outstanding(sys: System): Charge {
    Charge(Records(sys.c.credit), Units(sys.c.credit)).Plus(AllPending(sys.threads)).Plus(sys.charged)
  }

  /** No step creates credit: whatever appears was claimed from the clock or handed back. */
  predicate Conserves(sys: System, sys': System) {
    && Outstanding(sys').records + sys.claimed.records + sys.refunded.records
       <= Outstanding(sys).records + sys'.claimed.records + sys'.refunded.records
    && Outstanding(sys').units + sys.claimed.units + sys.refunded.units
       <= Outstanding(sys).units + sys'.claimed.units + sys'.refunded.units
  }

  /** Refills of disjoint intervals never claim more than the rate allows for their union. */
  predicate Telescopes(sys: System, sys': System) {
    && sys.c.last <= sys'.c.last
    && NANOS * sys'.claimed.records + sys.c.recordsPerSecond * sys.c.last
       <= NANOS * sys.claimed.records + sys.c.recordsPerSecond * sys'.c.last
    && UNIT_NANOS * sys'.claimed.units + sys.c.bytesPerSecond * sys.c.last
       <= UNIT_NANOS * sys.claimed.units + sys.c.bytesPerSecond * sys'.c.last
  }

  predicate SameLimits(c: Controller, c': Controller) {
    c' == c.(credit := c'.credit, last := c'.last)
  }

  lemma EarnedBound(c: Controller, now: nat, last: nat)
    requires last <= now
    ensures var e := Earned(c, now, last);
            && NANOS * e.records + c.recordsPerSecond * last <= c.recordsPerSecond * now
            && UNIT_NANOS * e.units + c.bytesPerSecond * last <= c.bytesPerSecond * now
            && e.records <= U64_MAX / NANOS && e.units <= U64_MAX / NANOS
  {
    var dt := now - last;
    FloorBound(c.recordsPerSecond * dt);
    FloorBound(c.bytesPerSecond * dt);
    Distribute(c.recordsPerSecond, now, last);
    Distribute(c.bytesPerSecond, now, last);
  }

  lemma Distribute(rate: nat, now: nat, last: nat)
    requires last <= now
    ensures rate * (now - last) + rate * last == rate * now
  {
  }

  lemma FloorBound(x: nat)
    ensures NANOS * (Min(x, U64_MAX) / NANOS) <= x
    ensures UNIT_NANOS * (Min(x, U64_MAX) / NANOS / CREDIT_UNIT_BYTES) <= x
    ensures Min(x, U64_MAX) / NANOS <= U64_MAX / NANOS
    ensures Min(x, U64_MAX) / NANOS / CREDIT_UNIT_BYTES <= U64_MAX / NANOS
  {
  }

  /** A take never exceeds what the word holds. */
  lemma TakeWithin(c: Controller, want: Want, word: u64)
    requires Take(c, want, word).Some?
    ensures var t := Take(c, want, word).value;
            0 < t.records <= Records(word) && 0 < t.units <= Units(word)
  {
  }

  /** A flush below the burst pays exactly its size, one at or above it pays whatever is there; it waits
      exactly when some credit is used up or does not cover a payment below the burst. */
  lemma TakeMeans(c: Controller, want: Want, word: u64)
    requires want.bytes > 0 && want.records > 0
    ensures Take(c, want, word).None? <==>
              || Units(word) == 0 || Records(word) == 0
              || (want.bytes > CREDIT_UNIT_BYTES * Units(word) && want.bytes <= CREDIT_UNIT_BYTES * (c.maxUnits - 1))
              || (want.records > Records(word) && want.records < c.maxRecords)
    ensures Take(c, want, word).Some? ==>
              var t := Take(c, want, word).value;
              && (if want.bytes <= CREDIT_UNIT_BYTES * (c.maxUnits - 1)
                  then CREDIT_UNIT_BYTES * (t.units - 1) < want.bytes <= CREDIT_UNIT_BYTES * t.units
                  else t.units == Units(word))
              && (if want.records < c.maxRecords then t.records == want.records else t.records == Records(word))
  {
    CeilCovers(want.bytes, Units(word));
    CeilCovers(want.bytes, c.maxUnits);
  }

  lemma CeilCovers(bytes: nat, units: nat)
    requires bytes > 0
    ensures var k := CeilDiv(bytes, CREDIT_UNIT_BYTES);
            && k > 0 && CREDIT_UNIT_BYTES * (k - 1) < bytes <= CREDIT_UNIT_BYTES * k
            && (units < k <==> bytes > CREDIT_UNIT_BYTES * units) && (k < units <==> bytes <= CREDIT_UNIT_BYTES * (units - 1))
  {
  }

  /** A full bucket never makes a flush wait, however large it is. */
  lemma FullBucketAdmits(c: Controller, want: Want)
    requires Bounded(c) && Records(c.credit) == c.maxRecords && Units(c.credit) == c.maxUnits
    ensures Take(c, want, c.credit).Some?
  {
  }

  // ----- every step -----

  lemma TickStep(sys: System, ns: nat)
    requires Valid(sys)
    ensures var sys' := sys.(clock := sys.clock + ns);
            Valid(sys') && Conserves(sys, sys') && Telescopes(sys, sys')
  {
    var sys' := sys.(clock := sys.clock + ns);
    forall i | 0 <= i < |sys'.threads| ensures ThreadOk(sys'.threads[i], sys'.clock) {
      assert ThreadOk(sys.threads[i], sys.clock);
    }
  }

  /** A worker moves; its pending credit changes by what is claimed, handed back, added or taken. */
  lemma ThreadStep(sys: System, sys': System, i: nat, pc: Pc)
    requires Valid(sys) && i < |sys.threads| && sys'.threads == sys.threads[i := pc] && ThreadOk(pc, sys.clock)
    requires sys'.clock == sys.clock && SameLimits(sys.c, sys'.c) && Bounded(sys'.c) && sys'.c.last <= sys.clock
    requires Records(sys'.c.credit) + Pending(pc).records + sys'.charged.records + sys.claimed.records + sys.refunded.records
             <= Records(sys.c.credit) + Pending(sys.threads[i]).records + sys.charged.records
                + sys'.claimed.records + sys'.refunded.records
    requires Units(sys'.c.credit) + Pending(pc).units + sys'.charged.units + sys.claimed.units + sys.refunded.units
             <= Units(sys.c.credit) + Pending(sys.threads[i]).units + sys.charged.units
                + sys'.claimed.units + sys'.refunded.units
    ensures Valid(sys') && Conserves(sys, sys')
  {
    PendingUpdate(sys.threads, i, pc);
  }

  /** What a move of worker i has to keep. */
  predicate Good(sys: System, sys': System) {
    && Valid(sys') && Conserves(sys, sys') && Telescopes(sys, sys') && SameLimits(sys.c, sys'.c)
    && sys'.clock == sys.clock
  }

  lemma ClaimStep(sys: System, i: nat, seen: u64)
    requires Valid(sys) && i < |sys.threads| && sys.threads[i].Claiming?
    ensures Good(sys, Moved(sys, i, seen))
  {
    var sys', pc := Moved(sys, i, seen), sys.threads[i];
    assert ThreadOk(pc, sys.clock);
    EarnedBound(sys.c, pc.now, pc.last);
    ThreadStep(sys, sys', i, sys'.threads[i]);
  }

  lemma AddStep(sys: System, i: nat, seen: u64)
    requires Valid(sys) && i < |sys.threads| && sys.threads[i].Adding?
    ensures Good(sys, Moved(sys, i, seen))
  {
    var sys', pc := Moved(sys, i, seen), sys.threads[i];
    assert ThreadOk(pc, sys.clock);
    if sys.c.credit == pc.word {
      var total := Added(sys.c, pc.word, pc.add);
      PackRoundTrip(total.records, total.units);
      assert sys'.c == sys.c.(credit := Pack(total.records, total.units));
    }
    ThreadStep(sys, sys', i, sys'.threads[i]);
  }

  /** A successful exchange moves exactly what it takes out of the word. */
  lemma TakeExact(sys: System, i: nat, seen: u64)
    requires Valid(sys) && i < |sys.threads| && sys.threads[i].Taking?
    requires sys.threads[i].attempts < MAX_CAS_ATTEMPTS && sys.c.credit == sys.threads[i].word
    requires Take(sys.c, sys.threads[i].want, sys.c.credit).Some?
    ensures var sys', t := Moved(sys, i, seen), Take(sys.c, sys.threads[i].want, sys.c.credit).value;
            && sys' == At(sys, i, Idle(t)).(c := sys.c.(credit := sys'.c.credit), charged := sys.charged.Plus(t))
            && Records(sys'.c.credit) + t.records == Records(sys.c.credit)
            && Units(sys'.c.credit) + t.units == Units(sys.c.credit)
  {
    var word := sys.c.credit;
    var take := Take(sys.c, sys.threads[i].want, word).value;
    UnpackRoundTrip(word);
    TakeWithin(sys.c, sys.threads[i].want, word);
    var r, u := Records(word) - take.records, Units(word) - take.units;
    PackRoundTrip(r, u);
    assert Moved(sys, i, seen).c == sys.c.(credit := Pack(r, u));
  }

  lemma TakeStep(sys: System, i: nat, seen: u64)
    requires Valid(sys) && i < |sys.threads| && sys.threads[i].Taking?
    ensures Good(sys, Moved(sys, i, seen))
  {
    var sys', pc := Moved(sys, i, seen), sys.threads[i];
    if pc.attempts < MAX_CAS_ATTEMPTS && Take(sys.c, pc.want, pc.word).Some? && sys.c.credit == pc.word {
      TakeExact(sys, i, seen);
    } else {
      assert sys'.c == sys.c && sys'.charged == sys.charged;
    }
    ThreadStep(sys, sys', i, sys'.threads[i]);
  }

  lemma LoadStep(sys: System, i: nat, seen: u64)
    requires Valid(sys) && i < |sys.threads|
    requires sys.threads[i].Clocked? || sys.threads[i].Granting? || sys.threads[i].Asking?
    ensures Good(sys, Moved(sys, i, seen))
  {
    var sys' := Moved(sys, i, seen);
    assert ThreadOk(sys.threads[i], sys.clock);
    ThreadStep(sys, sys', i, sys'.threads[i]);
  }

  lemma MoveStep(sys: System, i: nat, seen: u64)
    requires Valid(sys) && i < |sys.threads|
    ensures Good(sys, Moved(sys, i, seen))
  {
    match sys.threads[i]
    case Claiming(_, _, _) => ClaimStep(sys, i, seen);
    case Adding(_, _, _) => AddStep(sys, i, seen);
    case Taking(_, _, _) => TakeStep(sys, i, seen);
    case Idle(_) =>
    case _ => LoadStep(sys, i, seen);
  }

  lemma StepKeeps(sys: System, a: Action)
    requires Valid(sys) && Enabled(sys, a)
    ensures var sys' := Do(sys, a);
            Valid(sys') && Conserves(sys, sys') && Telescopes(sys, sys') && SameLimits(sys.c, sys'.c)
            && sys.clock <= sys'.clock
  {
    var sys' := Do(sys, a);
    match a
    case Tick(ns) => TickStep(sys, ns);
    case Move(i, seen) => MoveStep(sys, i, seen);
    case Begin(i, bytes, records, essential) =>
      ThreadStep(sys, sys', i, sys'.threads[i]);
    case Refund(i) =>
      assert ThreadOk(sys.threads[i], sys.clock);
      ThreadStep(sys, sys', i, sys'.threads[i]);
  }

  // ----- whole runs -----

  predicate Feasible(sys: System, run: seq<Action>)
    decreases |run|
  {
    run == [] ||
    (&& sys.c.maxRecords <= U32_MAX && sys.c.maxUnits <= U32_MAX && Enabled(sys, run[0])
     && Feasible(Do(sys, run[0]), run[1..]))
  }

  function Execute(sys: System, run: seq<Action>): System
    requires Feasible(sys, run)
    decreases |run|
  {
    if run == [] then sys else Execute(Do(sys, run[0]), run[1..])
  }

  lemma {:induction false} RunKeeps(sys: System, run: seq<Action>)
    requires Valid(sys) && Feasible(sys, run)
    ensures var end := Execute(sys, run);
            Valid(end) && Conserves(sys, end) && Telescopes(sys, end) && SameLimits(sys.c, end.c) && sys.clock <= end.clock
    decreases |run|
  {
    if run != [] {
      StepKeeps(sys, run[0]);
      RunKeeps(Do(sys, run[0]), run[1..]);
    }
  }

  function Resting(n: nat): seq<Pc> {
    if n == 0 then [] else Resting(n - 1) + [Idle(Nothing)]
  }

  lemma {:induction false} RestingIdle(n: nat)
    ensures |Resting(n)| == n && forall i :: 0 <= i < n ==> Resting(n)[i] == Idle(Nothing)
  {
    if n > 0 {
      RestingIdle(n - 1);
    }
  }

  /** A freshly opened controller with n idle workers. */
  function Start(c: Controller, n: nat): System {
    System(c, 0, Resting(n), Nothing, Nothing, Nothing)
  }

  lemma {:induction false} PendingAppend(threads: seq<Pc>, pc: Pc)
    ensures AllPending(threads + [pc]) == AllPending(threads).Plus(Pending(pc))
  {
    assert (threads + [pc])[..|threads|] == threads;
  }

  lemma {:induction false} NothingPending(n: nat)
    ensures AllPending(Resting(n)).records == 0 && AllPending(Resting(n)).units == 0
  {
    if n > 0 {
      NothingPending(n - 1);
      PendingAppend(Resting(n - 1), Idle(Nothing));
    }
  }

  lemma OpenValid(enforcing: bool, bytesPerSecond: nat, recordsPerSecond: nat, maxFlushBytes: nat, n: nat)
    requires Open(enforcing, bytesPerSecond, recordsPerSecond, maxFlushBytes).Some?
    ensures var c := Open(enforcing, bytesPerSecond, recordsPerSecond, maxFlushBytes).value;
            && Valid(Start(c, n))
            && Records(c.credit) == c.maxRecords && Units(c.credit) == c.maxUnits
            && maxFlushBytes <= CREDIT_UNIT_BYTES * c.maxUnits
  {
    var c := Open(enforcing, bytesPerSecond, recordsPerSecond, maxFlushBytes).value;
    PackRoundTrip(c.maxRecords, c.maxUnits);
    RestingIdle(n);
  }

  /** Packed credits stay within the burst in every reachable state. */
  lemma {:induction false} CreditBounded(sys: System, run: seq<Action>)
    requires Valid(sys) && Feasible(sys, run)
    ensures var c := Execute(sys, run).c;
            Records(c.credit) <= c.maxRecords == sys.c.maxRecords && Units(c.credit) <= c.maxUnits == sys.c.maxUnits
  {
    RunKeeps(sys, run);
  }

  /** In units worth k nanosecond-bytes or nanosecond-records each: what is charged is covered by the
      burst, by what was handed back, and by the yield of the clock. */
  predicate Covered(k: nat, charged: int, burst: int, refunded: int, earned: int) {
    k * charged <= k * (burst + refunded) + earned
  }

  /** The rate bound: by elapsed time T the flushes charged are at most the burst, what the rate
      yields in T, and what was handed back, in records and in 64-byte units, however the atomic
      accesses of any number of workers interleave. */
  lemma {:induction false} RateBound(c: Controller, n: nat, run: seq<Action>)
    requires Valid(Start(c, n)) && c.last == 0 && Feasible(Start(c, n), run)
    ensures var end := Execute(Start(c, n), run);
            && Covered(NANOS, end.charged.records, c.maxRecords, end.refunded.records, c.recordsPerSecond * end.clock)
            && Covered(UNIT_NANOS, end.charged.units, c.maxUnits, end.refunded.units, c.bytesPerSecond * end.clock)
  {
    var sys := Start(c, n);
    StartWithin(c, n);
    var end, first := Execute(sys, run), Outstanding(sys);
    assert sys.c == c && sys.refunded == Nothing;
    RunKeeps(sys, run);
    RecordWindow(sys, end, end.refunded.records, end.clock);
    UnitWindow(sys, end, end.refunded.units, end.clock);
    Widen(NANOS, end.charged.records, first.records, c.maxRecords, end.refunded.records, c.recordsPerSecond * end.clock);
    Widen(UNIT_NANOS, end.charged.units, first.units, c.maxUnits, end.refunded.units, c.bytesPerSecond * end.clock);
  }

  lemma Widen(k: nat, charged: int, burst: int, burst': int, refunded: int, earned: int)
    requires Covered(k, charged, burst, refunded, earned) && burst <= burst'
    ensures Covered(k, charged, burst', refunded, earned)
  {
    assert k * (burst' + refunded) == k * (burst + refunded) + k * (burst' - burst);
  }

  lemma StartWithin(c: Controller, n: nat)
    requires Bounded(c)
    ensures Outstanding(Start(c, n)).records <= c.maxRecords && Outstanding(Start(c, n)).units <= c.maxUnits
  {
    NothingPending(n);
  }

  /** The same bound over any window of a run: what is charged by its end is covered by the credit
      outstanding at its start, the time since the last refill then, and what was handed back. */
  lemma {:induction false} WindowBound(sys: System, run: seq<Action>, refunded: Charge, ns: nat)
    requires Valid(sys) && Feasible(sys, run)
    requires Execute(sys, run).refunded == sys.refunded.Plus(refunded) && Execute(sys, run).clock == sys.c.last + ns
    ensures var end := Execute(sys, run);
            && Covered(NANOS, end.charged.records, Outstanding(sys).records, refunded.records, sys.c.recordsPerSecond * ns)
            && Covered(UNIT_NANOS, end.charged.units, Outstanding(sys).units, refunded.units, sys.c.bytesPerSecond * ns)
  {
    var end := Execute(sys, run);
    RunKeeps(sys, run);
    RecordWindow(sys, end, refunded.records, ns);
    UnitWindow(sys, end, refunded.units, ns);
  }

  lemma RecordWindow(sys: System, end: System, refunded: nat, ns: nat)
    requires Valid(end) && Conserves(sys, end) && Telescopes(sys, end)
    requires end.refunded.records == sys.refunded.records + refunded && end.clock == sys.c.last + ns
    ensures Covered(NANOS, end.charged.records, Outstanding(sys).records, refunded, sys.c.recordsPerSecond * ns)
  {
    Yield(sys.c.recordsPerSecond, sys.c.last, end.c.last, ns);
    assert end.charged.records <= Outstanding(end).records;
    Settle(NANOS, end.charged.records, end.claimed.records, sys.claimed.records, refunded, Outstanding(sys).records,
           sys.c.recordsPerSecond * ns);
  }

  lemma UnitWindow(sys: System, end: System, refunded: nat, ns: nat)
    requires Valid(end) && Conserves(sys, end) && Telescopes(sys, end)
    requires end.refunded.units == sys.refunded.units + refunded && end.clock == sys.c.last + ns
    ensures Covered(UNIT_NANOS, end.charged.units, Outstanding(sys).units, refunded, sys.c.bytesPerSecond * ns)
  {
    Yield(sys.c.bytesPerSecond, sys.c.last, end.c.last, ns);
    assert end.charged.units <= Outstanding(end).units;
    Settle(UNIT_NANOS, end.charged.units, end.claimed.units, sys.claimed.units, refunded, Outstanding(sys).units,
           sys.c.bytesPerSecond * ns);
  }

  lemma Yield(rate: nat, last: nat, last': nat, ns: nat)
    requires last <= last' <= last + ns
    ensures rate * last' <= rate * last + rate * ns
  {
    assert rate * ns == rate * (last' - last) + rate * (last + ns - last');
    Distribute(rate, last', last);
  }

  /** If the claims of a window are worth at most `earned`, so is all it charges beyond the rest. */
  lemma Settle(k: nat, charged: int, claimed: int, claimed0: int, refunded: int, burst: int, earned: int)
    requires charged <= burst + refunded + (claimed - claimed0)
    requires k * claimed <= k * claimed0 + earned
    ensures Covered(k, charged, burst, refunded, earned)
  {
    var spare := burst + refunded + (claimed - claimed0) - charged;
    assert k * (burst + refunded) - k * charged == k * spare - (k * claimed - k * claimed0);
    assert k * spare >= 0;
  }

  // ----- what a refill is worth -----

  lemma FloorExact(x: nat)
    ensures NANOS * (x / NANOS) <= x < NANOS * (x / NANOS + 1)
    ensures UNIT_NANOS * (x / NANOS / CREDIT_UNIT_BYTES) <= x < UNIT_NANOS * (x / NANOS / CREDIT_UNIT_BYTES + 1)
  {
  }

  /** Where the product fits the word, a refill is worth exactly the whole records, and the whole 64-byte
      units, that the rate yields in the interval. */
  lemma EarnedExact(c: Controller, now: nat, last: nat)
    requires last <= now
    ensures var e, worth := Earned(c, now, last), c.recordsPerSecond * (now - last);
            worth <= U64_MAX ==> NANOS * e.records <= worth < NANOS * (e.records + 1)
    ensures var e, worth := Earned(c, now, last), c.bytesPerSecond * (now - last);
            worth <= U64_MAX ==> UNIT_NANOS * e.units <= worth < UNIT_NANOS * (e.units + 1)
  {
    FloorExact(c.recordsPerSecond * (now - last));
    FloorExact(c.bytesPerSecond * (now - last));
  }

  lemma FloorAtLeast(x: nat, k: nat)
    ensures NANOS * k <= x && NANOS * k <= U64_MAX ==> k <= Min(x, U64_MAX) / NANOS
    ensures UNIT_NANOS * k <= x && UNIT_NANOS * k <= U64_MAX ==> k <= Min(x, U64_MAX) / NANOS / CREDIT_UNIT_BYTES
  {
  }

  /** A refill that saturates is still worth everything up to the word. */
  lemma EarnedAtLeast(c: Controller, now: nat, last: nat, need: Charge)
    requires last <= now
    requires NANOS * need.records <= c.recordsPerSecond * (now - last) && NANOS * need.records <= U64_MAX
    requires UNIT_NANOS * need.units <= c.bytesPerSecond * (now - last) && UNIT_NANOS * need.units <= U64_MAX
    ensures need.records <= Earned(c, now, last).records && need.units <= Earned(c, now, last).units
  {
    FloorAtLeast(c.recordsPerSecond * (now - last), need.records);
    FloorAtLeast(c.bytesPerSecond * (now - last), need.units);
  }

  /** Opening succeeds exactly for rates in range and a burst that the word can hold.  The burst is a
      tenth of a second, or one largest flush if that is more, in whole units; at least one record. */
  lemma OpenExact(enforcing: bool, bytesPerSecond: nat, recordsPerSecond: nat, maxFlushBytes: nat)
    ensures var burst := Max(bytesPerSecond / 10, maxFlushBytes);
            Open(enforcing, bytesPerSecond, recordsPerSecond, maxFlushBytes).Some? <==>
              640 <= bytesPerSecond <= 0x100_0000_0000 && 10 <= recordsPerSecond <= U32_MAX && burst <= 64 * U32_MAX
    ensures var o, burst := Open(enforcing, bytesPerSecond, recordsPerSecond, maxFlushBytes), Max(bytesPerSecond / 10, maxFlushBytes);
            o.Some? ==>
              && 64 * (o.value.maxUnits - 1) < burst <= 64 * o.value.maxUnits
              && 10 * o.value.maxRecords <= recordsPerSecond < 10 * (o.value.maxRecords + 1)
              && o.value.bytesPerSecond == bytesPerSecond && o.value.recordsPerSecond == recordsPerSecond
              && o.value.enforcing == enforcing && o.value.last == 0
  {
    var burst: nat := Max(bytesPerSecond / 10, maxFlushBytes);
    if burst > 0 {
      CeilCovers(burst, U32_MAX);
    }
  }

  // ----- exact effects -----

  /** A successful exchange raises each credit to exactly the smaller of the burst and the sum, whether it
      adds a refill or a refund, and changes nothing else. */
  lemma AddExact(sys: System, i: nat, seen: u64)
    requires Valid(sys) && i < |sys.threads| && sys.threads[i].Adding? && sys.c.credit == sys.threads[i].word
    ensures var sys', add := Moved(sys, i, seen), sys.threads[i].add;
            && Records(sys'.c.credit) == Min(sys.c.maxRecords, Records(sys.c.credit) + add.records)
            && Units(sys'.c.credit) == Min(sys.c.maxUnits, Units(sys.c.credit) + add.units)
            && sys' == sys.(c := sys.c.(credit := sys'.c.credit), threads := sys.threads[i := sys'.threads[i]])
            && sys'.threads[i] == (if sys.threads[i].next.Some? then Asking(sys.threads[i].next.value) else Idle(Nothing))
  {
    var total := Added(sys.c, sys.c.credit, sys.threads[i].add);
    PackRoundTrip(total.records, total.units);
    assert Moved(sys, i, seen).c == sys.c.(credit := Pack(total.records, total.units));
  }

  lemma {:induction false} Next(sys: System, a: Action, run: seq<Action>)
    requires Valid(sys) && Enabled(sys, a) && Feasible(Do(sys, a), run)
    ensures Feasible(sys, [a] + run) && Execute(sys, [a] + run) == Execute(Do(sys, a), run)
  {
    assert ([a] + run)[1..] == run;
  }

  /** The credits of a controller. */
  function Credits(c: Controller): Charge {
    Charge(Records(c.credit), Units(c.credit))
  }

  /** A worker hands a charge back while nobody else moves. */
  function RefundRun(i: nat, word: u64): seq<Action> {
    [Refund(i)] + AddRun(i, word)
  }

  lemma {:induction false} LoneRefund(sys: System, i: nat)
    requires Valid(sys) && sys.c.enforcing && i < |sys.threads| && sys.threads[i].Idle? && sys.threads[i].held != Nothing
    ensures Feasible(sys, RefundRun(i, sys.c.credit))
    ensures var end, held := Execute(sys, RefundRun(i, sys.c.credit)), sys.threads[i].held;
            && i < |end.threads| && end.threads[i] == Idle(Nothing)
            && Credits(end.c) == Charge(Min(sys.c.maxRecords, Records(sys.c.credit) + held.records),
                                        Min(sys.c.maxUnits, Units(sys.c.credit) + held.units))
  {
    var word := sys.c.credit;
    var s1 := Do(sys, Refund(i));
    StepKeeps(sys, Refund(i));
    LoneAdd(s1, i);
    Next(sys, Refund(i), AddRun(i, word));
  }

  // ----- progress -----

  /** The credit a lone worker finds after its refill. */
  function Refilled(c: Controller, now: nat): Charge
    requires c.last <= now
  {
    var e := Earned(c, now, c.last);
    Charge(Min(c.maxRecords, Records(c.credit) + e.records), Min(c.maxUnits, Units(c.credit) + e.units))
  }

  /** Loading the word and adding to it. */
  function AddRun(i: nat, word: u64): seq<Action> {
    [Move(i, word)] + ([Move(i, word)] + [])
  }

  /** Claiming the interval since the last refill and adding its yield. */
  function RefillRun(i: nat, last: u64, word: u64): seq<Action> {
    [Move(i, last)] + ([Move(i, last)] + AddRun(i, word))
  }

  lemma {:induction false} LoneAdd(sys: System, i: nat)
    requires Valid(sys) && i < |sys.threads| && sys.threads[i].Granting?
    ensures Feasible(sys, AddRun(i, sys.c.credit))
    ensures var end, pc := Execute(sys, AddRun(i, sys.c.credit)), sys.threads[i];
            && Valid(end) && |end.threads| == |sys.threads| && end.threads[i] == After(pc.next)
            && Records(end.c.credit) == Min(sys.c.maxRecords, Records(sys.c.credit) + pc.add.records)
            && Units(end.c.credit) == Min(sys.c.maxUnits, Units(sys.c.credit) + pc.add.units)
            && end.c == sys.c.(credit := end.c.credit) && end.charged == sys.charged
  {
    var word := sys.c.credit;
    var s1 := Do(sys, Move(i, word));
    StepKeeps(sys, Move(i, word));
    AddExact(s1, i, word);
    StepKeeps(s1, Move(i, word));
    Next(s1, Move(i, word), []);
    Next(sys, Move(i, word), [Move(i, word)] + []);
  }

  /** A lone worker that has waited at all claims the interval, and adds exactly what it is worth. */
  lemma {:induction false} LoneRefill(sys: System, i: nat, want: Want, now: nat)
    requires Valid(sys) && i < |sys.threads| && sys.threads[i] == Clocked(want, now) && sys.c.last < now <= U64_MAX
    requires Earned(sys.c, now, sys.c.last) != Nothing
    ensures Feasible(sys, RefillRun(i, sys.c.last, sys.c.credit))
    ensures var end := Execute(sys, RefillRun(i, sys.c.last, sys.c.credit));
            && Valid(end) && |end.threads| == |sys.threads| && end.threads[i] == Asking(want)
            && Credits(end.c) == Refilled(sys.c, now) && end.c.last == now && SameLimits(sys.c, end.c) && end.charged == sys.charged
  {
    var last, word := sys.c.last, sys.c.credit;
    var s1 := Do(sys, Move(i, last));
    StepKeeps(sys, Move(i, last));
    var s2 := Do(s1, Move(i, last));
    StepKeeps(s1, Move(i, last));
    LoneAdd(s2, i);
    Next(s1, Move(i, last), AddRun(i, word));
    Next(sys, Move(i, last), [Move(i, last)] + AddRun(i, word));
  }

  /** Loading the word and exchanging it. */
  function TakeRun(i: nat, word: u64): seq<Action> {
    [Move(i, word)] + ([Move(i, word)] + [])
  }

  /** A lone worker gets exactly what the word allows. */
  lemma {:induction false} LoneTake(sys: System, i: nat)
    requires Valid(sys) && i < |sys.threads| && sys.threads[i].Asking?
    ensures Feasible(sys, TakeRun(i, sys.c.credit))
    ensures var end, take := Execute(sys, TakeRun(i, sys.c.credit)), Take(sys.c, sys.threads[i].want, sys.c.credit);
            && i < |end.threads| && end.threads[i] == Idle(if take.Some? then take.value else Nothing)
            && end.charged == (if take.Some? then sys.charged.Plus(take.value) else sys.charged)
  {
    var word := sys.c.credit;
    var s1 := Do(sys, Move(i, word));
    StepKeeps(sys, Move(i, word));
    if Take(sys.c, sys.threads[i].want, word).Some? {
      TakeExact(s1, i, word);
    }
    StepKeeps(s1, Move(i, word));
    Next(s1, Move(i, word), []);
    Next(sys, Move(i, word), [Move(i, word)] + []);
  }

  /** What a flush must find: its own size, or anything at all if it is at or above the burst. */
  function Needed(c: Controller, want: Want): Charge {
    var units, records := CeilDiv(want.bytes, CREDIT_UNIT_BYTES), want.records;
    Charge(if records < c.maxRecords then Max(records, 1) else 1, if units < c.maxUnits then Max(units, 1) else 1)
  }

  lemma NeededAdmits(c: Controller, want: Want, word: u64)
    requires 0 < c.maxRecords && 0 < c.maxUnits
    requires Needed(c, want).records <= Records(word) && Needed(c, want).units <= Units(word)
    ensures Take(c, want, word).Some?
  {
  }

  /** Progress: a worker that nobody disturbs, and that begins a paced flush once the clock has yielded
      what the flush needs since the last refill, is admitted, with a charge that the bucket loses. */
  lemma {:induction false} LoneProgress(sys: System, i: nat, bytes: nat, records: nat)
    requires Valid(sys) && sys.c.enforcing && i < |sys.threads| && sys.threads[i].Idle?
    requires sys.clock <= U64_MAX && Worth(sys.c, Needed(sys.c, Want(bytes, records)), sys.clock)
    ensures var want, start := Want(bytes, records), Do(sys, Begin(i, bytes, records, false));
            && Feasible(start, RefillRun(i, sys.c.last, sys.c.credit))
            && var middle := Execute(start, RefillRun(i, sys.c.last, sys.c.credit));
            && Feasible(middle, TakeRun(i, middle.c.credit))
            && var end := Execute(middle, TakeRun(i, middle.c.credit));
            && i < |end.threads| && end.threads[i].Idle?
            && end.threads[i].held.records > 0 && end.threads[i].held.units > 0
            && end.charged == sys.charged.Plus(end.threads[i].held)
  {
    var want, start := Want(bytes, records), Do(sys, Begin(i, bytes, records, false));
    var c, need := sys.c, Needed(sys.c, want);
    StepKeeps(sys, Begin(i, bytes, records, false));
    EarnedAtLeast(c, sys.clock, c.last, need);
    LoneRefill(start, i, want, sys.clock);
    var middle := Execute(start, RefillRun(i, c.last, c.credit));
    NeededAdmits(middle.c, want, middle.c.credit);
    LoneTake(middle, i);
    TakeWithin(middle.c, want, middle.c.credit);
  }

  /** The interval since the last refill has yielded at least this much, within what the word can count. */
  predicate Worth(c: Controller, need: Charge, now: nat) {
    && c.last < now
    && NANOS * need.records <= c.recordsPerSecond * (now - c.last) && NANOS * need.records <= U64_MAX
    && UNIT_NANOS * need.units <= c.bytesPerSecond * (now - c.last) && UNIT_NANOS * need.units <= U64_MAX
  }

  /** Essential work, and all work while nothing is enforced, goes ahead without a charge. */
  lemma EssentialProceeds(sys: System, i: nat, bytes: nat, records: nat, essential: bool)
    requires sys.c.maxRecords <= U32_MAX && sys.c.maxUnits <= U32_MAX && i < |sys.threads| && sys.threads[i].Idle?
    ensures var sys' := Do(sys, Begin(i, bytes, records, essential));
            && sys'.c == sys.c && sys'.charged == sys.charged
            && (essential || !sys.c.enforcing <==> sys'.threads[i] == Idle(Nothing))
  {
  }

  // ----- nothing is dropped -----

  /** What an action adds beyond the burst: a bucket that is full keeps no more. */
  function Spill(sys: System, a: Action): Charge {
    if a.Move? && a.i < |sys.threads| && sys.threads[a.i].Adding? && sys.c.credit == sys.threads[a.i].word then
      var add := sys.threads[a.i].add;
      Charge(SaturatingSub(Records(sys.c.credit) + add.records, sys.c.maxRecords),
             SaturatingSub(Units(sys.c.credit) + add.units, sys.c.maxUnits))
    else Nothing
  }

  function Spilled(sys: System, run: seq<Action>): Charge
    requires Feasible(sys, run)
    decreases |run|
  {
    if run == [] then Nothing else Spill(sys, run[0]).Plus(Spilled(Do(sys, run[0]), run[1..]))
  }

  /** Credit is neither made nor lost: what is outstanding, with what was spilled, is what was outstanding,
      claimed from the clock and handed back. */
  predicate Balances(sys: System, sys': System, spilled: Charge) {
    && Outstanding(sys').records + sys.claimed.records + sys.refunded.records + spilled.records
       == Outstanding(sys).records + sys'.claimed.records + sys'.refunded.records
    && Outstanding(sys').units + sys.claimed.units + sys.refunded.units + spilled.units
       == Outstanding(sys).units + sys'.claimed.units + sys'.refunded.units
  }

  lemma ThreadBalance(sys: System, sys': System, i: nat, pc: Pc, spilled: Charge)
    requires i < |sys.threads| && sys'.threads == sys.threads[i := pc]
    requires Records(sys'.c.credit) + Pending(pc).records + sys'.charged.records + sys.claimed.records + sys.refunded.records + spilled.records
             == Records(sys.c.credit) + Pending(sys.threads[i]).records + sys.charged.records
                + sys'.claimed.records + sys'.refunded.records
    requires Units(sys'.c.credit) + Pending(pc).units + sys'.charged.units + sys.claimed.units + sys.refunded.units + spilled.units
             == Units(sys.c.credit) + Pending(sys.threads[i]).units + sys.charged.units
                + sys'.claimed.units + sys'.refunded.units
    ensures Balances(sys, sys', spilled)
  {
    PendingUpdate(sys.threads, i, pc);
  }

  lemma MoveBalance(sys: System, i: nat, seen: u64)
    requires Valid(sys) && i < |sys.threads| && !sys.threads[i].Idle?
    ensures Balances(sys, Moved(sys, i, seen), Spill(sys, Move(i, seen)))
  {
    var sys', pc := Moved(sys, i, seen), sys.threads[i];
    if pc.Adding? && sys.c.credit == pc.word {
      AddExact(sys, i, seen);
    } else if pc.Taking? && pc.attempts < MAX_CAS_ATTEMPTS && Take(sys.c, pc.want, pc.word).Some? && sys.c.credit == pc.word {
      TakeExact(sys, i, seen);
    } else {
      assert sys'.c.credit == sys.c.credit && sys'.charged == sys.charged;
    }
    ThreadBalance(sys, sys', i, sys'.threads[i], Spill(sys, Move(i, seen)));
  }

  lemma StepBalance(sys: System, a: Action)
    requires Valid(sys) && Enabled(sys, a)
    ensures Balances(sys, Do(sys, a), Spill(sys, a))
  {
    var sys' := Do(sys, a);
    match a
    case Tick(ns) =>
    case Move(i, seen) =>
      if !sys.threads[i].Idle? {
        MoveBalance(sys, i, seen);
      }
    case Begin(i, bytes, records, essential) => ThreadBalance(sys, sys', i, sys'.threads[i], Nothing);
    case Refund(i) => ThreadBalance(sys, sys', i, sys'.threads[i], Nothing);
  }

  /** Under any interleaving no refill and no refund is dropped: an exchange that loses is made again, and
      only what exceeds the burst is lost. */
  lemma {:induction false} RunBalances(sys: System, run: seq<Action>)
    requires Valid(sys) && Feasible(sys, run)
    ensures Balances(sys, Execute(sys, run), Spilled(sys, run))
    decreases |run|
  {
    if run != [] {
      StepKeeps(sys, run[0]);
      StepBalance(sys, run[0]);
      RunBalances(Do(sys, run[0]), run[1..]);
    }
  }

  /** Credit is spilled only by an addition that leaves that credit at the burst. */
  lemma SpillFills(sys: System, a: Action)
    requires Valid(sys) && Enabled(sys, a)
    ensures Spill(sys, a).records > 0 ==> Records(Do(sys, a).c.credit) == sys.c.maxRecords
    ensures Spill(sys, a).units > 0 ==> Units(Do(sys, a).c.credit) == sys.c.maxUnits
  {
    if a.Move? && sys.threads[a.i].Adding? && sys.c.credit == sys.threads[a.i].word {
      AddExact(sys, a.i, a.seen);
    }
  }

  /** A worker asks in vain exactly when the word it read does not cover it, or after its exchange has lost
      four times; a lost exchange is made again with the word that won. */
  lemma AskExact(sys: System, i: nat, seen: u64)
    requires Valid(sys) && i < |sys.threads| && sys.threads[i].Taking?
    ensures var pc, pc' := sys.threads[i], Moved(sys, i, seen).threads[i];
            && (pc' == Idle(Nothing) <==> pc.attempts >= 4 || Take(sys.c, pc.want, pc.word).None?)
            && (pc'.Taking? <==> pc.attempts < 4 && Take(sys.c, pc.want, pc.word).Some? && sys.c.credit != pc.word)
            && (pc'.Taking? ==> pc' == Taking(pc.want, seen, pc.attempts + 1))
  {
    var pc := sys.threads[i];
    if Take(sys.c, pc.want, pc.word).Some? {
      TakeWithin(sys.c, pc.want, pc.word);
    }
  }

  /** A worker that is about to claim an interval has found it worth something. */
  predicate WorthAt(c: Controller, pc: Pc) {
    pc.Claiming? && pc.last <= pc.now ==> Earned(c, pc.now, pc.last) != Nothing
  }

  predicate Worthwhile(sys: System) {
    forall i :: 0 <= i < |sys.threads| ==> WorthAt(sys.c, sys.threads[i])
  }

  lemma WorthSame(c: Controller, c': Controller, pc: Pc)
    requires SameLimits(c, c') && WorthAt(c, pc)
    ensures WorthAt(c', pc)
  {
    if pc.Claiming? && pc.last <= pc.now {
      assert Earned(c', pc.now, pc.last) == Earned(c, pc.now, pc.last);
    }
  }

  lemma WorthFrame(sys: System, sys': System, i: nat, pc: Pc)
    requires Worthwhile(sys) && SameLimits(sys.c, sys'.c) && i < |sys.threads| && sys'.threads == sys.threads[i := pc] && WorthAt(sys.c, pc)
    ensures Worthwhile(sys')
  {
    forall k | 0 <= k < |sys'.threads| ensures WorthAt(sys'.c, sys'.threads[k]) {
      WorthSame(sys.c, sys'.c, sys'.threads[k]);
    }
  }

  /** The refill clock moves only with a claim, and claims only add up. */
  predicate Claimed(sys: System, sys': System) {
    && sys'.claimed.records >= sys.claimed.records && sys'.claimed.units >= sys.claimed.units
    && (sys'.claimed == sys.claimed ==> sys'.c.last == sys.c.last)
  }

  lemma MoveWorthwhile(sys: System, i: nat, seen: u64)
    requires Valid(sys) && Worthwhile(sys) && i < |sys.threads| && !sys.threads[i].Idle?
    ensures var sys' := Moved(sys, i, seen);
            |sys'.threads| == |sys.threads| && WorthAt(sys.c, sys'.threads[i]) && Claimed(sys, sys')
            && SameLimits(sys.c, sys'.c) && sys'.threads == sys.threads[i := sys'.threads[i]]
  {
    assert ThreadOk(sys.threads[i], sys.clock) && WorthAt(sys.c, sys.threads[i]);
    match sys.threads[i]
    case Claiming(want, now, last) => ClaimWorthwhile(sys, i, seen);
    case Clocked(want, now) =>
    case _ =>
  }

  lemma ClaimWorthwhile(sys: System, i: nat, seen: u64)
    requires Valid(sys) && i < |sys.threads| && sys.threads[i].Claiming?
    requires ThreadOk(sys.threads[i], sys.clock) && WorthAt(sys.c, sys.threads[i])
    ensures var sys' := Moved(sys, i, seen);
            |sys'.threads| == |sys.threads| && WorthAt(sys.c, sys'.threads[i]) && Claimed(sys, sys')
            && SameLimits(sys.c, sys'.c) && sys'.threads == sys.threads[i := sys'.threads[i]]
  {
    var add := Earned(sys.c, sys.threads[i].now, sys.threads[i].last);
    assert add.records > 0 || add.units > 0;
  }

  lemma WorthwhileStep(sys: System, a: Action)
    requires Valid(sys) && Enabled(sys, a) && Worthwhile(sys)
    ensures Worthwhile(Do(sys, a)) && Claimed(sys, Do(sys, a))
  {
    var sys' := Do(sys, a);
    match a
    case Tick(ns) =>
    case Move(i, seen) =>
      if !sys.threads[i].Idle? {
        MoveWorthwhile(sys, i, seen);
        WorthFrame(sys, sys', i, sys'.threads[i]);
      }
    case Begin(i, bytes, records, essential) => WorthFrame(sys, sys', i, sys'.threads[i]);
    case Refund(i) => WorthFrame(sys, sys', i, sys'.threads[i]);
  }

  /** Refills that are worth nothing do not use up the time they looked at: over every run the refill clock
      advances only where credit was claimed. */
  lemma {:induction false} TimeNotBurnt(sys: System, run: seq<Action>)
    requires Valid(sys) && Worthwhile(sys) && Feasible(sys, run)
    ensures Claimed(sys, Execute(sys, run))
    decreases |run|
  {
    if run != [] {
      StepKeeps(sys, run[0]);
      WorthwhileStep(sys, run[0]);
      TimeNotBurnt(Do(sys, run[0]), run[1..]);
    }
  }

  lemma StartWorthwhile(c: Controller, n: nat)
    ensures Worthwhile(Start(c, n))
  {
    RestingIdle(n);
  }
}
