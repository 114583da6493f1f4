/** The 32-bit 10 kHz time base every model shares (guest_clock.py).

    The counter wraps.  `ClockState.time` is the unbounded time it stands for: the code
    never stores it, and the class below keeps it as a ghost field. */
module Clock {

  const WRAP: nat := 0x1_0000_0000
  const HALF: nat := 0x8000_0000
  const ACTIVITY_PER_TICK: nat := 64

  /** `x & 0xFFFFFFFF`, also for a negative difference. */
  function Mask32(x: int): (r: nat)
    ensures r < WRAP
  {
    x % WRAP
  }

  /** True once `now` has reached `deadline`, by signed 32-bit difference. */
  predicate ElapsedGe(now: int, deadline: int) {
    Mask32(now - deadline) < HALF
  }

  datatype ClockState = ClockState(ticks: nat, activity: nat, time: nat) {
    ghost predicate Valid() {
      ticks == time % WRAP && activity < ACTIVITY_PER_TICK
    }
  }

  const CLOCK_RESET := ClockState(0, 0, 0)

  datatype ClockOp = Activity(n: nat) | CatchUp(deadline: nat) | Advance(n: nat)

  function Apply(c: ClockState, op: ClockOp): ClockState {
    match op
    case Activity(n) => AfterActivity(c, n)
    case CatchUp(deadline) => AfterCatchUp(c, deadline)
    case Advance(n) => AfterAdvance(c, n)
  }

  function AfterActivity(c: ClockState, n: nat): ClockState {
    var whole := (c.activity + n) / ACTIVITY_PER_TICK;
    ClockState(Mask32(c.ticks + whole), (c.activity + n) % ACTIVITY_PER_TICK, c.time + whole)
  }

  /** How far ahead of the counter a deadline lies, if catch_up_to would move there. */
  function Lead(c: ClockState, deadline: nat): nat {
    var delta := Mask32(deadline - c.ticks);
    if delta < HALF then delta else 0
  }

  function AfterCatchUp(c: ClockState, deadline: nat): ClockState {
    if Lead(c, deadline) == 0 then c
    else c.(ticks := Mask32(deadline), time := c.time + Lead(c, deadline))
  }

  function AfterAdvance(c: ClockState, n: nat): ClockState {
    c.(ticks := Mask32(c.ticks + n), time := c.time + n)
  }

  // ----- the counter refines an unbounded, monotone time -----

  /** Two values congruent modulo 2^32 mask to the same counter value. */
  lemma MaskCongruent(a: int, b: int, k: int)
    requires a == b + k * WRAP
    ensures Mask32(a) == Mask32(b)
  {
  }

  /** A value within one turn of zero masks by a single wrap. */
  lemma MaskNear(x: int)
    requires 0 - WRAP <= x < WRAP
    ensures Mask32(x) == if x < 0 then x + WRAP else x
  {
    if x < 0 { MaskCongruent(x, x + WRAP, -1); }
  }

  /** elapsed_ge, handed two masked times, sees only their true difference modulo 2^32. */
  lemma ElapsedGeSeesDifference(T: nat, D: nat)
    ensures ElapsedGe(T % WRAP, D % WRAP) <==> (T as int - D as int) % WRAP < HALF
  {
    MaskCongruent(T - D, T % WRAP - D % WRAP, T / WRAP - D / WRAP);
  }

  /** Exactly the window in which the masked comparison is the true one: it agrees with
      `T >= D` for every pair up to 2^31 apart, except a deadline passed by exactly 2^31. */
  lemma ElapsedGeDecides(T: nat, D: nat)
    requires D - HALF <= T <= D + HALF
    ensures (ElapsedGe(T % WRAP, D % WRAP) <==> T >= D) <==> T != D + HALF
  {
    ElapsedGeSeesDifference(T, D);
    MaskNear(T - D);
  }

  lemma StepRefinesTime(c: ClockState, op: ClockOp)
    requires c.Valid()
    ensures Apply(c, op).Valid() && c.time <= Apply(c, op).time
  {
    var d := Apply(c, op);
    match op
    case Activity(n) =>
      var whole := (c.activity + n) / ACTIVITY_PER_TICK;
      MaskCongruent(c.time + whole, c.ticks + whole, c.time / WRAP);
    case Advance(n) =>
      MaskCongruent(c.time + n, c.ticks + n, c.time / WRAP);
    case CatchUp(deadline) =>
      if Lead(c, deadline) != 0 {
        var q := (deadline - c.ticks) / WRAP;
        assert deadline - c.ticks == q * WRAP + Lead(c, deadline);
        MaskCongruent(c.time + Lead(c, deadline), deadline, c.time / WRAP - q);
      }
  }

  /** catch_up_to stops at the first moment the counter shows the deadline, if that is less than
      half a turn away, and stays where it is otherwise. */
  lemma CatchUpStopsAt(c: ClockState, deadline: nat)
    requires c.Valid()
    ensures var c', ahead := AfterCatchUp(c, deadline), Mask32(deadline - c.ticks);
            && c'.time == c.time + (if ahead < HALF then ahead else 0) && c'.activity == c.activity
            && (ahead < HALF ==> c'.ticks == Mask32(deadline))
            && (ahead < HALF ==> forall t :: c.time <= t < c'.time ==> t % WRAP != Mask32(deadline))
            && (ahead >= HALF ==> c' == c)
  {
    var c', ahead := AfterCatchUp(c, deadline), Mask32(deadline - c.ticks);
    StepRefinesTime(c, CatchUp(deadline));
    if ahead == 0 { MaskCongruent(deadline, c.ticks, (deadline - c.ticks) / WRAP); }
    if ahead < HALF {
      forall t | c.time <= t < c'.time ensures t % WRAP != Mask32(deadline) {
        assert c'.time % WRAP == Mask32(deadline);
        SameResidue(t, c'.time);
      }
    }
  }

  lemma SameResidue(a: nat, b: nat)
    requires a < b < a + WRAP
    ensures a % WRAP != b % WRAP
  {
    var d := b / WRAP - a / WRAP;
    assert b - a == WRAP * d + (b % WRAP - a % WRAP);
  }

  /** Splitting one burst of activity into two calls changes nothing. */
  lemma ActivitySplits(c: ClockState, a: nat, b: nat)
    ensures AfterActivity(AfterActivity(c, a), b) == AfterActivity(c, a + b)
  {
    var whole := (c.activity + a) / ACTIVITY_PER_TICK;
    var rest := (c.activity + a) % ACTIVITY_PER_TICK;
    assert (c.activity + a + b) == whole * ACTIVITY_PER_TICK + rest + b;
    var more := (rest + b) / ACTIVITY_PER_TICK;
    assert (c.activity + a + b) / ACTIVITY_PER_TICK == whole + more;
    var q := (c.ticks + whole) / WRAP;
    MaskCongruent(c.ticks + whole + more, Mask32(c.ticks + whole) + more, q);
  }

  /** A history of clock operations. */
  datatype ClockRun = Init | Next(before: ClockRun, op: ClockOp)

  function End(r: ClockRun): ClockState {
    match r
    case Init => CLOCK_RESET
    case Next(before, op) => Apply(End(before), op)
  }

  /** MMIO accesses reported so far. */
  function Accesses(r: ClockRun): nat {
    match r
    case Init => 0
    case Next(before, op) => Accesses(before) + if op.Activity? then op.n else 0
  }

  /** Ticks added by the idle seam so far: jumps to a deadline, and drips. */
  function Jumped(r: ClockRun): nat {
    match r
    case Init => 0
    case Next(before, op) =>
      Jumped(before) +
      match op
      case Activity(_) => 0
      case CatchUp(deadline) => Lead(End(before), deadline)
      case Advance(n) => n
  }

  /** Over every run the counter is the unbounded time modulo 2^32, and no access is
      lost or counted twice by the batching, however the calls were split. */
  lemma {:induction false} ActivityIsExact(r: ClockRun)
    ensures End(r).Valid()
    ensures 64 * End(r).time + End(r).activity == Accesses(r) + 64 * Jumped(r)
  {
    match r
    case Init =>
    case Next(before, op) =>
      ActivityIsExact(before);
      StepRefinesTime(End(before), op);
  }

  /** After catch_up_to(d) the deadline counts as reached, exactly unless it lay 2^31 ahead. */
  lemma CatchUpReaches(c: ClockState, deadline: nat)
    requires c.Valid()
    ensures ElapsedGe(AfterCatchUp(c, deadline).ticks, deadline)
       <==> Mask32(deadline - c.ticks) != HALF
  {
    var delta := Mask32(deadline - c.ticks);
    if Lead(c, deadline) != 0 {
      MaskCongruent(Mask32(deadline) - deadline, 0, -(deadline / WRAP));
    } else if delta == 0 {
      MaskCongruent(c.ticks - deadline, 0, -((deadline - c.ticks) / WRAP));
    } else {
      MaskCongruent(c.ticks - deadline, WRAP - delta, -((deadline - c.ticks) / WRAP) - 1);
    }
  }

  /** The shared clock object.  `time` is ghost: the unbounded time it stands for. */
  class GuestClock {
    var ticks: nat
    var activity: nat
    ghost var time: nat

    ghost function State(): ClockState
      reads this
    {
      ClockState(ticks, activity, time)
    }

    ghost predicate Valid()
      reads this
    {
      State().Valid()
    }

    constructor ()
      ensures State() == CLOCK_RESET && Valid()
    {
      ticks, activity, time := 0, 0, 0;
    }

    method AdvanceFromActivity(n: nat)
      requires Valid()
      modifies this
      ensures Valid() && State() == AfterActivity(old(State()), n)
    {
      StepRefinesTime(State(), Activity(n));
      activity := activity + n;
      if activity >= ACTIVITY_PER_TICK {
        time := time + activity / ACTIVITY_PER_TICK;
        ticks := Mask32(ticks + activity / ACTIVITY_PER_TICK);
        activity := activity % ACTIVITY_PER_TICK;
      }
    }

    method CatchUpTo(deadline: nat) returns (moved: bool)
      requires Valid()
      modifies this
      ensures Valid() && State() == AfterCatchUp(old(State()), deadline)
      ensures moved <==> time != old(time)
    {
      StepRefinesTime(State(), CatchUp(deadline));
      var delta := Mask32(deadline - ticks);
      if delta == 0 || delta >= HALF {
        return false;
      }
      ticks := Mask32(deadline);
      time := time + delta;
      return true;
    }

    method AdvanceBy(n: nat)
      requires Valid()
      modifies this
      ensures Valid() && State() == AfterAdvance(old(State()), n)
    {
      StepRefinesTime(State(), Advance(n));
      ticks := Mask32(ticks + n);
      time := time + n;
    }
  }
}
