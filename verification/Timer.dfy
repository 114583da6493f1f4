/** TIM2, the tickless time base's one-shot compare (stm32f0_timers.py). */
module Timer {
  import opened Prelude
  import opened Clock

  const DIER: nat := 0x0C
  const SR: nat := 0x10
  const CCR1: nat := 0x34

  /** Bit 1 of a register value: DIER.CC1IE, and SR.CC1IF. */
  predicate Bit1(value: nat) {
    value / 2 % 2 == 1
  }

  datatype TimState = TimState(
    armed: bool, ccr1: nat, fired: Option<nat>, cc1if: bool, compares: nat, pendingIrq: bool)

  const TIMER_RESET := TimState(false, 0, None, false, 0, false)

  /** The compare the kernel is waiting for, unless it has been delivered already. */
  function AlarmDeadline(t: TimState): Option<nat> {
    if !t.armed || t.fired == Some(t.ccr1) then None else Some(Mask32(t.ccr1))
  }

  predicate Reached(t: TimState, now: nat) {
    AlarmDeadline(t).Some? && ElapsedGe(now, AlarmDeadline(t).value)
  }

  function AfterPoll(t: TimState, now: nat): TimState {
    if Reached(t, now)
    then t.(fired := Some(t.ccr1), cc1if := true, compares := t.compares + 1, pendingIrq := true)
    else t
  }

  function AfterTimWrite(t: TimState, off: nat, value: nat): TimState {
    if off == SR then t.(cc1if := t.cc1if && Bit1(value))
    else if off == CCR1 then t.(ccr1 := Mask32(value), fired := None)
    else if off == DIER then t.(armed := Bit1(value), fired := if Bit1(value) && !t.armed then None else t.fired)
    else t
  }

  class Tim2 {
    var armed: bool
    var ccr1: nat
    var fired: Option<nat>
    var cc1if: bool
    var compares: nat
    var pendingIrq: bool

    ghost function State(): TimState
      reads this
    {
      TimState(armed, ccr1, fired, cc1if, compares, pendingIrq)
    }

    constructor ()
      ensures State() == TIMER_RESET
    {
      armed, ccr1, fired, cc1if, compares, pendingIrq := false, 0, None, false, 0, false;
    }

    method Deadline() returns (deadline: Option<nat>)
      ensures deadline == AlarmDeadline(State())
    {
      if !armed {
        return None;
      }
      if fired.Some? && fired.value == ccr1 {
        return None;
      }
      return Some(Mask32(ccr1));
    }

    method PollCompare(clock: GuestClock) returns (reached: bool)
      modifies this
      ensures State() == AfterPoll(old(State()), clock.ticks)
      ensures reached <==> Reached(old(State()), clock.ticks)
    {
      var deadline := Deadline();
      if deadline.None? || !ElapsedGe(clock.ticks, deadline.value) {
        return false;
      }
      fired := Some(ccr1);
      cc1if := true;
      compares := compares + 1;
      pendingIrq := true;
      return true;
    }

    method TakePendingIrq() returns (taken: bool)
      modifies this`pendingIrq
      ensures taken <==> old(pendingIrq)
      ensures !pendingIrq
    {
      taken := pendingIrq;
      pendingIrq := false;
    }

    method HwWrite(off: nat, value: nat)
      modifies this
      ensures State() == AfterTimWrite(old(State()), off, value)
    {
      if off == SR {
        cc1if := cc1if && Bit1(value);
      } else if off == CCR1 {
        ccr1 := Mask32(value);
        fired := None;
      } else if off == DIER {
        var was := armed;
        armed := Bit1(value);
        if armed && !was {
          fired := None;
        }
      }
    }
  }
}
