/** What the pump's and the handlers' own records tell, in every history. */
module DeliveryCounters {
  import opened Prelude
  import C = Clock
  import opened UsbHostModel
  import H = HostRuns
  import opened Timer
  import opened Delivery
  import opened DeliveryRuns

  // ----- every interrupt queued is counted, and every one held back -----

  /** How often an event newly queued `irq`. */
  function QueuedNow(before: seq<int>, after: seq<int>, irq: int): nat {
    if irq in after && irq !in before then 1 else 0
  }

  function QueuedIn(r: History, irq: int): nat {
    match r
    case From(_) => 0
    case Then(before, _) => QueuedIn(before, irq) + QueuedNow(End(before).line.pending, End(r).line.pending, irq)
  }

  /** How often a breakpoint of the context switch took a peripheral interrupt off the list. */
  function HeldBack(r: History): nat {
    match r
    case From(_) => 0
    case Then(before, e) =>
      var was, now := End(before).line.pending, End(r).line.pending;
      HeldBack(before)
      + if (e.EnterSwitch? || e.SwitchSpin?) && was != [] && was[0] != NMI_IRQ && was[0] !in now then 1 else 0
  }

  /** The counters agree with what happened to the list. */
  ghost predicate Tally(m: Machine, m': Machine, usb: nat, tim: nat, nmi: nat, held: nat) {
    && m'.line.pump.delivered == m.line.pump.delivered + usb && m'.tim2Delivered == m.tim2Delivered + tim
    && m'.switches == m.switches + nmi && m'.deferred == m.deferred + held
  }

  /** `delivered`, `tim2_delivered` and `switches` count the interrupts 31, 15 and NMI queued, and
      `deferred` those held back, in every history. */
  lemma {:induction false} CountersTell(r: History)
    requires |Start(r).line.pending| <= 1
    ensures |End(r).line.pending| <= 1
    ensures Tally(Start(r), End(r), QueuedIn(r, USB_IRQ), QueuedIn(r, TIM2_IRQ), QueuedIn(r, NMI_IRQ), HeldBack(r))
  {
    hide Apply;
    match r
    case From(_) =>
    case Then(before, e) =>
      CountersTell(before);
      EventKeepsOne(End(before), e);
      EventTallies(End(before), e);
  }

  lemma EventTallies(m: Machine, e: Event)
    requires |m.line.pending| <= 1
    ensures var m' := Apply(m, e); var was, now := m.line.pending, m'.line.pending;
            Tally(m, m', QueuedNow(was, now, USB_IRQ), QueuedNow(was, now, TIM2_IRQ), QueuedNow(was, now, NMI_IRQ),
                  if (e.EnterSwitch? || e.SwitchSpin?) && was != [] && was[0] != NMI_IRQ && was[0] !in now then 1 else 0)
  {
    hide Step, PumpCall, AfterIdleTime, H.Apply, Cleared, Foreign;
    if e.Pumps() {
      var pumped := PumpCall(PrePump(m, e), e.IdleVisit?, e.UsbSlot()).line;
      PumpTallies(PrePump(m, e), e.IdleVisit?, e.UsbSlot());
      if e.IdleVisit? {
        PumpEffects(PrePump(m, e), true, e.slot31);
        IdleTallies(m.(line := pumped), e.slot15);
      }
    } else if e.EnterSwitch? {
      ClearTallies(m.(line := AfterInhibit(m.line, true)));
    } else if e.SwitchSpin? {
      ClearTallies(m);
    }
  }

  lemma PumpTallies(l: LineState, force: bool, slot: Slot)
    requires |l.pending| <= 1
    ensures var l' := PumpCall(l, force, slot).line;
            && l'.pump.delivered == l.pump.delivered + QueuedNow(l.pending, l'.pending, USB_IRQ)
            && QueuedNow(l.pending, l'.pending, TIM2_IRQ) == 0 && QueuedNow(l.pending, l'.pending, NMI_IRQ) == 0
  {
    hide Step;
  }

  lemma IdleTallies(m: Machine, slot: Slot)
    ensures var m' := AfterIdleTime(m, slot);
            && m'.tim2Delivered == m.tim2Delivered + QueuedNow(m.line.pending, m'.line.pending, TIM2_IRQ)
            && m'.line.pump == m.line.pump && m'.switches == m.switches && m'.deferred == m.deferred
            && (m'.line.pending == m.line.pending || (m.line.pending == [] && m'.line.pending == [TIM2_IRQ]))
  {
  }

  lemma ClearTallies(m: Machine)
    requires |m.line.pending| <= 1
    ensures var m', was := Cleared(m), m.line.pending;
            var foreign := was != [] && was[0] != NMI_IRQ;
            && m'.line.pending == (if foreign then [] else was)
            && m'.deferred == m.deferred + (if foreign then 1 else 0)
            && m'.line.pump == m.line.pump && m'.switches == m.switches && m'.tim2Delivered == m.tim2Delivered
  {
    if m.line.pending != [] { assert m.line.pending[..0] == []; assert Foreign(m.line.pending[..0]) == 0; }
  }

  /** On any list at all, what a handler of the context switch holds back is every entry that is
      not the NMI, and the NMI goes with them. */
  lemma HoldsBackTheForeign(m: Machine)
    ensures var q, m' := m.line.pending, Cleared(m);
            var foreign := |q| - multiset(q)[NMI_IRQ];
            && m'.deferred == m.deferred + foreign && m'.line.pending == (if foreign == 0 then q else [])
  {
    ForeignCounts(m.line.pending);
  }

  lemma {:induction false} ForeignCounts(q: seq<int>)
    ensures Foreign(q) + multiset(q)[NMI_IRQ] == |q|
  {
    if q != [] {
      ForeignCounts(q[..|q| - 1]);
      assert q == q[..|q| - 1] + [q[|q| - 1]];
    }
  }

  // ----- the vector is read once -----

  /** A pump call that is about to queue IRQ 31, if the vector allows. */
  predicate WouldRaise(l: LineState, force: bool) {
    && Runs(l.pump, force) && l.bus.usb.enabled && l.pump.budget <= 1 && l.pending == []
    && (H.DrivesWire(l.bus) || (SofDue(l) && !H.StepFails(l.bus)))
  }

  /** The first word such a call could read of the vector slot, in the whole history. */
  function FirstVerdict(r: History): Option<bool> {
    match r
    case From(m) => m.line.pump.vectorOk
    case Then(before, e) =>
      if FirstVerdict(before) == None && e.Pumps() && WouldRaise(PrePump(End(before), e), e.IdleVisit?)
         && e.UsbSlot().Word?
      then Some(e.UsbSlot().value != 0)
      else FirstVerdict(before)
  }

  /** The verdict on the vector is that of the first call that needed it and could read it, and
      is never taken back; a failed read decides nothing. */
  lemma {:induction false} FirstVerdictStands(r: History)
    ensures End(r).line.pump.vectorOk == FirstVerdict(r)
  {
    hide Step, PumpCall, AfterIdleTime, H.Apply, Cleared, WouldRaise;
    match r
    case From(_) =>
    case Then(before, e) =>
      FirstVerdictStands(before);
      var m := End(before);
      if e.Pumps() {
        PumpVerdict(PrePump(m, e), e.IdleVisit?, e.UsbSlot());
        if e.IdleVisit? { IdleTimeKeeps(m.(line := PumpCall(PrePump(m, e), true, e.slot31).line), e.slot15); }
      }
      ClearedKeeps(m.(line := AfterInhibit(m.line, true)));
      ClearedKeeps(m);
  }

  lemma PumpVerdict(l: LineState, force: bool, slot: Slot)
    ensures PumpCall(l, force, slot).line.pump.vectorOk
         == (if l.pump.vectorOk == None && WouldRaise(l, force) && slot.Word? then Some(slot.value != 0)
             else l.pump.vectorOk)
  {
    hide Step, H.DrivesWire, H.StepFails;
    var framed := AfterFrame(l.(pump := CountCall(Spend(l.pump), force)));
    H.SofForesees(l.bus);
    H.StepForeseen(framed.bus);
    DrivesOrFails(l.bus);
  }

  // ----- what an idle visit does to time -----

  /** An idle visit that does not fail moves time by one tick with no alarm set, to the alarm with
      one set less than half a turn ahead, and not at all otherwise; `jumps` counts the second
      kind, and `deferred_ticks` the ticks injected late. */
  lemma IdleMovesTime(m: Machine, slot31: Slot, slot15: Slot)
    requires m.line.clock.Valid() && !(m.line.bus.usb.enabled && H.StepFails(m.line.bus))
    ensures var c, m', d := m.line.clock, AfterIdle(m, slot31, slot15), AlarmDeadline(m.tim);
            var ahead := if d.Some? then C.Mask32(d.value - c.ticks) else 0;
            var jumped := !m.tim.pendingIrq && d.Some? && 0 < ahead < C.HALF;
            && m'.line.clock.time == c.time + (if jumped then ahead else if !m.tim.pendingIrq && d.None? then 1 else 0)
            && m'.line.clock.Valid()
            && m'.jumps == m.jumps + (if jumped then 1 else 0)
            && m'.deferredTicks == m.deferredTicks + (if m.tim.pendingIrq then m'.tim2Delivered - m.tim2Delivered else 0)
  {
    hide PumpCall, AfterIdleTime, H.StepFails;
    ForcedPumpLeaves(m.line, slot31);
    var l := PrePump(m, IdleVisit(slot31, slot15));
    PumpEffects(l, true, slot31);
    IdleTimeMoves(m.(line := PumpCall(l, true, slot31).line), slot15);
    IdleTimeRefines(m.(line := PumpCall(l, true, slot31).line), slot15);
  }

  lemma IdleTimeMoves(m: Machine, slot: Slot)
    requires m.line.clock.Valid()
    ensures var c, m', d := m.line.clock, AfterIdleTime(m, slot), AlarmDeadline(m.tim);
            var ahead := if d.Some? then C.Mask32(d.value - c.ticks) else 0;
            var jumped := !m.tim.pendingIrq && d.Some? && 0 < ahead < C.HALF;
            && m'.line.clock.time == c.time + (if jumped then ahead else if !m.tim.pendingIrq && d.None? then 1 else 0)
            && m'.jumps == m.jumps + (if jumped then 1 else 0)
            && m'.deferredTicks == m.deferredTicks + (if m.tim.pendingIrq then m'.tim2Delivered - m.tim2Delivered else 0)
  {
    if AlarmDeadline(m.tim).Some? { C.CatchUpStopsAt(m.line.clock, AlarmDeadline(m.tim).value); }
  }

  // ----- the timer's registers -----

  /** The last value written to a register of TIM2. */
  function LastTim2(r: History, reg: nat): Option<nat> {
    match r
    case From(_) => None
    case Then(before, e) => if e.Tim2Write? && e.reg == reg then Some(e.word32) else LastTim2(before, reg)
  }

  /** The alarm stands at the last CCR1 written, while the last DIER written has the compare bit. */
  lemma {:induction false} AlarmIsAsWritten(r: History)
    ensures LastTim2(r, CCR1).Some? ==> End(r).tim.ccr1 == LastTim2(r, CCR1).value % 0x1_0000_0000
    ensures LastTim2(r, DIER).Some? ==> (End(r).tim.armed <==> LastTim2(r, DIER).value / 2 % 2 == 1)
  {
    hide Step, PumpCall, AfterIdleTime, H.Apply, Cleared;
    match r
    case From(_) =>
    case Then(before, e) =>
      AlarmIsAsWritten(before);
      var m := End(before);
      if e.IdleVisit? { IdleFlags(m.(line := PumpCall(PrePump(m, e), true, e.slot31).line), e.slot15); }
      ClearedKeeps(m.(line := AfterInhibit(m.line, true)));
      ClearedKeeps(m);
  }
}
