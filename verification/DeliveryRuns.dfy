/** The whole machine, in any order of events: firmware register accesses, the accesses that
    step the pump, the three breakpoints, client requests, and the backend draining its list. */
module DeliveryRuns {
  import opened Prelude
  import opened Clock
  import opened UsbBlock
  import opened UsbHostModel
  import H = HostRuns
  import opened Timer
  import opened Delivery

  datatype Event =
    | CpuUsbWrite(off: nat, value: bv16)
    | CpuUsbRead
    | CpuPmaWrite(offset: nat, size: nat, word: nat)
    | Queued(tag: string, bm: int, req: int, wValue: int, wIndex: int, wLength: int, out: seq<byte>)
    | OtherAccess(n: nat)
    | GpioAccess(slot: Slot)
    | Tim2Count(slot: Slot)
    | Tim2Write(reg: nat, word32: nat)
    | IdleVisit(slot31: Slot, slot15: Slot)
    | EnterSwitch
    | SwitchSpin
    | Drain(taken: nat)
  {
    /** This event calls the pump. */
    predicate Pumps() {
      GpioAccess? || Tim2Count? || IdleVisit?
    }

    function UsbSlot(): Slot
      requires Pumps()
    {
      if IdleVisit? then slot31 else slot
    }
  }

  function WithClock(m: Machine, c: ClockState): Machine {
    m.(line := m.line.(clock := c))
  }

  function WithBus(m: Machine, b: Bus): Machine {
    m.(line := m.line.(bus := b))
  }

  /** The machine at the moment an event calls the pump. */
  function PrePump(m: Machine, e: Event): LineState {
    match e
    case GpioAccess(_) => m.line.(clock := AfterActivity(m.line.clock, 1))
    case IdleVisit(_, _) => AfterInhibit(m.line, false)
    case _ => m.line
  }

  function Apply(m: Machine, e: Event): Machine {
    match e
    case CpuUsbWrite(off, value) =>
      WithClock(WithBus(m, H.Apply(m.line.bus, H.UsbWrite(off, value))),
                if off < BLOCK_SIZE then AfterActivity(m.line.clock, 1) else m.line.clock)
    case CpuUsbRead => WithClock(m, AfterActivity(m.line.clock, 1))
    case CpuPmaWrite(offset, size, word) => WithBus(m, H.Apply(m.line.bus, H.PmaWrite(offset, size, word)))
    case Queued(tag, bm, req, v, i, l, out) => WithBus(m, H.Apply(m.line.bus, H.Request(tag, bm, req, v, i, l, out)))
    case OtherAccess(n) => WithClock(m, AfterActivity(m.line.clock, n))
    case GpioAccess(slot) => m.(line := PumpCall(PrePump(m, e), false, slot).line)
    case Tim2Count(slot) => m.(line := PumpCall(PrePump(m, e), false, slot).line)
    case Tim2Write(reg, word32) => m.(tim := AfterTimWrite(m.tim, reg, word32))
    case IdleVisit(slot31, slot15) => AfterIdle(m, slot31, slot15)
    case EnterSwitch => AfterEntering(m)
    case SwitchSpin => AfterSwitch(m)
    case Drain(n) => m.(line := m.line.(pending := m.line.pending[Min(n, |m.line.pending|)..]))
  }

  datatype History = From(machine: Machine) | Then(before: History, event: Event)

  function Start(r: History): Machine {
    match r case From(m) => m case Then(before, _) => Start(before)
  }

  function End(r: History): Machine {
    match r case From(m) => m case Then(before, e) => Apply(End(before), e)
  }

  // ----- the bus inside the machine makes a run of its own -----

  function PumpRun(b: H.Run, l: LineState, force: bool): H.Run {
    if !Runs(l.pump, force) || !l.bus.usb.enabled then b
    else H.Next(if SofDue(l) then H.Next(b, H.Sof) else b, H.HostStep)
  }

  function BusRun(r: History): H.Run {
    match r
    case From(m) => H.Init(m.line.bus)
    case Then(before, e) =>
      match e
      case CpuUsbWrite(off, value) => H.Next(BusRun(before), H.UsbWrite(off, value))
      case CpuPmaWrite(offset, size, word) => H.Next(BusRun(before), H.PmaWrite(offset, size, word))
      case Queued(tag, bm, req, v, i, l, out) => H.Next(BusRun(before), H.Request(tag, bm, req, v, i, l, out))
      case _ => if e.Pumps() then PumpRun(BusRun(before), PrePump(End(before), e), e.IdleVisit?) else BusRun(before)
  }

  /** The USB vector is known to be installed, or this call reads it and finds it so. */
  predicate Wired(ok: Option<bool>, slot: Slot) {
    ok == Some(true) || (ok == None && slot.Word? && slot.value != 0)
  }

  /** What one pump call does, whichever way it goes. */
  lemma PumpEffects(l: LineState, force: bool, slot: Slot)
    ensures var l' := PumpCall(l, force, slot).line;
            && l'.clock == l.clock && l'.pump.budget == Spend(l.pump).budget
            && (l'.pending == l.pending || (l.pending == [] && l'.pending == [USB_IRQ] && l.pump.budget <= 1))
            && l'.pump.nextSof == (if Runs(l.pump, force) && l.bus.usb.enabled && SofDue(l)
                                   then Mask32(l.clock.ticks + SOF_PERIOD_TICKS) else l.pump.nextSof)
  {
    hide Step;
  }

  lemma PumpBus(b: H.Run, l: LineState, force: bool, slot: Slot)
    requires H.End(b) == l.bus
    ensures H.End(PumpRun(b, l, force)) == PumpCall(l, force, slot).line.bus
    ensures H.Start(PumpRun(b, l, force)) == H.Start(b)
  {
    hide Step;
  }

  /** Every law of bus runs is a law of the machine: its bus is the end of a bus run. */
  lemma {:induction false} BusIsARun(r: History)
    ensures H.End(BusRun(r)) == End(r).line.bus && H.Start(BusRun(r)) == Start(r).line.bus
  {
    hide Step, PumpCall, PumpRun, AfterIdleTime, H.Apply, Cleared;
    match r
    case From(_) =>
    case Then(before, e) =>
      BusIsARun(before);
      var m := End(before);
      if e.Pumps() {
        PumpBus(BusRun(before), PrePump(m, e), e.IdleVisit?, e.UsbSlot());
        if e.IdleVisit? { IdleTimeKeeps(m.(line := PumpCall(PrePump(m, e), true, e.slot31).line), e.slot15); }
      }
      ClearedKeeps(m.(line := AfterInhibit(m.line, true)));
      ClearedKeeps(m);
  }

  lemma IdleTimeKeeps(m: Machine, slot: Slot)
    ensures var m' := AfterIdleTime(m, slot);
            && m'.line.bus == m.line.bus && m'.line.pump == m.line.pump
            && m'.line.clock.time >= m.line.clock.time
            && (m'.line.pending == m.line.pending || (m.line.pending == [] && m'.line.pending == [TIM2_IRQ]))
  {
  }

  lemma ClearedKeeps(m: Machine)
    ensures var m' := Cleared(m);
            && m'.line.bus == m.line.bus && m'.line.pump == m.line.pump && m'.line.clock == m.line.clock
            && m'.tim == m.tim && m'.tim2Delivered == m.tim2Delivered
            && (m'.line.pending == [] || (m'.line.pending == m.line.pending && Foreign(m.line.pending) == 0))
  {
  }

  /** In every history of the whole machine, from any state in which it holds, no endpoint ever
      has two unserviced transactions. */
  lemma MachineKeepsExclusion(r: History)
    requires H.Exclusive(Start(r).line.bus.usb)
    ensures H.Exclusive(End(r).line.bus.usb)
  {
    BusIsARun(r);
    H.NeverBothFlags(BusRun(r));
  }

  /** In every history in which no start failed, no transfer is lost, repeated or reordered. */
  lemma MachineConservesTransfers(r: History)
    requires H.HostInv(Start(r).line.bus.host) && H.NoFailedStart(BusRun(r))
    ensures H.AllTags(End(r).line.bus.host) == H.AllTags(Start(r).line.bus.host) + H.Enqueued(BusRun(r))
  {
    BusIsARun(r);
    H.TransfersConserved(BusRun(r));
  }

  /** And in every history at all, each is answered, current, waiting or displaced, once, and
      those not displaced are in order. */
  lemma MachineAccountsTransfers(r: History)
    requires H.OnWire(Start(r).line.bus.host)
    ensures multiset(H.AllTags(End(r).line.bus.host)) + multiset(H.Displacements(BusRun(r)))
         == multiset(H.AllTags(Start(r).line.bus.host)) + multiset(H.Enqueued(BusRun(r)))
    ensures H.Subsequence(H.AllTags(End(r).line.bus.host), H.AllTags(Start(r).line.bus.host) + H.Enqueued(BusRun(r)))
  {
    BusIsARun(r);
    H.TransfersAccounted(BusRun(r));
  }

  // ----- from power-on -----

  function PowerOn(script: seq<Xfer>): Machine {
    var bus := Bus(FreshHost(script), USB_RESET, seq(PMA_SIZE, _ => 0));
    Machine(LineState(bus, CLOCK_RESET, PumpState(0, 0, 0, None, 0), []), TIMER_RESET, 0, 0, 0, 0, 0)
  }

  /** The machine as it is constructed meets the start conditions of every law here and of the
      bus run inside it. */
  lemma PowerOnMeetsLaws(script: seq<Xfer>)
    requires H.FreshQueue(script)
    ensures var m := PowerOn(script); var b := m.line.bus;
            && H.HostInv(b.host) && H.OnWire(b.host) && b.host.cur.None? && H.Exclusive(b.usb)
            && b.usb.Btable() + 32 <= |b.mem| && |b.mem| >= PMA_SIZE
            && m.line.clock.Valid() && m.line.pending == [] && m.line.pump.budget <= INHIBIT_BUDGET
            && Owed(m.tim) == 0 && Standing(m.tim) == 0
  {
    assert forall ep :: 0 <= ep < 8 ==> !USB_RESET.epr[ep].ctrRx;
  }

  // ----- the pending list -----

  /** One event leaves at most one entry if there was at most one. */
  lemma EventKeepsOne(m: Machine, e: Event)
    requires |m.line.pending| <= 1
    ensures |Apply(m, e).line.pending| <= 1
  {
    hide Step, PumpCall, AfterIdleTime, H.Apply, Cleared;
    if e.Pumps() {
      PumpEffects(PrePump(m, e), e.IdleVisit?, e.UsbSlot());
      if e.IdleVisit? { IdleTimeKeeps(m.(line := PumpCall(PrePump(m, e), true, e.slot31).line), e.slot15); }
    }
    ClearedKeeps(m.(line := AfterInhibit(m.line, true)));
    if NMI_IRQ !in m.line.pending { ClearedAlone(m); }
    ClearedKeeps(m);
  }

  /** A single entry that is not the NMI is cleared. */
  lemma ClearedAlone(m: Machine)
    requires |m.line.pending| <= 1 && NMI_IRQ !in m.line.pending
    ensures Cleared(m).line.pending == []
  {
    if m.line.pending != [] { assert m.line.pending[..0] == []; assert m.line.pending[0] != NMI_IRQ; }
  }

  /** The pending list never holds two entries, so no exception is synthesised on a handler
      that has not started. */
  lemma {:induction false} PendingAtMostOne(r: History)
    requires |Start(r).line.pending| <= 1
    ensures |End(r).line.pending| <= 1
  {
    hide Apply;
    match r
    case From(_) =>
    case Then(before, e) =>
      PendingAtMostOne(before);
      EventKeepsOne(End(before), e);
  }

  // ----- the NMI arrives alone -----

  function PumpCalls(r: History): nat {
    match r
    case From(_) => 0
    case Then(before, e) => PumpCalls(before) + if e.Pumps() then 1 else 0
  }

  /** Between the window's two breakpoints: no idle visit, and the spin not yet reached. */
  predicate InWindow(r: History) {
    match r
    case From(_) => true
    case Then(before, e) => InWindow(before) && !e.IdleVisit? && !e.SwitchSpin?
  }

  predicate OnlyNmi(pending: seq<int>) {
    pending == [] || pending == [NMI_IRQ]
  }

  lemma WindowEvent(m: Machine, e: Event)
    requires OnlyNmi(m.line.pending) && !e.IdleVisit? && !e.SwitchSpin?
    requires e.Pumps() ==> m.line.pump.budget >= 2
    ensures var m' := Apply(m, e);
            && OnlyNmi(m'.line.pending)
            && (m'.line.pump.budget == INHIBIT_BUDGET
                || m'.line.pump.budget >= m.line.pump.budget - (if e.Pumps() then 1 else 0))
  {
    hide Step, PumpCall, H.Apply, Cleared;
    if e.Pumps() { PumpEffects(PrePump(m, e), false, e.UsbSlot()); }
    ClearedKeeps(m.(line := AfterInhibit(m.line, true)));
  }

  /** From `entering` on, through at most 63 pump calls and any other events but an idle visit,
      the pending list holds no peripheral interrupt. */
  lemma {:induction false} WindowHoldsNoPeripheral(m: Machine, r: History)
    requires |m.line.pending| <= 1 && Start(r) == AfterEntering(m)
    requires InWindow(r) && PumpCalls(r) < INHIBIT_BUDGET
    ensures OnlyNmi(End(r).line.pending)
    ensures End(r).line.pump.budget + PumpCalls(r) >= INHIBIT_BUDGET
  {
    hide Apply, OnlyNmi, AfterEntering;
    match r
    case From(_) => EnteringClears(m);
    case Then(before, e) =>
      WindowHoldsNoPeripheral(m, before);
      WindowEvent(End(before), e);
  }

  lemma EnteringClears(m: Machine)
    requires |m.line.pending| <= 1
    ensures OnlyNmi(AfterEntering(m).line.pending) && AfterEntering(m).line.pump.budget == INHIBIT_BUDGET
  {
    hide Cleared;
    var entered := m.(line := AfterInhibit(m.line, true));
    ClearedKeeps(entered);
    if NMI_IRQ !in m.line.pending { ClearedAlone(entered); }
  }

  /** However the spin is reached, what is pending after it is the NMI and nothing else. */
  lemma SwitchLeavesNmi(m: Machine)
    requires |m.line.pending| <= 1
    ensures AfterSwitch(m).line.pending == [NMI_IRQ]
  {
    hide Cleared;
    if NMI_IRQ !in m.line.pending { ClearedAlone(m); }
  }

  predicate NoDrain(r: History) {
    match r
    case From(_) => true
    case Then(before, e) => NoDrain(before) && !e.Drain?
  }

  /** Until the backend drains it, nothing joins a pending NMI: no pump call, no idle visit, no
      further breakpoint. */
  lemma {:induction false} NmiStaysAlone(r: History)
    requires Start(r).line.pending == [NMI_IRQ] && NoDrain(r)
    ensures End(r).line.pending == [NMI_IRQ]
  {
    hide Apply;
    match r
    case From(_) =>
    case Then(before, e) =>
      NmiStaysAlone(before);
      NmiEvent(End(before), e);
  }

  /** The context switch, end to end: nothing foreign is pending through the window, the NMI is
      alone once the spin has injected it, and it stays alone until it is drained. */
  lemma NmiArrivesAlone(m: Machine, window: History, after: History)
    requires |m.line.pending| <= 1 && Start(window) == AfterEntering(m)
    requires InWindow(window) && PumpCalls(window) < INHIBIT_BUDGET
    requires Start(after) == AfterSwitch(End(window)) && NoDrain(after)
    ensures OnlyNmi(End(window).line.pending) && End(after).line.pending == [NMI_IRQ]
  {
    WindowHoldsNoPeripheral(m, window);
    SwitchLeavesNmi(End(window));
    NmiStaysAlone(after);
  }

  lemma NmiEvent(m: Machine, e: Event)
    requires m.line.pending == [NMI_IRQ] && !e.Drain?
    ensures Apply(m, e).line.pending == [NMI_IRQ]
  {
    hide Step, PumpCall, AfterIdleTime, H.Apply, Foreign;
    if e.Pumps() {
      PumpEffects(PrePump(m, e), e.IdleVisit?, e.UsbSlot());
      if e.IdleVisit? { IdleTimeKeeps(m.(line := PumpCall(PrePump(m, e), true, e.slot31).line), e.slot15); }
    }
    NmiIsNotForeign();
  }

  lemma NmiIsNotForeign()
    ensures Foreign([NMI_IRQ]) == 0
  {
    assert [NMI_IRQ][..0] == [];
  }

  // ----- compares and ticks -----

  /** TIM2's vector slot is live whenever the idle seam looks at it. */
  predicate TickVectorLive(r: History) {
    match r
    case From(_) => true
    case Then(before, e) => TickVectorLive(before) && (e.IdleVisit? ==> Live(e.slot15))
  }

  function Owed(t: TimState): nat {
    if t.pendingIrq then 1 else 0
  }

  lemma IdleConserves(m: Machine, slot: Slot)
    requires Live(slot)
    ensures var m' := AfterIdleTime(m, slot);
            && m'.tim.compares + m.tim2Delivered + Owed(m.tim) == m.tim.compares + m'.tim2Delivered + Owed(m'.tim)
            && m'.tim.compares >= m.tim.compares
  {
  }

  /** Up to its injection no compare is lost and none is doubled: each one has been injected,
      or is the one that is pending. */
  lemma {:induction false} TicksConserved(r: History)
    requires TickVectorLive(r)
    ensures End(r).tim.compares + Start(r).tim2Delivered + Owed(Start(r).tim)
         == Start(r).tim.compares + End(r).tim2Delivered + Owed(End(r).tim)
    ensures End(r).tim.compares >= Start(r).tim.compares
  {
    hide Step, PumpCall, AfterIdleTime, H.Apply, Cleared;
    match r
    case From(_) =>
    case Then(before, e) =>
      TicksConserved(before);
      var m := End(before);
      if e.IdleVisit? { IdleConserves(m.(line := PumpCall(PrePump(m, e), true, e.slot31).line), e.slot15); }
      ClearedKeeps(m.(line := AfterInhibit(m.line, true)));
      ClearedKeeps(m);
  }

  /** A compare that had to wait is not forgotten: it is still pending, or an idle visit has
      injected a tick since. */
  lemma DeferredTickWaits(r: History)
    requires TickVectorLive(r) && Start(r).tim.pendingIrq
    ensures End(r).tim.pendingIrq || End(r).tim2Delivered > Start(r).tim2Delivered
  {
    TicksConserved(r);
  }

  /** A CCR1 write, or a write to DIER that switches the compare on. */
  predicate Arming(t: TimState, e: Event) {
    e.Tim2Write? && (e.reg == CCR1 || (e.reg == DIER && Bit1(e.word32) && !t.armed))
  }

  function Arms(r: History): nat {
    match r
    case From(_) => 0
    case Then(before, e) => Arms(before) + if Arming(End(before).tim, e) then 1 else 0
  }

  function Standing(t: TimState): nat {
    if AlarmDeadline(t).Some? then 1 else 0
  }

  lemma IdleSpendsAlarm(m: Machine, slot: Slot)
    ensures var m' := AfterIdleTime(m, slot);
            m'.tim.compares + Standing(m'.tim) <= m.tim.compares + Standing(m.tim)
  {
  }

  /** The compare is one-shot: it fires at most once for each time the firmware set or enabled
      it, in every history. */
  lemma {:induction false} CompareIsOneShot(r: History)
    ensures End(r).tim.compares + Standing(End(r).tim) <= Start(r).tim.compares + Standing(Start(r).tim) + Arms(r)
  {
    hide Step, PumpCall, AfterIdleTime, H.Apply, Cleared;
    match r
    case From(_) =>
    case Then(before, e) =>
      CompareIsOneShot(before);
      var m := End(before);
      if e.IdleVisit? { IdleSpendsAlarm(m.(line := PumpCall(PrePump(m, e), true, e.slot31).line), e.slot15); }
      ClearedKeeps(m.(line := AfterInhibit(m.line, true)));
      ClearedKeeps(m);
  }

  /** A compare that had to wait is injected by an idle visit exactly if that visit's forced
      pump call leaves the pending list empty. */
  lemma DeferredTickIsInjected(m: Machine, slot31: Slot, slot15: Slot)
    requires m.tim.pendingIrq && Live(slot15)
    requires !PumpCall(PrePump(m, IdleVisit(slot31, slot15)), true, slot31).fault
    ensures var m' := AfterIdle(m, slot31, slot15);
            var p := PumpCall(PrePump(m, IdleVisit(slot31, slot15)), true, slot31).line;
            && (m'.line.pending == [TIM2_IRQ] && !m'.tim.pendingIrq && m'.tim2Delivered == m.tim2Delivered + 1
                <==> p.pending == [])
            && (p.pending != [] ==> m'.tim == m.tim)
  {
    hide PumpCall;
  }

  /** A visit with an armed compare and nothing queued delivers it at once, exactly unless the
      deadline lies 2^31 ticks ahead of the counter. */
  lemma IdleReachesDeadline(m: Machine, slot: Slot)
    requires !m.tim.pendingIrq && AlarmDeadline(m.tim).Some? && m.line.pending == []
    requires m.line.clock.Valid() && Live(slot)
    ensures AfterIdleTime(m, slot).line.pending == [TIM2_IRQ]
       <==> Mask32(AlarmDeadline(m.tim).value - m.line.clock.ticks) != HALF
  {
    CatchUpReaches(m.line.clock, AlarmDeadline(m.tim).value);
  }

  /** TIM2 has a tick to inject: one that had to wait, or one the idle seam's jump will reach. */
  predicate TickReady(t: TimState, c: ClockState) {
    t.pendingIrq || (AlarmDeadline(t).Some? && Mask32(AlarmDeadline(t).value - c.ticks) != HALF)
  }

  /** The idle seam gets to inject: nothing is queued, TIM2's vector is live, and its own forced
      pump call will neither fail nor queue IRQ 31 first. */
  predicate IdleMayInject(l: LineState, slot31: Slot, slot15: Slot) {
    && l.pending == [] && Live(slot15)
    && !(l.bus.usb.enabled && H.StepFails(l.bus))
    && !(l.bus.usb.enabled && Wired(l.pump.vectorOk, slot31) && (H.DrivesWire(l.bus) || SofDue(l)))
  }

  /** An idle visit injects a tick, and then leaves it alone in the list, iff it may and one is
      ready: both can be told before the visit, on every state. */
  lemma IdleInjectsIff(m: Machine, slot31: Slot, slot15: Slot)
    requires m.line.clock.Valid()
    ensures var m' := AfterIdle(m, slot31, slot15);
            if IdleMayInject(m.line, slot31, slot15) && TickReady(m.tim, m.line.clock)
            then m'.line.pending == [TIM2_IRQ] && m'.tim2Delivered == m.tim2Delivered + 1 && !m'.tim.pendingIrq
            else m'.tim2Delivered == m.tim2Delivered
  {
    hide PumpCall, AfterIdleTime, IdleMayInject, TickReady;
    var l := PrePump(m, IdleVisit(slot31, slot15));
    PumpEffects(l, true, slot31);
    ForcedPumpLeaves(m.line, slot31);
    var pumped := m.(line := PumpCall(l, true, slot31).line);
    IdleTimeInjects(pumped, slot15);
    hide H.StepFails, H.DrivesWire, SofDue;
    assert TickReady(pumped.tim, pumped.line.clock) == TickReady(m.tim, m.line.clock);
    MayInject(m.line, slot31, slot15);
  }

  lemma MayInject(l: LineState, slot31: Slot, slot15: Slot)
    ensures IdleMayInject(l, slot31, slot15)
       <==> (var p := PumpCall(AfterInhibit(l, false), true, slot31);
             !p.fault && p.line.pending == [] && Live(slot15))
  {
    hide PumpCall, H.StepFails, H.DrivesWire, SofDue;
    ForcedPumpLeaves(l, slot31);
  }

  /** What an idle visit's forced pump call leaves, told beforehand. */
  lemma ForcedPumpLeaves(l: LineState, slot31: Slot)
    ensures var p := PumpCall(AfterInhibit(l, false), true, slot31);
            && (p.fault <==> l.bus.usb.enabled && H.StepFails(l.bus))
            && (p.line.pending == []
                <==> l.pending == []
                     && !(l.bus.usb.enabled && Wired(l.pump.vectorOk, slot31)
                          && (H.DrivesWire(l.bus) || (SofDue(l) && !H.StepFails(l.bus)))))
  {
    hide Step, H.StepFails, H.DrivesWire;
    var open := AfterInhibit(l, false);
    IrqRaisedIff(open, true, slot31);
    PumpEffects(open, true, slot31);
    H.SofForesees(l.bus);
    H.StepForeseen(AfterFrame(open.(pump := CountCall(Spend(open.pump), true))).bus);
  }

  /** The timer half of the visit. */
  lemma IdleTimeInjects(m: Machine, slot: Slot)
    requires m.line.clock.Valid()
    ensures var m' := AfterIdleTime(m, slot);
            if m.line.pending == [] && Live(slot) && TickReady(m.tim, m.line.clock)
            then m'.line.pending == [TIM2_IRQ] && m'.tim2Delivered == m.tim2Delivered + 1 && !m'.tim.pendingIrq
            else m'.tim2Delivered == m.tim2Delivered
  {
    if AlarmDeadline(m.tim).Some? { CatchUpReaches(m.line.clock, AlarmDeadline(m.tim).value); }
  }

  /** No write to TIM2 and no idle visit. */
  predicate TimerAlone(r: History) {
    match r
    case From(_) => true
    case Then(before, e) => TimerAlone(before) && !e.Tim2Write? && !e.IdleVisit?
  }

  /** Through any other event an alarm stands, and so does a tick that had to wait. */
  lemma {:induction false} AlarmStands(r: History)
    requires TimerAlone(r)
    ensures End(r).tim == Start(r).tim && End(r).tim2Delivered == Start(r).tim2Delivered
  {
    hide Step, PumpCall, H.Apply, Cleared;
    match r
    case From(_) =>
    case Then(before, e) =>
      AlarmStands(before);
      var m := End(before);
      ClearedKeeps(m.(line := AfterInhibit(m.line, true)));
      ClearedKeeps(m);
  }

  /** The next idle visit, however much happens before it. */
  lemma NextIdleVisitInjects(r: History, slot31: Slot, slot15: Slot)
    requires TimerAlone(r) && Start(r).line.clock.Valid()
    ensures var m, m' := End(r), Apply(End(r), IdleVisit(slot31, slot15));
            if IdleMayInject(m.line, slot31, slot15) && TickReady(Start(r).tim, m.line.clock)
            then m'.line.pending == [TIM2_IRQ] && m'.tim2Delivered == Start(r).tim2Delivered + 1
            else m'.tim2Delivered == Start(r).tim2Delivered
  {
    hide AfterIdle, IdleMayInject, TickReady;
    AlarmStands(r);
    SofsAreSpaced(r);
    IdleInjectsIff(End(r), slot31, slot15);
  }

  // ----- an alarm exactly 2^31 ahead -----

  /** Events that neither report activity to the clock nor write TIM2. */
  predicate ClockIdle(r: History) {
    match r
    case From(_) => true
    case Then(before, e) =>
      && ClockIdle(before)
      && (e.Tim2Count? || e.IdleVisit? || e.EnterSwitch? || e.SwitchSpin? || e.Drain? || e.CpuPmaWrite? || e.Queued?)
  }

  /** Nothing is waiting, and the alarm lies exactly 2^31 ticks ahead of the counter. */
  predicate HalfwayAlarm(m: Machine) {
    && !m.tim.pendingIrq && AlarmDeadline(m.tim).Some?
    && Mask32(AlarmDeadline(m.tim).value - m.line.clock.ticks) == HALF
  }

  /** Worse than a late alarm: until other register traffic moves the clock, no number of idle
      visits, or any of the other events, moves the clock or delivers the tick. */
  lemma {:induction false} HalfwayAlarmHangs(r: History)
    requires HalfwayAlarm(Start(r)) && ClockIdle(r)
    ensures End(r).line.clock == Start(r).line.clock && End(r).tim == Start(r).tim
    ensures End(r).tim2Delivered == Start(r).tim2Delivered
  {
    hide Step, PumpCall, AfterIdleTime, H.Apply, Cleared;
    match r
    case From(_) =>
    case Then(before, e) =>
      HalfwayAlarmHangs(before);
      var m := End(before);
      if e.Pumps() {
        PumpEffects(PrePump(m, e), e.IdleVisit?, e.UsbSlot());
        if e.IdleVisit? { HalfwayIdle(m.(line := PumpCall(PrePump(m, e), true, e.slot31).line), e.slot15); }
      }
      ClearedKeeps(m.(line := AfterInhibit(m.line, true)));
      ClearedKeeps(m);
  }

  lemma HalfwayIdle(m: Machine, slot: Slot)
    requires HalfwayAlarm(m)
    ensures AfterIdleTime(m, slot) == m
  {
    var d, c := AlarmDeadline(m.tim).value, m.line.clock;
    MaskCongruent(c.ticks - d, d - c.ticks, -1 - 2 * ((d - c.ticks) / WRAP));
  }

  // ----- the compare flag, and withdrawing an alarm -----

  /** CC1IF, read off the history: set by a compare, cleared by writing 0 to it in SR. */
  function CompareSeen(r: History): bool {
    match r
    case From(m) => m.tim.cc1if
    case Then(before, e) =>
      if End(r).tim.compares > End(before).tim.compares then true
      else CompareSeen(before) && !(e.Tim2Write? && e.reg == SR && !Bit1(e.word32))
  }

  lemma {:induction false} Cc1ifTells(r: History)
    ensures End(r).tim.cc1if == CompareSeen(r)
  {
    hide Step, PumpCall, AfterIdleTime, H.Apply, Cleared;
    match r
    case From(_) =>
    case Then(before, e) =>
      Cc1ifTells(before);
      var m := End(before);
      if e.IdleVisit? { IdleFlags(m.(line := PumpCall(PrePump(m, e), true, e.slot31).line), e.slot15); }
      ClearedKeeps(m.(line := AfterInhibit(m.line, true)));
      ClearedKeeps(m);
  }

  lemma IdleFlags(m: Machine, slot: Slot)
    ensures var t, t' := m.tim, AfterIdleTime(m, slot).tim;
            && t'.compares >= t.compares && t'.armed == t.armed && t'.ccr1 == t.ccr1
            && (t'.compares > t.compares ==> t.armed && t'.cc1if && t'.fired == Some(t.ccr1))
            && (t'.compares == t.compares ==> t'.cc1if == t.cc1if)
  {
  }

  /** DIER is not written with the compare bit set. */
  predicate NoEnable(r: History) {
    match r
    case From(_) => true
    case Then(before, e) => NoEnable(before) && !(e.Tim2Write? && e.reg == DIER && Bit1(e.word32))
  }

  /** Switching the compare off withdraws the alarm: none fires until it is switched on again. */
  lemma {:induction false} DisarmedNeverFires(m: Machine, word32: nat, r: History)
    requires !Bit1(word32) && Start(r) == Apply(m, Tim2Write(DIER, word32)) && NoEnable(r)
    ensures !End(r).tim.armed && End(r).tim.compares == m.tim.compares
  {
    hide Step, PumpCall, AfterIdleTime, H.Apply, Cleared;
    match r
    case From(_) =>
    case Then(before, e) =>
      DisarmedNeverFires(m, word32, before);
      var b := End(before);
      if e.IdleVisit? { IdleFlags(b.(line := PumpCall(PrePump(b, e), true, e.slot31).line), e.slot15); }
      ClearedKeeps(b.(line := AfterInhibit(b.line, true)));
      ClearedKeeps(b);
  }

  // ----- a tick that is dropped is gone -----

  /** The state right after a compare was injected: nothing pending in the timer, and the
      compare value already fired. */
  predicate Settled(t: TimState) {
    !t.pendingIrq && AlarmDeadline(t).None?
  }

  lemma SettledEvent(m: Machine, e: Event)
    requires Settled(m.tim) && !Arming(m.tim, e)
    ensures var m' := Apply(m, e);
            && Settled(m'.tim) && m'.tim2Delivered == m.tim2Delivered
            && (TIM2_IRQ in m'.line.pending ==> TIM2_IRQ in m.line.pending)
  {
    hide Step, PumpCall, H.Apply, Cleared;
    if e.Pumps() { PumpEffects(PrePump(m, e), e.IdleVisit?, e.UsbSlot()); }
    ClearedKeeps(m.(line := AfterInhibit(m.line, true)));
    ClearedKeeps(m);
  }

  lemma {:induction false} SettledStays(r: History)
    requires Settled(Start(r).tim) && Arms(r) == 0
    ensures Settled(End(r).tim) && End(r).tim2Delivered == Start(r).tim2Delivered
    ensures TIM2_IRQ in End(r).line.pending ==> TIM2_IRQ in Start(r).line.pending
  {
    hide Apply, Settled, Arming;
    match r
    case From(_) =>
    case Then(before, e) =>
      SettledStays(before);
      SettledEvent(End(before), e);
  }

  /** The handlers say that an interrupt they hold back is raised again on a later pump.  For
      TIM2 that is false: once a queued tick is dropped by `entering` or by `switch`, no history
      that does not arm the compare anew ever queues it again, though the handler counts it as
      held back. */
  lemma DroppedTickIsGone(m: Machine, r: History)
    requires |m.line.pending| <= 1 && Settled(m.tim) && Arms(r) == 0
    requires Start(r) == AfterEntering(m) || Start(r) == AfterSwitch(m)
    ensures TIM2_IRQ !in End(r).line.pending && End(r).tim2Delivered == m.tim2Delivered
    ensures m.line.pending == [TIM2_IRQ] ==> Start(r).deferred == m.deferred + 1
  {
    EnteringClears(m);
    SwitchLeavesNmi(m);
    ClearedKeeps(m.(line := AfterInhibit(m.line, true)));
    ClearedKeeps(m);
    SettledStays(r);
    if m.line.pending == [TIM2_IRQ] { assert [TIM2_IRQ][..0] == [] && Foreign([TIM2_IRQ]) == Foreign([]) + 1; }
  }

  /** The other half: once the firmware has armed the compare anew, the next idle visit, with any
      events before it that are neither that nor a write to TIM2, queues a tick iff it may inject
      and the deadline is then not 2^31 ticks ahead of the counter. */
  lemma RearmedTickReturns(m: Machine, e: Event, r: History, slot31: Slot, slot15: Slot)
    requires Settled(m.tim) && Arming(m.tim, e) && m.line.clock.Valid()
    requires Start(r) == Apply(m, e) && TimerAlone(r)
    ensures var tim, b, a := Start(r).tim, End(r), Apply(End(r), IdleVisit(slot31, slot15));
            a.tim2Delivered == m.tim2Delivered + 1 && a.line.pending == [TIM2_IRQ]
            <==> tim.armed && IdleMayInject(b.line, slot31, slot15)
                 && Mask32(Mask32(tim.ccr1) - b.line.clock.ticks) != HALF
  {
    hide AfterIdle, IdleMayInject, Mask32;
    assert Start(r) == m.(tim := AfterTimWrite(m.tim, e.reg, e.word32));
    NextIdleVisitInjects(r, slot31, slot15);
  }

  // ----- deafness is bounded, and recoverable -----

  predicate NoEntry(r: History) {
    match r
    case From(_) => true
    case Then(before, e) => NoEntry(before) && !e.EnterSwitch?
  }

  /** One opening of the inhibit lasts at most 63 pump calls: the 64th finds the budget spent. */
  lemma {:induction false} BudgetRunsOut(r: History)
    requires NoEntry(r) && Start(r).line.pump.budget <= INHIBIT_BUDGET
    ensures End(r).line.pump.budget + PumpCalls(r) <= INHIBIT_BUDGET || End(r).line.pump.budget == 0
  {
    hide Step, PumpCall, AfterIdleTime, H.Apply, Cleared;
    match r
    case From(_) =>
    case Then(before, e) =>
      BudgetRunsOut(before);
      var m := End(before);
      if e.Pumps() {
        PumpEffects(PrePump(m, e), e.IdleVisit?, e.UsbSlot());
        if e.IdleVisit? { IdleTimeKeeps(m.(line := PumpCall(PrePump(m, e), true, e.slot31).line), e.slot15); }
      }
      ClearedKeeps(m);
  }

  /** When a pump call queues IRQ 31, for every state: it has to get past the throttle, find the
      block enabled, the inhibit spent, the list empty and the vector live; and then a SOF has
      to be due, or the host step has to drive the wire, with the step not failing.  No latched
      CTR flag has any part in it. */
  lemma IrqRaisedIff(l: LineState, force: bool, slot: Slot)
    ensures PumpCall(l, force, slot).line.pending == l.pending + [USB_IRQ]
       <==> Runs(l.pump, force) && l.bus.usb.enabled && l.pump.budget <= 1 && l.pending == []
            && Wired(l.pump.vectorOk, slot)
            && (H.DrivesWire(l.bus) || (SofDue(l) && !H.StepFails(l.bus)))
  {
    hide Step, H.DrivesWire, H.StepFails;
    var framed := AfterFrame(l.(pump := CountCall(Spend(l.pump), force)));
    H.SofForesees(l.bus);
    H.StepForeseen(framed.bus);
    DrivesOrFails(l.bus);
  }

  lemma DrivesOrFails(b: Bus)
    ensures !(H.DrivesWire(b) && H.StepFails(b))
  {
  }

  /** After 63 pump calls without a new entry, an event that calls the pump queues IRQ 31 with
      nothing queued before exactly as if there had been no inhibit. */
  lemma DeafnessEnds(r: History, e: Event)
    requires NoEntry(r) && Start(r).line.pump.budget <= INHIBIT_BUDGET && PumpCalls(r) >= INHIBIT_BUDGET - 1
    requires e.Pumps() && End(r).line.pending == []
    ensures var l := PrePump(End(r), e);
            Apply(End(r), e).line.pending == [USB_IRQ]
            <==> Runs(l.pump, e.IdleVisit?) && l.bus.usb.enabled && Wired(l.pump.vectorOk, e.UsbSlot())
                 && (H.DrivesWire(l.bus) || (SofDue(l) && !H.StepFails(l.bus)))
  {
    hide Apply, H.DrivesWire, H.StepFails, SofDue, Runs;
    BudgetRunsOut(r);
    OpenRaises(End(r), e);
  }

  /** An event that calls the pump, with the inhibit spent and nothing queued. */
  lemma OpenRaises(m: Machine, e: Event)
    requires e.Pumps() && m.line.pending == [] && m.line.pump.budget <= 1
    ensures var l := PrePump(m, e);
            Apply(m, e).line.pending == [USB_IRQ]
            <==> Runs(l.pump, e.IdleVisit?) && l.bus.usb.enabled && Wired(l.pump.vectorOk, e.UsbSlot())
                 && (H.DrivesWire(l.bus) || (SofDue(l) && !H.StepFails(l.bus)))
  {
    hide Step, PumpCall, AfterIdleTime, H.DrivesWire, H.StepFails;
    var l := PrePump(m, e);
    IrqRaisedIff(l, e.IdleVisit?, e.UsbSlot());
    assert l.pending == [] && [] + [USB_IRQ] == [USB_IRQ];
    if e.IdleVisit? { IdleTimeKeeps(m.(line := PumpCall(l, true, e.slot31).line), e.slot15); }
  }

  /** The spin's handler ends the deafness at once: from then on, until the next entry, no pump
      call is held back by the inhibit. */
  lemma SpinEndsDeafness(m: Machine, r: History, e: Event)
    requires NMI_IRQ !in m.line.pending && Start(r) == AfterSwitch(m) && NoEntry(r)
    requires e.Pumps() && End(r).line.pending == []
    ensures var l := PrePump(End(r), e);
            Apply(End(r), e).line.pending == [USB_IRQ]
            <==> Runs(l.pump, e.IdleVisit?) && l.bus.usb.enabled && Wired(l.pump.vectorOk, e.UsbSlot())
                 && (H.DrivesWire(l.bus) || (SofDue(l) && !H.StepFails(l.bus)))
  {
    hide Apply, H.DrivesWire, H.StepFails, SofDue, Runs;
    SpinOpens(m);
    StaysOpen(r);
    OpenRaises(End(r), e);
  }

  lemma SpinOpens(m: Machine)
    requires NMI_IRQ !in m.line.pending
    ensures AfterSwitch(m).line.pump.budget == 0
  {
    hide Cleared;
  }

  lemma {:induction false} StaysOpen(r: History)
    requires NoEntry(r) && Start(r).line.pump.budget == 0
    ensures End(r).line.pump.budget == 0
  {
    hide Step, PumpCall, AfterIdleTime, H.Apply, Cleared;
    match r
    case From(_) =>
    case Then(before, e) =>
      StaysOpen(before);
      var m := End(before);
      if e.Pumps() {
        PumpEffects(PrePump(m, e), e.IdleVisit?, e.UsbSlot());
        if e.IdleVisit? { IdleTimeKeeps(m.(line := PumpCall(PrePump(m, e), true, e.slot31).line), e.slot15); }
      }
      ClearedKeeps(m);
  }

  /** So a notification that was withheld is raised again by the SOF clock or by other traffic,
      not by its own latched flag: while EP0's completion is unserviced, no interrupt endpoint is
      ready and no bus reset is next, an unthrottled pump call queues IRQ 31 iff a SOF is due. */
  lemma LatchedFlagWaitsForSof(l: LineState, force: bool, slot: Slot)
    requires Runs(l.pump, force) && l.bus.usb.enabled && l.pump.budget <= 1 && l.pending == []
    requires Wired(l.pump.vectorOk, slot)
    requires l.bus.usb.epr[0].Busy() && !Preempted(l.bus) && !l.bus.host.phase.Reset?
    ensures PumpCall(l, force, slot).line.pending == [USB_IRQ] <==> SofDue(l)
  {
    hide PumpCall;
    IrqRaisedIff(l, force, slot);
    assert [] + [USB_IRQ] == [USB_IRQ];
  }

  /** Only a CPU write to its register ever clears an endpoint's CTR flag. */
  lemma FlagsStayLatched(m: Machine, e: Event, ep: nat)
    requires ep < 8 && !e.CpuUsbWrite?
    ensures var was, now := m.line.bus.usb.epr[ep], Apply(m, e).line.bus.usb.epr[ep];
            (was.ctrRx ==> now.ctrRx) && (was.ctrTx ==> now.ctrTx)
  {
    hide Step, PumpCall, AfterIdleTime, H.Apply, Cleared;
    if e.Pumps() {
      PumpKeepsFlags(PrePump(m, e), e.IdleVisit?, e.UsbSlot(), ep);
      if e.IdleVisit? { IdleTimeKeeps(m.(line := PumpCall(PrePump(m, e), true, e.slot31).line), e.slot15); }
    }
    ClearedKeeps(m.(line := AfterInhibit(m.line, true)));
    ClearedKeeps(m);
    OtherEventsKeepFlags(m, e, ep);
  }

  lemma OtherEventsKeepFlags(m: Machine, e: Event, ep: nat)
    requires ep < 8
    ensures e.CpuPmaWrite? || e.Queued? ==> Apply(m, e).line.bus.usb == m.line.bus.usb
  {
    hide Step, PumpCall, AfterIdleTime, Cleared;
  }

  lemma PumpKeepsFlags(l: LineState, force: bool, slot: Slot, ep: nat)
    requires ep < 8
    ensures var was, now := l.bus.usb.epr[ep], PumpCall(l, force, slot).line.bus.usb.epr[ep];
            (was.ctrRx ==> now.ctrRx) && (was.ctrTx ==> now.ctrTx)
  {
    hide Step;
    H.StepTouchesOne(AfterFrame(l.(pump := CountCall(Spend(l.pump), force))).bus);
  }

  // ----- the throttle lets every 48th call through -----

  /** Pump calls that the idle handler did not force, and those of them that went on. */
  function Unforced(r: History): nat {
    match r
    case From(_) => 0
    case Then(before, e) => Unforced(before) + if e.GpioAccess? || e.Tim2Count? then 1 else 0
  }

  function Passed(r: History): nat {
    match r
    case From(_) => 0
    case Then(before, e) =>
      Passed(before)
      + if (e.GpioAccess? || e.Tim2Count?) && Runs(PrePump(End(before), e).pump, false) then 1 else 0
  }

  /** Every 48th unforced call goes on, and no other, in every history. */
  lemma {:induction false} ThrottleCounts(r: History)
    requires Start(r).line.pump.calls < STEP_EVERY
    ensures End(r).line.pump.calls < STEP_EVERY
    ensures STEP_EVERY * Passed(r) + End(r).line.pump.calls == Unforced(r) + Start(r).line.pump.calls
  {
    hide Step, PumpCall, AfterIdleTime, H.Apply, Cleared;
    match r
    case From(_) =>
    case Then(before, e) =>
      ThrottleCounts(before);
      var m := End(before);
      if e.Pumps() {
        PumpCounts(PrePump(m, e), e.IdleVisit?, e.UsbSlot());
        if e.IdleVisit? { IdleTimeKeeps(m.(line := PumpCall(PrePump(m, e), true, e.slot31).line), e.slot15); }
      }
      ClearedKeeps(m.(line := AfterInhibit(m.line, true)));
      ClearedKeeps(m);
  }

  lemma PumpCounts(l: LineState, force: bool, slot: Slot)
    ensures PumpCall(l, force, slot).line.pump.calls == CountCall(l.pump, force).calls
  {
    hide Step;
  }

  function IdleVisits(r: History): nat {
    match r
    case From(_) => 0
    case Then(before, e) => IdleVisits(before) + if e.IdleVisit? then 1 else 0
  }

  function HostSteps(b: H.Run): nat {
    match b
    case Init(_) => 0
    case Next(before, e) => HostSteps(before) + if e.HostStep? then 1 else 0
  }

  /** The block is enabled whenever the pump is called. */
  predicate AlwaysEnabled(r: History) {
    match r
    case From(_) => true
    case Then(before, e) => AlwaysEnabled(before) && (e.Pumps() ==> End(before).line.bus.usb.enabled)
  }

  /** And with the block enabled the host takes exactly one step for each call that goes on: for
      every idle visit, and for every 48th of the other calls. */
  lemma {:induction false} HostKeepsPace(r: History)
    requires Start(r).line.pump.calls < STEP_EVERY && AlwaysEnabled(r)
    ensures HostSteps(BusRun(r)) == Passed(r) + IdleVisits(r)
    ensures STEP_EVERY * (HostSteps(BusRun(r)) - IdleVisits(r)) + End(r).line.pump.calls
         == Unforced(r) + Start(r).line.pump.calls
  {
    hide Apply, Runs;
    match r
    case From(_) =>
    case Then(before, e) =>
      HostKeepsPace(before);
      if e.Pumps() { ForcedRuns(PrePump(End(before), e).pump); SameEnabled(End(before), e); }
    ThrottleCounts(r);
  }

  lemma ForcedRuns(p: PumpState)
    ensures Runs(p, true)
  {
  }

  lemma SameEnabled(m: Machine, e: Event)
    ensures PrePump(m, e).bus == m.line.bus
  {
  }

  // ----- SOFs are a full period apart -----

  predicate SofNow(m: Machine, e: Event) {
    e.Pumps() && Runs(PrePump(m, e).pump, e.IdleVisit?) && m.line.bus.usb.enabled && SofDue(PrePump(m, e))
  }

  /** The unbounded times at which SOFs were latched. */
  function SofTimes(r: History): seq<nat> {
    match r
    case From(_) => []
    case Then(before, e) =>
      if SofNow(End(before), e) then SofTimes(before) + [PrePump(End(before), e).clock.time] else SofTimes(before)
  }

  lemma SofGap(T: nat, L: nat)
    requires L <= T && ElapsedGe(T % WRAP, (L + SOF_PERIOD_TICKS) % WRAP)
    ensures L + SOF_PERIOD_TICKS <= T
  {
    ElapsedGeSeesDifference(T, L + SOF_PERIOD_TICKS);
    if T < L + SOF_PERIOD_TICKS { MaskNear(T - (L + SOF_PERIOD_TICKS)); }
  }

  /** The next SOF deadline is a period after the last SOF, modulo the counter's width. */
  ghost predicate SofClock(times: seq<nat>, m: Machine) {
    && m.line.clock.Valid()
    && (times != [] ==>
          && times[|times| - 1] <= m.line.clock.time
          && m.line.pump.nextSof == (times[|times| - 1] + SOF_PERIOD_TICKS) % WRAP)
  }

  /** Consecutive SOFs are never less than a period apart in unbounded time, in every history,
      across every wrap of the counter. */
  lemma {:induction false} SofsAreSpaced(r: History)
    requires Start(r).line.clock.Valid()
    ensures SofClock(SofTimes(r), End(r))
    ensures forall i :: 0 < i < |SofTimes(r)| ==> SofTimes(r)[i - 1] + SOF_PERIOD_TICKS <= SofTimes(r)[i]
  {
    hide Apply, SofClock, SofNow;
    match r
    case From(_) => NoSofsYet(Start(r));
    case Then(before, e) =>
      SofsAreSpaced(before);
      SofEvent(SofTimes(before), End(before), e);
  }

  /** And a call that goes on latches one exactly when the device is attached and a period has
      passed since the last, if that was less than half a turn of the counter ago. */
  lemma SofExactly(r: History, e: Event)
    requires Start(r).line.clock.Valid() && SofTimes(r) != [] && e.Pumps()
    requires PrePump(End(r), e).clock.time < SofTimes(r)[|SofTimes(r)| - 1] + SOF_PERIOD_TICKS + HALF
    ensures var l, last := PrePump(End(r), e), SofTimes(r)[|SofTimes(r)| - 1];
            SofTimes(Then(r, e)) == SofTimes(r) + [l.clock.time]
            <==> Runs(l.pump, e.IdleVisit?) && l.bus.usb.enabled && l.bus.usb.attached
                 && l.clock.time >= last + SOF_PERIOD_TICKS
  {
    SofsAreSpaced(r);
    hide SofClock, SofNow, Runs, PrePump;
    NextSofExactly(SofTimes(r), End(r), e);
  }

  lemma NextSofExactly(times: seq<nat>, m: Machine, e: Event)
    requires SofClock(times, m) && times != [] && e.Pumps()
    requires PrePump(m, e).clock.time < times[|times| - 1] + SOF_PERIOD_TICKS + HALF
    ensures var l := PrePump(m, e);
            SofNow(m, e) <==> Runs(l.pump, e.IdleVisit?) && l.bus.usb.enabled && l.bus.usb.attached
                              && l.clock.time >= times[|times| - 1] + SOF_PERIOD_TICKS
  {
    hide Mask32, ElapsedGe, Runs, AfterActivity;
    StepRefinesTime(m.line.clock, Activity(1));
    ElapsedGeDecides(PrePump(m, e).clock.time, times[|times| - 1] + SOF_PERIOD_TICKS);
  }

  /** What a pump call does for a start-of-frame, on every state. */
  lemma SofLatched(l: LineState, force: bool, slot: Slot)
    ensures var l' := PumpCall(l, force, slot).line;
            var due := Runs(l.pump, force) && l.bus.usb.enabled && l.bus.usb.attached
                       && Mask32(l.clock.ticks - l.pump.nextSof) < HALF;
            && l'.pump.nextSof == (if due then Mask32(l.clock.ticks + 10) else l.pump.nextSof)
            && (l'.bus.usb.events & 0x0200 != 0 <==> l.bus.usb.events & 0x0200 != 0 || due)
  {
    hide Step, PumpCall, AfterFrame, Mask32, SofDue;
    PumpEffects(l, force, slot);
    PumpEvents(l, force, slot);
    DueWhen(l);
  }

  lemma DueWhen(l: LineState)
    ensures SofDue(l) <==> l.bus.usb.attached && Mask32(l.clock.ticks - l.pump.nextSof) < HALF
  {
  }

  lemma PumpEvents(l: LineState, force: bool, slot: Slot)
    ensures PumpCall(l, force, slot).line.bus.usb.events & 0x0200 != 0
       <==> l.bus.usb.events & 0x0200 != 0 || (Runs(l.pump, force) && l.bus.usb.enabled && SofDue(l))
  {
    hide Step, SofDue, RaiseLine, H.Apply, AfterFrame, PumpCall;
    var framed := AfterFrame(l.(pump := CountCall(Spend(l.pump), force)));
    FrameEvents(l, force);
    PumpStepsBus(l, force, slot);
    StepIsApplied(framed.bus);
    H.EventLatches(framed.bus, H.HostStep, 0x0200);
    H.OneBit(l.bus.usb.events, 0x0200);
  }

  lemma FrameEvents(l: LineState, force: bool)
    ensures AfterFrame(l.(pump := CountCall(Spend(l.pump), force))).bus.usb.events
         == (if SofDue(l) then l.bus.usb.events | 0x0200 else l.bus.usb.events)
  {
  }

  lemma StepIsApplied(b: Bus)
    ensures H.Apply(b, H.HostStep) == Step(b).bus
  {
    hide Step;
  }

  lemma PumpStepsBus(l: LineState, force: bool, slot: Slot)
    ensures PumpCall(l, force, slot).line.bus
         == (if Runs(l.pump, force) && l.bus.usb.enabled
             then Step(AfterFrame(l.(pump := CountCall(Spend(l.pump), force))).bus).bus else l.bus)
  {
    hide Step, AfterFrame;
  }

  lemma NoSofsYet(m: Machine)
    requires m.line.clock.Valid()
    ensures SofClock([], m)
  {
  }

  lemma SofEvent(times: seq<nat>, m: Machine, e: Event)
    requires SofClock(times, m)
    ensures var T := PrePump(m, e).clock.time;
            && SofClock(if SofNow(m, e) then times + [T] else times, Apply(m, e))
            && (SofNow(m, e) && times != [] ==> times[|times| - 1] + SOF_PERIOD_TICKS <= T)
  {
    hide Step, PumpCall, AfterIdleTime, H.Apply, Cleared, AfterActivity, ElapsedGe, Mask32;
    var c := m.line.clock;
    StepRefinesTime(c, Activity(1));
    if e.OtherAccess? { StepRefinesTime(c, Activity(e.n)); }
    ClearedKeeps(m.(line := AfterInhibit(m.line, true)));
    ClearedKeeps(m);
    if e.Pumps() {
      var l := PrePump(m, e);
      PumpEffects(l, e.IdleVisit?, e.UsbSlot());
      if e.IdleVisit? { IdleTimeRefines(m.(line := PumpCall(l, true, e.slot31).line), e.slot15); }
      if SofNow(m, e) {
        MaskAdd(l.clock.time, SOF_PERIOD_TICKS);
        if times != [] { SofGap(l.clock.time, times[|times| - 1]); }
      }
    }
  }

  lemma MaskAdd(t: nat, n: nat)
    ensures Mask32(t % WRAP + n) == (t + n) % WRAP
  {
    MaskCongruent(t + n, t % WRAP + n, t / WRAP);
  }

  lemma IdleTimeRefines(m: Machine, slot: Slot)
    requires m.line.clock.Valid()
    ensures var m' := AfterIdleTime(m, slot);
            m'.line.clock.Valid() && m'.line.clock.time >= m.line.clock.time && m'.line.pump == m.line.pump
  {
    hide AfterPoll, AfterCatchUp, AfterAdvance;
    StepRefinesTime(m.line.clock, ClockOp.Advance(IDLE_DRIP));
    if AlarmDeadline(m.tim).Some? { StepRefinesTime(m.line.clock, CatchUp(AlarmDeadline(m.tim).value)); }
  }
}
