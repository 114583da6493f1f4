/** Histories from power-on in which the code does not do what its comments promise.  The laws
    they break, and the exact conditions under which those laws hold, are in DeliveryRuns,
    HostRuns and HostReassembly. */
module Witnesses {
  import opened Prelude
  import C = Clock
  import opened EndpointRegister
  import opened UsbBlock
  import opened UsbHostModel
  import H = HostRuns
  import HostReassembly
  import opened Timer
  import opened Delivery
  import opened DeliveryRuns

  // ----- a tick is lost -----

  /** From power-on: the compare is enabled and set, an idle visit jumps to it and queues its
      tick, and the switch is entered before the backend drains it. */
  function LosingHistory(script: seq<Xfer>): History {
    Then(Then(Then(From(PowerOn(script)), Tim2Write(DIER, 2)), Tim2Write(CCR1, 5)), IdleVisit(Unreadable, Unreadable))
  }

  /** The loss happens: the tick of LosingHistory is dropped, and unless the compare is armed
      anew the one compare that fired never reaches the backend. */
  lemma TickCanBeLost(script: seq<Xfer>, r: History)
    requires Start(r) == Apply(End(LosingHistory(script)), EnterSwitch) && Arms(r) == 0
    ensures End(LosingHistory(script)).line.pending == [TIM2_IRQ] && End(LosingHistory(script)).tim.compares == 1
    ensures Start(r).line.pending == [] && Start(r).deferred == 1
    ensures TIM2_IRQ !in End(r).line.pending && End(r).tim2Delivered == 1
  {
    var m := End(LosingHistory(script));
    TickIsQueued(script);
    DroppedTickIsGone(m, r);
    ClearedAlone(m.(line := AfterInhibit(m.line, true)));
  }

  lemma TickIsQueued(script: seq<Xfer>)
    ensures var m := End(LosingHistory(script));
            && m.line.pending == [TIM2_IRQ] && m.tim.compares == 1 && m.tim2Delivered == 1 && m.deferred == 0
            && Settled(m.tim)
  {
    hide Step;
    var m0 := PowerOn(script);
    var h1 := Then(From(m0), Tim2Write(DIER, 2));
    var m1 := End(h1);
    assert End(From(m0)) == m0;
    var m2 := Apply(m1, Tim2Write(CCR1, 5));
    assert End(Then(h1, Tim2Write(CCR1, 5))) == m2;
    assert Bit1(2);
    assert m2 == m0.(tim := TimState(true, 5, None, false, 0, false));
    var l := PrePump(m2, IdleVisit(Unreadable, Unreadable));
    assert PumpCall(l, true, Unreadable).line == l && !PumpCall(l, true, Unreadable).fault;
    assert C.AfterCatchUp(C.CLOCK_RESET, 5).ticks == 5;
    assert AfterIdle(m2, Unreadable, Unreadable) == AfterIdleTime(m2.(line := l), Unreadable);
  }

  // ----- an alarm is never reached -----

  function HalfwayHistory(script: seq<Xfer>): History {
    Then(Then(From(PowerOn(script)), Tim2Write(DIER, 2)), Tim2Write(CCR1, 0x80000000))
  }

  /** From power-on: an alarm 2^31 ahead, and no number of idle visits delivers it. */
  lemma AlarmCanHang(script: seq<Xfer>, r: History)
    requires Start(r) == End(HalfwayHistory(script)) && ClockIdle(r)
    ensures HalfwayAlarm(Start(r)) && Start(r).line.clock == C.CLOCK_RESET && Start(r).line.pending == []
    ensures End(r).line.clock == C.CLOCK_RESET && End(r).tim2Delivered == 0
  {
    var h1 := Then(From(PowerOn(script)), Tim2Write(DIER, 2));
    assert End(From(PowerOn(script))) == PowerOn(script);
    assert Bit1(2);
    assert End(h1) == PowerOn(script).(tim := TIMER_RESET.(armed := true));
    assert Start(r) == PowerOn(script).(tim := TIMER_RESET.(armed := true, ccr1 := 0x80000000));
    HalfwayAlarmHangs(r);
  }

  // ----- EP0 is opened and enumeration starts -----

  /** The device is attached, addressed and enabled, and EP0's descriptor is filled in. */
  ghost predicate Opened(u: UsbState, mem: seq<byte>) {
    && u.enabled && u.attached && u.AddressEnabled() && u.Btable() == 0
    && u.epr[0] != CLEARED && (forall k :: 0 <= k < 4 ==> u.epr[k].statTx.Disabled?)
    && |mem| == PMA_SIZE && Halfword(mem, 4) != 0 && Halfword(mem, 6) / 1024 != 0
  }

  /** An NMI is queued, no alarm is set, and n idle visits have been made, the first of which
      latched a start-of-frame. */
  ghost predicate Waiting(m: Machine, n: nat) {
    && m.line.pending == [NMI_IRQ] && m.tim == TIMER_RESET && m.line.clock.ticks == n
    && m.line.pump.nextSof == (if n == 0 then 0 else SOF_PERIOD_TICKS) && m.line.pump.vectorOk == None
  }

  lemma NotPreempted(b: Bus)
    requires Opened(b.usb, b.mem)
    ensures !Preempted(b) && Fits(b.usb, b.mem, 0)
  {
  }

  lemma OnlyEvents(u: UsbState, u': UsbState, mem: seq<byte>)
    requires Opened(u, mem) && u' == u.(events := u'.events)
    ensures Opened(u', mem)
  {
    assert u'.Btable() == u.Btable() && u'.AddressEnabled() == u.AddressEnabled();
  }

  lemma AttachStep(b: Bus)
    requires Opened(b.usb, b.mem) && b.host.phase.WaitAttach?
    ensures !Step(b).fault && Step(b).bus == b.(host := b.host.(pendingIrq := false, phase := Reset))
  {
    hide DescriptorOpen, PacketOf;
    NotPreempted(b);
  }

  lemma ResetStep(b: Bus)
    requires Opened(b.usb, b.mem) && b.host.phase.Reset?
    ensures !Step(b).fault
    ensures Step(b).bus == Bus(b.host.(pendingIrq := true, phase := WaitEp0), AfterReset(b.usb), b.mem)
  {
    hide DescriptorOpen, PacketOf;
    NotPreempted(b);
  }

  lemma OpenStep(b: Bus)
    requires Opened(b.usb, b.mem) && b.host.phase.WaitEp0? && !b.usb.epr[0].Busy()
    ensures !Step(b).fault
    ensures Step(b).bus == b.(host := b.host.(pendingIrq := false, phase := Advance, queue := b.host.queue + b.host.script))
  {
    hide PacketOf;
    NotPreempted(b);
    assert DescriptorOpen(b.usb, b.mem);
  }

  lemma SetupSent(b: Bus)
    requires Opened(b.usb, b.mem) && b.host.phase.Advance? && b.host.queue != [] && !b.usb.epr[0].Busy()
    ensures !Step(b).fault && Step(b).bus.host.phase.Transfer() && Step(b).bus.usb.epr[0].ctrRx
    ensures Step(b).bus.usb.enabled && Step(b).bus.usb.attached && !Preempted(Step(b).bus)
  {
    hide DescriptorOpen, PacketOf, Deliver;
    NotPreempted(b);
    H.StepTouchesOne(b);
  }

  /** The bus when the host step of an idle visit is taken. */
  function Framed(m: Machine): Bus {
    AfterFrame(m.line.(pump := CountCall(Spend(AfterInhibit(m.line, false).pump), true))).bus
  }

  /** One idle visit with the NMI still queued: a host step, and a tick of the clock. */
  lemma VisitSteps(m: Machine, n: nat)
    requires Waiting(m, n) && n < SOF_PERIOD_TICKS && Opened(m.line.bus.usb, m.line.bus.mem)
    ensures var b := Framed(m);
            && b.host == m.line.bus.host && b.mem == m.line.bus.mem && b.usb.epr == m.line.bus.usb.epr
            && Opened(b.usb, b.mem)
    ensures var m' := Apply(m, IdleVisit(Unreadable, Unreadable));
            m'.line.bus == Step(Framed(m)).bus && (!Step(Framed(m)).fault ==> Waiting(m', n + 1))
  {
    hide Step;
    OnlyEvents(m.line.bus.usb, Framed(m).usb, m.line.bus.mem);
    hide Opened;
    assert m.line.bus.usb.enabled && m.line.bus.usb.attached by { Plugged(m.line.bus.usb, m.line.bus.mem); }
    C.MaskNear(n - SOF_PERIOD_TICKS);
    C.MaskNear(n + 1);
  }

  lemma Plugged(u: UsbState, mem: seq<byte>)
    requires Opened(u, mem)
    ensures u.enabled && u.attached
  {
  }

  // the firmware's writes

  lemma UsbOpened()
    ensures var u := AfterHwWrite(AfterHwWrite(AfterHwWrite(USB_RESET, CNTR, 0), BCDR, 0x8000), DADDR, 0x80);
            var u' := AfterHwWrite(u, 0, 0x0200);
            && u'.enabled && u'.attached && u'.AddressEnabled() && u'.Btable() == 0
            && u'.epr[0] != CLEARED && !u'.epr[0].Busy() && (forall k :: 0 <= k < 4 ==> u'.epr[k].statTx.Disabled?)
  {
    var e := WriteFields(CLEARED, Decode(0x0200));
    assert e.plain == 0x0200 && !e.Busy() && e.statTx == Disabled;
  }

  lemma MemOpened()
    ensures var mem := CpuWrite(CpuWrite(seq(PMA_SIZE, _ => 0), 4, 2, 0x40), 6, 2, 0x8400);
            |mem| == PMA_SIZE && Halfword(mem, 4) == 0x40 && Halfword(mem, 6) == 0x8400
  {
    HalfwordBytes(0x40);
    HalfwordBytes(0x8400);
    var zeros: seq<byte> := seq(PMA_SIZE, _ => 0);
    WriteFlatInside(zeros, 4, LittleEndian(0x40, 2));
    var mem := CpuWrite(zeros, 4, 2, 0x40);
    WriteFlatInside(mem, 6, LittleEndian(0x8400, 2));
  }

  function UsbWrites(script: seq<Xfer>): History {
    Then(Then(Then(Then(From(PowerOn(script)), CpuUsbWrite(CNTR, 0)), CpuUsbWrite(BCDR, 0x8000)),
              CpuUsbWrite(DADDR, 0x80)), CpuUsbWrite(0, 0x0200))
  }

  function SetUp(script: seq<Xfer>): History {
    Then(Then(Then(UsbWrites(script), CpuPmaWrite(4, 2, 0x40)), CpuPmaWrite(6, 2, 0x8400)), SwitchSpin)
  }

  function Visits(r: History, n: nat): History {
    if n == 0 then r else Then(Visits(r, n - 1), IdleVisit(Unreadable, Unreadable))
  }

  /** A register write, while no activity has added up to a tick yet. */
  lemma OneWrite(m: Machine, k: nat, off: nat, value: bv16)
    requires m.line.clock == C.ClockState(0, k, 0) && k < 10 && off < BLOCK_SIZE
    ensures Apply(m, CpuUsbWrite(off, value))
         == m.(line := m.line.(clock := C.ClockState(0, k + 1, 0), bus := m.line.bus.(usb := AfterHwWrite(m.line.bus.usb, off, value))))
  {
    hide AfterHwWrite;
  }

  lemma WritesOpenUsb(script: seq<Xfer>)
    ensures var m, m0 := End(UsbWrites(script)), PowerOn(script);
            && m.line.bus.usb == AfterHwWrite(AfterHwWrite(AfterHwWrite(AfterHwWrite(
                                   USB_RESET, CNTR, 0), BCDR, 0x8000), DADDR, 0x80), 0, 0x0200)
            && m.line.bus.host == m0.line.bus.host && m.line.bus.mem == m0.line.bus.mem
            && m.line.pump == m0.line.pump && m.line.pending == [] && m.tim == TIMER_RESET && m.line.clock.ticks == 0
  {
    hide AfterHwWrite, Apply;
    var r0 := From(PowerOn(script));
    var r1 := Then(r0, CpuUsbWrite(CNTR, 0));
    var r2 := Then(r1, CpuUsbWrite(BCDR, 0x8000));
    var r3 := Then(r2, CpuUsbWrite(DADDR, 0x80));
    assert UsbWrites(script) == Then(r3, CpuUsbWrite(0, 0x0200));
    OneWrite(End(r0), 0, CNTR, 0);
    OneWrite(End(r1), 1, BCDR, 0x8000);
    OneWrite(End(r2), 2, DADDR, 0x80);
    OneWrite(End(r3), 3, 0, 0x0200);
  }

  lemma SetUpOpens(script: seq<Xfer>)
    ensures var m := End(SetUp(script));
            && Opened(m.line.bus.usb, m.line.bus.mem) && !m.line.bus.usb.epr[0].Busy() && m.line.bus.host == FreshHost(script)
            && Waiting(m, 0)
  {
    hide AfterHwWrite, CpuWrite, Halfword;
    UsbOpened();
    MemOpened();
    WritesOpenUsb(script);
    var r1 := Then(UsbWrites(script), CpuPmaWrite(4, 2, 0x40));
    var m1 := End(r1);
    assert m1 == Apply(End(UsbWrites(script)), CpuPmaWrite(4, 2, 0x40));
    var m2 := End(Then(r1, CpuPmaWrite(6, 2, 0x8400)));
    assert m2 == Apply(m1, CpuPmaWrite(6, 2, 0x8400));
    assert Foreign([]) == 0;
    assert End(SetUp(script)) == AfterSwitch(m2);
  }

  /** Three idle visits later the host has reset the bus, found EP0 open, and queued its script. */
  lemma Enumerates(script: seq<Xfer>)
    ensures var m := End(Visits(SetUp(script), 3));
            && Opened(m.line.bus.usb, m.line.bus.mem) && !m.line.bus.usb.epr[0].Busy() && Waiting(m, 3)
            && m.line.bus.host == FreshHost(script).(phase := Advance, queue := script)
  {
    hide Apply, Step, Opened, Waiting, Framed, SetUp;
    var r := SetUp(script);
    SetUpOpens(script);
    var m0, m1, m2 := End(r), End(Visits(r, 1)), End(Visits(r, 2));
    VisitEnds(r, 0);
    VisitEnds(r, 1);
    VisitEnds(r, 2);
    VisitSteps(m0, 0);
    AttachStep(Framed(m0));
    VisitSteps(m1, 1);
    ResetStep(Framed(m1));
    OnlyEvents(Framed(m1).usb, AfterReset(Framed(m1).usb), Framed(m1).mem);
    VisitSteps(m2, 2);
    OpenStep(Framed(m2));
    assert [] + script == script;
  }

  lemma VisitEnds(r: History, n: nat)
    ensures Visits(r, 0) == r
    ensures End(Visits(r, n + 1)) == Apply(End(Visits(r, n)), IdleVisit(Unreadable, Unreadable))
  {
  }

  // ----- a latched flag raises nothing -----

  /** The fourth visit sends a SETUP while the NMI keeps IRQ 31 back, and the NMI is drained. */
  function DeafHistory(script: seq<Xfer>): History {
    Then(Visits(SetUp(script), 4), Drain(1))
  }

  /** From power-on: EP0's flag is latched, nothing is queued, the inhibit is off, and the next
      idle visit queues nothing. */
  lemma FlagCanWait(script: seq<Xfer>)
    requires script != []
    ensures var m := End(DeafHistory(script));
            && m.line.bus.usb.epr[0].ctrRx && m.line.bus.usb.enabled && m.line.pending == []
            && Apply(m, IdleVisit(Word(1), Word(1))).line.pending == []
  {
    hide Apply, Step, Waiting, Framed, SetUp, Opened, PumpCall;
    var r := SetUp(script);
    Enumerates(script);
    VisitEnds(r, 3);
    var m3, m4 := End(Visits(r, 3)), End(Visits(r, 4));
    VisitSteps(m3, 3);
    SetupSent(Framed(m3));
    DrainsNmi(m4);
    var m := End(DeafHistory(script));
    assert m == Apply(m4, Drain(1));
    assert m.(line := m.line.(pending := [NMI_IRQ])) == m4;
    NothingRaised(m, 4);
  }

  lemma DrainsNmi(m: Machine)
    requires Waiting(m, 4)
    ensures Apply(m, Drain(1)) == m.(line := m.line.(pending := []))
    ensures Apply(m, Drain(1)).(line := m.line) == m && m.line.pending == [NMI_IRQ]
  {
  }

  lemma NothingRaised(m: Machine, n: nat)
    requires 0 < n < SOF_PERIOD_TICKS && m.line.pending == [] && Waiting(m.(line := m.line.(pending := [NMI_IRQ])), n)
    requires m.line.bus.usb.enabled && m.line.bus.usb.epr[0].Busy() && !Preempted(m.line.bus)
    requires !m.line.bus.host.phase.Reset?
    ensures Apply(m, IdleVisit(Word(1), Word(1))).line.pending == []
  {
    hide PumpCall, Step;
    var l := PrePump(m, IdleVisit(Word(1), Word(1)));
    C.MaskNear(n - SOF_PERIOD_TICKS);
    assert !SofDue(l);
    LatchedFlagWaitsForSof(l, true, Word(1));
    PumpEffects(l, true, Word(1));
  }

  // ----- a transfer is lost -----

  /** In the advance phase the firmware points BTABLE outside packet memory, for one idle visit. */
  function StrayTable(script: seq<Xfer>): History {
    Then(Visits(SetUp(script), 3), CpuUsbWrite(BTABLE, 0xFFF8))
  }

  function StrayHistory(script: seq<Xfer>): History {
    Then(Then(StrayTable(script), IdleVisit(Unreadable, Unreadable)), CpuUsbWrite(BTABLE, 0))
  }

  /** From power-on: a start fails, and the next one displaces the transfer, which was first in
      the script. */
  lemma TransferCanBeLost(script: seq<Xfer>)
    requires |script| >= 2
    ensures H.StartFails(End(StrayTable(script)).line.bus)
    ensures var b := End(StrayHistory(script)).line.bus;
            && HostReassembly.Orphaned(b.host, script[0]) && b.host.queue == script[1..]
            && H.DisplacedBy(b, H.HostStep) == [script[0].tag]
  {
    hide Apply, Step, Waiting, SetUp, Opened, Framed;
    var r := SetUp(script);
    Enumerates(script);
    var m3, m4, m5 := End(Visits(r, 3)), End(StrayTable(script)), End(StrayHistory(script).before);
    assert m4 == Apply(m3, CpuUsbWrite(BTABLE, 0xFFF8));
    Strays(m3);
    assert m5 == Apply(m4, IdleVisit(Unreadable, Unreadable));
    StrayVisit(m4);
    assert End(StrayHistory(script)) == Apply(m5, CpuUsbWrite(BTABLE, 0));
    TableBack(m5);
  }

  lemma Strays(m: Machine)
    requires Opened(m.line.bus.usb, m.line.bus.mem)
    ensures var m' := Apply(m, CpuUsbWrite(BTABLE, 0xFFF8));
            && m'.line.bus == m.line.bus.(usb := m.line.bus.usb.(regs := m.line.bus.usb.regs[BTABLE := 0xFFF8]))
            && m'.line.bus.usb.enabled && !Fits(m'.line.bus.usb, m'.line.bus.mem, 0) && !Preempted(m'.line.bus)
  {
  }

  /** A visit whose start fails leaves registers and memory alone. */
  lemma StrayVisit(m: Machine)
    requires m.line.bus.usb.enabled && !Fits(m.line.bus.usb, m.line.bus.mem, 0) && !Preempted(m.line.bus)
    requires m.line.bus.host.phase.Advance? && m.line.bus.host.queue != [] && !m.line.bus.usb.epr[0].Busy()
    ensures var b, b' := m.line.bus, Apply(m, IdleVisit(Unreadable, Unreadable)).line.bus;
            && HostReassembly.Orphaned(b'.host, b.host.queue[0]) && b'.host.phase.Advance?
            && b'.host.queue == b.host.queue[1..] && b'.usb == b.usb.(events := b'.usb.events)
  {
    hide Step, Fits, AfterIdleTime;
    var b := Framed(m);
    FramedBus(m);
    H.SameReady(m.line.bus.usb, b.usb, 1);
    SameFits(m.line.bus.usb, b.usb, b.mem);
    HostReassembly.StartOnce(b);
    hide PumpCall;
    VisitBus(m);
  }

  lemma FramedBus(m: Machine)
    ensures var b := Framed(m);
            b.host == m.line.bus.host && b.mem == m.line.bus.mem && b.usb == m.line.bus.usb.(events := b.usb.events)
  {
  }

  lemma VisitBus(m: Machine)
    requires m.line.bus.usb.enabled
    ensures Apply(m, IdleVisit(Unreadable, Unreadable)).line.bus == Step(Framed(m)).bus
  {
    hide Step, AfterIdleTime, AfterFrame;
    IdleTimeKeeps(m.(line := PumpCall(PrePump(m, IdleVisit(Unreadable, Unreadable)), true, Unreadable).line), Unreadable);
    assert AfterFrame(m.line.(pump := CountCall(Spend(AfterInhibit(m.line, false).pump), true))).bus == Framed(m);
  }

  lemma SameFits(u: UsbState, u': UsbState, mem: seq<byte>)
    requires u'.regs == u.regs
    ensures Fits(u', mem, 0) == Fits(u, mem, 0)
  {
    assert u'.Btable() == u.Btable();
  }

  lemma TableBack(m: Machine)
    ensures var b, b' := m.line.bus, Apply(m, CpuUsbWrite(BTABLE, 0)).line.bus;
            && b'.host == b.host && b'.usb.epr == b.usb.epr
            && (Preempted(b') <==> Preempted(b))
  {
    H.SameReady(m.line.bus.usb, Apply(m, CpuUsbWrite(BTABLE, 0)).line.bus.usb, 1);
  }
}
