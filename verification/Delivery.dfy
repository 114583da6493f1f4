/** Interrupt delivery: the one place IRQ 31 is raised (usb_pump.py), and the breakpoint handlers
    that deliver TIM2 and the context-switch NMI (chibios_pump.py), around one shared pending
    list.  The backend drains that list; it is not part of this model beyond that. */
module Delivery {
  import opened Prelude
  import opened Clock
  import opened UsbBlock
  import opened UsbHostModel
  import opened Timer

  const USB_IRQ: int := 31
  const TIM2_IRQ: int := 15
  const NMI_IRQ: int := -14
  const STEP_EVERY: nat := 48
  const SOF_PERIOD_TICKS: nat := 10
  const INHIBIT_BUDGET: nat := 64
  const IDLE_DRIP: nat := 1

  /** What reading a vector-table slot out of guest memory gives. */
  datatype Slot = Unreadable | Word(value: nat)

  datatype PumpState = PumpState(calls: nat, nextSof: nat, delivered: nat, vectorOk: Option<bool>, budget: nat)

  /** Everything a pump call works on. */
  datatype LineState = LineState(bus: Bus, clock: ClockState, pump: PumpState, pending: seq<int>)

  datatype Machine = Machine(
    line: LineState, tim: TimState, tim2Delivered: nat, deferredTicks: nat, jumps: nat,
    switches: nat, deferred: nat)

  // ----- usb_pump -----

  datatype Pumped = Pumped(line: LineState, fault: bool)

  function Spend(p: PumpState): PumpState {
    p.(budget := if p.budget > 0 then p.budget - 1 else 0)
  }

  /** This call is not throttled away. */
  predicate Runs(p: PumpState, force: bool) {
    force || p.calls + 1 >= STEP_EVERY
  }

  function CountCall(p: PumpState, force: bool): PumpState {
    if force then p else p.(calls := if p.calls + 1 < STEP_EVERY then p.calls + 1 else 0)
  }

  predicate SofDue(l: LineState) {
    l.bus.usb.attached && ElapsedGe(l.clock.ticks, l.pump.nextSof)
  }

  function AfterFrame(l: LineState): LineState {
    if SofDue(l)
    then l.(bus := l.bus.(usb := AfterSof(l.bus.usb)),
            pump := l.pump.(nextSof := Mask32(l.clock.ticks + SOF_PERIOD_TICKS)))
    else l
  }

  /** The verdict on the USB vector slot, once it has been read; None while undecided. */
  function Verdict(ok: Option<bool>, slot: Slot): Option<bool> {
    if ok.Some? then ok else if slot.Unreadable? then None else Some(slot.value != 0)
  }

  function RaiseLine(l: LineState, slot: Slot): LineState {
    var ok := Verdict(l.pump.vectorOk, slot);
    if ok == Some(true)
    then l.(pump := l.pump.(vectorOk := ok, delivered := l.pump.delivered + 1), pending := l.pending + [USB_IRQ])
    else l.(pump := l.pump.(vectorOk := ok))
  }

  /** The frame and the host step wanted the line raised. */
  predicate Wants(l: LineState, o: Outcome) {
    SofDue(l) || (o.acted && o.bus.host.pendingIrq)
  }

  function PumpCall(l: LineState, force: bool, slot: Slot): Pumped {
    var counted := l.(pump := CountCall(Spend(l.pump), force));
    if !Runs(l.pump, force) || !l.bus.usb.enabled then Pumped(counted, false)
    else
      var framed := AfterFrame(counted);
      var o := Step(framed.bus);
      var stepped := framed.(bus := o.bus);
      if o.fault then Pumped(stepped, true)
      else if !Wants(counted, o) || stepped.pump.budget > 0 || stepped.pending != [] then Pumped(stepped, false)
      else Pumped(RaiseLine(stepped, slot), false)
  }

  // ----- the idle seam -----

  /** A slot that could not be read is taken to be live; only a zero word is not. */
  predicate Live(slot: Slot) {
    slot.Unreadable? || slot.value != 0
  }

  function InjectTick(m: Machine, slot: Slot, late: bool): Machine {
    var taken := m.(tim := m.tim.(pendingIrq := false));
    if Live(slot)
    then taken.(line := m.line.(pending := m.line.pending + [TIM2_IRQ]), tim2Delivered := m.tim2Delivered + 1,
                deferredTicks := if late then m.deferredTicks + 1 else m.deferredTicks)
    else taken
  }

  function AfterIdleTime(m: Machine, slot: Slot): Machine {
    if m.tim.pendingIrq then (if m.line.pending != [] then m else InjectTick(m, slot, true))
    else
      match AlarmDeadline(m.tim)
      case None => m.(line := m.line.(clock := AfterAdvance(m.line.clock, IDLE_DRIP)))
      case Some(d) =>
        var clock := AfterCatchUp(m.line.clock, d);
        var moved := m.(line := m.line.(clock := clock), jumps := if clock != m.line.clock then m.jumps + 1 else m.jumps,
                        tim := AfterPoll(m.tim, clock.ticks));
        if Reached(m.tim, clock.ticks) && m.line.pending == [] then InjectTick(moved, slot, false) else moved
  }

  function AfterInhibit(l: LineState, on: bool): LineState {
    l.(pump := l.pump.(budget := if on then INHIBIT_BUDGET else 0))
  }

  function AfterIdle(m: Machine, slot31: Slot, slot15: Slot): Machine {
    var p := PumpCall(AfterInhibit(m.line, false), true, slot31);
    var pumped := m.(line := p.line);
    if p.fault then pumped else AfterIdleTime(pumped, slot15)
  }

  // ----- the context switch -----

  function Foreign(pending: seq<int>): nat {
    if pending == [] then 0 else Foreign(pending[..|pending| - 1]) + if pending[|pending| - 1] != NMI_IRQ then 1 else 0
  }

  function Cleared(m: Machine): Machine {
    if Foreign(m.line.pending) == 0 then m
    else m.(line := m.line.(pending := []), deferred := m.deferred + Foreign(m.line.pending))
  }

  function AfterEntering(m: Machine): Machine {
    Cleared(m.(line := AfterInhibit(m.line, true)))
  }

  function AfterSwitch(m: Machine): Machine {
    if NMI_IRQ in m.line.pending then m
    else
      var c := Cleared(m);
      c.(line := AfterInhibit(c.line, false).(pending := c.line.pending + [NMI_IRQ]), switches := c.switches + 1)
  }

  // ----- the source's objects -----

  class Backend {
    var pendingIrqs: seq<int>

    constructor ()
      ensures pendingIrqs == []
    {
      pendingIrqs := [];
    }

    method InjectIrq(irq: int)
      modifies this
      ensures pendingIrqs == old(pendingIrqs) + [irq]
    {
      pendingIrqs := pendingIrqs + [irq];
    }
  }

  /** The module usb_pump, its globals as fields. */
  class UsbPump {
    const clock: GuestClock
    const usb: UsbRegs
    const pma: UsbPma
    const host: UsbHost
    const backend: Backend
    var calls: nat
    var nextSof: nat
    var delivered: nat
    var vectorOk: Option<bool>
    var budget: nat

    ghost function State(): PumpState
      reads this
    {
      PumpState(calls, nextSof, delivered, vectorOk, budget)
    }

    ghost predicate Valid()
      reads this, clock, usb
    {
      clock.Valid() && usb.Valid()
    }

    ghost function View(): LineState
      requires Valid()
      reads this, clock, usb, pma, host, backend
    {
      LineState(host.View(usb, pma), clock.State(), State(), backend.pendingIrqs)
    }

    constructor (clock: GuestClock, usb: UsbRegs, pma: UsbPma, host: UsbHost, backend: Backend)
      ensures this.clock == clock && this.usb == usb && this.pma == pma && this.host == host && this.backend == backend
      ensures State() == PumpState(0, 0, 0, None, 0)
    {
      this.clock, this.usb, this.pma, this.host, this.backend := clock, usb, pma, host, backend;
      calls, nextSof, delivered, vectorOk, budget := 0, 0, 0, None, 0;
    }

    method Inhibit(on: bool)
      requires Valid()
      modifies this`budget
      ensures Valid() && View() == AfterInhibit(old(View()), on)
    {
      budget := if on then INHIBIT_BUDGET else 0;
    }

    /** The throttle: true if this call is to go on. */
    method Admit(force: bool) returns (go: bool)
      modifies this`budget, this`calls
      ensures State() == CountCall(Spend(old(State())), force)
      ensures go <==> Runs(old(State()), force)
    {
      if budget > 0 {
        budget := budget - 1;
      }
      if !force {
        calls := calls + 1;
        if calls < STEP_EVERY {
          return false;
        }
        calls := 0;
      }
      return true;
    }

    method Frame() returns (due: bool)
      requires Valid()
      modifies this`nextSof, usb
      ensures Valid() && View() == AfterFrame(old(View()))
      ensures due <==> SofDue(old(View()))
    {
      hide DecodeAll;
      due := false;
      if usb.attached {
        var now := clock.ticks;
        if ElapsedGe(now, nextSof) {
          nextSof := Mask32(now + SOF_PERIOD_TICKS);
          usb.RaiseSof();
          due := true;
        }
      }
    }

    /** Queue IRQ 31, once the vector slot is known to be installed. */
    method Queue(slot: Slot)
      requires Valid()
      modifies this`vectorOk, this`delivered, backend
      ensures Valid() && View() == RaiseLine(old(View()), slot)
    {
      if vectorOk.None? {
        match slot
        case Unreadable => return;
        case Word(w) => vectorOk := Some(w != 0);
      }
      if !vectorOk.value {
        return;
      }
      backend.pendingIrqs := backend.pendingIrqs + [USB_IRQ];
      delivered := delivered + 1;
    }

    /** `slot` is what reading the USB vector slot gives, should this call read it. */
    method Pump(force: bool, slot: Slot) returns (fault: bool)
      requires Valid()
      modifies this, usb, pma, host, backend
      ensures Valid() && Pumped(View(), fault) == PumpCall(old(View()), force, slot)
    {
      hide Step, DecodeAll, CountCall, Spend, Runs, RaiseLine, AfterFrame, SofDue;
      var go := Admit(force);
      if !go || !usb.enabled {
        return false;
      }
      var raise := Frame();
      var acted;
      acted, fault := host.RunStep(usb, pma);
      if fault {
        return;
      }
      if acted && host.pendingIrq {
        raise := true;
      }
      if !raise || budget > 0 || backend.pendingIrqs != [] {
        return;
      }
      Queue(slot);
    }
  }

  /** The machine made of one pump, its timer, and the handlers' counters. */
  ghost function Assembled(idle: IdlePump, nmi: NmiSwitch): Machine
    requires idle.pump.Valid()
    reads idle, nmi, idle.tim, idle.pump, idle.pump.clock, idle.pump.usb, idle.pump.pma, idle.pump.host, idle.pump.backend
  {
    Machine(idle.pump.View(), idle.tim.State(), idle.tim2Delivered, idle.deferredTicks, idle.jumps,
            nmi.switches, nmi.deferred)
  }

  class IdlePump {
    const pump: UsbPump
    const tim: Tim2
    var tim2Delivered: nat
    var deferredTicks: nat
    var jumps: nat

    constructor (pump: UsbPump, tim: Tim2)
      ensures this.pump == pump && this.tim == tim
      ensures tim2Delivered == 0 && deferredTicks == 0 && jumps == 0
    {
      this.pump, this.tim := pump, tim;
      tim2Delivered, deferredTicks, jumps := 0, 0, 0;
    }

    /** Hand TIM2's pending interrupt to the backend, unless its vector slot is zero. */
    method Inject(slot: Slot, late: bool, ghost nmi: NmiSwitch)
      requires pump.Valid() && tim.pendingIrq
      modifies this, tim, pump.backend
      ensures pump.Valid() && Assembled(this, nmi) == InjectTick(old(Assembled(this, nmi)), slot, late)
    {
      hide DecodeAll;
      var taken := tim.TakePendingIrq();
      if taken && Live(slot) {
        pump.backend.InjectIrq(TIM2_IRQ);
        tim2Delivered := tim2Delivered + 1;
        if late {
          deferredTicks := deferredTicks + 1;
        }
      }
    }

    /** The half of the idle handler after the USB pump: time, and the compare it reaches. */
    method Tick(slot: Slot, ghost nmi: NmiSwitch)
      requires pump.Valid()
      modifies this, tim, pump.clock, pump.backend
      ensures pump.Valid() && Assembled(this, nmi) == AfterIdleTime(old(Assembled(this, nmi)), slot)
    {
      hide DecodeAll, InjectTick, AfterAdvance, AfterCatchUp, AfterPoll, AlarmDeadline;
      if tim.pendingIrq {
        if pump.backend.pendingIrqs == [] {
          Inject(slot, true, nmi);
        }
        return;
      }
      var deadline := tim.Deadline();
      if deadline.None? {
        pump.clock.AdvanceBy(IDLE_DRIP);
        return;
      }
      MovesTell(pump.clock.State(), deadline.value);
      var moved := pump.clock.CatchUpTo(deadline.value);
      if moved {
        jumps := jumps + 1;
      }
      var reached := tim.PollCompare(pump.clock);
      if reached && pump.backend.pendingIrqs == [] {
        PollSets(old(tim.State()), pump.clock.ticks);
        Inject(slot, false, nmi);
      }
    }

    method Idle(slot31: Slot, slot15: Slot, ghost nmi: NmiSwitch)
      requires pump.Valid()
      modifies this, tim, pump, pump.clock, pump.usb, pump.pma, pump.host, pump.backend
      ensures pump.Valid() && Assembled(this, nmi) == AfterIdle(old(Assembled(this, nmi)), slot31, slot15)
    {
      hide DecodeAll, PumpCall, AfterIdleTime;
      pump.Inhibit(false);
      var fault := pump.Pump(true, slot31);
      if !fault {
        Tick(slot15, nmi);
      }
    }
  }

  /** catch_up_to reports a move exactly when the clock changed. */
  lemma MovesTell(c: ClockState, deadline: nat)
    ensures AfterCatchUp(c, deadline) == c <==> AfterCatchUp(c, deadline).time == c.time
  {
  }

  lemma PollSets(t: TimState, now: nat)
    requires Reached(t, now)
    ensures AfterPoll(t, now).pendingIrq
  {
  }

  class NmiSwitch {
    const pump: UsbPump
    var switches: nat
    var deferred: nat

    constructor (pump: UsbPump)
      ensures this.pump == pump && switches == 0 && deferred == 0
    {
      this.pump := pump;
      switches, deferred := 0, 0;
    }

    /** How many queued entries are not the NMI. */
    method CountForeign() returns (foreign: nat)
      ensures foreign == Foreign(pump.backend.pendingIrqs)
    {
      var pending := pump.backend.pendingIrqs;
      foreign := 0;
      for i := 0 to |pending|
        invariant foreign == Foreign(pending[..i])
      {
        assert pending[..i + 1][..i] == pending[..i];
        if pending[i] != NMI_IRQ {
          foreign := foreign + 1;
        }
      }
      assert pending[..|pending|] == pending;
    }

    method Clear(ghost idle: IdlePump)
      requires idle.pump == pump && pump.Valid()
      modifies this, pump.backend
      ensures pump.Valid() && Assembled(idle, this) == Cleared(old(Assembled(idle, this)))
    {
      hide DecodeAll, Foreign;
      var foreign := CountForeign();
      if foreign != 0 {
        pump.backend.pendingIrqs := [];
        deferred := deferred + foreign;
      }
    }

    method Entering(ghost idle: IdlePump)
      requires idle.pump == pump && pump.Valid()
      modifies this, pump, pump.backend
      ensures pump.Valid() && Assembled(idle, this) == AfterEntering(old(Assembled(idle, this)))
    {
      hide DecodeAll, Cleared;
      pump.Inhibit(true);
      Clear(idle);
    }

    method Switch(ghost idle: IdlePump)
      requires idle.pump == pump && pump.Valid()
      modifies this, pump, pump.backend
      ensures pump.Valid() && Assembled(idle, this) == AfterSwitch(old(Assembled(idle, this)))
    {
      hide DecodeAll, Cleared;
      if NMI_IRQ in pump.backend.pendingIrqs {
        return;
      }
      Clear(idle);
      switches := switches + 1;
      pump.backend.InjectIrq(NMI_IRQ);
      pump.Inhibit(false);
    }
  }
}
