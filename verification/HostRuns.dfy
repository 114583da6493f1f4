/** Everything that can happen between the host, the register block and packet memory, in any
    order: the firmware writes any value to any register or to packet memory, a client queues a
    transfer, a start-of-frame is latched, the host takes a step.  Each section proves one law
    of all such runs; the functions over a run are histories read off it. */
module HostRuns {
  import opened Prelude
  import opened EndpointRegister
  import opened UsbBlock
  import opened UsbHostModel

  datatype BusEvent =
    | UsbWrite(off: nat, value: bv16)
    | PmaWrite(offset: nat, size: nat, word: nat)
    | Request(tag: string, bm: int, req: int, wValue: int, wIndex: int, wLength: int, out: seq<byte>)
    | Sof
    | HostStep

  function Apply(b: Bus, e: BusEvent): Bus {
    match e
    case UsbWrite(off, value) => b.(usb := AfterHwWrite(b.usb, off, value))
    case PmaWrite(offset, size, word) => b.(mem := CpuWrite(b.mem, offset, size, word))
    case Request(tag, bm, req, v, i, l, out) => b.(host := AfterRequest(b.host, tag, bm, req, v, i, l, out))
    case Sof => b.(usb := AfterSof(b.usb))
    case HostStep => Step(b).bus
  }

  datatype Run = Init(bus: Bus) | Next(before: Run, event: BusEvent)

  function Start(r: Run): Bus {
    match r case Init(b) => b case Next(before, _) => Start(before)
  }

  function End(r: Run): Bus {
    match r case Init(b) => b case Next(before, e) => Apply(End(before), e)
  }

  /** The next host step would take a transfer off the queue and then fail to send its SETUP,
      because EP0's descriptor lies outside packet memory. */
  predicate StartFails(b: Bus) {
    && b.host.phase.Advance? && !Preempted(b) && b.host.queue != [] && !b.usb.epr[0].Busy()
    && !Fits(b.usb, b.mem, 0)
  }

  /** No transfer of the run failed to start.  Any other step may have met a descriptor outside
      packet memory. */
  predicate NoFailedStart(r: Run) {
    match r
    case Init(_) => true
    case Next(before, e) => NoFailedStart(before) && (e.HostStep? ==> !StartFails(End(before)))
  }

  /** No host step of the run met a buffer descriptor outside packet memory. */
  predicate FaultFree(r: Run) {
    match r
    case Init(_) => true
    case Next(before, e) => FaultFree(before) && (e.HostStep? ==> !Step(End(before)).fault)
  }

  // ----- at most one transaction a step -----

  /** A host step changes at most one endpoint register, and only one that owed its handler
      nothing: it raises one CTR flag there.  It never clears a flag and touches no other
      register. */
  lemma StepTouchesOne(b: Bus)
    ensures var u, ep := Step(b).bus.usb, Target(b);
            && (forall k :: 0 <= k < 8 && k != ep ==> u.epr[k] == b.usb.epr[k])
            && (u.epr[ep] == b.usb.epr[ep]
                || (!b.usb.epr[ep].Busy() && exists setup :: u.epr[ep] == RaiseRx(b.usb.epr[ep], setup))
                || (!b.usb.epr[ep].Busy() && b.usb.epr[ep].statTx.Valid? && u.epr[ep] == RaiseTx(b.usb.epr[ep])))
            && u.regs == b.usb.regs && u.enabled == b.usb.enabled && u.attached == b.usb.attached
  {
    hide Decide, Look, Deliver, Decode, RaiseRx, RaiseTx;
    var b0 := b.(host := b.host.(pendingIrq := false));
    var m := Decide(b0.host, Look(b0, Target(b0)), Target(b0));
    DecideDrives(b0.host, Look(b0, Target(b0)), Target(b0));
    if m.wire.OutPacket? { assert Step(b).bus.usb.epr[0] == RaiseRx(b.usb.epr[0], m.wire.setup); }
  }

  /** What a step sees as a packet is what the firmware's TX descriptor points at. */
  lemma PacketIsTxBuffer(b: Bus, ep: nat)
    requires Fits(b.usb, b.mem, ep)
    ensures Look(b, ep).packet == TxBuffer(b.usb, b.mem, ep)
  {
    var base := b.usb.Btable() + ep * 8;
    var d := BtableEntry(b.usb, b.mem, ep);
    assert d.addrTx == Halfword(b.mem, base) && d.countTx == Halfword(b.mem, base + 2);
    hide Halfword, UsbState.Btable;
  }

  // ----- latched events -----

  /** A latched event of ISTR, read off the run: the bus reset the host gives, and each SOF. */
  function Latched(r: Run, bit: bv16): bool {
    match r
    case Init(b) => b.usb.events & bit != 0
    case Next(before, e) =>
      match e
      case HostStep => Latched(before, bit) || (bit == 0x0400 && End(before).host.phase.Reset?)
      case Sof => Latched(before, bit) || bit == 0x0200
      case UsbWrite(off, value) => Latched(before, bit) && !(off == ISTR && value & bit == 0)
      case _ => Latched(before, bit)
  }

  /** RESET is latched exactly by the host's bus reset and SOF by a start-of-frame, and each stays
      until the firmware writes 0 to it. */
  lemma {:induction false} EventsLatch(r: Run, bit: bv16)
    requires bit == 0x0400 || bit == 0x0200
    ensures End(r).usb.events & bit != 0 <==> Latched(r, bit)
  {
    hide Apply;
    match r
    case Init(_) =>
    case Next(before, e) =>
      EventsLatch(before, bit);
      EventLatches(End(before), e, bit);
  }

  lemma EventLatches(b: Bus, e: BusEvent, bit: bv16)
    requires bit == 0x0400 || bit == 0x0200
    ensures var was := b.usb.events & bit != 0;
            Apply(b, e).usb.events & bit != 0
            <==> match e
                 case HostStep => was || (bit == 0x0400 && b.host.phase.Reset?)
                 case Sof => was || bit == 0x0200
                 case UsbWrite(off, value) => was && !(off == ISTR && value & bit == 0)
                 case _ => was
  {
    hide Step, Decode, WriteFields;
    match e
    case HostStep => StepLatches(b); OneBit(b.usb.events, bit);
    case Sof => OneBit(b.usb.events, bit);
    case UsbWrite(off, value) => OneBitOff(b.usb.events, value, bit);
    case _ =>
  }

  lemma StepLatches(b: Bus)
    ensures Step(b).bus.usb.events == (if b.host.phase.Reset? then AfterReset(b.usb).events else b.usb.events)
  {
    hide Decide, Look, Deliver, DriveMem, RaiseRx, RaiseTx, AfterReset;
    var b0 := b.(host := b.host.(pendingIrq := false));
    DecideResets(b0.host, Look(b0, Target(b0)), Target(b0));
  }

  lemma DecideResets(h: HostState, s: Seen, ep: nat)
    ensures Decide(h, s, ep).wire.BusReset? <==> h.phase.Reset?
  {
    hide Finish, Accept, Tick;
  }

  lemma OneBit(events: bv16, bit: bv16)
    requires bit == 0x0400 || bit == 0x0200
    ensures (events | 0x0400) & bit != 0 <==> events & bit != 0 || bit == 0x0400
    ensures (events | 0x0200) & bit != 0 <==> events & bit != 0 || bit == 0x0200
  {
  }

  lemma OneBitOff(events: bv16, value: bv16, bit: bv16)
    requires bit == 0x0400 || bit == 0x0200
    ensures (events & value) & bit != 0 <==> events & bit != 0 && value & bit != 0
  {
  }

  // ----- the other registers -----

  /** The firmware's last write to a register of the block, if it has written it. */
  function LastWritten(r: Run, off: nat): Option<bv16> {
    match r
    case Init(_) => None
    case Next(before, e) => if e.UsbWrite? && e.off == off then Some(e.value) else LastWritten(before, off)
  }

  /** A register other than the endpoint ones and ISTR holds what was last written; the block is
      enabled while CNTR's reset and power-down bits are both 0, and attached while BCDR's pull-up
      bit is 1. */
  lemma {:induction false} RegistersRemember(r: Run, off: nat)
    requires 32 <= off < 96 && off != ISTR
    ensures var u, last := End(r).usb, LastWritten(r, off);
            last.Some? ==>
              && u.Reg(off) == last.value
              && (off == CNTR ==> (u.enabled <==> last.value & 0x0001 == 0 && last.value & 0x0002 == 0))
              && (off == BCDR ==> (u.attached <==> last.value & 0x8000 == 0x8000))
  {
    hide Apply;
    match r
    case Init(_) =>
    case Next(before, e) =>
      RegistersRemember(before, off);
      EventRemembers(End(before), e, off);
  }

  lemma EventRemembers(b: Bus, e: BusEvent, off: nat)
    requires 32 <= off < 96 && off != ISTR
    ensures var u, u' := b.usb, Apply(b, e).usb;
            if e.UsbWrite? && e.off == off
            then u'.Reg(off) == e.value
                 && (off == CNTR ==> (u'.enabled <==> e.value & 0x0001 == 0 && e.value & 0x0002 == 0))
                 && (off == BCDR ==> (u'.attached <==> e.value & 0x8000 == 0x8000))
            else u'.Reg(off) == u.Reg(off)
                 && (off == CNTR ==> u'.enabled == u.enabled) && (off == BCDR ==> u'.attached == u.attached)
  {
    hide Step, Decode, WriteFields;
    if e.HostStep? { StepTouchesOne(b); }
    if e.UsbWrite? { LowBits(e.value); }
  }

  lemma LowBits(value: bv16)
    ensures value & 0x0003 == 0 <==> value & 0x0001 == 0 && value & 0x0002 == 0
    ensures value & 0x8000 != 0 <==> value & 0x8000 == 0x8000
  {
  }

  // ----- what the next step will do, told beforehand -----

  /** EP0 is free for what its stage is waiting to do. */
  predicate Ep0Ready(b: Bus) {
    var e := b.usb.epr[0];
    !e.Busy()
    && match b.host.phase
       case Advance => b.host.queue != []
       case DataIn => e.statTx.Valid?
       case StatusIn => e.statTx.Valid?
       case DataOut => e.statRx.Valid?
       case StatusOut => e.statRx.Valid?
       case _ => false
  }

  /** EP0's descriptor lies inside packet memory, and a data stage has its transfer. */
  predicate Ep0Served(b: Bus) {
    Fits(b.usb, b.mem, 0) && (b.host.phase.DataIn? || b.host.phase.DataOut? ==> b.host.cur.Some?)
  }

  /** The next step will reset the bus or move a packet. */
  predicate DrivesWire(b: Bus) {
    if b.host.phase.Setup() then b.host.phase.Reset?
    else if Preempted(b) then Fits(b.usb, b.mem, Target(b))
    else Ep0Ready(b) && Ep0Served(b)
  }

  /** The next step will fail half way. */
  predicate StepFails(b: Bus) {
    if b.host.phase.Setup()
    then b.host.phase.WaitEp0? && !b.usb.epr[0].Busy() && b.usb.epr[0] != CLEARED && b.usb.AddressEnabled()
         && !Fits(b.usb, b.mem, 0)
    else if Preempted(b) then !Fits(b.usb, b.mem, Target(b))
    else Ep0Ready(b) && !Ep0Served(b)
  }

  /** Both are exact, on every state. */
  lemma StepForeseen(b: Bus)
    ensures Step(b).fault <==> StepFails(b)
    ensures Step(b).acted && Step(b).bus.host.pendingIrq <==> DrivesWire(b)
  {
    hide Fits, Deliver, DescriptorOpen, PacketOf, Accept, Finish;
  }

  /** The status bits a transfer stage watches: STAT_TX when the device is to send. */
  function StageStat(b: Bus): Stat {
    if b.host.phase.DataIn? || b.host.phase.StatusIn? then b.usb.epr[0].statTx else b.usb.epr[0].statRx
  }

  /** The next step will run out of patience: with a stall seen often enough, or with EP0 not
      ready for too long. */
  predicate RunsOut(b: Bus) {
    var h, busy := b.host, b.usb.epr[0].Busy();
    !Preempted(b)
    && ((h.phase.Transfer() && StageStat(b).Stall? && h.stallSeen + 1 >= STALL_PATIENCE)
        || (h.stageSteps + 1 > STEP_PATIENCE
            && ((h.phase.Transfer() && (busy || !StageStat(b).Valid?)) || (h.phase.Advance? && busy))))
  }

  /** A step returns true iff it drives the wire or runs out of patience. */
  lemma ActedTells(b: Bus)
    ensures Step(b).acted <==> DrivesWire(b) || RunsOut(b)
  {
    hide Decide, Look, Deliver, DriveUsb, DriveMem, DrivesWire, RunsOut;
    var b0 := b.(host := b.host.(pendingIrq := false));
    DecideActs(b, Look(b0, Target(b0)));
  }

  lemma DecideActs(b: Bus, s: Seen)
    requires s.ep0 == b.usb.epr[0] && (s.fits <==> Fits(b.usb, b.mem, Target(b)))
    ensures Decide(b.host.(pendingIrq := false), s, Target(b)).acted <==> DrivesWire(b) || RunsOut(b)
  {
    hide Fits, Accept, Finish, StageMove, FirstPhase, UsbState.AddressEnabled, UsbState.Btable;
    var h := b.host.(pendingIrq := false);
    match h.phase
    case DataIn => StageActs(h, s, s.ep0.statTx, DataInProceeds(h, s));
    case DataOut => StageActs(h, s, s.ep0.statRx, DataOutProceeds(h, s));
    case StatusOut => StageActs(h, s, s.ep0.statRx, StatusOutProceeds(h, s));
    case StatusIn => StageActs(h, s, s.ep0.statTx, StatusInProceeds(h, s));
    case _ =>
  }

  lemma StageActs(h: HostState, s: Seen, stat: Stat, proceed: Move)
    ensures StageMove(h, s, stat, proceed).acted
         == if stat.Stall? && h.stallSeen + 1 >= STALL_PATIENCE then true
            else if s.ep0.Busy() || !stat.Valid? then h.stageSteps + 1 > STEP_PATIENCE
            else proceed.acted
  {
    hide Finish;
  }

  /** Endpoint `ep` has a packet armed and owes its handler nothing. */
  predicate Offers(u: UsbState, ep: nat)
    requires ep < 8
  {
    u.epr[ep].statTx.Valid? && !u.epr[ep].ctrTx && !u.epr[ep].ctrRx
  }

  /** Past the first three phases, in every one of the others, a step goes to the lowest of the
      three interrupt endpoints that offers a packet, and takes it; EP0 has to wait. */
  lemma InterruptsFirst(b: Bus, ep: nat)
    requires 1 <= ep <= 3 && Offers(b.usb, ep) && !b.host.phase.Setup()
    requires forall k :: 1 <= k < ep ==> !Offers(b.usb, k)
    ensures Preempted(b) && Target(b) == ep
    ensures Fits(b.usb, b.mem, ep) ==> Step(b).bus.usb.epr[ep].ctrTx && Step(b).acted && !Step(b).fault
    ensures Step(b).bus.usb.epr[0] == b.usb.epr[0] && Step(b).bus.host.phase == b.host.phase
  {
    hide Fits, PacketOf, DescriptorOpen;
    forall k | 1 <= k < ep ensures !Ready(b.usb, k) { assert !Offers(b.usb, k); }
    LowestReady(b.usb, 1, ep);
  }

  lemma {:induction false} LowestReady(u: UsbState, from: nat, ep: nat)
    requires from <= ep < 4 && Ready(u, ep) && forall k :: from <= k < ep ==> !Ready(u, k)
    ensures ReadyIn(u, from) == ep
    decreases ep - from
  {
    if from < ep { LowestReady(u, from + 1, ep); }
  }

  /** And without such an endpoint, or in the first three phases, EP0 has its turn. */
  lemma Ep0HasItsTurn(b: Bus)
    requires b.host.phase.Setup() || forall k :: 1 <= k <= 3 ==> !Offers(b.usb, k)
    ensures !Preempted(b)
  {
    var ep := ReadyIn(b.usb, 1);
    if ep < 4 { assert Offers(b.usb, ep) == Ready(b.usb, ep); }
  }

  // ----- from power-on to the first transfer -----

  /** EP0 has been opened by the firmware: no flag pending, its register written, its address
      enabled, and its descriptor given a buffer address and a buffer size. */
  predicate Ep0Open(b: Bus) {
    var base := b.usb.Btable();
    && !b.usb.epr[0].Busy() && b.usb.epr[0] != CLEARED && b.usb.Reg(DADDR) & 0x0080 != 0
    && base + 8 <= |b.mem| && Halfword(b.mem, base + 4) != 0 && Halfword(b.mem, base + 6) / 1024 != 0
  }

  /** How far enumeration has got, read off the device alone: it has been found attached and
      enabled, then reset, then found with EP0 open. */
  function Milestones(r: Run): nat {
    match r
    case Init(_) => 0
    case Next(before, e) =>
      var b, n := End(before), Milestones(before);
      if !e.HostStep? then n
      else if n == 0 then (if b.usb.attached && b.usb.enabled then 1 else 0)
      else if n == 1 then 2
      else if n == 2 then (if Ep0Open(b) then 3 else 2)
      else n
  }

  /** From power-on the host keeps to those milestones: it resets the bus once the device is there,
      starts its script once EP0 is open, and no sooner. */
  lemma {:induction false} SetupInOrder(r: Run)
    requires Start(r).host == FreshHost(Start(r).host.script)
    ensures var h, n := End(r).host, Milestones(r);
            && n <= 3 && (n == 0 <==> h.phase.WaitAttach?) && (n == 1 <==> h.phase.Reset?)
            && (n == 2 <==> h.phase.WaitEp0?) && (n == 3 <==> !h.phase.Setup())
            && (n < 3 ==> h.cur.None? && RespTags(h.published) == [])
  {
    hide Step, AfterHwWrite, CpuWrite, Ep0Open;
    match r
    case Init(_) =>
    case Next(before, e) =>
      SetupInOrder(before);
      if e.HostStep? { SetupGoesOn(End(before)); }
  }

  lemma SetupGoesOn(b: Bus)
    ensures var h, h' := b.host, Step(b).bus.host;
            && (h.phase.WaitAttach? ==> h'.phase == (if b.usb.attached && b.usb.enabled then Reset else WaitAttach))
            && (h.phase.Reset? ==> h'.phase.WaitEp0?)
            && (h.phase.WaitEp0? ==> h'.phase == (if Ep0Open(b) then Advance else WaitEp0))
            && (h.phase.Setup() ==> h'.cur == h.cur && h'.published == h.published)
            && (!h.phase.Setup() ==> !h'.phase.Setup())
  {
    hide Deliver, DriveUsb, DriveMem, PacketOf, ControlMove, Halfword;
    var b0 := b.(host := b.host.(pendingIrq := false));
    if !b.host.phase.Setup() {
      hide Look, Decide;
      DecideLeavesSetup(b0.host, Look(b0, Target(b0)), Target(b0));
    }
  }

  /** The phases before EP0 was found open do not come back. */
  lemma DecideLeavesSetup(h: HostState, s: Seen, ep: nat)
    requires !h.phase.Setup()
    ensures !Decide(h, s, ep).host.phase.Setup()
  {
    hide Finish, StageMove;
    FinishLeavesWire(h.(stageSteps := h.stageSteps + 1), true);
    FinishLeavesWire(Observe(h, s.ep0.statRx), false);
    FinishLeavesWire(Observe(h, s.ep0.statTx), false);
    StageLeavesSetup(h, s, s.ep0.statTx, DataInProceeds(h, s));
    StageLeavesSetup(h, s, s.ep0.statRx, DataOutProceeds(h, s));
    StageLeavesSetup(h, s, s.ep0.statRx, StatusOutProceeds(h, s));
    StageLeavesSetup(h, s, s.ep0.statTx, StatusInProceeds(h, s));
  }

  lemma StageLeavesSetup(h: HostState, s: Seen, stat: Stat, proceed: Move)
    requires !h.phase.Setup() && !proceed.host.phase.Setup()
    ensures !StageMove(h, s, stat, proceed).host.phase.Setup()
  {
  }

  lemma {:induction false} SameReady(u: UsbState, u': UsbState, from: nat)
    requires from <= 4 && u'.epr == u.epr
    ensures ReadyIn(u', from) == ReadyIn(u, from)
    decreases 4 - from
  {
    if from < 4 { SameReady(u, u', from + 1); }
  }

  /** Latching a start-of-frame changes nothing of this. */
  lemma SofForesees(b: Bus)
    ensures var b' := b.(usb := AfterSof(b.usb));
            DrivesWire(b') == DrivesWire(b) && StepFails(b') == StepFails(b)
  {
    SameForesight(b, b.(usb := AfterSof(b.usb)));
  }

  lemma SameForesight(b: Bus, b': Bus)
    requires b'.host == b.host && b'.mem == b.mem && b'.usb.epr == b.usb.epr && b'.usb.regs == b.usb.regs
    ensures DrivesWire(b') == DrivesWire(b) && StepFails(b') == StepFails(b)
  {
    SameReady(b.usb, b'.usb, 1);
    assert b'.usb.Btable() == b.usb.Btable() && b'.usb.AddressEnabled() == b.usb.AddressEnabled();
    hide ReadyIn, UsbState.Btable, UsbState.AddressEnabled;
  }

  // ----- the firmware sees transactions in order -----

  /** No endpoint has two unserviced transactions. */
  predicate Exclusive(u: UsbState) {
    forall ep :: 0 <= ep < 8 ==> !(u.epr[ep].ctrRx && u.epr[ep].ctrTx)
  }

  datatype Dir = Received | Sent

  function Flags(e: Epr): seq<Dir> {
    (if e.ctrRx then [Received] else []) + (if e.ctrTx then [Sent] else [])
  }

  /** Transactions completed on `ep` by one event, and completions its firmware acknowledged. */
  function RaisedBy(before: Epr, after: Epr): seq<Dir> {
    (if !before.ctrRx && after.ctrRx then [Received] else []) + (if !before.ctrTx && after.ctrTx then [Sent] else [])
  }

  function Raised(r: Run, ep: nat): seq<Dir>
    requires ep < 8
  {
    match r
    case Init(_) => []
    case Next(before, e) => Raised(before, ep) + RaisedBy(End(before).usb.epr[ep], End(r).usb.epr[ep])
  }

  function Served(r: Run, ep: nat): seq<Dir>
    requires ep < 8
  {
    match r
    case Init(_) => []
    case Next(before, e) => Served(before, ep) + RaisedBy(End(r).usb.epr[ep], End(before).usb.epr[ep])
  }

  /** What one event may do to one endpoint register: nothing, a CPU write, or one completed
      transaction on an idle endpoint. */
  ghost predicate EprStep(before: Epr, after: Epr) {
    || after == before
    || (exists v: Epr :: after == WriteFields(before, v))
    || (!before.Busy() && exists setup :: after == RaiseRx(before, setup))
    || (!before.Busy() && before.statTx.Valid? && after == RaiseTx(before))
  }

  lemma EventTouches(b: Bus, e: BusEvent, ep: nat)
    requires ep < 8
    ensures EprStep(b.usb.epr[ep], Apply(b, e).usb.epr[ep])
  {
    hide Step, Decode, WriteFields, RaiseRx, RaiseTx, CpuWrite;
    match e
    case UsbWrite(off, value) =>
      if off < 32 && off / 4 == ep {
        assert Apply(b, e).usb.epr[ep] == WriteFields(b.usb.epr[ep], Decode(value));
      } else {
        assert Apply(b, e).usb.epr[ep] == b.usb.epr[ep];
      }
    case HostStep => StepTouchesOne(b);
    case _ =>
  }

  /** In every run, on every endpoint: at most one transaction is unserviced, and the firmware
      acknowledges the transactions in the order in which they completed. */
  lemma {:induction false} ServedInOrder(r: Run, ep: nat)
    requires ep < 8 && !(Start(r).usb.epr[ep].ctrRx && Start(r).usb.epr[ep].ctrTx)
    ensures !(End(r).usb.epr[ep].ctrRx && End(r).usb.epr[ep].ctrTx)
    ensures Flags(Start(r).usb.epr[ep]) + Raised(r, ep) == Served(r, ep) + Flags(End(r).usb.epr[ep])
  {
    hide Apply, EprStep, Flags, RaisedBy;
    match r
    case Init(b) =>
      assert Flags(b.usb.epr[ep]) + [] == [] + Flags(b.usb.epr[ep]);
    case Next(before, e) =>
      var from, to := End(before).usb.epr[ep], End(r).usb.epr[ep];
      ServedInOrder(before, ep);
      EventTouches(End(before), e, ep);
      OneEventInOrder(from, to);
      Extend(Flags(Start(r).usb.epr[ep]), Raised(before, ep), Served(before, ep), Flags(from),
             RaisedBy(from, to), RaisedBy(to, from), Flags(to));
  }

  /** One more event keeps "was + raised == served + owed". */
  lemma Extend<T>(was: seq<T>, raised: seq<T>, served: seq<T>, owed: seq<T>, more: seq<T>, gone: seq<T>, owed': seq<T>)
    requires was + raised == served + owed && owed + more == gone + owed'
    ensures was + (raised + more) == served + gone + owed'
  {
    assert was + (raised + more) == (was + raised) + more;
    assert served + (owed + more) == (served + owed) + more;
    assert served + (gone + owed') == served + gone + owed';
  }

  lemma OneEventInOrder(before: Epr, after: Epr)
    requires EprStep(before, after) && !(before.ctrRx && before.ctrTx)
    ensures !(after.ctrRx && after.ctrTx)
    ensures Flags(before) + RaisedBy(before, after) == RaisedBy(after, before) + Flags(after)
  {
  }

  /** In every run no endpoint ever has CTR_RX and CTR_TX set together, and the next host step
      would set at most one flag in all. */
  lemma NeverBothFlags(r: Run)
    requires Exclusive(Start(r).usb)
    ensures Exclusive(End(r).usb)
    ensures CtrCount(Step(End(r)).bus.usb.epr, 0) <= CtrCount(End(r).usb.epr, 0) + 1
  {
    hide Apply, Step;
    forall ep | 0 <= ep < 8 ensures !(End(r).usb.epr[ep].ctrRx && End(r).usb.epr[ep].ctrTx) {
      ServedInOrder(r, ep);
    }
    var b := End(r);
    StepTouchesOne(b);
    var ep := Target(b);
    var u := Step(b).bus.usb;
    assert u.epr == b.usb.epr[ep := u.epr[ep]];
    CountUpdate(b.usb.epr, 0, ep, u.epr[ep]);
  }

  // ----- packets are neither invented nor moved twice -----

  function StatOf(e: Epr, d: Dir): Stat {
    if d.Received? then e.statRx else e.statTx
  }

  function CtrOf(e: Epr, d: Dir): bool {
    if d.Received? then e.ctrRx else e.ctrTx
  }

  function Arms(before: Epr, after: Epr, d: Dir): nat {
    if !StatOf(before, d).Valid? && StatOf(after, d).Valid? then 1 else 0
  }

  /** CPU writes that moved this direction's STAT of `ep` to VALID, and those that moved it away. */
  function Armed(r: Run, ep: nat, d: Dir): nat
    requires ep < 8
  {
    match r
    case Init(_) => 0
    case Next(before, e) =>
      Armed(before, ep, d) + if e.UsbWrite? then Arms(End(before).usb.epr[ep], End(r).usb.epr[ep], d) else 0
  }

  function Withdrawn(r: Run, ep: nat, d: Dir): nat
    requires ep < 8
  {
    match r
    case Init(_) => 0
    case Next(before, e) =>
      Withdrawn(before, ep, d) + if e.UsbWrite? then Arms(End(r).usb.epr[ep], End(before).usb.epr[ep], d) else 0
  }

  /** Packets the host took from `ep`, and packets `ep` received while it was armed for one; a
      SETUP is received whether it was armed or not. */
  function Moves(before: Epr, after: Epr, d: Dir): nat {
    if !CtrOf(before, d) && CtrOf(after, d) && (d.Received? ==> before.statRx.Valid?) then 1 else 0
  }

  function MovedPackets(r: Run, ep: nat, d: Dir): nat
    requires ep < 8
  {
    match r
    case Init(_) => 0
    case Next(before, e) => MovedPackets(before, ep, d) + Moves(End(before).usb.epr[ep], End(r).usb.epr[ep], d)
  }

  function ValidNow(e: Epr, d: Dir): nat {
    if StatOf(e, d).Valid? then 1 else 0
  }

  /** In either direction every arming is used up by one packet, withdrawn by the firmware, or
      still standing. */
  lemma {:induction false} PacketsConserved(r: Run, ep: nat, d: Dir)
    requires ep < 8
    ensures ValidNow(Start(r).usb.epr[ep], d) + Armed(r, ep, d)
         == MovedPackets(r, ep, d) + Withdrawn(r, ep, d) + ValidNow(End(r).usb.epr[ep], d)
  {
    hide Apply, Arms, ValidNow, Moves;
    match r
    case Init(_) =>
    case Next(before, e) =>
      PacketsConserved(before, ep, d);
      EventKeepsPackets(End(before), e, ep, d);
  }

  lemma EventKeepsPackets(b: Bus, e: BusEvent, ep: nat, d: Dir)
    requires ep < 8
    ensures var from, to := b.usb.epr[ep], Apply(b, e).usb.epr[ep];
            (ValidNow(from, d) + (if e.UsbWrite? then Arms(from, to, d) else 0)
             == Moves(from, to, d) + (if e.UsbWrite? then Arms(to, from, d) else 0) + ValidNow(to, d))
  {
    hide Step, Decode;
    match e
    case HostStep => StepTouchesOne(b);
    case UsbWrite(off, value) =>
      if off < 32 && off / 4 == ep {
        assert Apply(b, e).usb.epr[ep] == WriteFields(b.usb.epr[ep], Decode(value));
      } else {
        assert Apply(b, e).usb.epr[ep] == b.usb.epr[ep];
      }
    case _ =>
  }

  /** Besides the flag and EP0's SETUP bit, a host step changes one thing of a register: the STAT
      of the direction in which a packet moved, to NAK. */
  lemma StepOnlyNaks(b: Bus, ep: nat)
    requires ep < 8
    ensures var from, to := b.usb.epr[ep], Step(b).bus.usb.epr[ep];
            && to.dtogRx == from.dtogRx && to.dtogTx == from.dtogTx && to.plain == from.plain
            && to.statRx == (if to.ctrRx && !from.ctrRx then Nak else from.statRx)
            && to.statTx == (if to.ctrTx && !from.ctrTx then Nak else from.statTx)
            && (to.setup != from.setup ==> to.ctrRx && !from.ctrRx)
  {
    hide Step;
    StepTouchesOne(b);
  }

  // ----- the shape of the host's state -----

  predicate FreshQueue(q: seq<Xfer>) {
    forall i :: 0 <= i < |q| ==> q[i].data == []
  }

  ghost predicate HostInv(h: HostState) {
    && (h.cur.Some? <==> h.phase.Transfer())
    && h.stageSteps <= STEP_PATIENCE && h.stallSeen < STALL_PATIENCE
    && (h.phase.DataIn? ==> |h.cur.value.data| < h.cur.value.want)
    && (h.phase.StatusOut? ==> h.cur.value.want > 0)
    && (h.phase.DataOut? || h.phase.StatusIn? ==> h.cur.value.want == 0)
    && FreshQueue(h.queue) && FreshQueue(h.script)
  }

  /** The failed start is the one step that breaks the shape. */
  lemma StepKeepsShape(b: Bus)
    requires HostInv(b.host)
    ensures HostInv(Step(b).bus.host) <==> !StartFails(b)
  {
    hide Look, Deliver, DriveUsb, DriveMem;
    var b0 := b.(host := b.host.(pendingIrq := false));
    if Step(b).fault {
      FaultKeeps(b);
    } else {
      DecideKeepsShape(b0.host, Look(b0, Target(b0)), Target(b0));
    }
  }

  /** A step that meets a descriptor outside packet memory changes nothing, if it was not
      starting a transfer, but for the STALL run that the status it saw ends. */
  lemma FaultKeeps(b: Bus)
    requires HostInv(b.host) && Step(b).fault
    ensures var on := b.host.phase.Transfer() && !Preempted(b);
            if StartFails(b)
            then Step(b).bus.host.cur == Some(b.host.queue[0]) && Step(b).bus.host.phase.Advance?
            else Step(b).bus == b.(host := b.host.(pendingIrq := false, stallSeen := if on then 0 else b.host.stallSeen))
  {
    hide Deliver, DescriptorOpen, PacketOf, Finish, Tick, Accept;
  }

  lemma DecideKeepsShape(h: HostState, s: Seen, ep: nat)
    requires HostInv(h) && !Decide(h, s, ep).fault
    ensures HostInv(Decide(h, s, ep).host)
  {
    hide ControlMove;
    if !h.phase.Setup() && ep == 0 { ControlKeepsShape(h, s); }
  }

  lemma FinishKeepsShape(h: HostState, stalled: bool)
    requires FreshQueue(h.queue) && FreshQueue(h.script)
    ensures HostInv(Finish(h, stalled))
  {
  }

  lemma TickKeepsShape(h: HostState)
    requires HostInv(h)
    ensures HostInv(Tick(h).host)
  {
    hide Finish;
    FinishKeepsShape(h.(stageSteps := h.stageSteps + 1), true);
  }

  lemma StageKeepsShape(h: HostState, s: Seen, stat: Stat, proceed: Move)
    requires HostInv(h)
    requires stat.Valid? ==> HostInv(proceed.host)
    ensures HostInv(StageMove(h, s, stat, proceed).host)
  {
    hide Finish, Tick;
    var seen := Observe(h, stat);
    FinishKeepsShape(seen, true);
    if !Believed(seen, stat) { TickKeepsShape(seen); }
  }

  lemma ControlKeepsShape(h: HostState, s: Seen)
    requires HostInv(h) && !h.phase.Setup() && !ControlMove(h, s).fault
    ensures HostInv(ControlMove(h, s).host)
  {
    hide Finish, Tick, StageMove;
    FinishKeepsShape(Observe(h, s.ep0.statRx), false);
    FinishKeepsShape(Observe(h, s.ep0.statTx), false);
    match h.phase
    case Advance => TickKeepsShape(h);
    case DataIn => StageKeepsShape(h, s, s.ep0.statTx, DataInProceeds(h, s));
    case DataOut => StageKeepsShape(h, s, s.ep0.statRx, DataOutProceeds(h, s));
    case StatusOut => StageKeepsShape(h, s, s.ep0.statRx, StatusOutProceeds(h, s));
    case StatusIn => StageKeepsShape(h, s, s.ep0.statTx, StatusInProceeds(h, s));
    case Idle =>
  }

  lemma {:induction false} ShapeHolds(r: Run)
    requires HostInv(Start(r).host) && NoFailedStart(r)
    ensures HostInv(End(r).host)
  {
    hide Step, AfterHwWrite, CpuWrite;
    match r
    case Init(_) =>
    case Next(before, e) =>
      ShapeHolds(before);
      if e.HostStep? { StepKeepsShape(End(before)); }
  }

  // ----- transfers are conserved, in order -----

  function Tags(q: seq<Xfer>): seq<string> {
    seq(|q|, i requires 0 <= i < |q| => q[i].tag)
  }

  function CurTag(h: HostState): seq<string> {
    if h.cur.Some? then [h.cur.value.tag] else []
  }

  /** The tags of the RESP lines, in the order they were published. */
  function RespTags(lines: seq<Line>): seq<string> {
    if lines == [] then []
    else RespTags(lines[..|lines| - 1]) + (if lines[|lines| - 1].Resp? then [lines[|lines| - 1].tag] else [])
  }

  lemma RespTagsAppend(lines: seq<Line>, l: Line)
    ensures RespTags(lines + [l]) == RespTags(lines) + (if l.Resp? then [l.tag] else [])
  {
    assert (lines + [l])[..|lines|] == lines;
  }

  /** Answered, then current, then waiting. */
  function AllTags(h: HostState): seq<string> {
    RespTags(h.published) + CurTag(h) + Tags(h.queue)
  }

  function EnqueuedBy(b: Bus, e: BusEvent): seq<string> {
    match e
    case Request(tag, bm, req, v, i, l, _) => if Packable(bm, req, v, i, l) then [tag] else []
    case HostStep => if b.host.phase.WaitEp0? && Step(b).bus.host.phase.Advance? then Tags(b.host.script) else []
    case _ => []
  }

  function Enqueued(r: Run): seq<string> {
    match r
    case Init(_) => []
    case Next(before, e) => Enqueued(before) + EnqueuedBy(End(before), e)
  }

  /** From h to h' tags moved only along the line, and each new RESP line was counted once. */
  ghost predicate Moved(h: HostState, h': HostState) {
    && AllTags(h') == AllTags(h) && h'.script == h.script
    && h'.completed + h'.stalls + |RespTags(h.published)| == h.completed + h.stalls + |RespTags(h'.published)|
  }

  /** h' differs from h at most in its counters, phase and pending interrupt. */
  ghost predicate SameLine(h: HostState, h': HostState) {
    && h'.published == h.published && h'.cur == h.cur && h'.queue == h.queue && h'.script == h.script
    && h'.completed == h.completed && h'.stalls == h.stalls
  }

  lemma FinishMoves(h: HostState, h': HostState, stalled: bool)
    requires SameLine(h, h')
    ensures Moved(h, Finish(h', stalled))
  {
    if h.cur.Some? { RespTagsAppend(h.published, Resp(h.cur.value.tag, stalled, h.cur.value.data)); }
  }

  lemma StageMoves(h: HostState, s: Seen, stat: Stat, proceed: Move)
    requires Moved(h, proceed.host)
    ensures Moved(h, StageMove(h, s, stat, proceed).host)
  {
    hide Finish, Moved;
    var seen := Observe(h, stat);
    FinishMoves(h, seen, true);
    TickMoves(h, seen);
  }

  lemma TickMoves(h: HostState, h': HostState)
    requires SameLine(h, h')
    ensures Moved(h, Tick(h').host)
  {
    hide Finish, RespTags;
    FinishMoves(h, h'.(stageSteps := h'.stageSteps + 1), true);
  }

  /** What one step adds to the enqueued tags: the enumeration script, once EP0 is open. */
  function Scripted(h: HostState, h': HostState): seq<string> {
    if h.phase.WaitEp0? && h'.phase.Advance? then Tags(h.script) else []
  }

  /** A transfer on the wire is the current one.  Unlike HostInv, a failed start keeps this. */
  predicate OnWire(h: HostState) {
    h.phase.Transfer() ==> h.cur.Some?
  }

  /** The current transfer, when the next start takes its place: only a transfer whose own start
      failed is still current then. */
  function Displaced(h: HostState, s: Seen, ep: nat): seq<string> {
    if h.phase.Advance? && ep == 0 && !s.ep0.Busy() && h.queue != [] then CurTag(h) else []
  }

  /** `a` is what is left of `b` when some elements are taken out. */
  predicate Subsequence<T(==)>(a: seq<T>, b: seq<T>)
    decreases |b|
  {
    if b == [] then a == []
    else
      var n := |b| - 1;
      Subsequence(a, b[..n]) || (a != [] && a[|a| - 1] == b[n] && Subsequence(a[..|a| - 1], b[..n]))
  }

  lemma {:induction false} AllIsSubsequence<T>(a: seq<T>)
    ensures Subsequence(a, a)
    decreases |a|
  {
    if a != [] { AllIsSubsequence(a[..|a| - 1]); }
  }

  lemma {:induction false} AppendKeeps<T>(a: seq<T>, b: seq<T>, c: seq<T>)
    requires Subsequence(a, b)
    ensures Subsequence(a + c, b + c)
    decreases |c|
  {
    if c == [] {
      assert a + c == a && b + c == b;
    } else {
      var n := |c| - 1;
      AppendKeeps(a, b, c[..n]);
      assert (a + c)[..|a + c| - 1] == a + c[..n] && (b + c)[..|b + c| - 1] == b + c[..n];
    }
  }

  lemma {:induction false} SubsequencesCompose<T>(a: seq<T>, b: seq<T>, c: seq<T>)
    requires Subsequence(a, b) && Subsequence(b, c)
    ensures Subsequence(a, c)
    decreases |b| + |c|
  {
    if c == [] || b == [] {
      NothingInside(a, b, c);
    } else if Subsequence(b, c[..|c| - 1]) {
      SubsequencesCompose(a, b, c[..|c| - 1]);
    } else if Subsequence(a, b[..|b| - 1]) {
      SubsequencesCompose(a, b[..|b| - 1], c[..|c| - 1]);
    } else {
      SubsequencesCompose(a[..|a| - 1], b[..|b| - 1], c[..|c| - 1]);
    }
  }

  lemma {:induction false} NothingInside<T>(a: seq<T>, b: seq<T>, c: seq<T>)
    requires Subsequence(a, b) && (c == [] || b == []) && Subsequence(b, c)
    ensures Subsequence(a, c)
    decreases |c|
  {
    if c != [] { NothingInside(a, b, c[..|c| - 1]); }
  }

  lemma DroppedInPlace<T>(p: seq<T>, x: T, q: seq<T>)
    ensures Subsequence(p + q, p + [x] + q)
  {
    AllIsSubsequence(p);
    assert (p + [x])[..|p|] == p;
    AppendKeeps(p, p + [x], q);
  }

  /** From h to h' the line gained the tags `added` at its end and lost the tags `gone`, the rest
      kept its order, and each new RESP line was counted once. */
  ghost predicate Accounted(h: HostState, h': HostState, added: seq<string>, gone: seq<string>) {
    && (gone == [] ==> AllTags(h') == AllTags(h) + added)
    && Subsequence(AllTags(h'), AllTags(h) + added)
    && multiset(AllTags(h')) + multiset(gone) == multiset(AllTags(h)) + multiset(added)
    && h'.completed + h'.stalls + |RespTags(h.published)| == h.completed + h.stalls + |RespTags(h'.published)|
  }

  lemma InOrder(h: HostState, h': HostState, added: seq<string>)
    requires AllTags(h') == AllTags(h) + added
    requires h'.completed + h'.stalls + |RespTags(h.published)| == h.completed + h.stalls + |RespTags(h'.published)|
    ensures Accounted(h, h', added, [])
  {
    hide AllTags, RespTags;
    AllIsSubsequence(AllTags(h'));
  }

  lemma DecideTags(h: HostState, s: Seen, ep: nat)
    requires OnWire(h)
    ensures Accounted(h, Decide(h, s, ep).host, Scripted(h, Decide(h, s, ep).host), Displaced(h, s, ep))
  {
    hide ControlMove, SetupMove, RespTags, AllTags, Accounted, Tags;
    var h' := Decide(h, s, ep).host;
    if h.phase.Setup() {
      SetupTags(h, s);
      InOrder(h, h', Scripted(h, h'));
    } else if ep != 0 {
      DrainTags(h, s, ep);
    } else if Displaced(h, s, ep) == [] {
      ControlMoves(h, s);
      assert AllTags(h) + [] == AllTags(h);
      InOrder(h, h', []);
    } else {
      StartDisplaces(h, s);
    }
  }

  lemma DrainTags(h: HostState, s: Seen, ep: nat)
    ensures Accounted(h, DrainMove(h, s, ep).host, [], [])
  {
    hide Subsequence;
    var h' := DrainMove(h, s, ep).host;
    RespTagsAppend(h.published, Report(ep, s.packet));
    assert RespTags(h'.published) == RespTags(h.published);
    hide RespTags, Tags, CurTag, Accounted;
    assert AllTags(h') == AllTags(h) + [];
    InOrder(h, h', []);
  }

  lemma StartDisplaces(h: HostState, s: Seen)
    requires h.phase.Advance? && !s.ep0.Busy() && h.queue != [] && h.cur.Some?
    ensures Accounted(h, ControlMove(h, s).host, [], [h.cur.value.tag])
  {
    hide RespTags, FirstPhase, Tags, Accounted, Subsequence;
    var h', x := ControlMove(h, s).host, h.queue[0];
    assert h'.cur == Some(x) && h'.queue == h.queue[1..] && h'.published == h.published;
    QueueHead(h.queue);
    var p, q := RespTags(h.published), [x.tag] + Tags(h'.queue);
    assert AllTags(h) == p + [h.cur.value.tag] + q && AllTags(h') == p + q;
    OneGone(h, h', p, h.cur.value.tag, q);
  }

  lemma OneGone(h: HostState, h': HostState, p: seq<string>, tag: string, q: seq<string>)
    requires AllTags(h) == p + [tag] + q && AllTags(h') == p + q
    requires h'.completed == h.completed && h'.stalls == h.stalls && h'.published == h.published
    ensures Accounted(h, h', [], [tag])
  {
    hide AllTags, RespTags, Subsequence;
    DroppedInPlace(p, tag, q);
    assert AllTags(h) + [] == AllTags(h);
  }

  lemma QueueHead(q: seq<Xfer>)
    requires q != []
    ensures Tags(q) == [q[0].tag] + Tags(q[1..])
  {
  }

  lemma SetupTags(h: HostState, s: Seen)
    requires h.phase.Setup()
    ensures var h' := SetupMove(h, s).host;
            && AllTags(h') == AllTags(h) + Scripted(h, h') && h'.script == h.script
            && h'.completed == h.completed && h'.stalls == h.stalls && h'.published == h.published
  {
    hide RespTags;
    assert Tags(h.queue + h.script) == Tags(h.queue) + Tags(h.script);
  }

  lemma StartMoves(h: HostState, s: Seen)
    requires h.phase.Advance? && (h.queue != [] ==> h.cur.None?)
    ensures Moved(h, StartMove(h, s).host)
  {
    hide RespTags;
    if h.queue != [] { assert Tags(h.queue) == [h.queue[0].tag] + Tags(h.queue[1..]); }
  }

  /** What a stage that reaches its transaction decides moves tags only along the line. */
  lemma ProceedMoves(h: HostState, s: Seen)
    requires h.cur.Some?
    ensures Moved(h, DataInProceeds(h, s).host) && Moved(h, DataOutProceeds(h, s).host)
    ensures Moved(h, StatusOutProceeds(h, s).host) && Moved(h, StatusInProceeds(h, s).host)
  {
    hide Finish, RespTags;
    FinishMoves(h, Observe(h, s.ep0.statRx), false);
    FinishMoves(h, Observe(h, s.ep0.statTx), false);
  }

  lemma ControlMoves(h: HostState, s: Seen)
    requires OnWire(h) && !h.phase.Setup() && Displaced(h, s, 0) == []
    ensures Moved(h, ControlMove(h, s).host)
  {
    hide Tick, Moved, StageMove, StartMove, DataInProceeds, DataOutProceeds, StatusOutProceeds, StatusInProceeds;
    if h.phase.Transfer() { ProceedMoves(h, s); }
    match h.phase
    case Advance =>
      TickMoves(h, h);
      if !s.ep0.Busy() { StartMoves(h, s); }
    case DataIn => StageMoves(h, s, s.ep0.statTx, DataInProceeds(h, s));
    case DataOut => StageMoves(h, s, s.ep0.statRx, DataOutProceeds(h, s));
    case StatusOut => StageMoves(h, s, s.ep0.statRx, StatusOutProceeds(h, s));
    case StatusIn => StageMoves(h, s, s.ep0.statTx, StatusInProceeds(h, s));
    case Idle => IdleMoves(h);
  }

  lemma IdleMoves(h: HostState)
    ensures Moved(h, h) && Moved(h, h.(phase := Advance))
  {
  }

  /** The tag of a transfer that this event drops from the line, answered by nothing. */
  function DisplacedBy(b: Bus, e: BusEvent): seq<string> {
    if e.HostStep? && b.host.phase.Advance? && !Preempted(b) && !b.usb.epr[0].Busy() && b.host.queue != []
    then CurTag(b.host)
    else []
  }

  function Displacements(r: Run): seq<string> {
    match r
    case Init(_) => []
    case Next(before, e) => Displacements(before) + DisplacedBy(End(before), e)
  }

  lemma StepTags(b: Bus)
    requires OnWire(b.host)
    ensures Accounted(b.host, Step(b).bus.host, EnqueuedBy(b, HostStep), DisplacedBy(b, HostStep))
  {
    hide Decide, Look, Deliver, DriveUsb, DriveMem, RespTags, Tags;
    var b0 := b.(host := b.host.(pendingIrq := false));
    var s := Look(b0, Target(b0));
    DecideTags(b0.host, s, Target(b0));
    SameAccount(b.host, b0.host, Decide(b0.host, s, Target(b0)).host, Step(b).bus.host,
                EnqueuedBy(b, HostStep), DisplacedBy(b, HostStep));
  }

  /** The interrupt owed is no part of the line. */
  lemma SameAccount(h: HostState, h0: HostState, h1: HostState, h': HostState, added: seq<string>, gone: seq<string>)
    requires Accounted(h0, h1, added, gone)
    requires h0 == h.(pendingIrq := h0.pendingIrq) && h' == h1.(pendingIrq := h'.pendingIrq)
    ensures Accounted(h, h', added, gone)
  {
    hide RespTags, Subsequence, Tags;
    assert AllTags(h) == AllTags(h0) && AllTags(h') == AllTags(h1);
  }

  lemma EventTags(b: Bus, e: BusEvent)
    requires OnWire(b.host)
    ensures Accounted(b.host, Apply(b, e).host, EnqueuedBy(b, e), DisplacedBy(b, e))
    ensures OnWire(Apply(b, e).host)
  {
    hide Step, AfterHwWrite, CpuWrite, RespTags, Accounted, AllTags;
    match e
    case HostStep =>
      StepTags(b);
      StepKeepsOnWire(b);
    case Request(tag, bm, req, v, i, l, out) =>
      RequestTags(b.host, tag, bm, req, v, i, l, out);
    case _ =>
      assert AllTags(b.host) + [] == AllTags(b.host);
      InOrder(b.host, b.host, []);
  }

  lemma RequestTags(h: HostState, tag: string, bm: int, req: int, v: int, i: int, l: int, out: seq<byte>)
    ensures Accounted(h, AfterRequest(h, tag, bm, req, v, i, l, out), if Packable(bm, req, v, i, l) then [tag] else [], [])
  {
    hide RespTags, Subsequence;
    var h' := AfterRequest(h, tag, bm, req, v, i, l, out);
    if Packable(bm, req, v, i, l) {
      var x := MakeXfer(tag, bm, req, v, i, l, out);
      assert Tags(h.queue + [x]) == Tags(h.queue) + [tag];
    }
    var added := if Packable(bm, req, v, i, l) then [tag] else [];
    assert AllTags(h') == AllTags(h) + added;
    InOrder(h, h', added);
  }

  lemma StepKeepsOnWire(b: Bus)
    requires OnWire(b.host)
    ensures OnWire(Step(b).bus.host)
  {
    hide Decide, Look, Deliver, DriveUsb, DriveMem;
    var b0 := b.(host := b.host.(pendingIrq := false));
    DecideKeepsOnWire(b0.host, Look(b0, Target(b0)), Target(b0));
  }

  lemma DecideKeepsOnWire(h: HostState, s: Seen, ep: nat)
    requires OnWire(h)
    ensures OnWire(Decide(h, s, ep).host)
  {
    hide StageMove, Finish;
    FinishLeavesWire(h.(stageSteps := h.stageSteps + 1), true);
    FinishLeavesWire(Observe(h, s.ep0.statRx), false);
    FinishLeavesWire(Observe(h, s.ep0.statTx), false);
    match h.phase
    case DataIn => StageKeepsOnWire(h, s, s.ep0.statTx, DataInProceeds(h, s));
    case DataOut => StageKeepsOnWire(h, s, s.ep0.statRx, DataOutProceeds(h, s));
    case StatusOut => StageKeepsOnWire(h, s, s.ep0.statRx, StatusOutProceeds(h, s));
    case StatusIn => StageKeepsOnWire(h, s, s.ep0.statTx, StatusInProceeds(h, s));
    case _ =>
  }

  lemma FinishLeavesWire(h: HostState, stalled: bool)
    ensures Finish(h, stalled).cur.None? && (Finish(h, stalled).phase.Advance? || Finish(h, stalled).phase.Idle?)
  {
  }

  lemma StageKeepsOnWire(h: HostState, s: Seen, stat: Stat, proceed: Move)
    requires OnWire(h) && OnWire(proceed.host)
    ensures OnWire(StageMove(h, s, stat, proceed).host)
  {
  }

  /** In every run in which no start failed the answered, the current and the waiting transfers
      are together exactly those enqueued, in order, and every RESP line is counted once. */
  lemma {:induction false} TransfersConserved(r: Run)
    requires HostInv(Start(r).host) && NoFailedStart(r)
    ensures AllTags(End(r).host) == AllTags(Start(r).host) + Enqueued(r) && Displacements(r) == []
    ensures End(r).host.completed + End(r).host.stalls + |RespTags(Start(r).host.published)|
         == Start(r).host.completed + Start(r).host.stalls + |RespTags(End(r).host.published)|
  {
    hide Apply, AllTags, EnqueuedBy, RespTags;
    match r
    case Init(b) =>
      assert AllTags(b.host) + [] == AllTags(b.host);
    case Next(before, e) =>
      TransfersConserved(before);
      ShapeHolds(before);
      EventTags(End(before), e);
      assert AllTags(Start(r).host) + (Enqueued(before) + EnqueuedBy(End(before), e))
          == AllTags(Start(r).host) + Enqueued(before) + EnqueuedBy(End(before), e);
  }

  /** The law without any assumption on the run: whatever fails, each transfer enqueued is
      answered, current, waiting, or displaced by a later start, exactly once; those not
      displaced are in the order they were enqueued in; and every RESP line is counted once. */
  lemma {:induction false} TransfersAccounted(r: Run)
    requires OnWire(Start(r).host)
    ensures multiset(AllTags(End(r).host)) + multiset(Displacements(r))
         == multiset(AllTags(Start(r).host)) + multiset(Enqueued(r))
    ensures Subsequence(AllTags(End(r).host), AllTags(Start(r).host) + Enqueued(r))
    ensures End(r).host.completed + End(r).host.stalls + |RespTags(Start(r).host.published)|
         == Start(r).host.completed + Start(r).host.stalls + |RespTags(End(r).host.published)|
    ensures OnWire(End(r).host)
  {
    hide Apply, AllTags, EnqueuedBy, RespTags, OnWire, DisplacedBy, NoFailedStart, Subsequence;
    match r
    case Init(b) =>
      AllIsSubsequence(AllTags(b.host));
      assert AllTags(b.host) + [] == AllTags(b.host);
    case Next(before, e) =>
      TransfersAccounted(before);
      EventTags(End(before), e);
      var added, gone := EnqueuedBy(End(before), e), DisplacedBy(End(before), e);
      Tally(multiset(AllTags(End(before).host)), multiset(Displacements(before)), multiset(AllTags(Start(r).host)),
            multiset(Enqueued(before)), multiset(AllTags(End(r).host)), multiset(gone), multiset(added));
      var all := AllTags(Start(r).host) + Enqueued(before);
      AppendKeeps(AllTags(End(before).host), all, added);
      SubsequencesCompose(AllTags(End(r).host), AllTags(End(before).host) + added, all + added);
      assert all + added == AllTags(Start(r).host) + Enqueued(r);
  }

  lemma Tally<T>(now: multiset<T>, lost: multiset<T>, was: multiset<T>, came: multiset<T>,
                 now': multiset<T>, gone: multiset<T>, added: multiset<T>)
    requires now + lost == was + came && now' + gone == now + added
    ensures now' + (lost + gone) == was + (came + added)
  {
    assert now' + (lost + gone) == (now' + gone) + lost;
    assert was + (came + added) == (now + lost) + added;
  }
}
