/** The modelled USB host (usb_host.py): a nine-phase machine that resets the bus, enumerates,
    and then runs queued control transfers, at most one transaction a step.

    A step looks at the hardware (`Seen`), decides (`Move`), and drives the wire (`Wire`).
    `Step` is the specification; the class UsbHost below is the source's object, and its
    methods are proved to compute it. */
module UsbHostModel {
  import opened Prelude
  import opened EndpointRegister
  import opened UsbBlock

  const STALL_PATIENCE: nat := 24
  const STEP_PATIENCE: nat := 4000
  const MAX_PACKET0: nat := 64

  datatype Phase =
    | WaitAttach | Reset | WaitEp0 | Advance
    | DataIn | DataOut | StatusOut | StatusIn
    | Idle
  {
    /** The four phases in which a transfer is on the wire. */
    predicate Transfer() {
      DataIn? || DataOut? || StatusOut? || StatusIn?
    }

    /** The phases before EP0 is known to be open; interrupt endpoints are not polled yet. */
    predicate Setup() {
      WaitAttach? || Reset? || WaitEp0?
    }
  }

  datatype Xfer = Xfer(tag: string, setup: seq<byte>, want: nat, outData: seq<byte>, data: seq<byte>)

  /** struct.pack("<BBHHH", ...) accepts exactly these arguments. */
  predicate Packable(bm: int, req: int, value: int, index: int, length: int) {
    0 <= bm < 0x100 && 0 <= req < 0x100 && 0 <= value < 0x10000 && 0 <= index < 0x10000 && 0 <= length < 0x10000
  }

  function MakeXfer(tag: string, bm: int, req: int, value: int, index: int, length: int, out: seq<byte>): Xfer
    requires Packable(bm, req, value, index, length)
  {
    var setup: seq<byte> := [bm, req] + LittleEndian(value, 2) + LittleEndian(index, 2) + LittleEndian(length, 2);
    if bm >= 0x80 then Xfer(tag, setup, length, [], []) else Xfer(tag, setup, 0, out, [])
  }

  /** A line published to the bridge. */
  datatype Line = Resp(tag: string, stalled: bool, data: seq<byte>) | Report(ep: nat, payload: seq<byte>)

  datatype HostState = HostState(
    phase: Phase, pendingIrq: bool, stageSteps: nat, stallSeen: nat,
    queue: seq<Xfer>, cur: Option<Xfer>, completed: nat, stalls: nat, published: seq<Line>,
    script: seq<Xfer>)

  function FreshHost(script: seq<Xfer>): HostState {
    HostState(WaitAttach, false, 0, 0, [], None, 0, 0, [], script)
  }

  /** What one host step works on: the host, the register block and packet memory. */
  datatype Bus = Bus(host: HostState, usb: UsbState, mem: seq<byte>)

  /** The result of a step.  `fault` is the source's struct.error: a buffer descriptor did not
      lie inside packet memory, and the exception left the step half done. */
  datatype Outcome = Outcome(bus: Bus, acted: bool, fault: bool)

  // ----- the wire -----

  /** What a step does to the bus: nothing, a reset, a packet to EP0, a packet taken. */
  datatype Wire = Quiet | BusReset | OutPacket(data: seq<byte>, setup: bool) | InPacket(ep: nat)

  /** What a step sees of the hardware. */
  datatype Seen = Seen(attached: bool, ep0: Epr, addressed: bool, fits: bool, open: bool, packet: seq<byte>)

  /** What a step decides. */
  datatype Move = Move(host: HostState, wire: Wire, acted: bool, fault: bool)

  function PacketOf(u: UsbState, mem: seq<byte>, ep: nat): seq<byte>
    requires Fits(u, mem, ep)
  {
    var d := BtableEntry(u, mem, ep);
    ReadFlat(mem, d.addrTx, d.countTx % 1024)
  }

  /** EP0's descriptor has been filled in: a buffer address and a buffer size. */
  predicate DescriptorOpen(u: UsbState, mem: seq<byte>)
    requires Fits(u, mem, 0)
  {
    var d := BtableEntry(u, mem, 0);
    d.addrRx != 0 && d.countRx / 1024 != 0
  }

  /** The hardware as seen by a step that is about to act on endpoint `ep`. */
  function Look(b: Bus, ep: nat): (s: Seen)
    ensures s.ep0 == b.usb.epr[0] && (s.fits <==> Fits(b.usb, b.mem, ep))
  {
    var fits := Fits(b.usb, b.mem, ep);
    Seen(b.usb.attached && b.usb.enabled, b.usb.epr[0], b.usb.AddressEnabled(), fits,
         Fits(b.usb, b.mem, 0) && DescriptorOpen(b.usb, b.mem), if fits then PacketOf(b.usb, b.mem, ep) else [])
  }

  predicate Drivable(b: Bus, w: Wire) {
    (w.OutPacket? ==> Fits(b.usb, b.mem, 0)) && (w.InPacket? ==> w.ep < 8)
  }

  function DriveUsb(u: UsbState, w: Wire): UsbState
    requires w.InPacket? ==> w.ep < 8
  {
    match w
    case Quiet => u
    case BusReset => AfterReset(u)
    case OutPacket(_, setup) => AfterCtrRx(u, 0, setup)
    case InPacket(ep) => AfterCtrTx(u, ep)
  }

  function DriveMem(b: Bus, w: Wire): seq<byte>
    requires Drivable(b, w)
  {
    if w.OutPacket? then Deliver(b.usb, b.mem, 0, w.data) else b.mem
  }

  function Perform(b: Bus, m: Move): Outcome
    requires Drivable(b, m.wire)
  {
    Outcome(Bus(m.host.(pendingIrq := !m.wire.Quiet?), DriveUsb(b.usb, m.wire), DriveMem(b, m.wire)), m.acted, m.fault)
  }

  // ----- transfer plumbing -----

  function Finish(h: HostState, stalled: bool): (h': HostState)
    ensures h'.pendingIrq == h.pendingIrq
  {
    var freed := h.(cur := None, phase := if h.queue != [] then Advance else Idle, stageSteps := 0, stallSeen := 0);
    match h.cur
    case None => freed
    case Some(x) =>
      if stalled
      then freed.(stalls := h.stalls + 1, published := h.published + [Resp(x.tag, true, x.data)])
      else freed.(completed := h.completed + 1, published := h.published + [Resp(x.tag, false, x.data)])
  }

  /** Finishing does not care whether an interrupt is already owed. */
  lemma FinishOwing(h: HostState, stalled: bool)
    ensures Finish(h.(pendingIrq := true), stalled) == Finish(h, stalled).(pendingIrq := true)
  {
  }

  function Observe(h: HostState, stat: Stat): HostState {
    h.(stallSeen := if stat.Stall? then h.stallSeen + 1 else 0)
  }

  /** The stall just observed has persisted long enough. */
  predicate Believed(h: HostState, stat: Stat) {
    stat.Stall? && h.stallSeen >= STALL_PATIENCE
  }

  function Tick(h: HostState): (m: Move)
    ensures m.wire.Quiet? && !m.fault && m.host.pendingIrq == h.pendingIrq
  {
    var ticked := h.(stageSteps := h.stageSteps + 1);
    if ticked.stageSteps > STEP_PATIENCE
    then Move(Finish(ticked, true), Quiet, true, false)
    else Move(ticked, Quiet, false, false)
  }

  /** Append an EP0 IN packet to the current transfer; leave the data stage on the last one. */
  function Accept(h: HostState, pkt: seq<byte>): HostState
    requires h.cur.Some?
  {
    var x := h.cur.value.(data := h.cur.value.data + pkt);
    h.(cur := Some(x), stageSteps := 0,
       phase := if |pkt| < MAX_PACKET0 || |x.data| >= x.want then StatusOut else h.phase)
  }

  function FirstPhase(x: Xfer): Phase {
    if x.want != 0 then DataIn else if x.outData != [] then DataOut else StatusIn
  }

  // ----- the phases -----

  function SetupMove(h: HostState, s: Seen): Move
    requires h.phase.Setup()
  {
    match h.phase
    case WaitAttach => Move(if s.attached then h.(phase := Reset) else h, Quiet, false, false)
    case Reset => Move(h.(phase := WaitEp0), BusReset, true, false)
    case WaitEp0 =>
      if s.ep0.Busy() || s.ep0 == CLEARED || !s.addressed then Move(h, Quiet, false, false)
      else if !s.fits then Move(h, Quiet, false, true)
      else if !s.open then Move(h, Quiet, false, false)
      else Move(h.(queue := h.queue + h.script, phase := Advance), Quiet, false, false)
  }

  function StartMove(h: HostState, s: Seen): Move {
    if h.queue == [] then Move(h.(phase := Idle), Quiet, false, false)
    else
      var x := h.queue[0];
      var started := h.(cur := Some(x), queue := h.queue[1..], stageSteps := 0, stallSeen := 0);
      if !s.fits then Move(started, Quiet, false, true)
      else Move(started.(phase := FirstPhase(x)), OutPacket(x.setup, true), true, false)
  }

  /** The three ways every transfer stage goes on: a believed stall, a fruitless step, or a
      transaction, which `proceed` says. */
  function StageMove(h: HostState, s: Seen, stat: Stat, proceed: Move): Move {
    var seen := Observe(h, stat);
    if Believed(seen, stat) then Move(Finish(seen, true), Quiet, true, false)
    else if s.ep0.Busy() || !stat.Valid? then Tick(seen)
    else proceed
  }

  function DataInProceeds(h: HostState, s: Seen): Move {
    var seen := Observe(h, s.ep0.statTx);
    if !s.fits then Move(seen, Quiet, false, true)
    else if h.cur.None? then Move(seen, InPacket(0), false, true)
    else Move(Accept(seen, s.packet), InPacket(0), true, false)
  }

  function DataOutProceeds(h: HostState, s: Seen): Move {
    var seen := Observe(h, s.ep0.statRx);
    if h.cur.None? || !s.fits then Move(seen, Quiet, false, true)
    else Move(seen.(stageSteps := 0, phase := StatusIn), OutPacket(h.cur.value.outData, false), true, false)
  }

  function StatusOutProceeds(h: HostState, s: Seen): Move {
    var seen := Observe(h, s.ep0.statRx);
    if !s.fits then Move(seen, Quiet, false, true) else Move(Finish(seen, false), OutPacket([], false), true, false)
  }

  function StatusInProceeds(h: HostState, s: Seen): Move {
    var seen := Observe(h, s.ep0.statTx);
    if !s.fits then Move(seen, Quiet, false, true) else Move(Finish(seen, false), InPacket(0), true, false)
  }

  function DataInMove(h: HostState, s: Seen): Move { StageMove(h, s, s.ep0.statTx, DataInProceeds(h, s)) }
  function DataOutMove(h: HostState, s: Seen): Move { StageMove(h, s, s.ep0.statRx, DataOutProceeds(h, s)) }
  function StatusOutMove(h: HostState, s: Seen): Move { StageMove(h, s, s.ep0.statRx, StatusOutProceeds(h, s)) }
  function StatusInMove(h: HostState, s: Seen): Move { StageMove(h, s, s.ep0.statTx, StatusInProceeds(h, s)) }

  function ControlMove(h: HostState, s: Seen): Move
    requires !h.phase.Setup()
  {
    match h.phase
    case Advance => if s.ep0.Busy() then Tick(h) else StartMove(h, s)
    case DataIn => DataInMove(h, s)
    case DataOut => DataOutMove(h, s)
    case StatusOut => StatusOutMove(h, s)
    case StatusIn => StatusInMove(h, s)
    case Idle => Move(if h.queue != [] then h.(phase := Advance) else h, Quiet, false, false)
  }

  function DrainMove(h: HostState, s: Seen, ep: nat): Move {
    if !s.fits then Move(h, Quiet, false, true)
    else Move(if s.packet == [] then h else h.(published := h.published + [Report(ep, s.packet)]),
              InPacket(ep), true, false)
  }

  /** Interrupt endpoint `ep` has a packet the host may take now. */
  predicate Ready(u: UsbState, ep: nat)
    requires ep < 8
  {
    !u.epr[ep].Busy() && u.epr[ep].statTx.Valid?
  }

  /** The lowest ready interrupt endpoint at or after `from`; 4 if there is none. */
  function ReadyIn(u: UsbState, from: nat): (ep: nat)
    requires from <= 4
    ensures from <= ep <= 4
    ensures ep < 4 ==> Ready(u, ep)
    ensures forall k :: from <= k < ep ==> !Ready(u, k)
    decreases 4 - from
  {
    if from == 4 || Ready(u, from) then from else ReadyIn(u, from + 1)
  }

  /** This host step goes to an interrupt endpoint, and EP0 has to wait for the next one. */
  predicate Preempted(b: Bus) {
    !b.host.phase.Setup() && ReadyIn(b.usb, 1) < 4
  }

  /** The endpoint a host step acts on, if it acts on one. */
  function Target(b: Bus): (ep: nat)
    ensures ep < 4
  {
    if Preempted(b) then ReadyIn(b.usb, 1) else 0
  }

  function Decide(h: HostState, s: Seen, ep: nat): Move {
    if h.phase.Setup() then SetupMove(h, s)
    else if ep != 0 then DrainMove(h, s, ep)
    else ControlMove(h, s)
  }

  /** Whatever is seen, a decision drives the wire only within the descriptor table, and only
      on the endpoint the step was about. */
  lemma DecideDrives(h: HostState, s: Seen, ep: nat)
    ensures var m := Decide(h, s, ep);
            && (m.wire.OutPacket? ==> s.fits && ep == 0 && !s.ep0.Busy())
            && (m.wire.InPacket? ==> m.wire.ep == ep && (ep == 0 ==> !s.ep0.Busy() && s.ep0.statTx.Valid?))
  {
    hide Finish, Tick, Accept, Observe, Believed;
  }

  function Step(b: Bus): Outcome {
    var b0 := b.(host := b.host.(pendingIrq := false));
    DecideDrives(b0.host, Look(b0, Target(b0)), Target(b0));
    Perform(b0, Decide(b0.host, Look(b0, Target(b0)), Target(b0)))
  }

  function AfterRequest(h: HostState, tag: string, bm: int, req: int, value: int, index: int, length: int,
                        out: seq<byte>): HostState
  {
    if Packable(bm, req, value, index, length)
    then h.(queue := h.queue + [MakeXfer(tag, bm, req, value, index, length, out)])
    else h
  }

  /** A request's eight SETUP bytes say what was asked for, in the order of section 9.3 of USB 2.0;
      data is wanted of an IN request only, and sent with an OUT request only. */
  lemma RequestSaysWhat(h: HostState, tag: string, bm: int, req: int, value: int, index: int, length: int,
                        out: seq<byte>)
    requires Packable(bm, req, value, index, length)
    ensures var q := AfterRequest(h, tag, bm, req, value, index, length, out).queue;
            && |q| == |h.queue| + 1 && q[..|h.queue|] == h.queue
            && var x := q[|h.queue|];
               && x.tag == tag && x.data == [] && |x.setup| == 8
               && x.setup[0] == bm && x.setup[1] == req
               && Halfword(x.setup, 2) == value && Halfword(x.setup, 4) == index && Halfword(x.setup, 6) == length
               && x.want == (if bm / 128 == 1 then length else 0) && x.outData == (if bm / 128 == 1 then [] else out)
  {
    HalfwordBytes(value);
    HalfwordBytes(index);
    HalfwordBytes(length);
  }

  // ----- the source's object -----

  class UsbHost {
    var phase: Phase
    var pendingIrq: bool
    var stageSteps: nat
    var stallSeen: nat
    var queue: seq<Xfer>
    var cur: Option<Xfer>
    var completed: nat
    var stalls: nat
    var published: seq<Line>
    const script: seq<Xfer>

    ghost function State(): HostState
      reads this
    {
      HostState(phase, pendingIrq, stageSteps, stallSeen, queue, cur, completed, stalls, published, script)
    }

    /** The host with the hardware it is stepped against. */
    ghost function View(usb: UsbRegs, pma: UsbPma): Bus
      requires usb.Valid()
      reads this, usb, pma
    {
      Bus(State(), usb.State(), pma.mem)
    }

    ghost function Result(usb: UsbRegs, pma: UsbPma, acted: bool, fault: bool): Outcome
      requires usb.Valid()
      reads this, usb, pma
    {
      Outcome(View(usb, pma), acted, fault)
    }

    ghost function Performed(usb: UsbRegs, pma: UsbPma, m: Move): Outcome
      requires usb.Valid() && Drivable(View(usb, pma), m.wire)
      reads this, usb, pma
    {
      Perform(View(usb, pma), m)
    }

    /** What draining interrupt endpoint `ep` leads to. */
    ghost function Drained(usb: UsbRegs, pma: UsbPma, ep: nat): Outcome
      requires usb.Valid() && ep < 8
      reads this, usb, pma
    {
      Perform(View(usb, pma), DrainMove(State(), Look(View(usb, pma), ep), ep))
    }

    constructor (script: seq<Xfer>)
      ensures State() == FreshHost(script)
    {
      phase, pendingIrq, stageSteps, stallSeen := WaitAttach, false, 0, 0;
      queue, cur, completed, stalls, published := [], None, 0, 0, [];
      this.script := script;
    }

    method Request(tag: string, bm: int, req: int, value: int, index: int, length: int, out: seq<byte>)
        returns (queued: bool)
      modifies this
      ensures queued <==> Packable(bm, req, value, index, length)
      ensures State() == AfterRequest(old(State()), tag, bm, req, value, index, length, out)
    {
      if !Packable(bm, req, value, index, length) {
        return false;
      }
      queue := queue + [MakeXfer(tag, bm, req, value, index, length, out)];
      return true;
    }

    method GivePacket(usb: UsbRegs, pma: UsbPma, ep: nat, data: seq<byte>, setup: bool) returns (fault: bool)
      requires usb.Valid() && ep < 8
      modifies this`pendingIrq, usb, pma
      ensures usb.Valid()
      ensures fault <==> !Fits(old(usb.State()), old(pma.mem), ep)
      ensures State() == if fault then old(State()) else old(State()).(pendingIrq := true)
      ensures usb.State() == if fault then old(usb.State()) else AfterCtrRx(old(usb.State()), ep, setup)
      ensures pma.mem == if fault then old(pma.mem) else Deliver(old(usb.State()), old(pma.mem), ep, data)
    {
      hide Decode, DecodeAll, DeliverAt;
      var base := usb.Btable();
      if base + ep * 8 + 8 > |pma.mem| {
        return true;
      }
      pma.DeliverPacket(base, ep, data);
      usb.RaiseCtrRx(ep, setup);
      pendingIrq := true;
      return false;
    }

    method TakePacket(usb: UsbRegs, pma: UsbPma, ep: nat) returns (fault: bool, data: seq<byte>)
      requires usb.Valid() && ep < 8
      modifies this`pendingIrq, usb
      ensures usb.Valid()
      ensures fault <==> !Fits(old(usb.State()), pma.mem, ep)
      ensures !fault ==> data == PacketOf(old(usb.State()), pma.mem, ep)
      ensures State() == if fault then old(State()) else old(State()).(pendingIrq := true)
      ensures usb.State() == if fault then old(usb.State()) else AfterCtrTx(old(usb.State()), ep)
    {
      var base := usb.Btable() + ep * 8;
      if base + 8 > |pma.mem| {
        return true, [];
      }
      data := pma.Read(Halfword(pma.mem, base), Halfword(pma.mem, base + 2) % 1024);
      usb.RaiseCtrTx(ep);
      pendingIrq := true;
      fault := false;
    }

    method FinishTransfer(stalled: bool)
      modifies this
      ensures State() == Finish(old(State()), stalled)
    {
      var x := cur;
      cur := None;
      phase := if queue != [] then Advance else Idle;
      stageSteps, stallSeen := 0, 0;
      if x.Some? {
        if stalled {
          stalls := stalls + 1;
        } else {
          completed := completed + 1;
        }
        published := published + [Resp(x.value.tag, stalled, x.value.data)];
      }
    }

    method Stalled(stat: Stat) returns (believed: bool)
      modifies this`stallSeen
      ensures State() == Observe(old(State()), stat)
      ensures believed <==> Believed(State(), stat)
    {
      if stat.Stall? {
        stallSeen := stallSeen + 1;
        return stallSeen >= STALL_PATIENCE;
      }
      stallSeen := 0;
      return false;
    }

    method TickPatience() returns (acted: bool)
      modifies this
      ensures Move(State(), Quiet, acted, false) == Tick(old(State()))
    {
      stageSteps := stageSteps + 1;
      if stageSteps > STEP_PATIENCE {
        FinishTransfer(true);
        return true;
      }
      return false;
    }

    method AcceptPacket(pkt: seq<byte>)
      requires cur.Some?
      modifies this
      ensures State() == Accept(old(State()), pkt)
    {
      cur := Some(cur.value.(data := cur.value.data + pkt));
      stageSteps := 0;
      if |pkt| < MAX_PACKET0 || |cur.value.data| >= cur.value.want {
        phase := StatusOut;
      }
    }

    method DataInStep(usb: UsbRegs, pma: UsbPma) returns (acted: bool, fault: bool)
      requires usb.Valid() && !pendingIrq
      modifies this, usb
      ensures usb.Valid()
      ensures Result(usb, pma, acted, fault) == old(Performed(usb, pma, DataInMove(State(), Look(View(usb, pma), 0))))
    {
      hide Decode, DecodeAll, Finish, Tick, PacketOf, DescriptorOpen;
      var e := Decode(usb.epr[0]);
      var believed := Stalled(e.statTx);
      if believed {
        FinishTransfer(true);
        return true, false;
      }
      if e.Busy() || !e.statTx.Valid? {
        acted := TickPatience();
        return acted, false;
      }
      var pkt;
      fault, pkt := TakePacket(usb, pma, 0);
      if fault || cur.None? {
        return false, true;
      }
      AcceptPacket(pkt);
      return true, false;
    }

    method DataOutStep(usb: UsbRegs, pma: UsbPma) returns (acted: bool, fault: bool)
      requires usb.Valid() && !pendingIrq
      modifies this, usb, pma
      ensures usb.Valid()
      ensures Result(usb, pma, acted, fault) == old(Performed(usb, pma, DataOutMove(State(), Look(View(usb, pma), 0))))
    {
      hide Decode, DecodeAll, Finish, Tick, Deliver, PacketOf, DescriptorOpen;
      var e := Decode(usb.epr[0]);
      var believed := Stalled(e.statRx);
      if believed {
        FinishTransfer(true);
        return true, false;
      }
      if e.Busy() || !e.statRx.Valid? {
        acted := TickPatience();
        return acted, false;
      }
      if cur.None? {
        return false, true;
      }
      fault := GivePacket(usb, pma, 0, cur.value.outData, false);
      if fault {
        return false, true;
      }
      stageSteps := 0;
      phase := StatusIn;
      return true, false;
    }

    method StatusStep(usb: UsbRegs, pma: UsbPma) returns (acted: bool, fault: bool)
      requires usb.Valid() && !pendingIrq && (phase.StatusOut? || phase.StatusIn?)
      modifies this, usb, pma
      ensures usb.Valid()
      ensures Result(usb, pma, acted, fault)
           == old(Performed(usb, pma, if phase.StatusOut? then StatusOutMove(State(), Look(View(usb, pma), 0))
                                      else StatusInMove(State(), Look(View(usb, pma), 0))))
    {
      hide Decode, DecodeAll, Finish, Tick, Deliver, PacketOf, DescriptorOpen;
      var e := Decode(usb.epr[0]);
      var stat := if phase.StatusOut? then e.statRx else e.statTx;
      var believed := Stalled(stat);
      if believed {
        FinishTransfer(true);
        return true, false;
      }
      if e.Busy() || !stat.Valid? {
        acted := TickPatience();
        return acted, false;
      }
      FinishOwing(State(), false);
      if phase.StatusOut? {
        fault := GivePacket(usb, pma, 0, [], false);
      } else {
        var status;
        fault, status := TakePacket(usb, pma, 0);
      }
      if fault {
        return false, true;
      }
      FinishTransfer(false);
      return true, false;
    }

    method StartNextTransfer(usb: UsbRegs, pma: UsbPma) returns (acted: bool, fault: bool)
      requires usb.Valid() && !pendingIrq
      modifies this, usb, pma
      ensures usb.Valid()
      ensures Result(usb, pma, acted, fault) == old(Performed(usb, pma, StartMove(State(), Look(View(usb, pma), 0))))
    {
      hide Decode, DecodeAll, Deliver, PacketOf, FirstPhase, DescriptorOpen;
      if queue == [] {
        phase := Idle;
        return false, false;
      }
      var x := queue[0];
      queue := queue[1..];
      cur := Some(x);
      stageSteps, stallSeen := 0, 0;
      fault := GivePacket(usb, pma, 0, x.setup, true);
      if fault {
        return false, true;
      }
      phase := FirstPhase(x);
      return true, false;
    }

    method Ep0NotReady(usb: UsbRegs) returns (waiting: bool)
      requires usb.Valid()
      ensures waiting <==> var u := usb.State(); u.epr[0].Busy() || u.epr[0] == CLEARED || !u.AddressEnabled()
    {
      ClearedIsZero(usb.epr[0]);
      waiting := Decode(usb.epr[0]).Busy() || usb.epr[0] == 0 || !usb.DaddrEnabled();
    }

    method Ep0Step(usb: UsbRegs, pma: UsbPma) returns (fault: bool)
      requires usb.Valid() && !pendingIrq && phase.WaitEp0?
      modifies this
      ensures Result(usb, pma, false, fault) == old(Performed(usb, pma, SetupMove(State(), Look(View(usb, pma), 0))))
    {
      hide Decode, DecodeAll, PacketOf;
      var waiting := Ep0NotReady(usb);
      if waiting {
        return false;
      }
      var base := usb.Btable();
      if base + 8 > |pma.mem| {
        return true;
      }
      var addrRx, countRx := Halfword(pma.mem, base + 4), Halfword(pma.mem, base + 6);
      if addrRx != 0 && countRx / 1024 != 0 {
        queue := queue + script;
        phase := Advance;
      }
      return false;
    }

    method SetupStep(usb: UsbRegs, pma: UsbPma) returns (acted: bool, fault: bool)
      requires usb.Valid() && !pendingIrq && phase.Setup()
      modifies this, usb
      ensures usb.Valid()
      ensures Result(usb, pma, acted, fault) == old(Performed(usb, pma, SetupMove(State(), Look(View(usb, pma), 0))))
    {
      hide Decode, DecodeAll, PacketOf, DescriptorOpen;
      if phase.WaitAttach? {
        if usb.attached && usb.enabled {
          phase := Reset;
        }
        return false, false;
      }
      if phase.Reset? {
        usb.RaiseReset();
        pendingIrq := true;
        phase := WaitEp0;
        return true, false;
      }
      fault := Ep0Step(usb, pma);
      acted := false;
    }

    /** Drain at most one interrupt endpoint.  `tried` says one was ready. */
    method DrainStep(usb: UsbRegs, pma: UsbPma) returns (tried: bool, acted: bool, fault: bool)
      requires usb.Valid() && !pendingIrq
      modifies this, usb
      ensures usb.Valid()
      ensures tried <==> ReadyIn(old(usb.State()), 1) < 4
      ensures tried ==> Result(usb, pma, acted, fault) == old(Drained(usb, pma, ReadyIn(usb.State(), 1)))
      ensures !tried ==> View(usb, pma) == old(View(usb, pma))
    {
      hide Decode, DecodeAll, PacketOf, DescriptorOpen;
      ghost var u := usb.State();
      for ep := 1 to 4
        invariant usb.Valid() && View(usb, pma) == old(View(usb, pma))
        invariant ReadyIn(u, ep) == ReadyIn(u, 1)
      {
        var e := Decode(usb.epr[ep]);
        if !e.Busy() && e.statTx.Valid? {
          var data;
          fault, data := TakePacket(usb, pma, ep);
          if !fault && data != [] {
            published := published + [Report(ep, data)];
          }
          return true, !fault, fault;
        }
      }
      return false, false, false;
    }

    method RunStep(usb: UsbRegs, pma: UsbPma) returns (acted: bool, fault: bool)
      requires usb.Valid()
      modifies this, usb, pma
      ensures usb.Valid()
      ensures Result(usb, pma, acted, fault) == Step(old(View(usb, pma)))
    {
      hide Decode, DecodeAll, SetupMove, StartMove, DrainMove, PacketOf, DescriptorOpen;
      hide DataInMove, DataOutMove, StatusOutMove, StatusInMove;
      pendingIrq := false;
      if phase.Setup() {
        acted, fault := SetupStep(usb, pma);
        return;
      }
      var tried;
      tried, acted, fault := DrainStep(usb, pma);
      if tried {
        return;
      }
      match phase
      case Advance =>
        if Decode(usb.epr[0]).Busy() {
          acted := TickPatience();
          fault := false;
        } else {
          acted, fault := StartNextTransfer(usb, pma);
        }
      case DataIn =>
        acted, fault := DataInStep(usb, pma);
      case DataOut =>
        acted, fault := DataOutStep(usb, pma);
      case StatusOut =>
        acted, fault := StatusStep(usb, pma);
      case StatusIn =>
        acted, fault := StatusStep(usb, pma);
      case Idle =>
        if queue != [] {
          phase := Advance;
        }
        acted, fault := false, false;
    }
  }
}
