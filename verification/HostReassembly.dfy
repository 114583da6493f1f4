/** What an IN data stage puts together, and when a host step can fail half way. */
module HostReassembly {
  import opened Prelude
  import opened EndpointRegister
  import opened UsbBlock
  import opened UsbHostModel
  import opened HostRuns
  import opened HostProgress
  import opened HostQueue

  // ----- the device's side: section 8.5.3.2 of USB 2.0 -----

  function Concat(q: seq<seq<byte>>): seq<byte> {
    if q == [] then [] else Concat(q[..|q| - 1]) + q[|q| - 1]
  }

  lemma ConcatAppend(q: seq<seq<byte>>, p: seq<byte>)
    ensures Concat(q + [p]) == Concat(q) + p
  {
    assert (q + [p])[..|q|] == q;
  }

  /** The bytes a device with `D` to send gives a host that wants `want`. */
  function Payload(D: seq<byte>, want: nat): seq<byte> {
    D[..Min(|D|, want)]
  }

  /** A device that has less than was wanted says so with a short, possibly empty, packet. */
  function FragmentCount(D: seq<byte>, want: nat): nat {
    if |D| < want then |D| / 64 + 1 else (want + 63) / 64
  }

  function Fragment(D: seq<byte>, want: nat): (q: seq<seq<byte>>)
    ensures |q| == FragmentCount(D, want)
  {
    var p := Payload(D, want);
    seq(FragmentCount(D, want), i requires 0 <= i < FragmentCount(D, want) => p[64 * i..Min(64 * i + 64, |p|)])
  }

  // ----- the host's side -----

  /** The packets so far keep the data stage open: none was short, and more is wanted. */
  predicate Open(q: seq<seq<byte>>, want: nat) {
    (forall i :: 0 <= i < |q| ==> |q[i]| >= MAX_PACKET0) && |Concat(q)| < want
  }

  /** The last packet, and no earlier one, ended the data stage. */
  predicate Closed(q: seq<seq<byte>>, want: nat) {
    q != [] && Open(q[..|q| - 1], want) && (|q[|q| - 1]| < MAX_PACKET0 || |Concat(q)| >= want)
  }

  /** This event is the host taking a packet of the current IN data stage. */
  predicate TakesData(b: Bus, e: BusEvent) {
    e.HostStep? && !Preempted(b) && b.host.phase.DataIn? && !b.usb.epr[0].ctrTx && Apply(b, e).usb.epr[0].ctrTx
  }

  /** The EP0 IN packets taken since the current transfer was started: what the TX buffer held. */
  function InPackets(r: Run): seq<seq<byte>> {
    match r
    case Init(_) => []
    case Next(before, e) =>
      var b := End(before);
      if e.HostStep? && !Preempted(b) && b.host.phase.Advance? then []
      else if TakesData(b, e) then InPackets(before) + [TxBuffer(b.usb, b.mem, 0)]
      else InPackets(before)
  }

  /** One step of an IN data stage: it takes a packet and appends it, or leaves the data alone. */
  lemma DataInStepTakes(b: Bus)
    requires HostInv(b.host) && b.host.phase.DataIn? && !Preempted(b)
    ensures var h, h', pkt := b.host, Step(b).bus.host, TxBuffer(b.usb, b.mem, 0);
            if TakesData(b, HostStep)
            then h'.cur.Some? && h'.cur.value == h.cur.value.(data := h.cur.value.data + pkt)
                 && h'.phase == (if |pkt| < MAX_PACKET0 || |h.cur.value.data + pkt| >= h.cur.value.want
                                 then StatusOut else DataIn)
            else h'.cur.None? || (h'.cur == h.cur && h'.phase.DataIn?)
  {
    hide Look, Deliver, DriveMem;
    var b0 := b.(host := b.host.(pendingIrq := false));
    SamePacket(b, b0);
    var m := DataInMove(b0.host, Look(b0, 0));
    assert Step(b) == Perform(b0, m);
    DataInDecides(b0.host, Look(b0, 0));
  }

  lemma DataInDecides(h: HostState, s: Seen)
    requires HostInv(h) && h.phase.DataIn?
    ensures var m := DataInMove(h, s);
            if m.wire == InPacket(0)
            then m.host == Accept(Observe(h, s.ep0.statTx), s.packet) && !s.ep0.Busy()
            else m.wire.Quiet? && (m.host.cur.None? || (m.host.cur == h.cur && m.host.phase.DataIn?))
  {
  }

  lemma SamePacket(b: Bus, b0: Bus)
    requires b0.usb == b.usb && b0.mem == b.mem
    ensures Fits(b.usb, b.mem, 0) ==> Look(b0, 0).packet == TxBuffer(b.usb, b.mem, 0)
  {
    if Fits(b.usb, b.mem, 0) { PacketIsTxBuffer(b0, 0); }
  }

  lemma OtherStep(b: Bus)
    requires HostInv(b.host) && (Preempted(b) || !b.host.phase.DataIn?)
    ensures var h, h' := b.host, Step(b).bus.host;
            && !TakesData(b, HostStep)
            && (Preempted(b) ==> h'.cur == h.cur && h'.phase == h.phase)
            && (!Preempted(b) && h.phase.Advance? && h'.cur.Some? ==> h'.cur.value.data == [] && !h'.phase.StatusOut?)
            && (!Preempted(b) && h'.phase.DataIn? ==> h.phase.Advance?)
            && (!Preempted(b) && h'.phase.StatusOut? ==> h.phase.StatusOut? && h'.cur == h.cur)
  {
    hide Look, Deliver, DriveUsb, DriveMem, StageMove, DataInProceeds, StartMove, Finish;
    var b0 := b.(host := b.host.(pendingIrq := false));
    OtherDecides(b0.host, Look(b0, Target(b0)), Target(b0));
  }

  lemma OtherDecides(h: HostState, s: Seen, ep: nat)
    requires HostInv(h) && (ep != 0 || !h.phase.DataIn?)
    ensures var h' := Decide(h, s, ep).host;
            && (ep != 0 && !h.phase.Setup() ==> h'.cur == h.cur && h'.phase == h.phase)
            && (ep == 0 && h.phase.Advance? && h'.cur.Some? ==> h'.cur.value.data == [] && !h'.phase.StatusOut?)
            && (ep == 0 && h'.phase.DataIn? ==> h.phase.Advance?)
            && (ep == 0 && h'.phase.StatusOut? ==> h.phase.StatusOut? && h'.cur == h.cur)
  {
    hide ControlMove;
    if !h.phase.Setup() && ep == 0 { OtherControls(h, s); }
  }

  lemma OtherControls(h: HostState, s: Seen)
    requires HostInv(h) && !h.phase.Setup() && !h.phase.DataIn?
    ensures var h' := ControlMove(h, s).host;
            && (h.phase.Advance? && h'.cur.Some? ==> h'.cur.value.data == [] && !h'.phase.StatusOut?)
            && (h'.phase.DataIn? ==> h.phase.Advance?)
            && (h'.phase.StatusOut? ==> h.phase.StatusOut? && h'.cur == h.cur)
  {
    hide Finish, StageMove;
    match h.phase
    case Advance => FinishLeavesWire(h.(stageSteps := h.stageSteps + 1), true);
    case DataOut => OtherStage(h, s, s.ep0.statRx, DataOutProceeds(h, s));
    case StatusOut =>
      OtherStage(h, s, s.ep0.statRx, StatusOutProceeds(h, s));
      FinishLeavesWire(Observe(h, s.ep0.statRx), false);
    case StatusIn =>
      OtherStage(h, s, s.ep0.statTx, StatusInProceeds(h, s));
      FinishLeavesWire(Observe(h, s.ep0.statTx), false);
    case Idle =>
  }

  lemma OtherStage(h: HostState, s: Seen, stat: Stat, proceed: Move)
    ensures var h' := StageMove(h, s, stat, proceed).host;
            h' == proceed.host || (h'.phase == h.phase && h'.cur == h.cur) || h'.phase.Advance? || h'.phase.Idle?
  {
  }

  /** In every run in which no start failed the current transfer holds exactly the packets taken
      since its SETUP, and its data stage is over exactly from the packet that closed it. */
  lemma {:induction false} DataIsThePackets(r: Run)
    requires HostInv(Start(r).host) && Start(r).host.cur.None? && NoFailedStart(r)
    ensures var h := End(r).host;
            && HostInv(h)
            && (h.phase.DataIn? ==> h.cur.value.data == Concat(InPackets(r)) && Open(InPackets(r), h.cur.value.want))
            && (h.phase.StatusOut? ==> h.cur.value.data == Concat(InPackets(r)) && Closed(InPackets(r), h.cur.value.want))
  {
    hide Step, AfterHwWrite, CpuWrite, Look, Concat, Open, Closed;
    match r
    case Init(_) =>
    case Next(before, e) =>
      DataIsThePackets(before);
      ShapeHolds(before);
      ShapeHolds(r);
      var b := End(before);
      if e.HostStep? {
        if b.host.phase.DataIn? && !Preempted(b) {
          DataInStepTakes(b);
          if TakesData(b, e) { OnePacketMore(InPackets(before), TxBuffer(b.usb, b.mem, 0), b.host.cur.value.want); }
        } else {
          OtherStep(b);
          NoPackets(if End(r).host.cur.Some? then End(r).host.cur.value.want else 0);
        }
      }
  }

  lemma OnePacketMore(q: seq<seq<byte>>, p: seq<byte>, want: nat)
    requires Open(q, want)
    ensures Concat(q + [p]) == Concat(q) + p
    ensures if |p| < MAX_PACKET0 || |Concat(q) + p| >= want then Closed(q + [p], want) else Open(q + [p], want)
  {
    ConcatAppend(q, p);
    assert (q + [p])[..|q|] == q;
  }

  lemma NoPackets(want: nat)
    ensures Concat([]) == [] && (want > 0 ==> Open([], want))
  {
  }

  // ----- fragment, then reassemble -----

  /** The first k fragments are the first 64k bytes of the payload. */
  lemma {:induction false} FragmentPrefix(D: seq<byte>, want: nat, k: nat)
    requires k <= FragmentCount(D, want)
    ensures Concat(Fragment(D, want)[..k]) == Payload(D, want)[..Min(64 * k, |Payload(D, want)|)]
  {
    var q, p := Fragment(D, want), Payload(D, want);
    if k == 0 {
      assert q[..0] == [];
    } else {
      FragmentPrefix(D, want, k - 1);
      assert q[..k] == q[..k - 1] + [q[k - 1]];
      ConcatAppend(q[..k - 1], q[k - 1]);
      assert 64 * (k - 1) <= |p|;
      assert p[..64 * (k - 1)] + p[64 * (k - 1)..Min(64 * k, |p|)] == p[..Min(64 * k, |p|)];
    }
  }

  /** Every proper prefix of a fragmentation leaves the data stage open, and none closes it
      early; the whole of it closes the stage and carries exactly the payload. */
  lemma FragmentsClose(D: seq<byte>, want: nat, k: nat)
    requires want >= 1 && k <= FragmentCount(D, want)
    ensures var q := Fragment(D, want)[..k];
            if k < FragmentCount(D, want)
            then Open(q, want) && !Closed(q, want)
            else !Open(q, want) && Concat(q) == Payload(D, want)
  {
    var q, p := Fragment(D, want)[..k], Payload(D, want);
    FragmentPrefix(D, want, k);
    if k < FragmentCount(D, want) {
      assert 64 * k <= |p| && 64 * k < want;
      forall i | 0 <= i < k ensures |q[i]| >= 64 {
        assert 64 * i + 64 <= 64 * k;
      }
    } else if |D| < want {
      assert |q[k - 1]| == |p| - 64 * (k - 1) < 64;
    }
  }

  /** Fragment then reassemble is the identity.  In every run in which no start failed and the
      device answers the current transfer with the fragments of D, in order, the host leaves the
      data stage exactly on the last of them, holding exactly the payload. */
  lemma ReassemblyIsIdentity(r: Run, D: seq<byte>)
    requires HostInv(Start(r).host) && Start(r).host.cur.None? && NoFailedStart(r)
    requires End(r).host.cur.Some? && (End(r).host.phase.DataIn? || End(r).host.phase.StatusOut?)
    requires InPackets(r) <= Fragment(D, End(r).host.cur.value.want)
    ensures var x := End(r).host.cur.value;
            && (End(r).host.phase.StatusOut? <==> InPackets(r) == Fragment(D, x.want))
            && (End(r).host.phase.StatusOut? ==> x.data == Payload(D, x.want))
  {
    hide Open, Closed, Concat, Fragment, Step;
    ShapeHolds(r);
    DataIsThePackets(r);
    var want := End(r).host.cur.value.want;
    var k := |InPackets(r)|;
    assert InPackets(r) == Fragment(D, want)[..k];
    FragmentsClose(D, want, k);
    if k == FragmentCount(D, want) { assert Fragment(D, want)[..k] == Fragment(D, want); }
  }

  /** A status stage that completes publishes what the data stage reassembled. */
  lemma StatusOutAnswers(b: Bus)
    requires HostInv(b.host) && b.host.phase.StatusOut?
    ensures var h, h' := b.host, Step(b).bus.host;
            h'.completed > h.completed ==> h'.published == h.published + [Resp(h.cur.value.tag, false, h.cur.value.data)]
  {
    hide Look, Deliver, DriveUsb, DriveMem;
  }

  /** The answer the host publishes for a completed IN transfer is the payload the device
      fragmented. */
  lemma AnswerIsPayload(r: Run, D: seq<byte>)
    requires HostInv(Start(r).host) && Start(r).host.cur.None? && NoFailedStart(r)
    requires End(r).host.cur.Some? && End(r).host.phase.StatusOut?
    requires InPackets(r) <= Fragment(D, End(r).host.cur.value.want)
    ensures var h, h' := End(r).host, Step(End(r)).bus.host;
            h'.completed > h.completed
            ==> h'.published == h.published + [Resp(h.cur.value.tag, false, Payload(D, h.cur.value.want))]
  {
    hide Step, Fragment, Payload;
    ShapeHolds(r);
    ReassemblyIsIdentity(r, D);
    StatusOutAnswers(End(r));
  }

  // ----- a delivered packet stays until the firmware is done with it -----

  /** The packet the next host step gives to EP0, if it gives one. */
  function Given(b: Bus): Option<seq<byte>> {
    if b.host.phase.Setup() || Preempted(b) || !DrivesWire(b) then None
    else
      match b.host.phase
      case Advance => Some(b.host.queue[0].setup)
      case DataOut => Some(b.host.cur.value.outData)
      case StatusOut => Some([])
      case _ => None
  }

  /** A step writes to packet memory only to deliver that packet. */
  lemma StepWrites(b: Bus)
    ensures Given(b).Some? ==> Fits(b.usb, b.mem, 0)
    ensures match Given(b)
            case None => Step(b).bus.mem == b.mem
            case Some(data) => Step(b).bus.mem == Deliver(b.usb, b.mem, 0, data) && Step(b).bus.usb.epr[0].ctrRx
  {
    hide Deliver, DescriptorOpen, PacketOf, Accept, Finish, Fits;
  }

  /** The last packet given to EP0 was a SETUP; before the first one, the register says. */
  function LastWasSetup(r: Run): bool {
    match r
    case Init(b) => b.usb.epr[0].setup
    case Next(before, e) =>
      var b := End(before);
      if e.HostStep? && Given(b).Some? then b.host.phase.Advance? else LastWasSetup(before)
  }

  /** In every run EP0's SETUP bit says of the last packet given whether it started a transfer,
      whatever the firmware writes since. */
  lemma {:induction false} SetupBitTells(r: Run)
    ensures End(r).usb.epr[0].setup == LastWasSetup(r)
  {
    hide Apply, Given;
    match r
    case Init(_) =>
    case Next(before, e) =>
      SetupBitTells(before);
      EventMarks(End(before), e);
  }

  lemma EventMarks(b: Bus, e: BusEvent)
    ensures Apply(b, e).usb.epr[0].setup
         == (if e.HostStep? && Given(b).Some? then b.host.phase.Advance? else b.usb.epr[0].setup)
  {
    hide Step, Decode, Given;
    if e.HostStep? { StepMarks(b); }
  }

  lemma StepMarks(b: Bus)
    ensures Step(b).bus.usb.epr[0].setup == (if Given(b).Some? then b.host.phase.Advance? else b.usb.epr[0].setup)
  {
    hide Look, Deliver, Given, DriveMem;
    var b0 := b.(host := b.host.(pendingIrq := false));
    var s := Look(b0, Target(b0));
    DecideDrives(b0.host, s, Target(b0));
    DecideGives(b, s);
  }

  /** What is decided puts a packet on the wire for EP0 exactly when one is given, and marks it. */
  lemma DecideGives(b: Bus, s: Seen)
    requires s.ep0 == b.usb.epr[0] && (s.fits <==> Fits(b.usb, b.mem, Target(b)))
    ensures var w := Decide(b.host.(pendingIrq := false), s, Target(b)).wire;
            && (Given(b).Some? <==> w.OutPacket?)
            && (w.OutPacket? ==> (w.setup <==> b.host.phase.Advance?))
  {
    hide Accept, Finish, Fits, Tick, FirstPhase, UsbState.AddressEnabled, StageMove;
    var h := b.host.(pendingIrq := false);
    StageWires(h, s, s.ep0.statTx, DataInProceeds(h, s));
    StageWires(h, s, s.ep0.statRx, DataOutProceeds(h, s));
    StageWires(h, s, s.ep0.statRx, StatusOutProceeds(h, s));
    StageWires(h, s, s.ep0.statTx, StatusInProceeds(h, s));
  }

  lemma StageWires(h: HostState, s: Seen, stat: Stat, proceed: Move)
    ensures StageMove(h, s, stat, proceed).wire == (if !s.ep0.Busy() && stat.Valid? then proceed.wire else Quiet)
  {
    hide Finish, Tick;
  }

  /** The firmware has neither acknowledged the packet nor written to packet memory. */
  predicate Unread(r: Run) {
    End(r).usb.epr[0].ctrRx && match r case Init(_) => true case Next(before, e) => Unread(before) && !e.PmaWrite?
  }

  lemma {:induction false} PacketStays(r: Run)
    requires Unread(r)
    ensures End(r).mem == Start(r).mem
  {
    hide Step, DrivesWire, AfterHwWrite;
    match r
    case Init(_) =>
    case Next(before, e) =>
      PacketStays(before);
      if e.HostStep? {
        StepWrites(End(before));
        BusyGivesNothing(End(before));
      }
  }

  lemma BusyGivesNothing(b: Bus)
    requires b.usb.epr[0].ctrRx
    ensures Given(b).None?
  {
  }

  /** Loads of these sizes, from EP0's RX buffer on, cover the packet and stay inside memory. */
  predicate Covers(b: Bus, data: seq<byte>, sizes: seq<nat>) {
    && Fits(b.usb, b.mem, 0) && BufferClear(b.usb, b.mem, 0, |data|)
    && |data| <= Sum(sizes) && BtableEntry(b.usb, b.mem, 0).addrRx + Sum(sizes) <= |b.mem|
  }

  predicate ReadsBack(mem: seq<byte>, addr: nat, data: seq<byte>, sizes: seq<nat>) {
    && |data| <= Sum(sizes) && addr + Sum(sizes) <= |mem|
    && data <= CopyLoop(mem, addr, sizes)
  }

  /** Whenever the firmware's copy loop reads it, before it clears CTR_RX or writes to packet
      memory, and whatever the host and the other registers do meanwhile, a delivered packet
      reads back byte for byte. */
  lemma PacketReadsBack(b: Bus, r: Run, data: seq<byte>, sizes: seq<nat>)
    requires Given(b) == Some(data) && Covers(b, data, sizes)
    requires Start(r) == Step(b).bus && Unread(r)
    ensures ReadsBack(End(r).mem, BtableEntry(b.usb, b.mem, 0).addrRx, data, sizes)
  {
    hide Step, Given;
    StepWrites(b);
    PacketStays(r);
    hide Start, End, Unread;
    DeliveredBytesReadBack(b.usb, b.mem, 0, data, sizes);
  }

  // ----- the only way a step can fail half way -----

  /** All four descriptors the host uses lie inside packet memory. */
  predicate TableInside(b: Bus) {
    b.usb.Btable() + 32 <= |b.mem|
  }

  lemma InsideNeverFaults(b: Bus)
    requires HostInv(b.host) && TableInside(b)
    ensures !Step(b).fault
  {
    hide Look, Deliver, DriveUsb, DriveMem, BtableEntry, DescriptorOpen, PacketOf, Finish;
    var b0 := b.(host := b.host.(pendingIrq := false));
    assert Look(b0, Target(b0)).fits;
    DecideNeverFaults(b0.host, Look(b0, Target(b0)), Target(b0));
  }

  lemma DecideNeverFaults(h: HostState, s: Seen, ep: nat)
    requires HostInv(h) && s.fits
    ensures !Decide(h, s, ep).fault
  {
    hide Finish, Accept;
  }

  /** The firmware only ever points BTABLE at a table inside the 1 KB. */
  predicate TableWritesInside(r: Run) {
    match r
    case Init(b) => TableInside(b) && |b.mem| >= PMA_SIZE
    case Next(before, e) =>
      TableWritesInside(before)
      && (e.UsbWrite? && e.off == BTABLE ==> (e.value & 0xFFF8) as nat + 32 <= PMA_SIZE)
  }

  /** Step, and every other event, never shrinks packet memory or moves the table by itself. */
  lemma EventKeepsTable(b: Bus, e: BusEvent)
    requires !(e.UsbWrite? && e.off == BTABLE)
    ensures Apply(b, e).usb.Btable() == b.usb.Btable() && |Apply(b, e).mem| >= |b.mem|
  {
    hide Step, AfterHwWrite, LittleEndian;
    match e
    case HostStep =>
      StepTouchesOne(b);
      StepKeepsMemory(b);
    case PmaWrite(offset, size, word) => WriteFlatLength(b.mem, offset, LittleEndian(word, size));
    case UsbWrite(off, value) => WriteKeepsTable(b.usb, off, value);
    case _ =>
  }

  lemma WriteKeepsTable(u: UsbState, off: nat, value: bv16)
    requires off != BTABLE
    ensures AfterHwWrite(u, off, value).Btable() == u.Btable()
  {
    hide Decode, WriteFields;
    assert AfterHwWrite(u, off, value).Reg(BTABLE) == u.Reg(BTABLE);
  }

  lemma StepKeepsMemory(b: Bus)
    ensures |Step(b).bus.mem| >= |b.mem|
  {
    hide Decide, Look, DriveUsb, DeliverAt;
    var b0 := b.(host := b.host.(pendingIrq := false));
    var m := Decide(b0.host, Look(b0, Target(b0)), Target(b0));
    DecideDrives(b0.host, Look(b0, Target(b0)), Target(b0));
    if m.wire.OutPacket? { DeliverKeepsLength(b.mem, b.usb.Btable(), 0, m.wire.data); }
  }

  lemma DeliverKeepsLength(mem: seq<byte>, base: nat, ep: nat, data: seq<byte>)
    requires base + ep * 8 + 8 <= |mem|
    ensures |DeliverAt(mem, base, ep, data)| >= |mem|
  {
    var addr := Halfword(mem, base + ep * 8 + 4);
    WriteFlatLength(mem, addr, data);
    SetCountFrame(if data == [] then mem else WriteFlat(mem, addr, data), base, ep, |data|);
  }

  /** A firmware that keeps its descriptor table inside packet memory never makes a host step
      fail, whatever else it writes: all laws of runs in which no start failed are laws of its
      runs. */
  lemma {:induction false} TableInsideIsFaultFree(r: Run)
    requires HostInv(Start(r).host) && TableWritesInside(r)
    ensures FaultFree(r) && NoFailedStart(r) && TableInside(End(r)) && |End(r).mem| >= PMA_SIZE
  {
    hide Step;
    match r
    case Init(_) =>
    case Next(before, e) =>
      TableInsideIsFaultFree(before);
      ShapeHolds(before);
      if e.HostStep? { InsideNeverFaults(End(before)); }
      if e.UsbWrite? && e.off == BTABLE {
        assert End(r).usb.Reg(BTABLE) == e.value;
      } else {
        EventKeepsTable(End(before), e);
      }
  }

  /** What a failed start leaves behind: a transfer that is current, but not on the wire. */
  predicate Orphaned(h: HostState, x: Xfer) {
    h.cur == Some(x) && (h.phase.Advance? || h.phase.Idle?)
  }

  /** Since h0, x was reported stalled, and no transfer was answered before it. */
  ghost predicate GivenUp(h0: HostState, h: HostState, x: Xfer) {
    exists k :: |h0.published| <= k < |h.published| && h.published[k] == Resp(x.tag, true, x.data)
                && RespTags(h.published[..k]) == RespTags(h0.published)
  }

  /** The fate of an orphan: still one, and no answer published since; or the first transfer
      displaced; or given up on. */
  ghost predicate Fate(r: Run, x: Xfer) {
    var h0, h := Start(r).host, End(r).host;
    || (Orphaned(h, x) && RespTags(h.published) == RespTags(h0.published) && Displacements(r) == [])
    || (Displacements(r) != [] && Displacements(r)[0] == x.tag)
    || GivenUp(h0, h, x)
  }

  /** One host step with an orphan current, in terms of what it publishes. */
  lemma OrphanStep(b: Bus, x: Xfer)
    requires Orphaned(b.host, x)
    ensures var h, h' := b.host, Step(b).bus.host;
            || (Orphaned(h', x) && DisplacedBy(b, HostStep) == []
                && (h'.published == h.published
                    || exists ep, p :: h'.published == h.published + [Report(ep, p)]))
            || DisplacedBy(b, HostStep) == [x.tag]
            || h'.published == h.published + [Resp(x.tag, true, x.data)]
  {
    hide Look, Deliver, DriveUsb, DriveMem, FirstPhase;
    if Preempted(b) { assert Report(Target(b), Look(b, Target(b)).packet).Report?; }
  }

  lemma OneReport(lines: seq<Line>, ep: nat, p: seq<byte>)
    ensures RespTags(lines + [Report(ep, p)]) == RespTags(lines)
  {
    RespTagsAppend(lines, Report(ep, p));
  }

  /** Lines are only ever added. */
  lemma EventGrows(b: Bus, e: BusEvent)
    ensures b.host.published <= Apply(b, e).host.published
  {
    hide Step, AfterHwWrite, CpuWrite;
    if e.HostStep? { StepPublishes(b); }
  }

  lemma GivenUpStays(h0: HostState, h: HostState, h': HostState, x: Xfer)
    requires GivenUp(h0, h, x) && h.published <= h'.published
    ensures GivenUp(h0, h', x)
  {
    var k :| |h0.published| <= k < |h.published| && h.published[k] == Resp(x.tag, true, x.data)
             && RespTags(h.published[..k]) == RespTags(h0.published);
    assert h'.published[..k] == h.published[..k] && h'.published[k] == h.published[k];
  }

  /** In every run from a failed start the transfer is reported stalled if patience runs out
      before the next start, and displaced by that start otherwise. */
  lemma {:induction false} OrphanMeetsFate(r: Run, x: Xfer)
    requires Orphaned(Start(r).host, x)
    ensures Fate(r, x)
    ensures Start(r).host.published <= End(r).host.published
  {
    hide Apply, Orphaned, GivenUp, RespTags, DisplacedBy;
    match r
    case Init(_) =>
    case Next(before, e) =>
      OrphanMeetsFate(before, x);
      var h0, b := Start(r).host, End(before);
      EventGrows(b, e);
      if GivenUp(h0, b.host, x) {
        GivenUpStays(h0, b.host, End(r).host, x);
      } else if Displacements(before) == [] {
        OrphanEvent(h0, b, e, x);
      }
  }

  lemma OrphanEvent(h0: HostState, b: Bus, e: BusEvent, x: Xfer)
    requires Orphaned(b.host, x) && RespTags(b.host.published) == RespTags(h0.published)
    requires h0.published <= b.host.published
    ensures var h' := Apply(b, e).host;
            || (Orphaned(h', x) && RespTags(h'.published) == RespTags(h0.published) && DisplacedBy(b, e) == [])
            || DisplacedBy(b, e) == [x.tag]
            || GivenUp(h0, h', x)
  {
    hide Step, AfterHwWrite, CpuWrite, RespTags, DisplacedBy;
    if e.HostStep? {
      var h, h' := b.host, Step(b).bus.host;
      OrphanStep(b, x);
      if h'.published == h.published + [Resp(x.tag, true, x.data)] {
        assert h'.published[..|h.published|] == h.published;
      } else if DisplacedBy(b, e) == [] && h'.published != h.published {
        var ep, p :| h'.published == h.published + [Report(ep, p)];
        OneReport(h.published, ep, p);
      }
    } else {
      NothingDisplaced(b, e);
    }
  }

  lemma NothingDisplaced(b: Bus, e: BusEvent)
    requires !e.HostStep?
    ensures DisplacedBy(b, e) == []
  {
  }

  /** If the firmware never clears EP0's flag there is no next start, and the orphan is given up
      after 4001 EP0 steps. */
  lemma {:induction false} OrphanGivenUp(r: Run, x: Xfer)
    requires Orphaned(Start(r).host, x) && Start(r).host.phase.Advance? && Start(r).host.stageSteps == 0
    requires NeverServiced(r)
    ensures Ep0Steps(r) > STEP_PATIENCE ==> GivenUp(Start(r).host, End(r).host, x)
    ensures var h0, h := Start(r).host, End(r).host;
            h0.published <= h.published
            && (GivenUp(h0, h, x)
                || (Orphaned(h, x) && h.phase.Advance? && h.stageSteps == Ep0Steps(r) <= STEP_PATIENCE
                    && RespTags(h.published) == RespTags(h0.published)))
  {
    hide Apply, GivenUp, RespTags;
    match r
    case Init(_) =>
    case Next(before, e) =>
      OrphanGivenUp(before, x);
      var h0, b, h := Start(r).host, End(before), End(r).host;
      EventGrows(b, e);
      if GivenUp(h0, b.host, x) { GivenUpStays(h0, b.host, h, x); } else { BusyOrphanEvent(h0, b, e, x); }
  }

  lemma BusyOrphanEvent(h0: HostState, b: Bus, e: BusEvent, x: Xfer)
    requires Orphaned(b.host, x) && b.host.phase.Advance? && b.usb.epr[0].Busy() && b.host.stageSteps <= STEP_PATIENCE
    requires h0.published <= b.host.published && RespTags(b.host.published) == RespTags(h0.published)
    ensures var h' := Apply(b, e).host;
            var spent := if e.HostStep? && !Preempted(b) && !Step(b).fault then 1 else 0;
            || GivenUp(h0, h', x)
            || (Orphaned(h', x) && h'.phase.Advance? && h'.stageSteps == b.host.stageSteps + spent <= STEP_PATIENCE
                && RespTags(h'.published) == RespTags(h0.published))
  {
    hide Step, AfterHwWrite, CpuWrite, RespTags;
    if e.HostStep? {
      var h, h' := b.host, Step(b).bus.host;
      BusyOrphanStep(b, x);
      if h'.published == h.published + [Resp(x.tag, true, x.data)] {
        assert h'.published[..|h.published|] == h.published;
      } else if h'.published != h.published {
        var ep, p :| h'.published == h.published + [Report(ep, p)];
        OneReport(h.published, ep, p);
      }
    }
  }

  lemma BusyOrphanStep(b: Bus, x: Xfer)
    requires Orphaned(b.host, x) && b.host.phase.Advance? && b.usb.epr[0].Busy() && b.host.stageSteps <= STEP_PATIENCE
    ensures var h, h' := b.host, Step(b).bus.host;
            var spent := if !Preempted(b) && !Step(b).fault then 1 else 0;
            if h.stageSteps + spent > STEP_PATIENCE then h'.published == h.published + [Resp(x.tag, true, x.data)]
            else Orphaned(h', x) && h'.phase.Advance? && h'.stageSteps == h.stageSteps + spent
                 && (h'.published == h.published || exists ep, p :: h'.published == h.published + [Report(ep, p)])
  {
    hide Look, Deliver, DriveUsb, DriveMem, FirstPhase;
    if Preempted(b) { assert Report(Target(b), Look(b, Target(b)).packet).Report?; }
  }

  /** A transfer about to be started, in every continuation: with EP0's descriptor inside packet
      memory it goes on the wire and is answered within its bound; with the descriptor outside
      it does not, and the next start displaces it unless patience runs out before. */
  lemma LostIffOutside(b: Bus, r: Run)
    requires HostInv(b.host) && b.host.phase.Advance? && b.host.queue != []
    requires !b.usb.epr[0].Busy() && !Preempted(b) && Start(r) == Step(b).bus
    ensures var x := b.host.queue[0];
            && (Fits(b.usb, b.mem, 0) <==> Start(r).host.phase.Transfer())
            && if Fits(b.usb, b.mem, 0) then Ep0Steps(r) >= Bound(x) ==> Answered(Start(r).host, End(r).host)
               else Fate(r, x)
  {
    hide Step, Fits, Fate, Answered, Ep0Steps, Bound;
    var h1 := Step(b).bus.host;
    StartOnce(b);
    if Fits(b.usb, b.mem, 0) {
      StepKeepsShape(b);
      StartedRank(b);
      if Ep0Steps(r) >= Bound(b.host.queue[0]) { TransferIsAnswered(r); }
    } else {
      OrphanMeetsFate(r, b.host.queue[0]);
    }
  }

  /** Taking a transfer off the queue: the SETUP goes out, or, with the descriptor outside packet
      memory, nothing goes out and the phase stays. */
  lemma StartOnce(b: Bus)
    requires b.host.phase.Advance? && b.host.queue != [] && !b.usb.epr[0].Busy() && !Preempted(b)
    ensures var h, b1 := b.host, Step(b).bus;
            && b1.host.queue == h.queue[1..] && b1.host.cur == Some(h.queue[0])
            && if Fits(b.usb, b.mem, 0) then b1.host.phase == FirstPhase(h.queue[0]) && !Step(b).fault
               else b1.host.phase.Advance? && b1.usb == b.usb && b1.mem == b.mem
  {
    hide Fits, DescriptorOpen, PacketOf, Deliver;
  }
}
