/** The USB device block and its packet memory (stm32f0_usb.py): register writes, the derived
    ISTR, and the two views of the 1 KB packet memory. */
module UsbBlock {
  import opened Prelude
  import opened EndpointRegister

  const N_ENDPOINTS: nat := 8
  const CNTR: nat := 0x40
  const ISTR: nat := 0x44
  const DADDR: nat := 0x4C
  const BTABLE: nat := 0x50
  const BCDR: nat := 0x58
  const BLOCK_SIZE: nat := 0x60
  const PMA_SIZE: nat := 1024

  const ISTR_CTR: bv16 := 0x8000
  const ISTR_RESET: bv16 := 0x0400
  const ISTR_SOF: bv16 := 0x0200
  const ISTR_DIR: bv16 := 0x0010

  type Endpoints = s: seq<Epr> | |s| == 8 witness seq(8, _ => CLEARED)

  datatype UsbState = UsbState(
    epr: Endpoints, regs: map<nat, bv16>, events: bv16, enabled: bool, attached: bool)
  {
    function Reg(off: nat): bv16 {
      if off in regs then regs[off] else 0
    }

    /** Where the buffer descriptor table starts in packet memory. */
    function Btable(): nat {
      (Reg(BTABLE) & 0xFFF8) as nat
    }

    predicate AddressEnabled() {
      Reg(DADDR) & 0x0080 != 0
    }
  }

  const USB_RESET := UsbState(seq(8, _ => CLEARED), map[], 0, false, false)

  function UpdateEpr(u: UsbState, ep: nat, e: Epr): UsbState
    requires ep < 8
  {
    u.(epr := u.epr[ep := e])
  }

  /** A CPU write of `value` to byte offset `off` of the USB block. */
  function AfterHwWrite(u: UsbState, off: nat, value: bv16): UsbState {
    if off >= BLOCK_SIZE then u
    else if off < N_ENDPOINTS * 4 then UpdateEpr(u, off / 4, WriteFields(u.epr[off / 4], Decode(value)))
    else if off == ISTR then u.(events := u.events & value)
    else if off == CNTR then u.(enabled := value & 0x0003 == 0, regs := u.regs[off := value])
    else if off == BCDR then u.(attached := value & 0x8000 != 0, regs := u.regs[off := value])
    else u.(regs := u.regs[off := value])
  }

  function AfterCtrRx(u: UsbState, ep: nat, setup: bool): UsbState
    requires ep < 8
  {
    UpdateEpr(u, ep, RaiseRx(u.epr[ep], setup))
  }

  function AfterCtrTx(u: UsbState, ep: nat): UsbState
    requires ep < 8
  {
    UpdateEpr(u, ep, RaiseTx(u.epr[ep]))
  }

  function AfterReset(u: UsbState): UsbState {
    u.(events := u.events | ISTR_RESET)
  }

  function AfterSof(u: UsbState): UsbState {
    u.(events := u.events | ISTR_SOF)
  }

  // ----- ISTR, as the interrupt handler reads it -----

  /** The lowest endpoint at or after `from` that owes its handler a pass; 8 if none does. */
  function LowestBusy(s: Endpoints, from: nat): (ep: nat)
    requires from <= 8
    ensures from <= ep <= 8
    ensures ep < 8 ==> s[ep].Busy()
    ensures forall k :: from <= k < ep ==> !s[k].Busy()
    decreases 8 - from
  {
    if from == 8 || s[from].Busy() then from else LowestBusy(s, from + 1)
  }

  /** CTR flags set from endpoint `from` on. */
  function CtrCount(s: Endpoints, from: nat): nat
    requires from <= 8
    decreases 8 - from
  {
    if from == 8 then 0
    else (if s[from].ctrRx then 1 else 0) + (if s[from].ctrTx then 1 else 0) + CtrCount(s, from + 1)
  }

  lemma {:induction false} NoFlagsCount(s: Endpoints, from: nat)
    requires from <= 8
    ensures CtrCount(s, from) == 0 <==> forall k :: from <= k < 8 ==> !s[k].Busy()
    decreases 8 - from
  {
    if from < 8 { NoFlagsCount(s, from + 1); }
  }

  /** Replacing one endpoint moves the count by that endpoint's flags alone. */
  lemma {:induction false} CountUpdate(s: Endpoints, from: nat, ep: nat, e: Epr)
    requires from <= ep < 8
    ensures CtrCount(s[ep := e], from) + (if s[ep].ctrRx then 1 else 0) + (if s[ep].ctrTx then 1 else 0)
         == CtrCount(s, from) + (if e.ctrRx then 1 else 0) + (if e.ctrTx then 1 else 0)
    decreases ep - from
  {
    if from < ep { CountUpdate(s, from + 1, ep, e); } else { CountBeyond(s, ep + 1, ep, e); }
  }

  lemma {:induction false} CountBeyond(s: Endpoints, from: nat, ep: nat, e: Epr)
    requires ep < from <= 8
    ensures CtrCount(s[ep := e], from) == CtrCount(s, from)
    decreases 8 - from
  {
    if from < 8 { CountBeyond(s, from + 1, ep, e); }
  }

  /** A CPU write that clears the flag ISTR names leaves strictly fewer flags set, whatever
      else the written value toggles. */
  lemma ServingDrains(u: UsbState, value: bv16)
    requires LowestBusy(u.epr, 0) < 8
    requires var ep := LowestBusy(u.epr, 0);
             if u.epr[ep].ctrRx then !Decode(value).ctrRx else !Decode(value).ctrTx
    ensures CtrCount(AfterHwWrite(u, 4 * LowestBusy(u.epr, 0), value).epr, 0) < CtrCount(u.epr, 0)
  {
    hide Decode, CtrCount, LowestBusy;
    ServingOne(u.epr, Decode(value));
  }

  lemma ServingOne(s: Endpoints, v: Epr)
    requires LowestBusy(s, 0) < 8
    requires if s[LowestBusy(s, 0)].ctrRx then !v.ctrRx else !v.ctrTx
    ensures var ep := LowestBusy(s, 0);
            CtrCount(s[ep := WriteFields(s[ep], v)], 0) < CtrCount(s, 0)
  {
    var ep := LowestBusy(s, 0);
    CountUpdate(s, 0, ep, WriteFields(s[ep], v));
  }

  // ----- packet memory: Python slice semantics, so an access may clamp or grow it -----

  function ReadFlat(mem: seq<byte>, offset: nat, length: nat): seq<byte> {
    mem[Min(offset, |mem|)..Min(offset + length, |mem|)]
  }

  function WriteFlat(mem: seq<byte>, offset: nat, data: seq<byte>): seq<byte> {
    mem[..Min(offset, |mem|)] + data + mem[Min(offset + |data|, |mem|)..]
  }

  function Halfword(mem: seq<byte>, offset: nat): (r: nat)
    requires offset + 2 <= |mem|
    ensures r < 0x10000
  {
    var low: nat := mem[offset];
    var high: nat := mem[offset + 1];
    low + 256 * high
  }

  /** `value` as `size` little-endian bytes. */
  function LittleEndian(value: nat, size: nat): (r: seq<byte>)
    ensures |r| == size
  {
    if size == 0 then [] else [value % 256] + LittleEndian(value / 256, size - 1)
  }

  /** `value >> 8 * k`. */
  function ShiftedRight(value: nat, k: nat): nat {
    if k == 0 then value else ShiftedRight(value / 256, k - 1)
  }

  /** The byte at place k is bits 8k to 8k + 7: the low byte comes first. */
  lemma {:induction false} LowByteFirst(value: nat, size: nat, k: nat)
    requires k < size
    ensures LittleEndian(value, size)[k] == ShiftedRight(value, k) % 256
  {
    if k > 0 { LowByteFirst(value / 256, size - 1, k - 1); }
  }

  function FromLittleEndian(bytes: seq<byte>): nat {
    if bytes == [] then 0 else bytes[0] + 256 * FromLittleEndian(bytes[1..])
  }

  lemma {:induction false} LittleEndianRoundTrip(bytes: seq<byte>)
    ensures LittleEndian(FromLittleEndian(bytes), |bytes|) == bytes
  {
    if bytes != [] {
      var rest := FromLittleEndian(bytes[1..]);
      LowByte(bytes[0], rest);
      assert FromLittleEndian(bytes) % 256 == bytes[0] && FromLittleEndian(bytes) / 256 == rest;
      LittleEndianRoundTrip(bytes[1..]);
    }
  }

  lemma LowByte(b: byte, rest: nat)
    ensures (b + 256 * rest) % 256 == b && (b + 256 * rest) / 256 == rest
  {
  }

  /** The CPU's load and store on packet memory. */
  function CpuRead(mem: seq<byte>, offset: nat, size: nat): nat
    requires offset + size <= |mem|
  {
    FromLittleEndian(mem[offset..offset + size])
  }

  function CpuWrite(mem: seq<byte>, offset: nat, size: nat, value: nat): seq<byte> {
    if offset + size > PMA_SIZE then mem else WriteFlat(mem, offset, LittleEndian(value, size))
  }

  /** Packet memory never shrinks, and an access inside it keeps its length. */
  lemma WriteFlatLength(mem: seq<byte>, offset: nat, data: seq<byte>)
    ensures |mem| <= |WriteFlat(mem, offset, data)|
    ensures offset + |data| <= |mem| ==> |WriteFlat(mem, offset, data)| == |mem|
  {
  }

  /** An access inside packet memory replaces exactly the bytes it names. */
  lemma WriteFlatInside(mem: seq<byte>, offset: nat, data: seq<byte>)
    requires offset + |data| <= |mem|
    ensures var after := WriteFlat(mem, offset, data);
            && |after| == |mem|
            && forall k :: 0 <= k < |mem|
                 ==> after[k] == if offset <= k < offset + |data| then data[k - offset] else mem[k]
  {
  }

  datatype Descriptor = Descriptor(addrTx: nat, countTx: nat, addrRx: nat, countRx: nat)

  /** Endpoint `ep`'s eight descriptor bytes lie inside packet memory. */
  predicate Fits(u: UsbState, mem: seq<byte>, ep: nat) {
    u.Btable() + ep * 8 + 8 <= |mem|
  }

  function BtableEntry(u: UsbState, mem: seq<byte>, ep: nat): Descriptor
    requires Fits(u, mem, ep)
  {
    var base := u.Btable() + ep * 8;
    Descriptor(Halfword(mem, base), Halfword(mem, base + 2), Halfword(mem, base + 4), Halfword(mem, base + 6))
  }

  /** Replace the low ten bits of COUNT_RX; the buffer-size bits 15:10 stay. */
  function SetCountRx(mem: seq<byte>, base: nat, ep: nat, length: nat): seq<byte>
    requires base + ep * 8 + 8 <= |mem|
  {
    var off := base + ep * 8 + 6;
    WriteFlat(mem, off, LittleEndian(Halfword(mem, off) / 1024 * 1024 + length % 1024, 2))
  }

  // ----- delivering a packet and reading it back -----

  /** What `_give` leaves in packet memory for a packet handed to endpoint `ep`. */
  function Deliver(u: UsbState, mem: seq<byte>, ep: nat, data: seq<byte>): seq<byte>
    requires Fits(u, mem, ep)
  {
    DeliverAt(mem, u.Btable(), ep, data)
  }

  function DeliverAt(mem: seq<byte>, base: nat, ep: nat, data: seq<byte>): seq<byte>
    requires base + ep * 8 + 8 <= |mem|
  {
    var addr := Halfword(mem, base + ep * 8 + 4);
    WriteFlatLength(mem, addr, data);
    SetCountRx(if data == [] then mem else WriteFlat(mem, addr, data), base, ep, |data|)
  }

  /** The RX buffer lies inside packet memory and misses this endpoint's COUNT_RX word. */
  predicate BufferClear(u: UsbState, mem: seq<byte>, ep: nat, length: nat)
    requires Fits(u, mem, ep)
  {
    var addr := BtableEntry(u, mem, ep).addrRx;
    var off := u.Btable() + ep * 8 + 6;
    addr + length <= |mem| && (addr + length <= off || off + 2 <= addr)
  }

  /** SetCountRx changes one halfword, and of that only its low ten bits. */
  lemma SetCountFrame(mem: seq<byte>, base: nat, ep: nat, length: nat)
    requires base + ep * 8 + 8 <= |mem|
    ensures var off := base + ep * 8 + 6;
            var after := SetCountRx(mem, base, ep, length);
            && |after| == |mem|
            && Halfword(after, off) % 1024 == length % 1024
            && Halfword(after, off) / 1024 == Halfword(mem, off) / 1024
            && forall k :: 0 <= k < |mem| && k != off && k != off + 1 ==> after[k] == mem[k]
  {
    var off := base + ep * 8 + 6;
    var count := Halfword(mem, off) / 1024 * 1024 + length % 1024;
    CountWord(Halfword(mem, off), length);
    HalfwordBytes(count);
    WriteFlatInside(mem, off, LittleEndian(count, 2));
  }

  /** Delivery changes the buffer bytes and the low ten bits of COUNT_RX, nothing else. */
  lemma DeliveryFrame(u: UsbState, mem: seq<byte>, ep: nat, data: seq<byte>)
    requires Fits(u, mem, ep) && BufferClear(u, mem, ep, |data|)
    ensures var addr := BtableEntry(u, mem, ep).addrRx;
            var off := u.Btable() + ep * 8 + 6;
            var after := Deliver(u, mem, ep, data);
            && |after| == |mem|
            && after[addr..addr + |data|] == data
            && Halfword(after, off) % 1024 == |data| % 1024
            && Halfword(after, off) / 1024 == Halfword(mem, off) / 1024
            && forall k :: 0 <= k < |mem| && !(addr <= k < addr + |data|) && k != off && k != off + 1
                 ==> after[k] == mem[k]
  {
    hide DeliverAt, Halfword;
    DeliveryFrameAt(mem, u.Btable(), ep, data);
  }

  /** Beyond packet memory the slice assignment makes it longer, or, from behind its end, appends. */
  lemma DeliveryGrows(u: UsbState, mem: seq<byte>, ep: nat, data: seq<byte>)
    requires Fits(u, mem, ep) && data != []
    ensures var addr := Halfword(mem, u.Btable() + ep * 8 + 4);
            |Deliver(u, mem, ep, data)|
            == (if addr + |data| <= |mem| then |mem| else Min(addr, |mem|) + |data|)
  {
    hide WriteFlat, SetCountRx, Halfword, UsbState.Btable;
    var base := u.Btable();
    var addr := Halfword(mem, base + ep * 8 + 4);
    FlatLength(mem, addr, data);
    SetCountFrame(WriteFlat(mem, addr, data), base, ep, |data|);
  }

  lemma FlatLength(mem: seq<byte>, offset: nat, data: seq<byte>)
    ensures |WriteFlat(mem, offset, data)| == (if offset + |data| <= |mem| then |mem| else Min(offset, |mem|) + |data|)
    ensures |WriteFlat(mem, offset, data)| >= |mem|
  {
  }

  lemma DeliveryFrameAt(mem: seq<byte>, base: nat, ep: nat, data: seq<byte>)
    requires base + ep * 8 + 8 <= |mem|
    requires var addr := Halfword(mem, base + ep * 8 + 4);
             addr + |data| <= |mem| && (addr + |data| <= base + ep * 8 + 6 || base + ep * 8 + 8 <= addr)
    ensures var addr := Halfword(mem, base + ep * 8 + 4);
            var off := base + ep * 8 + 6;
            var after := DeliverAt(mem, base, ep, data);
            && |after| == |mem|
            && after[addr..addr + |data|] == data
            && Halfword(after, off) % 1024 == |data| % 1024
            && Halfword(after, off) / 1024 == Halfword(mem, off) / 1024
            && forall k :: 0 <= k < |mem| && !(addr <= k < addr + |data|) && k != off && k != off + 1
                 ==> after[k] == mem[k]
  {
    var addr := Halfword(mem, base + ep * 8 + 4);
    var filled := if data == [] then mem else WriteFlat(mem, addr, data);
    WriteFlatInside(mem, addr, data);
    hide WriteFlat, SetCountRx;
    SetCountFrame(filled, base, ep, |data|);
    FilledThenCounted(mem, filled, SetCountRx(filled, base, ep, |data|), addr, base + ep * 8 + 6, data);
  }

  lemma FilledThenCounted(mem: seq<byte>, filled: seq<byte>, after: seq<byte>, addr: nat, off: nat, data: seq<byte>)
    requires |mem| == |filled| == |after| && off + 2 <= |mem| && addr + |data| <= |mem|
    requires addr + |data| <= off || off + 2 <= addr
    requires forall k :: 0 <= k < |mem|
               ==> filled[k] == if addr <= k < addr + |data| then data[k - addr] else mem[k]
    requires forall k :: 0 <= k < |mem| && k != off && k != off + 1 ==> after[k] == filled[k]
    ensures after[addr..addr + |data|] == data && Halfword(filled, off) == Halfword(mem, off)
    ensures forall k :: 0 <= k < |mem| && !(addr <= k < addr + |data|) && k != off && k != off + 1
              ==> after[k] == mem[k]
  {
  }

  lemma CountWord(cur: nat, length: nat)
    requires cur < 0x10000
    ensures var w := cur / 1024 * 1024 + length % 1024;
            w < 0x10000 && w / 1024 == cur / 1024 && w % 1024 == length % 1024
  {
  }

  lemma HalfwordBytes(w: nat)
    requires w < 0x10000
    ensures LittleEndian(w, 2) == [w % 256, w / 256]
  {
    assert LittleEndian(w, 2) == [w % 256] + LittleEndian(w / 256, 1);
    assert LittleEndian(w / 256, 1) == [w / 256 % 256] + LittleEndian(w / 256 / 256, 0);
  }

  function Sum(sizes: seq<nat>): nat {
    if sizes == [] then 0 else sizes[0] + Sum(sizes[1..])
  }

  /** A firmware copy loop: successive loads of the given sizes, each split back into bytes. */
  function CopyLoop(mem: seq<byte>, offset: nat, sizes: seq<nat>): seq<byte>
    requires offset + Sum(sizes) <= |mem|
    decreases |sizes|
  {
    if sizes == [] then []
    else LittleEndian(CpuRead(mem, offset, sizes[0]), sizes[0]) + CopyLoop(mem, offset + sizes[0], sizes[1..])
  }

  lemma LoadReads(mem: seq<byte>, offset: nat, size: nat)
    requires offset + size <= |mem|
    ensures LittleEndian(CpuRead(mem, offset, size), size) == mem[offset..offset + size]
  {
    LittleEndianRoundTrip(mem[offset..offset + size]);
  }

  lemma {:induction false} CopyLoopReads(mem: seq<byte>, offset: nat, sizes: seq<nat>)
    requires offset + Sum(sizes) <= |mem|
    ensures CopyLoop(mem, offset, sizes) == mem[offset..offset + Sum(sizes)]
    decreases |sizes|
  {
    if sizes != [] {
      hide LittleEndian, CpuRead;
      var n := sizes[0];
      LoadReads(mem, offset, n);
      CopyLoopReads(mem, offset + n, sizes[1..]);
      assert mem[offset..offset + n] + mem[offset + n..offset + Sum(sizes)] == mem[offset..offset + Sum(sizes)];
    }
  }

  /** Any mix of load sizes that covers a delivered packet reads back that packet, followed by
      whatever lies behind it if the last load reaches further. */
  lemma DeliveredBytesReadBack(u: UsbState, mem: seq<byte>, ep: nat, data: seq<byte>, sizes: seq<nat>)
    requires Fits(u, mem, ep) && BufferClear(u, mem, ep, |data|)
    requires |data| <= Sum(sizes) && BtableEntry(u, mem, ep).addrRx + Sum(sizes) <= |mem|
    ensures |Deliver(u, mem, ep, data)| == |mem|
    ensures var read := CopyLoop(Deliver(u, mem, ep, data), BtableEntry(u, mem, ep).addrRx, sizes);
            |read| == Sum(sizes) && read[..|data|] == data
  {
    hide Deliver, CopyLoop, Sum, Halfword;
    DeliveryFrame(u, mem, ep, data);
    CopyLoopPrefix(Deliver(u, mem, ep, data), BtableEntry(u, mem, ep).addrRx, data, sizes);
  }

  lemma CopyLoopPrefix(mem: seq<byte>, addr: nat, data: seq<byte>, sizes: seq<nat>)
    requires |data| <= Sum(sizes) && addr + Sum(sizes) <= |mem| && mem[addr..addr + |data|] == data
    ensures |CopyLoop(mem, addr, sizes)| == Sum(sizes) && CopyLoop(mem, addr, sizes)[..|data|] == data
  {
    CopyLoopReads(mem, addr, sizes);
    assert mem[addr..addr + Sum(sizes)][..|data|] == mem[addr..addr + |data|];
  }

  // ----- what the firmware puts into a TX buffer -----

  /** What endpoint `ep`'s TX descriptor points at: the low ten bits of its second halfword many
      bytes, from the address in its first, as far as packet memory goes. */
  function TxBuffer(u: UsbState, mem: seq<byte>, ep: nat): seq<byte> {
    var base := u.Btable() + ep * 8;
    if base + 8 > |mem| then []
    else mem[Min(Halfword(mem, base), |mem|)..Min(Halfword(mem, base) + Halfword(mem, base + 2) % 1024, |mem|)]
  }

  /** A firmware copy loop the other way: stores of the given sizes. */
  function StoreLoop(mem: seq<byte>, offset: nat, data: seq<byte>, sizes: seq<nat>): seq<byte>
    requires Sum(sizes) == |data|
    decreases |sizes|
  {
    if sizes == [] then mem
    else StoreLoop(CpuWrite(mem, offset, sizes[0], FromLittleEndian(data[..sizes[0]])),
                   offset + sizes[0], data[sizes[0]..], sizes[1..])
  }

  lemma OneStore(mem: seq<byte>, offset: nat, data: seq<byte>)
    requires |mem| == PMA_SIZE && offset + |data| <= |mem|
    ensures var after := CpuWrite(mem, offset, |data|, FromLittleEndian(data));
            && |after| == |mem| && after[offset..offset + |data|] == data
            && forall k :: 0 <= k < |mem| && !(offset <= k < offset + |data|) ==> after[k] == mem[k]
  {
    LittleEndianRoundTrip(data);
    WriteFlatInside(mem, offset, data);
    hide WriteFlat, LittleEndian, FromLittleEndian;
  }

  lemma {:induction false} StoreLoopWrites(mem: seq<byte>, offset: nat, data: seq<byte>, sizes: seq<nat>)
    requires Sum(sizes) == |data| && |mem| == PMA_SIZE && offset + |data| <= |mem|
    ensures var after := StoreLoop(mem, offset, data, sizes);
            && |after| == |mem| && after[offset..offset + |data|] == data
            && forall k :: 0 <= k < |mem| && !(offset <= k < offset + |data|) ==> after[k] == mem[k]
    decreases |sizes|
  {
    if sizes != [] {
      var n := sizes[0];
      var once := CpuWrite(mem, offset, n, FromLittleEndian(data[..n]));
      OneStore(mem, offset, data[..n]);
      hide CpuWrite, FromLittleEndian;
      StoreLoopWrites(once, offset + n, data[n..], sizes[1..]);
      assert StoreLoop(mem, offset, data, sizes) == StoreLoop(once, offset + n, data[n..], sizes[1..]);
      hide StoreLoop, Sum;
      StoredInTwo(mem, once, StoreLoop(once, offset + n, data[n..], sizes[1..]), offset, data, n);
    }
  }

  lemma StoredInTwo(mem: seq<byte>, once: seq<byte>, after: seq<byte>, offset: nat, data: seq<byte>, n: nat)
    requires |mem| == |once| == |after| && n <= |data| && offset + |data| <= |mem|
    requires once[offset..offset + n] == data[..n] && after[offset + n..offset + |data|] == data[n..]
    requires forall k :: 0 <= k < |mem| && !(offset <= k < offset + n) ==> once[k] == mem[k]
    requires forall k :: 0 <= k < |mem| && !(offset + n <= k < offset + |data|) ==> after[k] == once[k]
    ensures after[offset..offset + |data|] == data
    ensures forall k :: 0 <= k < |mem| && !(offset <= k < offset + |data|) ==> after[k] == mem[k]
  {
    assert after[offset..offset + n] == once[offset..offset + n];
    assert after[offset..offset + |data|] == after[offset..offset + n] + after[offset + n..offset + |data|];
    assert data == data[..n] + data[n..];
  }

  /** The firmware fills a buffer and then the address and count of the descriptor at `base`. */
  function Filled(mem: seq<byte>, base: nat, addr: nat, data: seq<byte>, sizes: seq<nat>): seq<byte>
    requires Sum(sizes) == |data|
  {
    CpuWrite(CpuWrite(StoreLoop(mem, addr, data, sizes), base, 2, addr), base + 2, 2, |data|)
  }

  /** The packet the host then finds is the one the firmware stored, whatever its store sizes. */
  lemma FilledIsFound(u: UsbState, mem: seq<byte>, ep: nat, addr: nat, data: seq<byte>, sizes: seq<nat>)
    requires Sum(sizes) == |data| < 1024 && |mem| == PMA_SIZE && addr + |data| <= |mem|
    requires var base := u.Btable() + ep * 8;
             base + 8 <= |mem| && (addr + |data| <= base || base + 4 <= addr)
    ensures var after := Filled(mem, u.Btable() + ep * 8, addr, data, sizes);
            |after| == PMA_SIZE && TxBuffer(u, after, ep) == data
  {
    hide UsbState.Btable, Filled, Halfword, Sum;
    var base := u.Btable() + ep * 8;
    FilledMemory(mem, base, addr, data, sizes);
    var after := Filled(mem, base, addr, data, sizes);
    assert TxBuffer(u, after, ep) == after[addr..addr + |data|];
  }

  lemma FilledMemory(mem: seq<byte>, base: nat, addr: nat, data: seq<byte>, sizes: seq<nat>)
    requires Sum(sizes) == |data| < 1024 && |mem| == PMA_SIZE && addr + |data| <= |mem|
    requires base + 8 <= |mem| && (addr + |data| <= base || base + 4 <= addr)
    ensures var after := Filled(mem, base, addr, data, sizes);
            && |after| == PMA_SIZE && after[addr..addr + |data|] == data
            && Halfword(after, base) == addr && Halfword(after, base + 2) == |data|
  {
    hide StoreLoop, Sum, CpuWrite, Halfword;
    var m1 := StoreLoop(mem, addr, data, sizes);
    StoreLoopWrites(mem, addr, data, sizes);
    var m2 := CpuWrite(m1, base, 2, addr);
    StoreHalfword(m1, base, addr);
    StoreHalfword(m2, base + 2, |data|);
    DescriptorThenCount(m1, m2, CpuWrite(m2, base + 2, 2, |data|), base, addr, data);
  }

  lemma DescriptorThenCount(m1: seq<byte>, m2: seq<byte>, m3: seq<byte>, base: nat, addr: nat, data: seq<byte>)
    requires |m1| == |m2| == |m3| && base + 8 <= |m1| && addr + |data| <= |m1|
    requires addr + |data| <= base || base + 4 <= addr
    requires m1[addr..addr + |data|] == data && Halfword(m2, base) == addr
    requires forall k :: 0 <= k < |m1| && k != base && k != base + 1 ==> m2[k] == m1[k]
    requires forall k :: 0 <= k < |m1| && k != base + 2 && k != base + 3 ==> m3[k] == m2[k]
    ensures Halfword(m3, base) == addr && m3[addr..addr + |data|] == data
  {
    assert m3[addr..addr + |data|] == m1[addr..addr + |data|];
  }

  lemma StoreHalfword(mem: seq<byte>, offset: nat, value: nat)
    requires |mem| == PMA_SIZE && offset + 2 <= |mem| && value < 0x10000
    ensures var after := CpuWrite(mem, offset, 2, value);
            && |after| == |mem| && Halfword(after, offset) == value
            && forall k :: 0 <= k < |mem| && k != offset && k != offset + 1 ==> after[k] == mem[k]
  {
    HalfwordBytes(value);
    WriteFlatInside(mem, offset, LittleEndian(value, 2));
  }

  // ----- the two peripheral objects -----

  function DecodeAll(w: seq<bv16>): (r: Endpoints)
    requires |w| == 8
    ensures forall k :: 0 <= k < 8 ==> r[k] == Decode(w[k])
  {
    seq(8, k requires 0 <= k < 8 => Decode(w[k]))
  }

  /** The EP_ID bits of ISTR for endpoint `ep`. */
  function EpId(ep: nat): bv16
    requires ep < 8
  {
    if ep == 0 then 0 else if ep == 1 then 1 else if ep == 2 then 2 else if ep == 3 then 3
    else if ep == 4 then 4 else if ep == 5 then 5 else if ep == 6 then 6 else 7
  }

  /** The endpoint an ISTR value names. */
  function NamedEndpoint(istr: bv16): (ep: nat)
    requires istr & 0x000F < 8
    ensures ep < 8 && EpId(ep) == istr & 0x000F
  {
    var id := istr & 0x000F;
    if id == 0 then 0 else if id == 1 then 1 else if id == 2 then 2 else if id == 3 then 3
    else if id == 4 then 4 else if id == 5 then 5 else if id == 6 then 6 else 7
  }

  /** No latched event strays into the bits that are derived: only RESET and SOF are latched. */
  predicate EventsLatched(events: bv16) {
    events & 0xF9FF == 0
  }

  lemma LatchedStay(events: bv16, value: bv16)
    requires EventsLatched(events)
    ensures EventsLatched(events & value) && EventsLatched(events | ISTR_RESET) && EventsLatched(events | ISTR_SOF)
  {
  }

  lemma IstrBits(events: bv16, id: bv16)
    requires EventsLatched(events) && id < 8
    ensures events & 0x8000 == 0
    ensures var v := events | (ISTR_CTR | (id & 0x000F));
            && v & 0x8000 != 0 && v & 0x000F == id && v & 0x0010 == 0 && v & 0x0600 == events
            && (v | ISTR_DIR) & 0x8000 != 0 && (v | ISTR_DIR) & 0x000F == id
            && (v | ISTR_DIR) & 0x0010 != 0 && (v | ISTR_DIR) & 0x0600 == events
  {
  }

  lemma BusyWord(w: bv16)
    ensures w & (CTR_RX | CTR_TX) != 0 <==> Decode(w).Busy()
    ensures w & CTR_RX != 0 <==> Decode(w).ctrRx
  {
    assert w & 0x8080 != 0 <==> w & 0x8000 != 0 || w & 0x0080 != 0;
    assert CTR_RX | CTR_TX == 0x8080;
  }

  /** ISTR as the hardware presents it, against the endpoint fields: CTR is set iff some
      endpoint owes its handler a pass, EP_ID is the lowest such one, DIR its RX flag. */
  ghost predicate IstrOf(s: Endpoints, events: bv16, v: bv16) {
    && v & 0x0600 == events
    && (v & 0x8000 != 0 <==> LowestBusy(s, 0) < 8)
    && (LowestBusy(s, 0) < 8 ==>
          && v & 0x000F == EpId(LowestBusy(s, 0))
          && (v & 0x0010 != 0 <==> s[LowestBusy(s, 0)].ctrRx))
    && (LowestBusy(s, 0) == 8 ==> v == events)
  }

  lemma LowestIs(s: Endpoints, from: nat, ep: nat)
    requires from <= ep <= 8 && (ep < 8 ==> s[ep].Busy())
    requires forall k :: from <= k < ep ==> !s[k].Busy()
    ensures LowestBusy(s, from) == ep
  {
  }

  class UsbRegs {
    var epr: seq<bv16>
    var regs: map<nat, bv16>
    var events: bv16
    var enabled: bool
    var attached: bool

    ghost predicate Valid()
      reads this
    {
      |epr| == 8 && EventsLatched(events)
    }

    ghost function State(): UsbState
      requires Valid()
      reads this
    {
      UsbState(DecodeAll(epr), regs, events, enabled, attached)
    }

    constructor ()
      ensures Valid() && State() == USB_RESET
    {
      epr := [0, 0, 0, 0, 0, 0, 0, 0];
      regs, events, enabled, attached := map[], 0, false, false;
      new;
      assert Decode(0) == CLEARED;
    }

    function Btable(): (base: nat)
      requires Valid()
      reads this
      ensures base == State().Btable()
    {
      ((if BTABLE in regs then regs[BTABLE] else 0) & 0xFFF8) as nat
    }

    function DaddrEnabled(): bool
      reads this
    {
      (if DADDR in regs then regs[DADDR] else 0) & 0x0080 != 0
    }

    method StoreEpr(ep: nat, w: bv16)
      requires Valid() && ep < 8
      modifies this
      ensures Valid() && State() == UpdateEpr(old(State()), ep, Decode(w))
    {
      epr := epr[ep := w];
      assert DecodeAll(epr) == DecodeAll(old(epr))[ep := Decode(w)];
    }

    method WriteEpr(ep: nat, value: bv16)
      requires Valid() && ep < 8
      modifies this
      ensures Valid() && State() == UpdateEpr(old(State()), ep, WriteFields(old(State()).epr[ep], Decode(value)))
    {
      WriteRefines(epr[ep], value);
      StoreEpr(ep, WriteWord(epr[ep], value));
    }

    method HwWrite(off: nat, value: bv16)
      requires Valid()
      modifies this
      ensures Valid() && State() == AfterHwWrite(old(State()), off, value)
    {
      hide DecodeAll, Decode, WriteFields;
      if off >= BLOCK_SIZE {
        return;
      }
      if off < N_ENDPOINTS * 4 {
        WriteEpr(off / 4, value);
        return;
      }
      if off == ISTR {
        LatchedStay(events, value);
        events := events & value;
        return;
      }
      if off == CNTR {
        enabled := value & 0x0003 == 0;
      } else if off == BCDR {
        attached := value & 0x8000 != 0;
      }
      regs := regs[off := value];
    }

    method RaiseCtrRx(ep: nat, setup: bool)
      requires Valid() && ep < 8
      modifies this
      ensures Valid() && State() == AfterCtrRx(old(State()), ep, setup)
    {
      RaiseRxRefines(epr[ep], setup);
      StoreEpr(ep, RaiseRxWord(epr[ep], setup));
    }

    method RaiseCtrTx(ep: nat)
      requires Valid() && ep < 8
      modifies this
      ensures Valid() && State() == AfterCtrTx(old(State()), ep)
    {
      RaiseTxRefines(epr[ep]);
      StoreEpr(ep, RaiseTxWord(epr[ep]));
    }

    method RaiseReset()
      requires Valid()
      modifies this
      ensures Valid() && State() == AfterReset(old(State()))
    {
      LatchedStay(events, 0);
      events := events | ISTR_RESET;
    }

    method RaiseSof()
      requires Valid()
      modifies this
      ensures Valid() && State() == AfterSof(old(State()))
    {
      LatchedStay(events, 0);
      events := events | ISTR_SOF;
    }

    method Istr() returns (value: bv16)
      requires Valid()
      ensures IstrOf(State().epr, events, value)
    {
      hide Decode;
      ghost var s := DecodeAll(epr);
      IstrBits(events, 0);
      value := events;
      for ep := 0 to N_ENDPOINTS
        invariant value == events
        invariant forall k :: 0 <= k < ep ==> !s[k].Busy()
      {
        BusyWord(epr[ep]);
        if epr[ep] & (CTR_RX | CTR_TX) != 0 {
          LowestIs(s, 0, ep);
          IstrBits(events, EpId(ep));
          value := value | (ISTR_CTR | (EpId(ep) & 0x000F));
          if epr[ep] & CTR_RX != 0 {
            value := value | ISTR_DIR;
          }
          return;
        }
      }
      LowestIs(s, 0, 8);
      LatchedOnly(events);
    }
  }

  lemma LatchedOnly(events: bv16)
    requires EventsLatched(events)
    ensures events & 0x0600 == events && events & 0x8000 == 0
  {
  }

  /** The value the firmware writes to drop one CTR flag of an endpoint and keep the other;
      `rest` are the remaining bits it happens to write. */
  function ServeWord(rx: bool, rest: bv16): bv16 {
    if rx then (rest & 0x7FFF) | CTR_TX else (rest & 0xFF7F) | CTR_RX
  }

  lemma ServeWordClears(rx: bool, rest: bv16)
    ensures if rx then !Decode(ServeWord(rx, rest)).ctrRx else !Decode(ServeWord(rx, rest)).ctrTx
  {
  }

  /** The firmware's interrupt handler, reading ISTR until CTR drops and clearing the flag it
      names.  `rest` is whatever else it writes on each pass.  It terminates, with none left. */
  method ServeInterrupts(usb: UsbRegs, rest: bv16 -> bv16)
    requires usb.Valid()
    modifies usb
    ensures usb.Valid() && CtrCount(usb.State().epr, 0) == 0
    ensures forall ep :: 0 <= ep < 8 ==> !usb.State().epr[ep].Busy()
    ensures usb.events == old(usb.events) && usb.regs == old(usb.regs)
  {
    hide Decode, DecodeAll, WriteFields, EpId;
    var istr := usb.Istr();
    while istr & ISTR_CTR != 0
      invariant usb.Valid() && IstrOf(usb.State().epr, usb.events, istr)
      invariant usb.events == old(usb.events) && usb.regs == old(usb.regs)
      decreases CtrCount(usb.State().epr, 0)
    {
      ghost var before := usb.State();
      EpIdSmall(LowestBusy(before.epr, 0));
      var ep := NamedEndpoint(istr);
      EpIdInjective(ep, LowestBusy(before.epr, 0));
      var rx := istr & ISTR_DIR != 0;
      ServeWordClears(rx, rest(istr));
      ServingDrains(before, ServeWord(rx, rest(istr)));
      usb.HwWrite(4 * ep, ServeWord(rx, rest(istr)));
      istr := usb.Istr();
    }
    NoFlagsCount(usb.State().epr, 0);
  }

  lemma EpIdSmall(ep: nat)
    requires ep < 8
    ensures EpId(ep) < 8
  {
  }

  lemma EpIdInjective(a: nat, b: nat)
    requires a < 8 && b < 8 && EpId(a) == EpId(b)
    ensures a == b
  {
  }

  class UsbPma {
    var mem: seq<byte>

    constructor ()
      ensures mem == seq(PMA_SIZE, _ => 0)
    {
      mem := seq(PMA_SIZE, _ => 0);
    }

    function Read(offset: nat, length: nat): seq<byte>
      reads this
    {
      ReadFlat(mem, offset, length)
    }

    method WriteBytes(offset: nat, data: seq<byte>)
      modifies this
      ensures mem == WriteFlat(old(mem), offset, data)
    {
      mem := mem[..Min(offset, |mem|)] + data + mem[Min(offset + |data|, |mem|)..];
    }

    method SetCount(base: nat, ep: nat, length: nat)
      requires base + ep * 8 + 8 <= |mem|
      modifies this
      ensures mem == SetCountRx(old(mem), base, ep, length)
    {
      var off := base + ep * 8 + 6;
      var count := Halfword(mem, off);
      CountWord(count, length);
      WriteBytes(off, LittleEndian(count / 1024 * 1024 + length % 1024, 2));
    }

    method DeliverPacket(base: nat, ep: nat, data: seq<byte>)
      requires base + ep * 8 + 8 <= |mem|
      modifies this
      ensures mem == DeliverAt(old(mem), base, ep, data)
    {
      var addrRx := Halfword(mem, base + ep * 8 + 4);
      WriteFlatLength(mem, addrRx, data);
      if data != [] {
        WriteBytes(addrRx, data);
      }
      SetCount(base, ep, |data|);
    }

    method HwWrite(offset: nat, size: nat, value: nat)
      modifies this
      ensures mem == CpuWrite(old(mem), offset, size, value)
    {
      if offset + size <= PMA_SIZE {
        WriteBytes(offset, LittleEndian(value, size));
      }
    }
  }
}
