/** The GPIO band's input side (stm32f0_gpio.py): switches and rotary-encoder pads held low, the
    derived IDR, and the Gray-code walk an encoder turn makes, one phase every 16 IDR reads. */
module Encoder {
  import opened Prelude
  import opened Clock
  import opened UsbBlock
  import opened Delivery

  const ENC_PHASE_EVERY: nat := 16
  const N_PORTS: nat := 6
  const N_ENCODERS: nat := 3
  const N_SWITCHES: nat := 9
  const MODER: nat := 0x00
  const PUPDR: nat := 0x0C
  const ODR: nat := 0x14

  /** Port 0 is GPIOA. */
  datatype Pin = Pin(port: nat, pad: nat)

  const DIRECT_PINS: seq<Pin> := [
    Pin(1, 12), Pin(1, 5), Pin(1, 6), Pin(1, 14), Pin(1, 4), Pin(1, 7), Pin(0, 3), Pin(5, 1), Pin(5, 0)]

  function DirectPin(i: nat): Pin
    requires i < N_SWITCHES
  {
    DIRECT_PINS[i]
  }

  function PadA(e: nat): Pin
    requires e < N_ENCODERS
  {
    if e == 0 then Pin(0, 4) else if e == 1 then Pin(0, 15) else Pin(0, 9)
  }

  function PadB(e: nat): Pin
    requires e < N_ENCODERS
  {
    if e == 0 then Pin(0, 8) else if e == 1 then Pin(1, 3) else Pin(0, 10)
  }

  /** The Gray code the pads walk: levels of pad A and pad B in each phase. */
  predicate LevelA(phase: int) { phase % 4 == 1 || phase % 4 == 2 }
  predicate LevelB(phase: int) { phase % 4 == 2 || phase % 4 == 3 }

  datatype EncState = EncState(phase: nat, owed: nat, dir: int)

  type Encoders = s: seq<EncState> | |s| == 3 witness seq(3, _ => EncState(3, 0, 1))

  datatype GpioState = GpioState(
    regs: map<(nat, nat), nat>, forcedLow: set<Pin>, pressed: set<nat>, enc: Encoders, idrReads: nat)

  // ----- IDR is derived -----

  function Reg(regs: map<(nat, nat), nat>, port: nat, off: nat): nat {
    if (port, off) in regs then regs[(port, off)] else 0
  }

  /** Bit j of a register value. */
  predicate Bit(x: nat, j: nat) {
    if j == 0 then x % 2 == 1 else Bit(x / 2, j - 1)
  }

  /** The two-bit configuration field of a pin. */
  function Field(x: nat, pin: nat): nat {
    if pin == 0 then x % 4 else Field(x / 4, pin - 1)
  }

  /** What input or output level a pin reads back. */
  predicate Level(g: GpioState, p: Pin) {
    if Field(Reg(g.regs, p.port, MODER), p.pad) == 1 then Bit(Reg(g.regs, p.port, ODR), p.pad)
    else Field(Reg(g.regs, p.port, PUPDR), p.pad) != 2 && p !in g.forcedLow
  }

  /** The pin is an input that is not pulled down. */
  predicate Readable(g: GpioState, p: Pin) {
    Field(Reg(g.regs, p.port, MODER), p.pad) != 1 && Field(Reg(g.regs, p.port, PUPDR), p.pad) != 2
  }

  function Pow2(n: nat): nat {
    if n == 0 then 1 else 2 * Pow2(n - 1)
  }

  /** The number whose binary digits, lowest first, are `bits`. */
  function FromBits(bits: seq<bool>): nat {
    if bits == [] then 0 else (if bits[0] then 1 else 0) + 2 * FromBits(bits[1..])
  }

  lemma {:induction false} FromBitsAppend(bits: seq<bool>, b: bool)
    ensures FromBits(bits + [b]) == FromBits(bits) + if b then Pow2(|bits|) else 0
  {
    if bits != [] {
      assert (bits + [b])[1..] == bits[1..] + [b];
      FromBitsAppend(bits[1..], b);
    } else {
      assert [b][1..] == [];
    }
  }

  lemma {:induction false} FromBitsReadsBack(bits: seq<bool>, j: nat)
    ensures Bit(FromBits(bits), j) <==> j < |bits| && bits[j]
  {
    if bits == [] {
      ZeroHasNoBits(j);
    } else if j > 0 {
      FromBitsReadsBack(bits[1..], j - 1);
    }
  }

  lemma {:induction false} ZeroHasNoBits(j: nat)
    ensures !Bit(0, j)
  {
    if j > 0 { ZeroHasNoBits(j - 1); }
  }

  function Levels(g: GpioState, port: nat, n: nat): (s: seq<bool>)
    ensures |s| == n && forall k :: 0 <= k < n ==> s[k] == Level(g, Pin(port, k))
  {
    seq(n, k requires 0 <= k < n => Level(g, Pin(port, k)))
  }

  /** The IDR value of a port. */
  function Idr(g: GpioState, port: nat): nat {
    FromBits(Levels(g, port, 16))
  }

  /** The firmware's own read, `(IDR >> pad) & 1`, gives the pin's level. */
  lemma IdrBitIsLevel(g: GpioState, p: Pin)
    requires p.pad < 16
    ensures Bit(Idr(g, p.port), p.pad) <==> Level(g, p)
  {
    FromBitsReadsBack(Levels(g, p.port, 16), p.pad);
  }

  // ----- the operations -----

  function Forced(low: set<Pin>, p: Pin, level: bool): set<Pin> {
    if level then low - {p} else low + {p}
  }

  function AfterApplyPhase(g: GpioState, e: nat): GpioState
    requires e < N_ENCODERS
  {
    g.(forcedLow := Forced(Forced(g.forcedLow, PadA(e), LevelA(g.enc[e].phase)), PadB(e), LevelB(g.enc[e].phase)))
  }

  function Walked(s: EncState): EncState {
    if s.owed == 0 then s else s.(owed := s.owed - 1, phase := (s.phase + s.dir) % 4)
  }

  function AdvanceOne(g: GpioState, e: nat): GpioState
    requires e < N_ENCODERS
  {
    if g.enc[e].owed == 0 then g else AfterApplyPhase(g.(enc := g.enc[e := Walked(g.enc[e])]), e)
  }

  function AdvanceFrom(g: GpioState, e: nat): GpioState
    requires e <= N_ENCODERS
    decreases N_ENCODERS - e
  {
    if e == N_ENCODERS then g else AdvanceFrom(AdvanceOne(g, e), e + 1)
  }

  /** A read of any port's IDR. */
  function AfterIdrRead(g: GpioState): GpioState {
    var counted := g.(idrReads := g.idrReads + 1);
    if counted.idrReads % ENC_PHASE_EVERY == 0 then AdvanceFrom(counted, 0) else counted
  }

  function AfterPress(g: GpioState, i: int): GpioState {
    if 0 <= i < N_SWITCHES then g.(pressed := g.pressed + {i as nat}, forcedLow := g.forcedLow + {DirectPin(i)}) else g
  }

  function SwitchPins(pressed: set<nat>): set<Pin> {
    set i | i in pressed && i < N_SWITCHES :: DirectPin(i)
  }

  /** Release one switch, or all of them. */
  function AfterRelease(g: GpioState, i: Option<int>): GpioState {
    match i
    case None => g.(pressed := {}, forcedLow := g.forcedLow - SwitchPins(g.pressed))
    case Some(i) =>
      if 0 <= i < N_SWITCHES && i in g.pressed
      then g.(pressed := g.pressed - {i}, forcedLow := g.forcedLow - {DirectPin(i)})
      else g
  }

  function AfterTurn(g: GpioState, e: int, clockwise: bool, detents: int): GpioState {
    if 0 <= e < N_ENCODERS
    then g.(enc := g.enc[e := g.enc[e].(dir := if clockwise then -1 else 1,
                                        owed := g.enc[e].owed + 4 * Max(1, detents))])
    else g
  }

  function Max(a: int, b: int): (r: int)
    ensures r >= a && r >= b && (r == a || r == b)
  {
    if a < b then b else a
  }

  datatype GpioEvent =
    | ReadIdr
    | Press(switch: int)
    | Release(which: Option<int>)
    | Turn(encoder: int, clockwise: bool, detents: int)
    | Store(port: nat, off: nat, value: nat)

  function Apply(g: GpioState, e: GpioEvent): GpioState {
    match e
    case ReadIdr => AfterIdrRead(g)
    case Press(i) => AfterPress(g, i)
    case Release(i) => AfterRelease(g, i)
    case Turn(i, cw, n) => AfterTurn(g, i, cw, n)
    case Store(port, off, value) => g.(regs := g.regs[(port, off) := value])
  }

  // ----- what is held low -----

  /** What a pin of this board is. */
  datatype Role = Switch(i: nat) | EncA(e: nat) | EncB(e: nat) | Unused

  function RoleOf(p: Pin): Role {
    if p == Pin(1, 12) then Switch(0) else if p == Pin(1, 5) then Switch(1) else if p == Pin(1, 6) then Switch(2)
    else if p == Pin(1, 14) then Switch(3) else if p == Pin(1, 4) then Switch(4) else if p == Pin(1, 7) then Switch(5)
    else if p == Pin(0, 3) then Switch(6) else if p == Pin(5, 1) then Switch(7) else if p == Pin(5, 0) then Switch(8)
    else if p == Pin(0, 4) then EncA(0) else if p == Pin(0, 15) then EncA(1) else if p == Pin(0, 9) then EncA(2)
    else if p == Pin(0, 8) then EncB(0) else if p == Pin(1, 3) then EncB(1) else if p == Pin(0, 10) then EncB(2)
    else Unused
  }

  /** The fifteen pins are distinct, and each table names the pins of its role. */
  lemma RolesAreTables(p: Pin)
    ensures forall i :: 0 <= i < N_SWITCHES ==> (RoleOf(p) == Switch(i) <==> p == DirectPin(i))
    ensures forall e :: 0 <= e < N_ENCODERS ==> (RoleOf(p) == EncA(e) <==> p == PadA(e))
    ensures forall e :: 0 <= e < N_ENCODERS ==> (RoleOf(p) == EncB(e) <==> p == PadB(e))
    ensures match RoleOf(p)
            case Switch(i) => i < N_SWITCHES
            case EncA(e) => e < N_ENCODERS
            case EncB(e) => e < N_ENCODERS
            case Unused => true
  {
  }

  predicate HeldLow(g: GpioState, p: Pin) {
    match RoleOf(p)
    case Switch(i) => i in g.pressed
    case EncA(e) => e < N_ENCODERS && !LevelA(g.enc[e].phase)
    case EncB(e) => e < N_ENCODERS && !LevelB(g.enc[e].phase)
    case Unused => false
  }

  /** The pins held low are exactly the pressed switches' pins and the pads at Gray level 0. */
  ghost predicate GpioInv(g: GpioState) {
    && (forall p :: p in g.forcedLow <==> HeldLow(g, p))
    && (forall i :: i in g.pressed ==> i < N_SWITCHES)
    && (forall e :: 0 <= e < N_ENCODERS ==> g.enc[e].phase < 4 && (g.enc[e].dir == 1 || g.enc[e].dir == -1))
  }

  lemma AdvanceOneHolds(g: GpioState, e: nat)
    requires GpioInv(g) && e < N_ENCODERS
    ensures GpioInv(AdvanceOne(g, e))
    ensures AdvanceOne(g, e).enc == g.enc[e := Walked(g.enc[e])]
  {
    hide RoleOf, PadA, PadB;
    var g' := AdvanceOne(g, e);
    forall p ensures p in g'.forcedLow <==> HeldLow(g', p) {
      RolesAreTables(p);
    }
  }

  lemma AdvanceHolds(g: GpioState)
    requires GpioInv(g)
    ensures var g' := AdvanceFrom(g, 0);
            && GpioInv(g') && g'.regs == g.regs && g'.pressed == g.pressed && g'.idrReads == g.idrReads
            && forall e :: 0 <= e < N_ENCODERS ==> g'.enc[e] == Walked(g.enc[e])
  {
    hide GpioInv, AdvanceOne;
    var g1 := AdvanceOne(g, 0);
    var g2 := AdvanceOne(g1, 1);
    var g3 := AdvanceOne(g2, 2);
    AdvanceOneHolds(g, 0);
    AdvanceOneHolds(g1, 1);
    AdvanceOneHolds(g2, 2);
    AdvanceOneKeeps(g, 0);
    AdvanceOneKeeps(g1, 1);
    AdvanceOneKeeps(g2, 2);
    assert AdvanceFrom(g3, 3) == g3;
    assert AdvanceFrom(g2, 2) == g3;
    assert AdvanceFrom(g1, 1) == g3;
  }

  lemma AdvanceOneKeeps(g: GpioState, e: nat)
    requires e < N_ENCODERS
    ensures var g' := AdvanceOne(g, e); g'.regs == g.regs && g'.pressed == g.pressed && g'.idrReads == g.idrReads
  {
  }

  /** What is held low is right after every event. */
  lemma EventHolds(g: GpioState, e: GpioEvent)
    requires GpioInv(g)
    ensures GpioInv(Apply(g, e))
  {
    hide RoleOf, DirectPin, PadA, PadB, LevelA, LevelB, AdvanceFrom;
    if e.ReadIdr? {
      ReadCounts(g);
    } else {
      var g' := Apply(g, e);
      forall p ensures p in g'.forcedLow <==> HeldLow(g', p) {
        RolesAreTables(p);
      }
    }
  }

  function AfterAll(g: GpioState, events: seq<GpioEvent>): GpioState {
    if events == [] then g else Apply(AfterAll(g, events[..|events| - 1]), events[|events| - 1])
  }

  /** In every run from power-on, whatever is pressed, turned, read or written, the pins held
      low are exactly the pressed switches' pins and the pads at Gray level 0. */
  lemma {:induction false} HeldLowIsRight(events: seq<GpioEvent>)
    ensures GpioInv(AfterAll(AT_REST, events))
  {
    hide Apply, GpioInv;
    if events == [] {
      RestHolds();
    } else {
      HeldLowIsRight(events[..|events| - 1]);
      EventHolds(AfterAll(AT_REST, events[..|events| - 1]), events[|events| - 1]);
    }
  }

  lemma ReadCounts(g: GpioState)
    requires GpioInv(g)
    ensures GpioInv(AfterIdrRead(g)) && AfterIdrRead(g).idrReads == g.idrReads + 1 && AfterIdrRead(g).regs == g.regs
    ensures forall e :: 0 <= e < N_ENCODERS ==>
      AfterIdrRead(g).enc[e] == if (g.idrReads + 1) % ENC_PHASE_EVERY == 0 then Walked(g.enc[e]) else g.enc[e]
  {
    hide AdvanceFrom, Walked, RoleOf;
    var counted := g.(idrReads := g.idrReads + 1);
    assert forall p :: HeldLow(counted, p) <==> HeldLow(g, p);
    AdvanceHolds(counted);
  }

  /** The phase a turn leaves an encoder in is the one meant iff nothing was owed in the other
      direction: a turn queued against owed phases sends those the new way as well. */
  lemma TurnRedirectsOwed(g: GpioState, e: nat, clockwise: bool, detents: int)
    requires e < N_ENCODERS && GpioInv(g)
    ensures var s, s' := g.enc[e], AfterTurn(g, e, clockwise, detents).enc[e];
            var asked := (if clockwise then -4 else 4) * Max(1, detents);
            s'.dir * s'.owed == s.dir * s.owed + asked <==> s.owed == 0 || s'.dir == s.dir
  {
  }

  /** A turn is owed by its own encoder alone; it moves no pad by itself, and an encoder that does
      not exist owes nothing. */
  lemma TurnIsOwed(g: GpioState, e: int, clockwise: bool, detents: int, other: nat, p: Pin)
    requires other < N_ENCODERS
    ensures var g' := AfterTurn(g, e, clockwise, detents);
            && (other != e ==> g'.enc[other] == g.enc[other])
            && (other == e ==> g'.enc[other].phase == g.enc[other].phase
                               && g'.enc[other].owed == g.enc[other].owed + (if detents > 1 then 4 * detents else 4))
            && Level(g', p) == Level(g, p) && g'.idrReads == g.idrReads && g'.pressed == g.pressed
  {
  }

  /** It happens from power-on: one detent each way leaves eight phases the second way to walk. */
  lemma TurnCanRedirect(e: nat)
    requires e < N_ENCODERS
    ensures AfterTurn(AfterTurn(AT_REST, e, true, 1), e, false, 1).enc[e] == EncState(3, 8, 1)
  {
  }

  /** What the firmware reads of a pin it has made an output is what it last stored for it. */
  lemma OutputReadsBack(g: GpioState, p: Pin, value: nat)
    requires p.pad < 16 && Field(Reg(g.regs, p.port, MODER), p.pad) == 1
    ensures Bit(Idr(Apply(g, Store(p.port, ODR, value)), p.port), p.pad) == Bit(value, p.pad)
  {
    hide Field, Bit, Idr;
    IdrBitIsLevel(Apply(g, Store(p.port, ODR, value)), p);
  }

  /** And an input reads low iff it is pulled down or held low. */
  lemma InputReadsLevel(g: GpioState, p: Pin)
    requires p.pad < 16 && GpioInv(g) && Field(Reg(g.regs, p.port, MODER), p.pad) != 1
    ensures !Bit(Idr(g, p.port), p.pad) <==> Field(Reg(g.regs, p.port, PUPDR), p.pad) == 2 || HeldLow(g, p)
  {
    hide Field, Bit, Idr, HeldLow;
    IdrBitIsLevel(g, p);
  }

  /** Pressing a switch pulls its own pin low, and no other. */
  lemma PressShows(g: GpioState, i: int, p: Pin)
    ensures 0 <= i < N_SWITCHES && Readable(g, p) && p == DIRECT_PINS[i] ==> !Level(AfterPress(g, i), p)
    ensures !(0 <= i < N_SWITCHES && Readable(g, p) && p == DIRECT_PINS[i]) ==> Level(AfterPress(g, i), p) == Level(g, p)
  {
    hide Field, Bit;
  }

  /** Releasing a pressed switch lets its own pin go high, and no other; releasing all of them
      lets every pressed switch's pin go high. */
  lemma ReleaseShows(g: GpioState, which: Option<int>, p: Pin)
    requires GpioInv(g)
    ensures var released := exists i :: 0 <= i < N_SWITCHES && i in g.pressed && p == DIRECT_PINS[i] && (which == None || which == Some(i));
            && (released && Readable(g, p) ==> Level(AfterRelease(g, which), p))
            && (!released ==> Level(AfterRelease(g, which), p) == Level(g, p))
  {
    hide Field, Bit, HeldLow;
  }

  // ----- the source's object -----

  /** One modelled register access has been noted on the clock. */
  function AfterAccess(l: LineState): LineState {
    l.(clock := AfterActivity(l.clock, 1))
  }

  /** One access is worth exactly one sixty-fourth of a tick, and nothing else of the line. */
  lemma AccessIsActivity(l: LineState)
    requires l.clock.Valid()
    ensures var c, c' := l.clock, AfterAccess(l).clock;
            c'.Valid() && 64 * c'.time + c'.activity == 64 * c.time + c.activity + 1 && AfterAccess(l).(clock := c) == l
  {
    StepRefinesTime(l.clock, Activity(1));
  }

  function Zipped(phase: seq<nat>, pending: seq<nat>, dir: seq<int>): Encoders
    requires |phase| == 3 && |pending| == 3 && |dir| == 3
  {
    seq(3, e requires 0 <= e < 3 => EncState(phase[e], pending[e], dir[e]))
  }

  const PLAIN: GpioState := GpioState(map[], {}, {}, [EncState(3, 0, 1), EncState(3, 0, 1), EncState(3, 0, 1)], 0)

  /** At rest every encoder is in phase 3, with pad A held low. */
  const AT_REST: GpioState := AfterApplyPhase(AfterApplyPhase(AfterApplyPhase(PLAIN, 0), 1), 2)

  lemma RestHolds()
    ensures GpioInv(AT_REST)
  {
    forall p ensures p in AT_REST.forcedLow <==> HeldLow(AT_REST, p) {
      RolesAreTables(p);
    }
  }

  class GpioPage {
    const clock: GuestClock
    const pump: UsbPump
    var regs: map<(nat, nat), nat>
    var forcedLow: set<Pin>
    var pressed: set<nat>
    var encPhase: seq<nat>
    var encPending: seq<nat>
    var encDir: seq<int>
    var idrReads: nat

    ghost predicate Shaped()
      reads this
    {
      |encPhase| == 3 && |encPending| == 3 && |encDir| == 3
    }

    ghost function State(): GpioState
      requires Shaped()
      reads this
    {
      GpioState(regs, forcedLow, pressed, Zipped(encPhase, encPending, encDir), idrReads)
    }

    constructor (pump: UsbPump)
      ensures Shaped() && State() == AT_REST
      ensures this.pump == pump && clock == pump.clock
    {
      this.pump, clock := pump, pump.clock;
      regs, forcedLow, pressed, idrReads := map[], {}, {}, 0;
      encPhase, encPending, encDir := [3, 3, 3], [0, 0, 0], [1, 1, 1];
      new;
      assert State() == PLAIN;
      ApplyPhase(0);
      ApplyPhase(1);
      ApplyPhase(2);
    }

    method SetLevel(p: Pin, level: bool)
      modifies this`forcedLow
      ensures forcedLow == Forced(old(forcedLow), p, level)
    {
      if level {
        forcedLow := forcedLow - {p};
      } else {
        forcedLow := forcedLow + {p};
      }
    }

    method ApplyPhase(e: nat)
      requires Shaped() && e < N_ENCODERS
      modifies this`forcedLow
      ensures Shaped() && State() == AfterApplyPhase(old(State()), e)
    {
      SetLevel(PadA(e), LevelA(encPhase[e]));
      SetLevel(PadB(e), LevelB(encPhase[e]));
    }

    method AdvanceEncoders()
      requires Shaped()
      modifies this`forcedLow, this`encPhase, this`encPending
      ensures Shaped() && State() == AdvanceFrom(old(State()), 0)
    {
      hide PadA, PadB, LevelA, LevelB;
      for e := 0 to N_ENCODERS
        invariant Shaped() && AdvanceFrom(State(), e) == AdvanceFrom(old(State()), 0)
      {
        ghost var before := State();
        if encPending[e] > 0 {
          encPending := encPending[e := encPending[e] - 1];
          encPhase := encPhase[e := (encPhase[e] + encDir[e]) % 4];
          assert State() == before.(enc := before.enc[e := Walked(before.enc[e])]);
          ApplyPhase(e);
        }
        assert State() == AdvanceOne(before, e);
      }
    }

    method PressSwitch(index: int) returns (known: bool)
      requires Shaped()
      modifies this`pressed, this`forcedLow
      ensures Shaped() && State() == AfterPress(old(State()), index)
      ensures known <==> 0 <= index < N_SWITCHES
    {
      if !(0 <= index < N_SWITCHES) {
        return false;
      }
      pressed := pressed + {index};
      forcedLow := forcedLow + {DirectPin(index)};
      return true;
    }

    method ReleaseSwitch(which: Option<int>)
      requires Shaped()
      modifies this`pressed, this`forcedLow
      ensures Shaped() && State() == AfterRelease(old(State()), which)
    {
      match which
      case None =>
        forcedLow := forcedLow - SwitchPins(pressed);
        pressed := {};
      case Some(i) =>
        if 0 <= i < N_SWITCHES && i in pressed {
          pressed := pressed - {i};
          forcedLow := forcedLow - {DirectPin(i)};
        }
    }

    method EncoderTurn(index: int, clockwise: bool, detents: int) returns (queued: bool)
      requires Shaped()
      modifies this`encDir, this`encPending
      ensures Shaped() && State() == AfterTurn(old(State()), index, clockwise, detents)
      ensures queued <==> 0 <= index < N_ENCODERS
    {
      if !(0 <= index < N_ENCODERS) {
        return false;
      }
      encDir := encDir[index := if clockwise then -1 else 1];
      encPending := encPending[index := encPending[index] + 4 * Max(1, detents)];
      return true;
    }

    method IdrValue(port: nat) returns (value: nat)
      requires Shaped()
      ensures value == Idr(State(), port)
    {
      value := 0;
      for pin := 0 to 16
        invariant value == FromBits(Levels(State(), port, pin))
      {
        var bit;
        if Field(Reg(regs, port, MODER), pin) == 1 {
          bit := Bit(Reg(regs, port, ODR), pin);
        } else {
          var pull := Field(Reg(regs, port, PUPDR), pin);
          bit := pull != 2;
          if Pin(port, pin) in forcedLow {
            bit := false;
          }
        }
        assert Levels(State(), port, pin + 1) == Levels(State(), port, pin) + [bit];
        FromBitsAppend(Levels(State(), port, pin), bit);
        value := value + if bit then Pow2(pin) else 0;
      }
    }

    /** A firmware read of a port's IDR: the clock moves, the pump is called, and then the pads.
        Past the last port nothing happens at all. */
    method ReadInput(port: nat, slot: Slot) returns (value: nat, fault: bool)
      requires Shaped() && clock == pump.clock && pump.Valid()
      modifies this, pump, pump.clock, pump.usb, pump.pma, pump.host, pump.backend
      ensures Shaped() && pump.Valid()
      ensures port >= N_PORTS ==> State() == old(State()) && pump.View() == old(pump.View()) && value == 0
      ensures port < N_PORTS ==>
        Pumped(pump.View(), fault) == PumpCall(old(AfterAccess(pump.View())), false, slot)
      ensures port < N_PORTS ==> State() == if fault then old(State()) else AfterIdrRead(old(State()))
      ensures port < N_PORTS && !fault ==> value == Idr(State(), port)
    {
      hide PumpCall, DecodeAll, AdvanceFrom, Idr;
      value := 0;
      if port >= N_PORTS {
        return 0, false;
      }
      clock.AdvanceFromActivity(1);
      fault := pump.Pump(false, slot);
      if fault {
        return;
      }
      idrReads := idrReads + 1;
      if idrReads % ENC_PHASE_EVERY == 0 {
        AdvanceEncoders();
      }
      value := IdrValue(port);
    }
  }
}
