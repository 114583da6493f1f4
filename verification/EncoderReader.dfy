/** A polling reader of one encoder, and the law that it decodes every turn exactly.

    The reader is QMK's, as STATUS.md records it from the image: it reads pad A, then pad B, and
    adds `encoder_LUT[(previous << 2) | sample]` to a pulse count; four pulses one way make one
    event.  Between its two reads, and between samples, anything else may happen: reads of other
    pins, switches pressed and released, other encoders turned, registers written. */
module EncoderReader {
  import opened Encoder

  const LUT: seq<int> := [0, -1, 1, 0, 1, 0, 0, -1, -1, 0, 0, 1, 0, 1, -1, 0]

  /** Which pad the firmware keeps in the higher bit of a sample. */
  datatype BitOrder = AHigh | BHigh

  /** Two pad levels as a two-bit sample. */
  function Sample(o: BitOrder, a: bool, b: bool): (s: nat)
    ensures s < 4
  {
    match o
    case AHigh => (if a then 2 else 0) + (if b then 1 else 0)
    case BHigh => (if b then 2 else 0) + (if a then 1 else 0)
  }

  function Code(o: BitOrder, phase: int): (s: nat)
    ensures s < 4
  {
    Sample(o, LevelA(phase), LevelB(phase))
  }

  /** Pulses QMK counts for one forward phase step. */
  function Forward(o: BitOrder): int {
    if o.AHigh? then 1 else -1
  }

  /** The table counts a phase step as one pulse, and no step as none, whatever the phase. */
  lemma LutCountsSteps(o: BitOrder, phase: int, dir: int)
    requires dir == 1 || dir == -1
    ensures LUT[4 * Code(o, phase) + Code(o, phase + dir)] == dir * Forward(o)
    ensures LUT[4 * Code(o, phase) + Code(o, phase)] == 0
  {
  }

  /** A sample torn by one phase step between its two reads is one of the two phases. */
  lemma TornSample(o: BitOrder, phase: int, dir: int)
    requires dir == 1 || dir == -1
    ensures Sample(o, LevelA(phase), LevelB(phase + dir)) == Code(o, phase)
         || Sample(o, LevelA(phase), LevelB(phase + dir)) == Code(o, phase + dir)
  {
  }

  /** The reader: pad A as read last and at which IDR read, the previous sample and the IDR read
      its pad A was taken at, the pulse count, and the events it has reported each way (QMK
      calls its handler counter-clockwise at +4 pulses, clockwise at -4). */
  datatype Reader = Reader(a: bool, aAt: nat, last: nat, lastAt: nat, pulses: int, ccw: nat, cw: nat)

  function Decoded(r: Reader, sample: nat): Reader
    requires r.last < 4 && sample < 4
  {
    var pulses := r.pulses + LUT[4 * r.last + sample];
    var counted := r.(last := sample, lastAt := r.aAt);
    if pulses >= 4 then counted.(pulses := pulses - 4, ccw := r.ccw + 1)
    else if pulses <= -4 then counted.(pulses := pulses + 4, cw := r.cw + 1)
    else counted.(pulses := pulses)
  }

  datatype PollEvent = PollA | PollB | Other(event: GpioEvent)

  datatype World = World(gpio: GpioState, reader: Reader)

  function Apply(w: World, o: BitOrder, e: nat, ev: PollEvent): World
    requires e < N_ENCODERS && w.reader.last < 4
  {
    match ev
    case Other(event) => w.(gpio := Encoder.Apply(w.gpio, event))
    case PollA =>
      var g := AfterIdrRead(w.gpio);
      World(g, w.reader.(a := Bit(Idr(g, PadA(e).port), PadA(e).pad), aAt := g.idrReads))
    case PollB =>
      var g := AfterIdrRead(w.gpio);
      World(g, Decoded(w.reader, Sample(o, w.reader.a, Bit(Idr(g, PadB(e).port), PadB(e).pad))))
  }

  datatype Run = Begin(world: World) | Next(before: Run, event: PollEvent)

  function Start(r: Run): World {
    match r case Begin(w) => w case Next(before, _) => Start(before)
  }

  function End(r: Run, o: BitOrder, e: nat): (w: World)
    requires e < N_ENCODERS && Start(r).reader.last < 4
    ensures w.reader.last < 4
  {
    match r
    case Begin(w) => w
    case Next(before, ev) => Apply(End(before, o, e), o, e, ev)
  }

  /** Is the run waiting for the pad B half of a sample? */
  predicate HalfSampled(r: Run) {
    match r
    case Begin(_) => false
    case Next(before, ev) => ev.PollA? || (!ev.PollB? && HalfSampled(before))
  }

  /** The reader alternates its two reads, finds its pads readable, and two consecutive samples
      span at most `span` IDR reads, from the first one's pad A to the second one's pad B. */
  predicate Paced(r: Run, o: BitOrder, e: nat, span: nat)
    requires e < N_ENCODERS && Start(r).reader.last < 4
  {
    match r
    case Begin(_) => true
    case Next(before, ev) =>
      && Paced(before, o, e, span)
      && match ev
         case PollA => !HalfSampled(before) && Readable(End(before, o, e).gpio, PadA(e))
         case PollB => HalfSampled(before) && Readable(End(before, o, e).gpio, PadB(e))
                       && End(before, o, e).gpio.idrReads + 1 - End(before, o, e).reader.lastAt <= span
         case Other(_) => true
  }

  predicate TurnsIt(ev: PollEvent, e: nat) {
    ev.Other? && ev.event.Turn? && ev.event.encoder == e
  }

  /** This encoder is not turned in the run. */
  predicate Untouched(r: Run, e: nat) {
    match r
    case Begin(_) => true
    case Next(before, ev) => Untouched(before, e) && !TurnsIt(ev, e)
  }

  predicate FairWithin(r: Run, o: BitOrder, e: nat, span: nat)
    requires e < N_ENCODERS && Start(r).reader.last < 4
  {
    Paced(r, o, e, span) && Untouched(r, e)
  }

  /** A fair run: the span is the number of IDR reads each phase is held for. */
  predicate Fair(r: Run, o: BitOrder, e: nat)
    requires e < N_ENCODERS && Start(r).reader.last < 4
  {
    FairWithin(r, o, e, ENC_PHASE_EVERY)
  }

  /** A reader that has sampled the phase its encoder is in, and counted nothing so far. */
  ghost predicate UpToDate(w: World, o: BitOrder, e: nat)
    requires e < N_ENCODERS
  {
    && GpioInv(w.gpio)
    && w.reader.last == Code(o, w.gpio.enc[e].phase) && w.reader.lastAt <= w.gpio.idrReads
    && w.reader.pulses == 0 && w.reader.ccw == 0 && w.reader.cw == 0
  }

  /** A reader at rest on an encoder at rest, just as a turn of `detents` detents is queued. */
  ghost predicate TurnQueued(w: World, o: BitOrder, e: nat, clockwise: bool, detents: int)
    requires e < N_ENCODERS
  {
    && UpToDate(w, o, e)
    && w.gpio.enc[e].owed == 4 * Max(1, detents) && w.gpio.enc[e].dir == (if clockwise then -1 else 1)
  }

  // ----- steps against reads -----

  /** Phase steps walked since the run began. */
  function Steps(w0: World, w: World, e: nat): int
    requires e < N_ENCODERS
  {
    w0.gpio.enc[e].owed - w.gpio.enc[e].owed
  }

  /** What links the pads, the reads and the reader: `p` is the step the previous sample saw,
      `pa` the step its pad A read saw, `ha` the step the pending pad A read saw. */
  ghost predicate Linked(w0: World, w: World, o: BitOrder, e: nat, half: bool, p: int, pa: int, ha: int)
    requires e < N_ENCODERS
  {
    var steps, phase0, dir := Steps(w0, w, e), w0.gpio.enc[e].phase, w0.gpio.enc[e].dir;
    && GpioInv(w.gpio) && w.gpio.enc[e].dir == dir
    && w.gpio.enc[e].phase == (phase0 + dir * steps) % 4
    && 0 <= pa <= p <= steps
    && steps - pa <= w.gpio.idrReads / 16 - w.reader.lastAt / 16 && w.reader.lastAt <= w.gpio.idrReads
    && w.reader.last == Code(o, phase0 + dir * p)
    && (half ==>
          && p <= ha <= steps && steps - ha <= w.gpio.idrReads / 16 - w.reader.aAt / 16
          && w.reader.lastAt <= w.reader.aAt <= w.gpio.idrReads
          && w.reader.a == LevelA(phase0 + dir * ha))
  }

  /** The counters say how many steps the samples have seen. */
  ghost predicate Counted(w: World, pulse: int, p: int) {
    && p >= 0 && (pulse == 1 || pulse == -1)
    && w.reader.pulses == pulse * (p % 4)
    && w.reader.ccw == (if pulse == 1 then p / 4 else 0)
    && w.reader.cw == (if pulse == -1 then p / 4 else 0)
  }

  lemma PadReads(g: GpioState, e: nat)
    requires GpioInv(g) && e < N_ENCODERS
    ensures Readable(g, PadA(e)) ==> (Bit(Idr(g, PadA(e).port), PadA(e).pad) <==> LevelA(g.enc[e].phase))
    ensures Readable(g, PadB(e)) ==> (Bit(Idr(g, PadB(e).port), PadB(e).pad) <==> LevelB(g.enc[e].phase))
  {
    hide Idr, Bit, Field, RoleOf, LevelA, LevelB;
    IdrBitIsLevel(g, PadA(e));
    IdrBitIsLevel(g, PadB(e));
    RolesAreTables(PadA(e));
    RolesAreTables(PadB(e));
  }

  /** Levels depend on the phase modulo four. */
  lemma SamePhase(phase: int, x: int)
    requires phase == x % 4
    ensures LevelA(phase) == LevelA(x) && LevelB(phase) == LevelB(x)
  {
  }

  /** One IDR read walks the encoder at most one step, and only at a multiple of sixteen. */
  lemma ReadWalks(w0: World, w: World, o: BitOrder, e: nat, half: bool, p: int, pa: int, ha: int, g': GpioState)
    requires e < N_ENCODERS && Linked(w0, w, o, e, half, p, pa, ha) && g' == AfterIdrRead(w.gpio)
    ensures Linked(w0, w.(gpio := g'), o, e, half, p, pa, ha) && g'.regs == w.gpio.regs
    ensures g'.idrReads == w.gpio.idrReads + 1
  {
    hide GpioInv, AfterIdrRead, Code, LevelA;
    ReadCounts(w.gpio);
    Sixteenth(w.gpio.idrReads);
    var s, dir := w.gpio.enc[e], w0.gpio.enc[e].dir;
    StepPhase(w0.gpio.enc[e].phase, dir, Steps(w0, w, e), s.phase);
  }

  lemma Sixteenth(n: nat)
    ensures (n + 1) / 16 == n / 16 + if (n + 1) % 16 == 0 then 1 else 0
  {
  }

  lemma StepPhase(phase0: int, dir: int, steps: int, phase: int)
    requires phase == (phase0 + dir * steps) % 4
    ensures (phase + dir) % 4 == (phase0 + dir * (steps + 1)) % 4
  {
    assert dir * (steps + 1) == dir * steps + dir;
  }

  lemma SpanBound(n: nat, m: nat)
    requires m <= n <= m + 16
    ensures n / 16 - m / 16 <= 1
  {
  }

  /** The step a whole sample saw, given the steps its two reads saw. */
  lemma SampleSees(o: BitOrder, phase0: int, dir: int, ha: int, hb: int) returns (p: int)
    requires (dir == 1 || dir == -1) && ha <= hb <= ha + 1
    ensures ha <= p <= hb
    ensures Sample(o, LevelA(phase0 + dir * ha), LevelB(phase0 + dir * hb)) == Code(o, phase0 + dir * p)
  {
    if ha == hb { return ha; }
    assert dir * hb == dir * ha + dir;
    TornSample(o, phase0 + dir * ha, dir);
    p := if Sample(o, LevelA(phase0 + dir * ha), LevelB(phase0 + dir * hb)) == Code(o, phase0 + dir * ha) then ha else hb;
  }

  lemma DecodeCounts(w: World, o: BitOrder, phase0: int, dir: int, p: int, p': int)
    requires (dir == 1 || dir == -1) && p <= p' <= p + 1
    requires w.reader.last == Code(o, phase0 + dir * p) && Counted(w, dir * Forward(o), p)
    ensures Counted(w.(reader := Decoded(w.reader, Code(o, phase0 + dir * p'))), dir * Forward(o), p')
  {
    hide Code, Decoded, Counted;
    LutCountsSteps(o, phase0 + dir * p, dir);
    assert dir * (p + 1) == dir * p + dir;
    OnePulse(w, Code(o, phase0 + dir * p'), dir * Forward(o), p, p');
  }

  /** A sample that shows one more step adds one pulse, and every fourth makes an event. */
  lemma OnePulse(w: World, sample: nat, pulse: int, p: int, p': int)
    requires w.reader.last < 4 && sample < 4 && p <= p' <= p + 1 && Counted(w, pulse, p)
    requires LUT[4 * w.reader.last + sample] == pulse * (p' - p)
    ensures Counted(w.(reader := Decoded(w.reader, sample)), pulse, p')
  {
    hide LUT;
    assert p == 4 * (p / 4) + p % 4;
  }

  lemma PollBLinks(w0: World, w: World, o: BitOrder, e: nat, p: int, pa: int, ha: int) returns (p': int)
    requires e < N_ENCODERS && w.reader.last < 4
    requires Linked(w0, w, o, e, true, p, pa, ha) && Readable(w.gpio, PadB(e))
    requires w.gpio.idrReads + 1 - w.reader.lastAt <= ENC_PHASE_EVERY
    requires Counted(w, w0.gpio.enc[e].dir * Forward(o), p) && GpioInv(w0.gpio)
    ensures var w' := Apply(w, o, e, PollB);
            Linked(w0, w', o, e, false, p', ha, 0) && Counted(w', w0.gpio.enc[e].dir * Forward(o), p')
  {
    hide Idr, Bit, Field, AfterIdrRead, PadA, PadB, LevelA, LevelB, Code, Decoded;
    var g := AfterIdrRead(w.gpio);
    var phase0, dir := w0.gpio.enc[e].phase, w0.gpio.enc[e].dir;
    ReadWalks(w0, w, o, e, true, p, pa, ha, g);
    PadReads(g, e);
    var hb := Steps(w0, w.(gpio := g), e);
    SpanBound(g.idrReads, w.reader.lastAt);
    SamePhase(g.enc[e].phase, phase0 + dir * hb);
    p' := SampleSees(o, phase0, dir, ha, hb);
    DecodeCounts(w, o, phase0, dir, p, p');
    DecodedKeeps(w.reader, Code(o, phase0 + dir * p'));
  }

  lemma DecodedKeeps(r: Reader, sample: nat)
    requires r.last < 4 && sample < 4
    ensures Decoded(r, sample).last == sample && Decoded(r, sample).lastAt == r.aAt
  {
  }

  lemma PollALinks(w0: World, w: World, o: BitOrder, e: nat, p: int, pa: int) returns (ha: int)
    requires e < N_ENCODERS && w.reader.last < 4
    requires Linked(w0, w, o, e, false, p, pa, 0) && Readable(w.gpio, PadA(e))
    ensures Linked(w0, Apply(w, o, e, PollA), o, e, true, p, pa, ha)
    ensures ha == Steps(w0, Apply(w, o, e, PollA), e)
  {
    hide Idr, Bit, Field, AfterIdrRead, PadA, PadB, LevelA, LevelB, Code;
    var g := AfterIdrRead(w.gpio);
    ReadWalks(w0, w, o, e, false, p, pa, 0, g);
    PadReads(g, e);
    ha := Steps(w0, w.(gpio := g), e);
    SamePhase(g.enc[e].phase, w0.gpio.enc[e].phase + w0.gpio.enc[e].dir * ha);
  }

  lemma OtherLinks(w0: World, w: World, o: BitOrder, e: nat, half: bool, p: int, pa: int, ha: int, ev: GpioEvent)
    requires e < N_ENCODERS && Linked(w0, w, o, e, half, p, pa, ha) && !(ev.Turn? && ev.encoder == e)
    ensures Linked(w0, w.(gpio := Encoder.Apply(w.gpio, ev)), o, e, half, p, pa, ha)
  {
    hide GpioInv, AfterIdrRead, Code, LevelA;
    EventHolds(w.gpio, ev);
    if ev.ReadIdr? { ReadWalks(w0, w, o, e, half, p, pa, ha, AfterIdrRead(w.gpio)); }
  }

  /** Was pad A of the reader's last whole sample read with no phase owed any more? */
  predicate SettledSample(r: Run, o: BitOrder, e: nat)
    requires e < N_ENCODERS && Start(r).reader.last < 4
  {
    match r
    case Begin(_) => false
    case Next(before, ev) =>
      match ev
      case PollB => HalfDone(before, o, e)
      case _ => SettledSample(before, o, e)
  }

  /** Was the pending pad A read made with no phase owed any more? */
  predicate HalfDone(r: Run, o: BitOrder, e: nat)
    requires e < N_ENCODERS && Start(r).reader.last < 4
  {
    match r
    case Begin(_) => false
    case Next(before, ev) =>
      if ev.PollA? then End(r, o, e).gpio.enc[e].owed == 0 else HalfDone(before, o, e)
  }

  /** Through every fair run the reader's counters are the steps its samples have seen, and its
      samples keep up with the pads. */
  lemma {:induction false} ReaderKeepsUp(r: Run, o: BitOrder, e: nat) returns (p: int, pa: int, ha: int)
    requires e < N_ENCODERS && Start(r).reader.last < 4 && UpToDate(Start(r), o, e)
    requires Fair(r, o, e)
    ensures Linked(Start(r), End(r, o, e), o, e, HalfSampled(r), p, pa, ha)
    ensures Counted(End(r, o, e), Start(r).gpio.enc[e].dir * Forward(o), p)
    ensures HalfSampled(r) && HalfDone(r, o, e) ==> ha == Start(r).gpio.enc[e].owed
    ensures SettledSample(r, o, e) ==> pa == Start(r).gpio.enc[e].owed
  {
    hide Linked, Counted, Apply, Readable;
    match r
    case Begin(w) =>
      p, pa, ha := 0, 0, 0;
      RestLinks(w, o, e);
    case Next(before, ev) =>
      p, pa, ha := ReaderKeepsUp(before, o, e);
      var w0, w := Start(r), End(before, o, e);
      match ev
      case PollA =>
        IgnoreHalf(w0, w, o, e, p, pa, ha);
        ha := PollALinks(w0, w, o, e, p, pa);
        SameReader(w, Apply(w, o, e, PollA), Start(r).gpio.enc[e].dir * Forward(o), p, o, e);
      case PollB =>
        var p' := PollBLinks(w0, w, o, e, p, pa, ha);
        p, pa, ha := p', ha, 0;
      case Other(event) =>
        OtherLinks(w0, w, o, e, HalfSampled(before), p, pa, ha, event);
        OtherReader(w, o, e, event, Start(r).gpio.enc[e].dir * Forward(o), p);
  }

  lemma RestLinks(w: World, o: BitOrder, e: nat)
    requires e < N_ENCODERS && UpToDate(w, o, e)
    ensures Linked(w, w, o, e, false, 0, 0, 0) && Counted(w, w.gpio.enc[e].dir * Forward(o), 0)
  {
    hide Code;
  }

  lemma IgnoreHalf(w0: World, w: World, o: BitOrder, e: nat, p: int, pa: int, ha: int)
    requires e < N_ENCODERS && Linked(w0, w, o, e, false, p, pa, ha)
    ensures Linked(w0, w, o, e, false, p, pa, 0)
  {
  }

  lemma SameReader(w: World, w': World, pulse: int, p: int, o: BitOrder, e: nat)
    requires e < N_ENCODERS && w.reader.last < 4 && w' == Apply(w, o, e, PollA) && Counted(w, pulse, p)
    ensures Counted(w', pulse, p)
  {
    hide Idr, Bit, AfterIdrRead;
  }

  lemma OtherReader(w: World, o: BitOrder, e: nat, ev: GpioEvent, pulse: int, p: int)
    requires e < N_ENCODERS && w.reader.last < 4 && Counted(w, pulse, p)
    ensures Apply(w, o, e, Other(ev)) == w.(gpio := Encoder.Apply(w.gpio, ev))
    ensures Counted(Apply(w, o, e, Other(ev)), pulse, p)
  {
    hide Encoder.Apply;
  }

  /** Every turn queued from rest is decoded exactly: once the reader has sampled the encoder
      after the last owed phase, it has reported as many events as detents were asked for, all
      in one direction, and none in the other.  The direction is the one asked for iff the
      firmware keeps pad A in the higher bit. */
  lemma TurnDecodesExactly(r: Run, o: BitOrder, e: nat, clockwise: bool, detents: int)
    requires e < N_ENCODERS && Start(r).reader.last < 4 && TurnQueued(Start(r), o, e, clockwise, detents)
    requires Fair(r, o, e) && SettledSample(r, o, e)
    ensures var reader, k := End(r, o, e).reader, Max(1, detents);
            if clockwise == o.AHigh? then reader.cw == k && reader.ccw == 0 else reader.ccw == k && reader.cw == 0
  {
    hide Linked, Apply, Fair, SettledSample;
    var p, pa, ha := ReaderKeepsUp(r, o, e);
    StepsBounded(Start(r), End(r, o, e), o, e, HalfSampled(r), p, pa, ha);
    assert p == 4 * Max(1, detents);
  }

  /** And before that it never runs ahead of the turn, or reports the other direction. */
  lemma TurnNeverOvershoots(r: Run, o: BitOrder, e: nat, clockwise: bool, detents: int)
    requires e < N_ENCODERS && Start(r).reader.last < 4 && TurnQueued(Start(r), o, e, clockwise, detents)
    requires Fair(r, o, e)
    ensures var reader, k := End(r, o, e).reader, Max(1, detents);
            if clockwise == o.AHigh? then reader.cw <= k && reader.ccw == 0 else reader.ccw <= k && reader.cw == 0
  {
    hide Linked, Apply, Fair;
    var p, pa, ha := ReaderKeepsUp(r, o, e);
    StepsBounded(Start(r), End(r, o, e), o, e, HalfSampled(r), p, pa, ha);
  }

  lemma StepsBounded(w0: World, w: World, o: BitOrder, e: nat, half: bool, p: int, pa: int, ha: int)
    requires e < N_ENCODERS && Linked(w0, w, o, e, half, p, pa, ha)
    ensures pa <= p <= w0.gpio.enc[e].owed
  {
  }

  // ----- the firmware's own poll -----

  function Reads(r: Run, k: nat): (r': Run)
    ensures Start(r') == Start(r)
  {
    if k == 0 then r else Next(Reads(r, k - 1), Other(ReadIdr))
  }

  /** n full polls of the inputs: this encoder's two pads, and the other thirteen pins (nine
      switches and the other encoders' four pads), fifteen IDR reads in all. */
  function Polls(w: World, n: nat): Run {
    if n == 0 then Begin(w) else Reads(Next(Next(Polls(w, n - 1), PollA), PollB), 13)
  }

  /** Phases still owed once the reads have gone from `from` to `to`. */
  function Left(owed: nat, from: nat, to: nat): nat
    requires from <= to
  {
    if owed <= to / 16 - from / 16 then 0 else owed - (to / 16 - from / 16)
  }

  ghost predicate Looping(w: World, g: GpioState, e: nat)
    requires e < N_ENCODERS
  {
    && GpioInv(g) && g.regs == w.gpio.regs && w.gpio.idrReads <= g.idrReads
    && g.enc[e].owed == Left(w.gpio.enc[e].owed, w.gpio.idrReads, g.idrReads)
  }

  lemma LoopRead(w: World, g: GpioState, e: nat)
    requires e < N_ENCODERS && Looping(w, g, e)
    ensures Looping(w, AfterIdrRead(g), e) && AfterIdrRead(g).idrReads == g.idrReads + 1
  {
    hide GpioInv, AfterIdrRead;
    ReadCounts(g);
    Sixteenth(g.idrReads);
  }

  lemma {:induction false} ReadsKeep(w: World, r: Run, k: nat, o: BitOrder, e: nat)
    requires e < N_ENCODERS && Start(r).reader.last < 4 && Fair(r, o, e) && !HalfSampled(r)
    requires Looping(w, End(r, o, e).gpio, e)
    ensures var r' := Reads(r, k);
            && Start(r') == Start(r) && Fair(r', o, e) && !HalfSampled(r')
            && End(r', o, e).reader == End(r, o, e).reader && Looping(w, End(r', o, e).gpio, e)
            && End(r', o, e).gpio.idrReads == End(r, o, e).gpio.idrReads + k
            && (SettledSample(r', o, e) <==> SettledSample(r, o, e))
  {
    hide Looping, AfterIdrRead, HalfDone, Decoded, Idr, Bit, Field, Sample, PadA, PadB;
    if k > 0 {
      ReadsKeep(w, r, k - 1, o, e);
      LoopRead(w, End(Reads(r, k - 1), o, e).gpio, e);
    }
  }

  /** The reader is between two polls, its last sample fifteen reads back at most. */
  ghost predicate BetweenPolls(w: World, r: Run, o: BitOrder, e: nat)
    requires e < N_ENCODERS
  {
    && Start(r) == w && w.reader.last < 4 && Fair(r, o, e) && !HalfSampled(r) && Looping(w, End(r, o, e).gpio, e)
    && End(r, o, e).reader.lastAt <= End(r, o, e).gpio.idrReads <= End(r, o, e).reader.lastAt + 14
  }

  /** The firmware's poll is fair: with fifteen reads a poll, two consecutive samples span
      sixteen reads at most, exactly the room a phase is given. */
  lemma {:induction false} PollsAreFair(w: World, n: nat, o: BitOrder, e: nat)
    requires e < N_ENCODERS && BetweenPolls(w, Begin(w), o, e)
    requires Readable(w.gpio, PadA(e)) && Readable(w.gpio, PadB(e))
    ensures BetweenPolls(w, Polls(w, n), o, e)
    ensures End(Polls(w, n), o, e).gpio.idrReads == w.gpio.idrReads + 15 * n
    ensures n > 0 && Left(w.gpio.enc[e].owed, w.gpio.idrReads, w.gpio.idrReads + 15 * (n - 1) + 1) == 0
            ==> SettledSample(Polls(w, n), o, e)
  {
    hide Start, End, Reads, Fair, HalfSampled, Looping, SettledSample, Left, Readable;
    if n == 0 {
      NothingRead(w, o, e);
    } else {
      PollsAreFair(w, n - 1, o, e);
      OnePollFair(w, Polls(w, n - 1), o, e);
      ReadsKeep(w, Next(Next(Polls(w, n - 1), PollA), PollB), 13, o, e);
    }
  }

  lemma NothingRead(w: World, o: BitOrder, e: nat)
    requires e < N_ENCODERS && Start(Begin(w)).reader.last < 4
    ensures End(Begin(w), o, e) == w
  {
  }

  lemma OnePollFair(w: World, r: Run, o: BitOrder, e: nat)
    requires e < N_ENCODERS && Start(r).reader.last < 4 && Fair(r, o, e) && !HalfSampled(r)
    requires Readable(w.gpio, PadA(e)) && Readable(w.gpio, PadB(e))
    requires Looping(w, End(r, o, e).gpio, e)
    requires End(r, o, e).reader.lastAt <= End(r, o, e).gpio.idrReads <= End(r, o, e).reader.lastAt + 14
    ensures var g, r' := End(r, o, e).gpio, Next(Next(r, PollA), PollB);
            && Start(r') == Start(r) && Fair(r', o, e) && !HalfSampled(r') && Looping(w, End(r', o, e).gpio, e)
            && End(r', o, e).gpio.idrReads == g.idrReads + 2 && End(r', o, e).reader.lastAt == g.idrReads + 1
            && (SettledSample(r', o, e) <==> Left(w.gpio.enc[e].owed, w.gpio.idrReads, g.idrReads + 1) == 0)
  {
    hide AfterIdrRead, GpioInv, Idr, Bit, Field, PadA, PadB, Decoded;
    var w1 := End(r, o, e);
    var w2 := Apply(w1, o, e, PollA);
    LoopRead(w, w1.gpio, e);
    LoopRead(w, w2.gpio, e);
    assert Fair(Next(r, PollA), o, e);
    DecodedKeeps(w2.reader, Sample(o, w2.reader.a, Bit(Idr(AfterIdrRead(w2.gpio), PadB(e).port), PadB(e).pad)));
  }

  /** The law on the firmware's own loop, with nothing left to assume: after a turn of k detents
      is queued from rest, polls enough for 64k + 32 reads have decoded exactly k events one way,
      and every later poll leaves it at that. */
  lemma FirmwareLoopDecodes(w: World, n: nat, o: BitOrder, e: nat, clockwise: bool, detents: int)
    requires e < N_ENCODERS && w.reader.last < 4 && TurnQueued(w, o, e, clockwise, detents)
    requires Readable(w.gpio, PadA(e)) && Readable(w.gpio, PadB(e)) && w.gpio.idrReads <= w.reader.lastAt + 14
    requires 15 * n >= 64 * Max(1, detents) + 32
    ensures Start(Polls(w, n)) == w
    ensures var reader, k := End(Polls(w, n), o, e).reader, Max(1, detents);
            if clockwise == o.AHigh? then reader.cw == k && reader.ccw == 0 else reader.ccw == k && reader.cw == 0
  {
    hide GpioInv, SettledSample, Polls;
    PollsAreFair(w, n, o, e);
    TurnDecodesExactly(Polls(w, n), o, e, clockwise, detents);
  }

  // ----- one read more, and a detent is lost -----

  /** Two phases at once are counted as none. */
  lemma DoubleStepIsLost(o: BitOrder, phase: int, dir: int)
    requires dir == 1 || dir == -1
    ensures LUT[4 * Code(o, phase) + Code(o, phase + 2 * dir)] == 0
  {
  }

  /** If one step moves pad A only, the next moves pad B only. */
  lemma PadsAlternate(phase: int, dir: int)
    requires (dir == 1 || dir == -1) && LevelB(phase + dir) == LevelB(phase)
    ensures LevelA(phase + 2 * dir) == LevelA(phase + dir) && LevelA(phase + dir) != LevelA(phase)
  {
  }

  /** A sample, fourteen reads of other pins, and pad A of a second sample. */
  function LateHalf(w: World): (r: Run)
    ensures Start(r) == w
  {
    var half := Next(Begin(w), PollA);
    assert Start(half) == w;
    Next(Reads(Next(half, PollB), 14), PollA)
  }

  /** And its pad B, the seventeenth read after the first sample's pad A. */
  function LateRun(w: World): (r: Run)
    ensures Start(r) == w
  {
    Next(LateHalf(w), PollB)
  }

  /** A turn has just been queued, its first step moves pad A, and that step falls between the
      two reads of the next sample. */
  ghost predicate LateReader(w: World, o: BitOrder, e: nat, clockwise: bool, detents: int)
    requires e < N_ENCODERS
  {
    && TurnQueued(w, o, e, clockwise, detents)
    && w.gpio.idrReads % 16 == 14 && w.gpio.idrReads <= w.reader.lastAt + 14
    && Readable(w.gpio, PadA(e)) && Readable(w.gpio, PadB(e))
    && LevelB(w.gpio.enc[e].phase + w.gpio.enc[e].dir) == LevelB(w.gpio.enc[e].phase)
  }

  /** What a pad B read makes of the levels at the steps its two halves saw. */
  lemma PollBReads(w0: World, w: World, o: BitOrder, e: nat, p: int, pa: int, ha: int)
    requires e < N_ENCODERS && w.reader.last < 4
    requires Linked(w0, w, o, e, true, p, pa, ha) && Readable(w.gpio, PadB(e))
    ensures var w' := Apply(w, o, e, PollB);
            var steps, phase0, dir := Steps(w0, w', e), w0.gpio.enc[e].phase, w0.gpio.enc[e].dir;
            && w'.gpio == AfterIdrRead(w.gpio) && GpioInv(w'.gpio)
            && w'.gpio.enc[e].phase == (phase0 + dir * steps) % 4 && w'.gpio.enc[e].dir == dir
            && w'.reader == Decoded(w.reader, Sample(o, LevelA(phase0 + dir * ha), LevelB(phase0 + dir * steps)))
  {
    hide Idr, Bit, Field, AfterIdrRead, PadA, PadB, LevelA, LevelB, Code, Decoded;
    var g := AfterIdrRead(w.gpio);
    var phase0, dir := w0.gpio.enc[e].phase, w0.gpio.enc[e].dir;
    ReadWalks(w0, w, o, e, true, p, pa, ha, g);
    PadReads(g, e);
    SamePhase(g.enc[e].phase, phase0 + dir * Steps(w0, w.(gpio := g), e));
  }

  /** The torn first sample still shows the old phase: the step moved pad A, after its read. */
  lemma FirstSample(w: World, o: BitOrder, e: nat, clockwise: bool, detents: int)
    requires e < N_ENCODERS && w.reader.last < 4 && LateReader(w, o, e, clockwise, detents)
    ensures var r := Next(Next(Begin(w), PollA), PollB);
            && Start(r) == w && Fair(r, o, e) && !HalfSampled(r) && Looping(w, End(r, o, e).gpio, e)
            && End(r, o, e).gpio.idrReads == w.gpio.idrReads + 2
            && End(r, o, e).reader.lastAt == w.gpio.idrReads + 1
            && End(r, o, e).reader.last == Code(o, w.gpio.enc[e].phase)
  {
    hide Idr, Bit, Field, PadA, PadB, AfterIdrRead, Decoded, LevelA, LevelB;
    var half := Next(Begin(w), PollA);
    NothingRead(w, o, e);
    OnePollFair(w, Begin(w), o, e);
    LoopRead(w, w.gpio, e);
    var w1 := End(half, o, e);
    LoopRead(w, w1.gpio, e);
    assert Fair(half, o, e) && Steps(w, w1, e) == 0;
    var p, pa, ha := ReaderKeepsUp(half, o, e);
    PollBReads(w, w1, o, e, p, pa, ha);
    DecodedKeeps(w1.reader, Code(o, w.gpio.enc[e].phase));
  }

  lemma LateHalfReads(w: World, o: BitOrder, e: nat, clockwise: bool, detents: int)
    requires e < N_ENCODERS && w.reader.last < 4 && LateReader(w, o, e, clockwise, detents)
    ensures var r := LateHalf(w); var w1 := End(r, o, e);
            && Fair(r, o, e) && HalfSampled(r) && Looping(w, w1.gpio, e)
            && w1.gpio.idrReads == w.gpio.idrReads + 17 && w1.reader.aAt == w1.gpio.idrReads
            && w1.reader.lastAt == w.gpio.idrReads + 1 && w1.reader.last == Code(o, w.gpio.enc[e].phase)
  {
    hide Idr, Bit, Field, PadA, PadB, AfterIdrRead, Decoded, LevelA, LevelB, Code, GpioInv;
    var first := Next(Next(Begin(w), PollA), PollB);
    FirstSample(w, o, e, clockwise, detents);
    ReadsKeep(w, first, 14, o, e);
    LoopRead(w, End(Reads(first, 14), o, e).gpio, e);
  }

  /** A reader whose samples span seventeen reads can miss two phases of a turn: it is up to date
      again, has counted nothing, and two phases fewer are owed. */
  lemma LateRunSkips(w: World, o: BitOrder, e: nat, clockwise: bool, detents: int)
    requires e < N_ENCODERS && w.reader.last < 4 && LateReader(w, o, e, clockwise, detents)
    ensures FairWithin(LateRun(w), o, e, ENC_PHASE_EVERY + 1)
    ensures var w' := End(LateRun(w), o, e);
            && UpToDate(w', o, e) && w'.gpio.enc[e].dir == w.gpio.enc[e].dir
            && w'.gpio.enc[e].owed == 4 * Max(1, detents) - 2
  {
    hide Idr, Bit, Field, PadA, PadB, AfterIdrRead, Decoded, LevelA, LevelB, Code, GpioInv, LateHalf;
    var phase0, dir := w.gpio.enc[e].phase, w.gpio.enc[e].dir;
    var half := LateHalf(w);
    LateHalfReads(w, o, e, clockwise, detents);
    var w1 := End(half, o, e);
    var p, pa, ha := ReaderKeepsUp(half, o, e);
    LateHalfSaw(w, w1, o, e, p, pa, ha);
    hide Linked;
    LoopRead(w, w1.gpio, e);
    assert Steps(w, World(AfterIdrRead(w1.gpio), w1.reader), e) == 2;
    PollBReads(w, w1, o, e, p, pa, ha);
    PadsAlternate(phase0, dir);
    DoubleStepIsLost(o, phase0, dir);
    NothingCounted(w1.reader, o, phase0, dir);
    PacedWidens(half, o, e, ENC_PHASE_EVERY, ENC_PHASE_EVERY + 1);
    LateEnds(w, o, e);
    CodeOfPhase(o, phase0 + 2 * dir);
  }

  lemma LateHalfSaw(w: World, w1: World, o: BitOrder, e: nat, p: int, pa: int, ha: int)
    requires e < N_ENCODERS && Linked(w, w1, o, e, true, p, pa, ha) && Steps(w, w1, e) == 1
    requires w1.reader.aAt == w1.gpio.idrReads && w1.reader.last == Code(o, w.gpio.enc[e].phase)
    ensures p == 0 && ha == 1
  {
    hide Code, LevelA, GpioInv;
    assert p == 1 ==> w.gpio.enc[e].dir * p == w.gpio.enc[e].dir;
    assert w.gpio.enc[e].dir == 1 || w.gpio.enc[e].dir == -1 by { DirIsUnit(w1.gpio, e); }
    LutCountsSteps(o, w.gpio.enc[e].phase, w.gpio.enc[e].dir);
  }

  lemma DirIsUnit(g: GpioState, e: nat)
    requires GpioInv(g) && e < N_ENCODERS
    ensures g.enc[e].dir == 1 || g.enc[e].dir == -1
  {
  }

  lemma LateEnds(w: World, o: BitOrder, e: nat)
    requires e < N_ENCODERS && w.reader.last < 4
    ensures End(LateRun(w), o, e) == Apply(End(LateHalf(w), o, e), o, e, PollB)
  {
  }

  lemma CodeOfPhase(o: BitOrder, x: int)
    ensures Code(o, x % 4) == Code(o, x) == Sample(o, LevelA(x), LevelB(x))
  {
  }

  lemma NothingCounted(r: Reader, o: BitOrder, phase: int, dir: int)
    requires r.last == Code(o, phase) && LUT[4 * r.last + Code(o, phase + 2 * dir)] == 0
    requires r.pulses == 0 && r.ccw == 0 && r.cw == 0
    ensures Decoded(r, Code(o, phase + 2 * dir)) == r.(last := Code(o, phase + 2 * dir), lastAt := r.aAt)
  {
  }

  lemma {:induction false} PacedWidens(r: Run, o: BitOrder, e: nat, span: nat, span': nat)
    requires e < N_ENCODERS && Start(r).reader.last < 4 && Paced(r, o, e, span) && span <= span'
    ensures Paced(r, o, e, span')
  {
    if r.Next? { PacedWidens(r.before, o, e, span, span'); }
  }

  /** The span is tight: with one read more between samples, a turn of k detents is decoded to
      k - 1 events, however well the reader keeps up from then on. */
  lemma LateTurnFallsShort(w: World, r: Run, o: BitOrder, e: nat, clockwise: bool, detents: int)
    requires e < N_ENCODERS && w.reader.last < 4 && LateReader(w, o, e, clockwise, detents)
    requires Start(r) == End(LateRun(w), o, e) && Fair(r, o, e) && SettledSample(r, o, e)
    ensures FairWithin(LateRun(w), o, e, ENC_PHASE_EVERY + 1)
    ensures var reader, k := End(r, o, e).reader, Max(1, detents);
            if clockwise == o.AHigh? then reader.cw == k - 1 && reader.ccw == 0
            else reader.ccw == k - 1 && reader.cw == 0
  {
    hide Linked, Apply, Fair, FairWithin, SettledSample, LateRun;
    LateRunSkips(w, o, e, clockwise, detents);
    var p, pa, ha := ReaderKeepsUp(r, o, e);
    StepsBounded(Start(r), End(r, o, e), o, e, HalfSampled(r), p, pa, ha);
    assert p == 4 * Max(1, detents) - 2;
  }

  function IdleReads(k: nat): GpioState {
    if k == 0 then AT_REST else AfterIdrRead(IdleReads(k - 1))
  }

  lemma {:induction false} IdleReadsWalkNothing(k: nat)
    ensures GpioInv(IdleReads(k)) && IdleReads(k).idrReads == k && IdleReads(k).regs == map[]
    ensures forall e :: 0 <= e < N_ENCODERS ==> IdleReads(k).enc[e].phase == 3 && IdleReads(k).enc[e].owed == 0
  {
    hide AfterIdrRead;
    if k == 0 {
      RestHolds();
    } else {
      IdleReadsWalkNothing(k - 1);
      ReadCounts(IdleReads(k - 1));
    }
  }

  /** Such a reader exists, from power-on: fourteen reads, then any clockwise turn. */
  lemma LateReaderExists(o: BitOrder, e: nat, detents: int) returns (w: World)
    requires e < N_ENCODERS
    ensures w.gpio == AfterTurn(IdleReads(14), e, true, detents)
    ensures w.reader.last < 4 && LateReader(w, o, e, true, detents)
  {
    hide GpioInv, IdleReads;
    IdleReadsWalkNothing(14);
    w := World(AfterTurn(IdleReads(14), e, true, detents), Reader(false, 0, Code(o, 3), 1, 0, 0, 0));
    EventHolds(IdleReads(14), Turn(e, true, detents));
    ZeroFields(PadA(e).pad);
    ZeroFields(PadB(e).pad);
  }

  lemma {:induction false} ZeroFields(pin: nat)
    ensures Field(0, pin) == 0
  {
    if pin > 0 { ZeroFields(pin - 1); }
  }
}
