/** The polling reader under any turns: while one is still being walked another may be queued, in
    either direction.  What the reader has counted is the net displacement its samples saw. */
module EncoderTurns {
  import opened Encoder
  import opened EncoderReader

  predicate ReadsIdr(ev: PollEvent) {
    ev.PollA? || ev.PollB? || (ev.Other? && ev.event.ReadIdr?)
  }

  /** The phase step that the next IDR read makes the encoder walk. */
  function StepOf(g: GpioState, e: nat): int
    requires e < N_ENCODERS
  {
    if (g.idrReads + 1) % ENC_PHASE_EVERY == 0 && g.enc[e].owed > 0 then g.enc[e].dir else 0
  }

  /** Net phases walked since the run began. */
  function Displacement(r: EncoderReader.Run, o: BitOrder, e: nat): int
    requires e < N_ENCODERS && Start(r).reader.last < 4
  {
    match r
    case Begin(_) => 0
    case Next(before, ev) =>
      Displacement(before, o, e) + if ReadsIdr(ev) then StepOf(End(before, o, e).gpio, e) else 0
  }

  /** Was pad A of the last whole sample read with no phase owed, and the encoder left alone since? */
  predicate RestedSample(r: EncoderReader.Run, o: BitOrder, e: nat)
    requires e < N_ENCODERS && Start(r).reader.last < 4
  {
    match r
    case Begin(_) => false
    case Next(before, ev) =>
      if ev.PollB? then RestedHalf(before, o, e) else RestedSample(before, o, e) && !TurnsIt(ev, e)
  }

  /** The same of the pending pad A read. */
  predicate RestedHalf(r: EncoderReader.Run, o: BitOrder, e: nat)
    requires e < N_ENCODERS && Start(r).reader.last < 4
  {
    match r
    case Begin(_) => false
    case Next(before, ev) =>
      if ev.PollA? then End(r, o, e).gpio.enc[e].owed == 0 else RestedHalf(before, o, e) && !TurnsIt(ev, e)
  }

  function Apart(a: int, b: int): nat {
    if a < b then b - a else a - b
  }

  /** The encoder stands `pos` phases from where it began; the last sample saw it at `p`, its pad
      A read at `pa`, the pending pad A read at `ha`.  Between reads sixteen apart at most there is
      one step, so what they saw is one of two neighbouring phases. */
  ghost predicate Tracked(phase0: int, w: World, o: BitOrder, e: nat, half: bool, pos: int, p: int, pa: int, ha: int)
    requires e < N_ENCODERS
  {
    var n := w.gpio.idrReads / 16 - w.reader.lastAt / 16;
    && GpioInv(w.gpio) && w.gpio.enc[e].phase == (phase0 + pos) % 4
    && w.reader.last == Code(o, phase0 + p) && w.reader.lastAt <= w.gpio.idrReads
    && Apart(pos, pa) <= n && (n <= 1 ==> p == pa || p == pos)
    && (half ==>
          && w.reader.lastAt <= w.reader.aAt <= w.gpio.idrReads && w.reader.a == LevelA(phase0 + ha)
          && Apart(pos, ha) <= w.gpio.idrReads / 16 - w.reader.aAt / 16
          && (n <= 1 ==> ha == pa || ha == pos))
  }

  /** Events and pulses together are the net displacement seen. */
  ghost predicate NetCounted(w: World, forward: int, p: int) {
    4 * (w.reader.ccw - w.reader.cw) + w.reader.pulses == forward * p && -4 < w.reader.pulses < 4
  }

  lemma ReadTracks(phase0: int, w: World, o: BitOrder, e: nat, half: bool, pos: int, p: int, pa: int, ha: int)
    requires e < N_ENCODERS && Tracked(phase0, w, o, e, half, pos, p, pa, ha)
    ensures var g := AfterIdrRead(w.gpio);
            && Tracked(phase0, w.(gpio := g), o, e, half, pos + StepOf(w.gpio, e), p, pa, ha)
            && g.regs == w.gpio.regs && g.idrReads == w.gpio.idrReads + 1
            && g.enc[e].owed <= w.gpio.enc[e].owed
  {
    hide GpioInv, AfterIdrRead, Code, LevelA;
    ReadCounts(w.gpio);
    Sixteenth(w.gpio.idrReads);
    DirIsUnit(w.gpio, e);
    NextPhase(phase0 + pos, StepOf(w.gpio, e), w.gpio.enc[e].phase);
  }

  lemma NextPhase(x: int, step: int, phase: int)
    requires phase == x % 4
    ensures (phase + step) % 4 == (x + step) % 4
  {
  }

  /** A sample torn by one step, either way, shows one of the two phases. */
  lemma SeesOneOf(o: BitOrder, phase0: int, ha: int, hb: int) returns (p: int)
    requires Apart(ha, hb) <= 1
    ensures p == ha || p == hb
    ensures Sample(o, LevelA(phase0 + ha), LevelB(phase0 + hb)) == Code(o, phase0 + p)
  {
    if ha == hb { return ha; }
    TornSample(o, phase0 + ha, hb - ha);
    p := if Sample(o, LevelA(phase0 + ha), LevelB(phase0 + hb)) == Code(o, phase0 + ha) then ha else hb;
  }

  lemma NetPulse(w: World, o: BitOrder, phase0: int, p: int, p': int)
    requires Apart(p, p') <= 1 && w.reader.last == Code(o, phase0 + p) && NetCounted(w, Forward(o), p)
    ensures NetCounted(w.(reader := Decoded(w.reader, Code(o, phase0 + p'))), Forward(o), p')
  {
    hide Code;
    if p' != p {
      LutCountsSteps(o, phase0 + p, p' - p);
    } else {
      LutCountsSteps(o, phase0 + p, 1);
    }
  }

  lemma PollATracks(phase0: int, w: World, o: BitOrder, e: nat, pos: int, p: int, pa: int, ha: int)
    requires e < N_ENCODERS && w.reader.last < 4
    requires Tracked(phase0, w, o, e, false, pos, p, pa, ha) && Readable(w.gpio, PadA(e))
    ensures var pos' := pos + StepOf(w.gpio, e);
            Tracked(phase0, EncoderReader.Apply(w, o, e, PollA), o, e, true, pos', p, pa, pos')
  {
    hide Idr, Bit, Field, AfterIdrRead, PadA, PadB, LevelA, LevelB, Code, StepOf;
    var g := AfterIdrRead(w.gpio);
    ReadTracks(phase0, w, o, e, false, pos, p, pa, ha);
    PadReads(g, e);
    SamePhase(g.enc[e].phase, phase0 + pos + StepOf(w.gpio, e));
  }

  lemma PollBTracks(phase0: int, w: World, o: BitOrder, e: nat, pos: int, p: int, pa: int, ha: int) returns (p': int)
    requires e < N_ENCODERS && w.reader.last < 4
    requires Tracked(phase0, w, o, e, true, pos, p, pa, ha) && Readable(w.gpio, PadB(e))
    requires w.gpio.idrReads + 1 - w.reader.lastAt <= ENC_PHASE_EVERY && NetCounted(w, Forward(o), p)
    ensures var w', pos' := EncoderReader.Apply(w, o, e, PollB), pos + StepOf(w.gpio, e);
            && Tracked(phase0, w', o, e, false, pos', p', ha, 0) && NetCounted(w', Forward(o), p')
            && (p' == ha || p' == pos')
  {
    hide Idr, Bit, Field, AfterIdrRead, PadA, PadB, LevelA, LevelB, Code, Decoded, StepOf;
    var g := AfterIdrRead(w.gpio);
    var pos' := pos + StepOf(w.gpio, e);
    ReadTracks(phase0, w, o, e, true, pos, p, pa, ha);
    PadReads(g, e);
    SpanBound(g.idrReads, w.reader.lastAt);
    SamePhase(g.enc[e].phase, phase0 + pos');
    p' := SeesOneOf(o, phase0, ha, pos');
    hide NetCounted;
    NetPulse(w, o, phase0, p, p');
    DecodedKeeps(w.reader, Code(o, phase0 + p'));
  }

  lemma OtherTracks(phase0: int, w: World, o: BitOrder, e: nat, half: bool, pos: int, p: int, pa: int, ha: int,
                    ev: GpioEvent)
    requires e < N_ENCODERS && Tracked(phase0, w, o, e, half, pos, p, pa, ha) && !ev.ReadIdr?
    ensures Tracked(phase0, w.(gpio := Encoder.Apply(w.gpio, ev)), o, e, half, pos, p, pa, ha)
    ensures !TurnsIt(Other(ev), e) ==> Encoder.Apply(w.gpio, ev).enc[e] == w.gpio.enc[e]
  {
    hide GpioInv, AfterIdrRead, Code, LevelA;
    EventHolds(w.gpio, ev);
  }

  /** What has been counted is the net displacement the last sample saw, and once that sample was
      taken at rest it is all of it. */
  ghost predicate AddedUp(r: EncoderReader.Run, o: BitOrder, e: nat, p: int, pa: int, ha: int)
    requires e < N_ENCODERS && Start(r).reader.last < 4
  {
    var w, pos := End(r, o, e), Displacement(r, o, e);
    && Tracked(Start(r).gpio.enc[e].phase, w, o, e, HalfSampled(r), pos, p, pa, ha)
    && NetCounted(w, Forward(o), p)
    && (RestedSample(r, o, e) ==> p == pos && w.gpio.enc[e].owed == 0)
    && (HalfSampled(r) && RestedHalf(r, o, e) ==> ha == pos && w.gpio.enc[e].owed == 0)
  }

  /** Through every run in which the samples are close enough, however often and whichever way the
      encoder is turned. */
  lemma {:induction false} TurnsAddUp(r: EncoderReader.Run, o: BitOrder, e: nat) returns (p: int, pa: int, ha: int)
    requires e < N_ENCODERS && Start(r).reader.last < 4 && UpToDate(Start(r), o, e)
    requires Paced(r, o, e, ENC_PHASE_EVERY)
    ensures AddedUp(r, o, e, p, pa, ha)
  {
    hide AddedUp, EncoderReader.Apply;
    match r
    case Begin(w) =>
      p, pa, ha := 0, 0, 0;
      StartAddsUp(w, o, e);
    case Next(before, ev) =>
      p, pa, ha := TurnsAddUp(before, o, e);
      match ev
      case PollA =>
        PollAAddsUp(before, o, e, p, pa, ha);
        ha := Displacement(r, o, e);
      case PollB =>
        var p' := PollBAddsUp(before, o, e, p, pa, ha);
        p, pa, ha := p', ha, 0;
      case Other(event) =>
        OtherAddsUp(before, o, e, p, pa, ha, event);
  }

  lemma StartAddsUp(w: World, o: BitOrder, e: nat)
    requires e < N_ENCODERS && Start(Begin(w)).reader.last < 4 && UpToDate(w, o, e)
    ensures AddedUp(Begin(w), o, e, 0, 0, 0)
  {
    hide Tracked, NetCounted;
    StartTracks(w, o, e);
  }

  lemma PollAAddsUp(before: EncoderReader.Run, o: BitOrder, e: nat, p: int, pa: int, ha: int)
    requires e < N_ENCODERS && Start(before).reader.last < 4 && AddedUp(before, o, e, p, pa, ha)
    requires Paced(Next(before, PollA), o, e, ENC_PHASE_EVERY)
    ensures var r := Next(before, PollA); AddedUp(r, o, e, p, pa, Displacement(r, o, e))
  {
    hide Tracked, NetCounted, EncoderReader.Apply, Readable, StepOf;
    var phase0, w, pos := Start(before).gpio.enc[e].phase, End(before, o, e), Displacement(before, o, e);
    TrackedHolds(phase0, w, o, e, false, pos, p, pa, ha);
    PollATracks(phase0, w, o, e, pos, p, pa, ha);
    PollAKeeps(w, o, e, p);
    RestsStill(w.gpio, e);
  }

  lemma PollBAddsUp(before: EncoderReader.Run, o: BitOrder, e: nat, p: int, pa: int, ha: int) returns (p': int)
    requires e < N_ENCODERS && Start(before).reader.last < 4 && AddedUp(before, o, e, p, pa, ha)
    requires Paced(Next(before, PollB), o, e, ENC_PHASE_EVERY)
    ensures AddedUp(Next(before, PollB), o, e, p', ha, 0)
  {
    hide Tracked, NetCounted, EncoderReader.Apply, Readable, StepOf;
    var phase0, w, pos := Start(before).gpio.enc[e].phase, End(before, o, e), Displacement(before, o, e);
    TrackedHolds(phase0, w, o, e, true, pos, p, pa, ha);
    p' := PollBTracks(phase0, w, o, e, pos, p, pa, ha);
    PollBKeeps(w, o, e);
    RestsStill(w.gpio, e);
  }

  lemma OtherAddsUp(before: EncoderReader.Run, o: BitOrder, e: nat, p: int, pa: int, ha: int, event: GpioEvent)
    requires e < N_ENCODERS && Start(before).reader.last < 4 && AddedUp(before, o, e, p, pa, ha)
    ensures AddedUp(Next(before, Other(event)), o, e, p, pa, ha)
  {
    hide Tracked, NetCounted, Encoder.Apply, EncoderReader.Apply, StepOf, AfterIdrRead;
    var phase0, w, pos := Start(before).gpio.enc[e].phase, End(before, o, e), Displacement(before, o, e);
    OtherKeeps(w, o, e, event, p);
    if event.ReadIdr? {
      ReadTracks(phase0, w, o, e, HalfSampled(before), pos, p, pa, ha);
      RestsStill(w.gpio, e);
    } else {
      OtherTracks(phase0, w, o, e, HalfSampled(before), pos, p, pa, ha, event);
    }
  }

  lemma RestsStill(g: GpioState, e: nat)
    requires e < N_ENCODERS
    ensures g.enc[e].owed == 0 ==> StepOf(g, e) == 0
  {
  }

  lemma TrackedHolds(phase0: int, w: World, o: BitOrder, e: nat, half: bool, pos: int, p: int, pa: int, ha: int)
    requires e < N_ENCODERS && Tracked(phase0, w, o, e, half, pos, p, pa, ha)
    ensures GpioInv(w.gpio)
  {
  }

  lemma StartTracks(w: World, o: BitOrder, e: nat)
    requires e < N_ENCODERS && UpToDate(w, o, e)
    ensures Tracked(w.gpio.enc[e].phase, w, o, e, false, 0, 0, 0, 0) && NetCounted(w, Forward(o), 0)
  {
    hide Code;
  }

  lemma PollAKeeps(w: World, o: BitOrder, e: nat, p: int)
    requires e < N_ENCODERS && w.reader.last < 4 && NetCounted(w, Forward(o), p) && GpioInv(w.gpio)
    ensures NetCounted(EncoderReader.Apply(w, o, e, PollA), Forward(o), p)
    ensures EncoderReader.Apply(w, o, e, PollA).gpio.enc[e].owed <= w.gpio.enc[e].owed
  {
    hide Idr, Bit, AfterIdrRead;
    ReadCounts(w.gpio);
  }

  lemma PollBKeeps(w: World, o: BitOrder, e: nat)
    requires e < N_ENCODERS && w.reader.last < 4 && GpioInv(w.gpio)
    ensures EncoderReader.Apply(w, o, e, PollB).gpio.enc[e].owed <= w.gpio.enc[e].owed
  {
    hide Idr, Bit, AfterIdrRead, Decoded;
    ReadCounts(w.gpio);
  }

  lemma OtherKeeps(w: World, o: BitOrder, e: nat, ev: GpioEvent, p: int)
    requires e < N_ENCODERS && w.reader.last < 4 && NetCounted(w, Forward(o), p)
    ensures EncoderReader.Apply(w, o, e, Other(ev)) == w.(gpio := Encoder.Apply(w.gpio, ev))
    ensures NetCounted(EncoderReader.Apply(w, o, e, Other(ev)), Forward(o), p)
    ensures ev.ReadIdr? ==> Encoder.Apply(w.gpio, ev) == AfterIdrRead(w.gpio)
  {
    hide AfterIdrRead;
  }

  // ----- turns that do not reverse phases still owed -----

  /** Detents asked for, counter-clockwise positive. */
  function Asked(r: EncoderReader.Run, e: nat): int {
    match r
    case Begin(_) => 0
    case Next(before, ev) =>
      Asked(before, e)
      + if TurnsIt(ev, e) then (if ev.event.clockwise then -1 else 1) * Max(1, ev.event.detents) else 0
  }

  /** No turn is queued against phases still owed the other way. */
  predicate NoneReversed(r: EncoderReader.Run, o: BitOrder, e: nat)
    requires e < N_ENCODERS && Start(r).reader.last < 4
  {
    match r
    case Begin(_) => true
    case Next(before, ev) =>
      && NoneReversed(before, o, e)
      && (TurnsIt(ev, e) ==>
            var s := End(before, o, e).gpio.enc[e];
            s.owed == 0 || s.dir == if ev.event.clockwise then -1 else 1)
  }

  /** What has been walked and what is still owed are together what was asked for. */
  lemma {:induction false} PhasesAddUp(r: EncoderReader.Run, o: BitOrder, e: nat)
    requires e < N_ENCODERS && Start(r).reader.last < 4 && GpioInv(Start(r).gpio) && Start(r).gpio.enc[e].owed == 0
    requires NoneReversed(r, o, e)
    ensures GpioInv(End(r, o, e).gpio)
    ensures var s := End(r, o, e).gpio.enc[e]; Displacement(r, o, e) + s.dir * s.owed == 4 * Asked(r, e)
  {
    hide EncoderReader.Apply, GpioInv;
    match r
    case Begin(_) =>
    case Next(before, ev) =>
      PhasesAddUp(before, o, e);
      EventWalks(End(before, o, e), o, e, ev);
  }

  lemma EventWalks(w: World, o: BitOrder, e: nat, ev: PollEvent)
    requires e < N_ENCODERS && w.reader.last < 4 && GpioInv(w.gpio)
    ensures var s, s' := w.gpio.enc[e], EncoderReader.Apply(w, o, e, ev).gpio.enc[e];
            && GpioInv(EncoderReader.Apply(w, o, e, ev).gpio)
            && (!TurnsIt(ev, e) ==>
                  (if ReadsIdr(ev) then StepOf(w.gpio, e) else 0) + s'.dir * s'.owed == s.dir * s.owed)
            && (TurnsIt(ev, e) ==>
                  var dir := if ev.event.clockwise then -1 else 1;
                  (s.owed == 0 || s.dir == dir) ==>
                    s'.dir * s'.owed == s.dir * s.owed + 4 * (dir * Max(1, ev.event.detents)))
  {
    hide GpioInv, AfterIdrRead, Idr, Bit, Decoded;
    DirIsUnit(w.gpio, e);
    ReadCounts(w.gpio);
    if ev.Other? { EventHolds(w.gpio, ev.event); }
  }

  /** Any turns that do not reverse one another, overlapping or not, decode to exactly the net
      number of detents asked for, once a sample has been taken at rest. */
  lemma NetTurnsDecodeExactly(r: EncoderReader.Run, o: BitOrder, e: nat)
    requires e < N_ENCODERS && Start(r).reader.last < 4 && UpToDate(Start(r), o, e)
    requires Start(r).gpio.enc[e].owed == 0 && Paced(r, o, e, ENC_PHASE_EVERY) && NoneReversed(r, o, e)
    requires RestedSample(r, o, e)
    ensures var reader := End(r, o, e).reader;
            reader.ccw - reader.cw == Forward(o) * Asked(r, e) && reader.pulses == 0
  {
    hide AddedUp, NetCounted, Displacement, Paced, NoneReversed, RestedSample, EncoderReader.End, Asked;
    var p, pa, ha := TurnsAddUp(r, o, e);
    AtRest(r, o, e, p, pa, ha);
    PhasesAddUp(r, o, e);
    WholeDetents(End(r, o, e), Forward(o), p, Asked(r, e));
  }

  lemma AtRest(r: EncoderReader.Run, o: BitOrder, e: nat, p: int, pa: int, ha: int)
    requires e < N_ENCODERS && Start(r).reader.last < 4
    requires AddedUp(r, o, e, p, pa, ha) && RestedSample(r, o, e)
    ensures NetCounted(End(r, o, e), Forward(o), p) && p == Displacement(r, o, e) && End(r, o, e).gpio.enc[e].owed == 0
  {
  }

  lemma WholeDetents(w: World, forward: int, p: int, detents: int)
    requires NetCounted(w, forward, p) && (forward == 1 || forward == -1) && p == 4 * detents
    ensures w.reader.ccw - w.reader.cw == forward * detents && w.reader.pulses == 0
  {
  }
}
