/** How long a transfer may take, and what it takes to report one stalled. */
module HostProgress {
  import opened Prelude
  import opened EndpointRegister
  import opened UsbBlock
  import opened UsbHostModel
  import opened HostRuns

  // ----- every started transfer is answered, within a bound -----

  /** Stage visits a transfer may still need: packets yet to come, and the status stage. */
  function StagesLeft(h: HostState): nat
    requires h.cur.Some?
  {
    match h.phase
    case DataIn =>
      var x := h.cur.value;
      (if |x.data| < x.want then x.want - |x.data| + 63 else 0) / 64 + 1
    case DataOut => 2
    case StatusOut => 1
    case StatusIn => 1
    case _ => 0
  }

  /** EP0 steps left at most before the current transfer is answered. */
  function Rank(h: HostState): int
    requires h.cur.Some?
  {
    (STEP_PATIENCE + 1) * StagesLeft(h) - h.stageSteps
  }

  /** The bound for a transfer that has just been started. */
  function Bound(x: Xfer): nat {
    if x.want != 0 then (STEP_PATIENCE + 1) * ((x.want + 63) / 64 + 1)
    else if x.outData != [] then 2 * (STEP_PATIENCE + 1)
    else STEP_PATIENCE + 1
  }

  predicate SameRequest(x: Xfer, y: Xfer) {
    x.tag == y.tag && x.setup == y.setup && x.want == y.want && x.outData == y.outData
  }

  /** The transfer current in h0 is still the current one in h, and not yet answered. */
  ghost predicate Underway(h0: HostState, h: HostState) {
    && h0.cur.Some? && h.cur.Some? && SameRequest(h0.cur.value, h.cur.value)
    && RespTags(h.published) == RespTags(h0.published)
  }

  /** The first RESP line published since h0 answers the transfer that was current in h0. */
  ghost predicate Answered(h0: HostState, h: HostState) {
    h0.cur.Some? && RespTags(h0.published) + [h0.cur.value.tag] <= RespTags(h.published)
  }

  /** One step answers the current transfer: one RESP line, and the host is free for the next. */
  ghost predicate Answers(h: HostState, h': HostState) {
    && h.cur.Some? && h'.cur.None? && h'.phase == (if h.queue != [] then Advance else Idle)
    && RespTags(h'.published) == RespTags(h.published) + [h.cur.value.tag]
  }

  ghost predicate Progress(h: HostState, h': HostState) {
    (Answers(h, h') || (Underway(h, h') && Rank(h') < Rank(h))) && h'.queue == h.queue
  }

  lemma FinishAnswers(h: HostState, h': HostState, stalled: bool)
    requires SameLine(h, h') && h.cur.Some?
    ensures Answers(h, Finish(h', stalled)) && Finish(h', stalled).queue == h.queue
  {
    RespTagsAppend(h.published, Resp(h.cur.value.tag, stalled, h.cur.value.data));
  }

  lemma TickProgress(h: HostState, h': HostState)
    requires SameLine(h, h') && h.cur.Some? && h'.phase == h.phase && h'.stageSteps == h.stageSteps
    ensures Progress(h, Tick(h').host)
  {
    hide Finish, RespTags, Answers;
    FinishAnswers(h, h'.(stageSteps := h'.stageSteps + 1), true);
  }

  lemma StageProgress(h: HostState, s: Seen, stat: Stat, proceed: Move)
    requires h.cur.Some? && !StageMove(h, s, stat, proceed).fault
    requires stat.Valid? && !proceed.fault ==> Progress(h, proceed.host)
    ensures Progress(h, StageMove(h, s, stat, proceed).host)
  {
    hide Finish, Tick, Answers, Underway;
    var seen := Observe(h, stat);
    FinishAnswers(h, seen, true);
    TickProgress(h, seen);
  }

  lemma AcceptProgress(h: HostState, pkt: seq<byte>)
    requires HostInv(h) && h.phase.DataIn?
    ensures Rank(Accept(h, pkt)) < Rank(h)
  {
  }

  lemma ControlProgress(h: HostState, s: Seen)
    requires HostInv(h) && h.phase.Transfer() && !ControlMove(h, s).fault
    ensures Progress(h, ControlMove(h, s).host)
  {
    hide Finish, Tick, StageMove, RespTags, Answers;
    FinishAnswers(h, Observe(h, s.ep0.statRx), false);
    FinishAnswers(h, Observe(h, s.ep0.statTx), false);
    match h.phase
    case DataIn =>
      if s.ep0.statTx.Valid? { AcceptProgress(Observe(h, s.ep0.statTx), s.packet); }
      StageProgress(h, s, s.ep0.statTx, DataInProceeds(h, s));
    case DataOut => StageProgress(h, s, s.ep0.statRx, DataOutProceeds(h, s));
    case StatusOut => StageProgress(h, s, s.ep0.statRx, StatusOutProceeds(h, s));
    case StatusIn => StageProgress(h, s, s.ep0.statTx, StatusInProceeds(h, s));
  }

  /** Host steps of the run that were EP0's turn and did not fail.  A step that meets a
      descriptor outside packet memory uses up no patience. */
  function Ep0Steps(r: Run): nat {
    match r
    case Init(_) => 0
    case Next(before, e) =>
      var b := End(before);
      Ep0Steps(before) + if e.HostStep? && !Preempted(b) && !Step(b).fault then 1 else 0
  }

  predicate Grew(h: HostState, h': HostState) {
    h.published <= h'.published
  }

  lemma FinishGrows(h: HostState, stalled: bool)
    ensures Grew(h, Finish(h, stalled))
  {
  }

  lemma StageGrows(h: HostState, s: Seen, stat: Stat, proceed: Move)
    requires Grew(h, proceed.host)
    ensures Grew(h, StageMove(h, s, stat, proceed).host)
  {
    hide Finish;
    var seen := Observe(h, stat);
    FinishGrows(seen, true);
    FinishGrows(seen.(stageSteps := seen.stageSteps + 1), true);
  }

  /** A step never unpublishes a line, whatever it sees. */
  lemma DecideGrows(h: HostState, s: Seen, ep: nat)
    ensures Grew(h, Decide(h, s, ep).host)
  {
    hide Finish, StageMove, SetupMove;
    if h.phase.Setup() {
      SetupGrows(h, s);
    } else if ep == 0 {
      FinishGrows(h.(stageSteps := h.stageSteps + 1), true);
      FinishGrows(Observe(h, s.ep0.statRx), false);
      FinishGrows(Observe(h, s.ep0.statTx), false);
      StageGrows(h, s, s.ep0.statTx, DataInProceeds(h, s));
      StageGrows(h, s, s.ep0.statRx, DataOutProceeds(h, s));
      StageGrows(h, s, s.ep0.statRx, StatusOutProceeds(h, s));
      StageGrows(h, s, s.ep0.statTx, StatusInProceeds(h, s));
    }
  }

  lemma SetupGrows(h: HostState, s: Seen)
    requires h.phase.Setup()
    ensures SetupMove(h, s).host.published == h.published
  {
  }

  /** Progress does not depend on the interrupt owed before. */
  lemma OwingProgress(h: HostState, h0: HostState, h': HostState)
    requires h0 == h.(pendingIrq := h0.pendingIrq) && Progress(h0, h')
    ensures Progress(h, h')
  {
  }

  /** A step with a transfer current answers it or uses up some of its rank, unless it was
      pre-empted or failed, when it leaves the rank as it was. */
  lemma StepProgress(b: Bus)
    requires HostInv(b.host) && b.host.cur.Some?
    ensures var h, h' := b.host, Step(b).bus.host;
            if Preempted(b) || Step(b).fault then Underway(h, h') && Rank(h') == Rank(h) else Progress(h, h')
  {
    hide ControlMove, Look, Deliver, DriveUsb, DriveMem, RespTags;
    var b0 := b.(host := b.host.(pendingIrq := false));
    var s := Look(b0, Target(b0));
    if Step(b).fault {
      FaultKeeps(b);
    } else if Preempted(b) {
      RespTagsAppend(b.host.published, Report(Target(b0), s.packet));
    } else {
      hide Answers, Underway, Rank;
      ControlProgress(b0.host, s);
      assert Progress(b0.host, Decide(b0.host, s, 0).host);
      OwingProgress(b.host, b0.host, Step(b).bus.host);
    }
  }

  lemma StepPublishes(b: Bus)
    ensures Grew(b.host, Step(b).bus.host)
    ensures RespTags(b.host.published) <= RespTags(Step(b).bus.host.published)
  {
    hide Decide, Look, Deliver, DriveUsb, DriveMem, RespTags;
    var b0 := b.(host := b.host.(pendingIrq := false));
    DecideGrows(b0.host, Look(b0, Target(b0)), Target(b0));
    MoreTags(b.host.published, Step(b).bus.host.published);
  }

  lemma {:induction false} MoreTags(lines: seq<Line>, lines': seq<Line>)
    requires lines <= lines'
    ensures RespTags(lines) <= RespTags(lines')
    decreases |lines'|
  {
    if lines == lines' { return; }
    assert lines <= lines'[..|lines'| - 1];
    MoreTags(lines, lines'[..|lines'| - 1]);
  }

  /** Whatever the device does, from any state with a current transfer: either the transfer has
      been answered, or every EP0 step so far has used up some of its rank. */
  lemma {:induction false} RankRunsOut(r: Run)
    requires HostInv(Start(r).host) && Start(r).host.cur.Some?
    ensures var h0, h := Start(r).host, End(r).host;
            Answered(h0, h) || (HostInv(h) && Underway(h0, h) && Rank(h) + Ep0Steps(r) <= Rank(h0))
  {
    hide Step, AfterHwWrite, CpuWrite, RespTags, Rank, HostInv;
    match r
    case Init(_) =>
    case Next(before, e) =>
      RankRunsOut(before);
      var h0, b := Start(r).host, End(before);
      if e.HostStep? {
        StepPublishes(b);
        if !Answered(h0, b.host) { UnderwayStep(b); }
      } else if !Answered(h0, b.host) {
        QuietEvent(b, e);
      }
  }

  /** A step under a current transfer is no start, so it keeps the shape. */
  lemma UnderwayStep(b: Bus)
    requires HostInv(b.host) && b.host.cur.Some?
    ensures var h, h' := b.host, Step(b).bus.host;
            && HostInv(h')
            && if Preempted(b) || Step(b).fault then Underway(h, h') && Rank(h') == Rank(h) else Progress(h, h')
  {
    hide Step;
    StepKeepsShape(b);
    StepProgress(b);
  }

  /** Any event but a host step leaves the current transfer as it was. */
  lemma QuietEvent(b: Bus, e: BusEvent)
    requires !e.HostStep? && HostInv(b.host) && b.host.cur.Some?
    ensures var h, h' := b.host, Apply(b, e).host;
            HostInv(h') && Rank(h') == Rank(h) && h'.cur == h.cur && h'.published == h.published
  {
    hide AfterHwWrite, CpuWrite;
  }

  lemma RankPositive(h: HostState)
    requires HostInv(h) && h.cur.Some?
    ensures Rank(h) >= 1
  {
  }

  /** A transfer that was current is answered once Rank many EP0 steps have gone by, in every
      run, whatever the firmware writes in between. */
  lemma TransferIsAnswered(r: Run)
    requires HostInv(Start(r).host) && Start(r).host.cur.Some?
    requires Ep0Steps(r) >= Rank(Start(r).host)
    ensures Answered(Start(r).host, End(r).host)
  {
    RankRunsOut(r);
    if !Answered(Start(r).host, End(r).host) { RankPositive(End(r).host); }
  }

  /** A transfer just taken off the queue has exactly Bound as its rank. */
  lemma StartedRank(b: Bus)
    requires HostInv(b.host) && b.host.phase.Advance? && !Step(b).fault && Step(b).bus.host.phase.Transfer()
    ensures var h := Step(b).bus.host;
            b.host.queue != [] && h.cur == Some(b.host.queue[0]) && Rank(h) == Bound(b.host.queue[0])
  {
    hide Look, Deliver, DriveUsb, DriveMem;
    var b0 := b.(host := b.host.(pendingIrq := false));
    StartRank(b0.host, Look(b0, Target(b0)), Target(b0));
  }

  lemma StartRank(h: HostState, s: Seen, ep: nat)
    requires HostInv(h) && h.phase.Advance? && Decide(h, s, ep).host.phase.Transfer()
    ensures var h' := Decide(h, s, ep).host;
            h.queue != [] && h'.cur == Some(h.queue[0]) && Rank(h') == Bound(h.queue[0])
  {
  }

  // ----- what it takes to report a stall -----

  /** An EP0 step that leaves the transfer in its stage: same phase, no packet moved. */
  predicate Stays(b: Bus) {
    && b.host.phase.Transfer() && Step(b).bus.host.phase == b.host.phase
    && Step(b).bus.usb.epr[0] == b.usb.epr[0]
  }

  /** What EP0 was seen to be in by each step since the current stage was entered (each IN
      packet enters its stage anew). */
  function Observed(r: Run): seq<Stat> {
    match r
    case Init(_) => []
    case Next(before, e) =>
      if !e.HostStep? || Preempted(End(before)) then Observed(before)
      else if Stays(End(before)) then Observed(before) + [StageStat(End(before))] else []
  }

  /** How many of those steps did not fail. */
  function Waited(r: Run): nat {
    match r
    case Init(_) => 0
    case Next(before, e) =>
      if !e.HostStep? || Preempted(End(before)) then Waited(before)
      else if Stays(End(before)) then Waited(before) + (if Step(End(before)).fault then 0 else 1) else 0
  }

  /** Length of the run of STALLs at the end. */
  function TrailingStalls(s: seq<Stat>): nat {
    if s == [] || !s[|s| - 1].Stall? then 0 else 1 + TrailingStalls(s[..|s| - 1])
  }

  lemma TrailingAppend(s: seq<Stat>, stat: Stat)
    ensures TrailingStalls(s + [stat]) == if stat.Stall? then TrailingStalls(s) + 1 else 0
  {
    assert (s + [stat])[..|s|] == s;
  }

  /** One EP0 step of a transfer stage, in terms of the counters: the transfer is reported
      stalled iff the STALL run has reached its patience, or patience ran out with EP0 not
      ready; else it makes progress (counters at zero), or counts one more fruitless step. */
  ghost predicate StageCounted(h: HostState, h': HostState, stat: Stat, busy: bool) {
    var run := if stat.Stall? then h.stallSeen + 1 else 0;
    && (h'.stalls == h.stalls + 1 || h'.stalls == h.stalls)
    && (h'.stalls == h.stalls + 1
        <==> run >= STALL_PATIENCE || (h.stageSteps + 1 > STEP_PATIENCE && (busy || !stat.Valid?)))
    && (h'.cur.Some? ==>
          || (h'.stageSteps == 0 && h'.stallSeen == 0)
          || (h'.stageSteps == h.stageSteps + 1 && h'.stallSeen == run))
  }

  lemma ControlCounts(h: HostState, s: Seen)
    requires HostInv(h) && h.phase.Transfer() && !ControlMove(h, s).fault
    ensures var stat := if h.phase.DataIn? || h.phase.StatusIn? then s.ep0.statTx else s.ep0.statRx;
            var m := ControlMove(h, s);
            && StageCounted(h, m.host, stat, s.ep0.Busy())
            && (m.host.phase.Transfer() ==>
                  (m.host.stageSteps == h.stageSteps + 1 <==> m.host.phase == h.phase && m.wire.Quiet?))
  {
    hide StartMove, StageMove, StageCounted;
    match h.phase
    case DataIn => StageCounts(h, s, s.ep0.statTx, DataInProceeds(h, s));
    case DataOut => StageCounts(h, s, s.ep0.statRx, DataOutProceeds(h, s));
    case StatusOut => StageCounts(h, s, s.ep0.statRx, StatusOutProceeds(h, s));
    case StatusIn => StageCounts(h, s, s.ep0.statTx, StatusInProceeds(h, s));
  }

  lemma StageCounts(h: HostState, s: Seen, stat: Stat, proceed: Move)
    requires HostInv(h) && h.phase.Transfer() && !StageMove(h, s, stat, proceed).fault
    requires stat.Valid? && !proceed.fault ==>
               && proceed.host.stalls == h.stalls && !proceed.wire.Quiet?
               && (proceed.host.cur.Some? ==> proceed.host.stageSteps == proceed.host.stallSeen == 0)
               && (proceed.host.phase.Transfer() ==> proceed.host.cur.Some?)
    ensures var m := StageMove(h, s, stat, proceed);
            && StageCounted(h, m.host, stat, s.ep0.Busy())
            && (m.host.phase.Transfer() ==>
                  (m.host.stageSteps == h.stageSteps + 1 <==> m.host.phase == h.phase && m.wire.Quiet?))
  {
  }

  /** Whether the transfer stays in its stage shows on the wire and in the counter alike. */
  lemma StepCounts(b: Bus)
    requires HostInv(b.host) && b.host.phase.Transfer() && !Step(b).fault && !Preempted(b)
    ensures StageCounted(b.host, Step(b).bus.host, StageStat(b), b.usb.epr[0].Busy())
    ensures Step(b).bus.host.phase.Transfer() ==> (Step(b).bus.host.stageSteps == b.host.stageSteps + 1 <==> Stays(b))
  {
    hide ControlMove, Look, Deliver, DriveMem;
    var b0 := b.(host := b.host.(pendingIrq := false));
    ControlCounts(b0.host, Look(b0, 0));
    DecideDrives(b0.host, Look(b0, 0), 0);
    var w := ControlMove(b0.host, Look(b0, 0)).wire;
    assert w.BusReset? ==> false by { NoResetInTransfer(b0.host, Look(b0, 0)); }
  }

  lemma NoResetInTransfer(h: HostState, s: Seen)
    requires h.phase.Transfer()
    ensures !ControlMove(h, s).wire.BusReset?
  {
  }

  /** Steps outside a transfer, and preempted ones, keep or clear the counters. */
  lemma OtherCounts(b: Bus)
    requires HostInv(b.host) && (Preempted(b) || !b.host.phase.Transfer())
    ensures var h, h' := b.host, Step(b).bus.host;
            && h'.stalls == h.stalls
            && (Preempted(b) ==> h'.phase == h.phase && h'.stageSteps == h.stageSteps && h'.stallSeen == h.stallSeen)
            && (!Preempted(b) && h'.phase.Transfer() ==> h'.stageSteps == 0 && h'.stallSeen == 0)
  {
    hide Look, Deliver, DriveUsb, DriveMem, DataInMove, DataOutMove, StatusOutMove, StatusInMove;
  }

  /** In every run in which no start failed, within a transfer, the two counters are what was
      observed since the stage was entered: how many steps, and how many STALLs in a row at the
      end. */
  lemma {:induction false} CountersAreObservations(r: Run)
    requires HostInv(Start(r).host) && Start(r).host.cur.None? && NoFailedStart(r)
    ensures End(r).host.phase.Transfer() ==>
              && End(r).host.stageSteps == Waited(r)
              && End(r).host.stallSeen == TrailingStalls(Observed(r))
  {
    hide Step, AfterHwWrite, CpuWrite, TrailingStalls, Stays;
    match r
    case Init(_) =>
    case Next(before, e) =>
      CountersAreObservations(before);
      ShapeHolds(before);
      ShapeHolds(r);
      if e.HostStep? {
        var b := End(before);
        EmptyTrail();
        TrailingAppend(Observed(before), StageStat(b));
        if Preempted(b) || !b.host.phase.Transfer() { OtherCounts(b); StaysOnlyInTransfer(b); }
        else if Step(b).fault { FaultWaits(b); }
        else { StepCounts(b); }
      }
  }

  lemma EmptyTrail()
    ensures TrailingStalls([]) == 0
  {
  }

  lemma StaysOnlyInTransfer(b: Bus)
    ensures Stays(b) ==> b.host.phase.Transfer()
  {
  }

  /** A step that fails within a transfer stays in its stage, and has seen no STALL. */
  lemma FaultWaits(b: Bus)
    requires HostInv(b.host) && b.host.phase.Transfer() && !Preempted(b) && Step(b).fault
    ensures Stays(b) && StageStat(b).Valid? && !b.usb.epr[0].Busy()
    ensures var h, h' := b.host, Step(b).bus.host;
            h'.stageSteps == h.stageSteps && h'.stallSeen == 0 && h'.stalls == h.stalls
  {
    FaultKeeps(b);
    hide Look, Deliver, DriveUsb, DriveMem, Finish, Accept;
  }

  /** A step reports its transfer stalled exactly when, counting this step's observation, the
      device showed STALL in the stage's direction on the last 24 steps of the stage running, or
      has let more than 4000 steps of the stage pass and is still not ready. */
  lemma StallNeedsEvidence(r: Run)
    requires HostInv(Start(r).host) && Start(r).host.cur.None? && NoFailedStart(r)
    ensures var b := End(r);
            Step(b).bus.host.stalls > b.host.stalls
            <==> b.host.phase.Transfer() && !Preempted(b)
                 && (TrailingStalls(Observed(r) + [StageStat(b)]) >= STALL_PATIENCE
                     || (Waited(r) + 1 > STEP_PATIENCE && (b.usb.epr[0].Busy() || !StageStat(b).Valid?)))
  {
    hide Step, TrailingStalls, Stays;
    var b := End(r);
    CountersAreObservations(r);
    ShapeHolds(r);
    TrailingAppend(Observed(r), StageStat(b));
    if Preempted(b) || !b.host.phase.Transfer() { OtherCounts(b); }
    else if Step(b).fault { FaultWaits(b); }
    else { StepCounts(b); }
  }
}
