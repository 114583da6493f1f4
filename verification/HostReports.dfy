/** What the host publishes of the interrupt endpoints: every packet it takes, once, in order. */
module HostReports {
  import opened Prelude
  import opened EndpointRegister
  import opened UsbBlock
  import opened UsbHostModel
  import opened HostRuns

  /** The reports among the published lines: endpoint and bytes. */
  function Reports(lines: seq<Line>): seq<(nat, seq<byte>)> {
    if lines == [] then []
    else
      var l := lines[|lines| - 1];
      Reports(lines[..|lines| - 1]) + (if l.Report? then [(l.ep, l.payload)] else [])
  }

  lemma ReportsAppend(lines: seq<Line>, l: Line)
    ensures Reports(lines + [l]) == Reports(lines) + (if l.Report? then [(l.ep, l.payload)] else [])
  {
    assert (lines + [l])[..|lines|] == lines;
  }

  /** A packet has been taken from endpoint `ep`: its CTR_TX has come up. */
  predicate TakenFrom(b: Bus, b': Bus, ep: nat)
    requires ep < 8
  {
    !b.usb.epr[ep].ctrTx && b'.usb.epr[ep].ctrTx
  }

  /** The packet endpoint `ep` lost to this event, unless it was empty. */
  function ReportOf(b: Bus, b': Bus, ep: nat): seq<(nat, seq<byte>)>
    requires ep < 8
  {
    if TakenFrom(b, b', ep) && TxBuffer(b.usb, b.mem, ep) != [] then [(ep, TxBuffer(b.usb, b.mem, ep))] else []
  }

  /** The packets taken from the interrupt endpoints in a run, as they lay in the TX buffers. */
  function PacketsTaken(r: Run): seq<(nat, seq<byte>)> {
    match r
    case Init(_) => []
    case Next(before, e) =>
      var b, b' := End(before), End(r);
      PacketsTaken(before) + ReportOf(b, b', 1) + ReportOf(b, b', 2) + ReportOf(b, b', 3)
  }

  /** In every run the reports published are exactly the packets taken from the three interrupt
      endpoints, in order, each with the bytes that were in its TX buffer: none is lost, none is
      repeated, and nothing else is reported. */
  lemma {:induction false} ReportsAreThePackets(r: Run)
    ensures Reports(End(r).host.published) == Reports(Start(r).host.published) + PacketsTaken(r)
  {
    hide Apply, ReportOf, Reports;
    match r
    case Init(b) =>
      assert Reports(b.host.published) + [] == Reports(b.host.published);
    case Next(before, e) =>
      ReportsAreThePackets(before);
      EventReports(End(before), e);
  }

  lemma EventReports(b: Bus, e: BusEvent)
    ensures var b' := Apply(b, e);
            Reports(b'.host.published)
            == Reports(b.host.published) + ReportOf(b, b', 1) + ReportOf(b, b', 2) + ReportOf(b, b', 3)
  {
    hide Step, Reports, Decode;
    var b' := Apply(b, e);
    if e.HostStep? {
      StepReports(b);
    } else {
      assert forall ep :: 1 <= ep <= 3 ==> !TakenFrom(b, b', ep);
      assert Reports(b.host.published) + [] + [] + [] == Reports(b.host.published);
    }
  }

  lemma StepReports(b: Bus)
    ensures var b' := Step(b).bus;
            Reports(b'.host.published)
            == Reports(b.host.published) + ReportOf(b, b', 1) + ReportOf(b, b', 2) + ReportOf(b, b', 3)
  {
    hide Step, Reports, Fits, TxBuffer;
    var b' := Step(b).bus;
    StepTouchesOne(b);
    if Preempted(b) {
      DrainReports(b);
    } else {
      QuietReports(b);
      assert forall ep :: 1 <= ep <= 3 ==> !TakenFrom(b, b', ep);
    }
  }

  /** A step that goes to an interrupt endpoint, whose descriptor may lie outside packet memory. */
  lemma DrainReports(b: Bus)
    requires Preempted(b)
    ensures var b', ep := Step(b).bus, Target(b);
            && 1 <= ep <= 3 && !b.usb.epr[ep].ctrTx
            && (TakenFrom(b, b', ep) <==> Fits(b.usb, b.mem, ep))
            && Reports(b'.host.published)
               == Reports(b.host.published)
                  + (if Fits(b.usb, b.mem, ep) && TxBuffer(b.usb, b.mem, ep) != [] then [(ep, TxBuffer(b.usb, b.mem, ep))] else [])
  {
    hide Reports, TxBuffer, Fits, PacketOf, DescriptorOpen;
    var b0 := b.(host := b.host.(pendingIrq := false));
    var ep := Target(b);
    if Fits(b.usb, b.mem, ep) { PacketIsTxBuffer(b0, ep); }
    ReportsAppend(b.host.published, Report(ep, TxBuffer(b.usb, b.mem, ep)));
  }

  /** Any other step publishes a RESP line at most. */
  lemma QuietReports(b: Bus)
    requires !Preempted(b)
    ensures Reports(Step(b).bus.host.published) == Reports(b.host.published)
  {
    hide Look, Deliver, DriveUsb, DriveMem, Reports;
    var b0 := b.(host := b.host.(pendingIrq := false));
    DecideReports(b0.host, Look(b0, 0));
  }

  /** Only RESP lines are added. */
  ghost predicate Resps(h: HostState, h': HostState) {
    h'.published == h.published || exists tag, stalled, data :: h'.published == h.published + [Resp(tag, stalled, data)]
  }

  lemma FinishResps(h: HostState, stalled: bool)
    ensures Resps(h, Finish(h, stalled))
  {
    if h.cur.Some? {
      assert Finish(h, stalled).published == h.published + [Resp(h.cur.value.tag, stalled, h.cur.value.data)];
    }
  }

  lemma StageResps(h: HostState, s: Seen, stat: Stat, proceed: Move)
    requires Resps(h, proceed.host)
    ensures Resps(h, StageMove(h, s, stat, proceed).host)
  {
    hide Finish;
    var seen := Observe(h, stat);
    FinishResps(seen, true);
    FinishResps(seen.(stageSteps := seen.stageSteps + 1), true);
  }

  lemma DecideReports(h: HostState, s: Seen)
    ensures Reports(Decide(h, s, 0).host.published) == Reports(h.published)
  {
    hide Finish, StageMove, Resps, Reports;
    var h' := Decide(h, s, 0).host;
    DecideResps(h, s);
    RespsReport(h, h');
  }

  lemma RespsReport(h: HostState, h': HostState)
    requires Resps(h, h')
    ensures Reports(h'.published) == Reports(h.published)
  {
    if h'.published != h.published {
      var tag, stalled, data :| h'.published == h.published + [Resp(tag, stalled, data)];
      ReportsAppend(h.published, Resp(tag, stalled, data));
    }
  }

  lemma SameLines(h: HostState, h': HostState)
    ensures h'.published == h.published ==> Resps(h, h')
  {
  }

  lemma DecideResps(h: HostState, s: Seen)
    ensures Resps(h, Decide(h, s, 0).host)
  {
    hide Finish, StageMove, Resps;
    SameLines(h, Decide(h, s, 0).host);
    if !h.phase.Setup() {
      SameLines(h, DataInProceeds(h, s).host);
      SameLines(h, DataOutProceeds(h, s).host);
      SameLines(h, StatusOutProceeds(h, s).host);
      SameLines(h, StatusInProceeds(h, s).host);
      FinishFrom(h, h.(stageSteps := h.stageSteps + 1), true);
      FinishFrom(h, Observe(h, s.ep0.statRx), false);
      FinishFrom(h, Observe(h, s.ep0.statTx), false);
      StageResps(h, s, s.ep0.statTx, DataInProceeds(h, s));
      StageResps(h, s, s.ep0.statRx, DataOutProceeds(h, s));
      StageResps(h, s, s.ep0.statRx, StatusOutProceeds(h, s));
      StageResps(h, s, s.ep0.statTx, StatusInProceeds(h, s));
    }
  }

  lemma FinishFrom(h: HostState, h': HostState, stalled: bool)
    requires h'.published == h.published
    ensures Resps(h, Finish(h', stalled))
  {
    FinishResps(h', stalled);
  }
}
