/** How long a waiting transfer may have to wait, and the one way it can wait for ever. */
module HostQueue {
  import opened Prelude
  import opened EndpointRegister
  import opened UsbBlock
  import opened UsbHostModel
  import opened HostRuns
  import opened HostProgress

  // ----- every waiting transfer is answered, within a bound -----

  /** Transfers not yet answered. */
  function Pending(h: HostState): nat {
    (if h.cur.Some? then 1 else 0) + |h.queue|
  }

  /** For each transfer the step that starts it, and the bound it is answered within. */
  function Bounds(q: seq<Xfer>): nat {
    if q == [] then 0 else 1 + Bound(q[0]) + Bounds(q[1..])
  }

  /** Steps left at most until m more transfers have been answered. */
  function Work(h: HostState, m: nat): int
    requires m <= Pending(h)
  {
    if m == 0 then 0
    else if h.cur.Some? then Rank(h) + Bounds(h.queue[..m - 1])
    else (if h.phase.Idle? then 1 else 0) + Bounds(h.queue[..m])
  }

  /** A host step that is EP0's turn, does not fail, and does not find the host waiting, between
      two transfers, for the firmware to clear EP0's flag. */
  predicate Effective(b: Bus) {
    !Preempted(b) && !Step(b).fault && !(b.host.phase.Advance? && b.usb.epr[0].Busy())
  }

  function EffectiveSteps(r: Run): nat {
    match r
    case Init(_) => 0
    case Next(before, e) => EffectiveSteps(before) + if e.HostStep? && Effective(End(before)) then 1 else 0
  }

  function AnswerCount(h: HostState): nat {
    |RespTags(h.published)|
  }

  /** An idle host takes up a queued transfer with its next EP0 step. */
  lemma IdleWakes(b: Bus)
    requires b.host.phase.Idle? && !Preempted(b)
    ensures Step(b).bus.host.phase == (if b.host.queue != [] then Advance else Idle)
    ensures Step(b).bus.host.queue == b.host.queue && Step(b).bus.host.cur == b.host.cur && !Step(b).fault
    ensures Step(b).bus.host.published == b.host.published
  {
    hide Look, Deliver, DriveUsb, DriveMem;
  }

  /** Between two transfers: with EP0's flag set the host waits, however often its patience runs
      out; with it clear, the first transfer waiting is started, or the host is idle. */
  lemma AdvanceGoesOn(b: Bus)
    requires HostInv(b.host) && b.host.phase.Advance? && !Preempted(b) && !StartFails(b)
    ensures var h, h' := b.host, Step(b).bus.host;
            && h'.published == h.published && !Step(b).fault
            && if b.usb.epr[0].Busy() then h'.queue == h.queue && h'.cur.None? && (h.queue != [] ==> h'.phase.Advance?)
               else if h.queue == [] then h'.phase.Idle? && h'.queue == [] && h'.cur.None?
               else h'.queue == h.queue[1..] && h'.cur == Some(h.queue[0]) && h'.phase == FirstPhase(h.queue[0])
                    && h'.stageSteps == 0
  {
    hide Look, Deliver, DriveUsb, DriveMem, FirstPhase;
  }

  /** A step that was pre-empted or failed leaves the line as it was. */
  lemma PassedOver(b: Bus)
    requires HostInv(b.host) && !b.host.phase.Setup() && (Preempted(b) || Step(b).fault) && !StartFails(b)
    ensures var h, h' := b.host, Step(b).bus.host;
            && h'.queue == h.queue && h'.cur == h.cur && h'.phase == h.phase && h'.stageSteps == h.stageSteps
            && RespTags(h'.published) == RespTags(h.published)
  {
    if Step(b).fault {
      FaultKeeps(b);
    } else {
      hide Deliver, DriveUsb, DriveMem, RespTags;
      var b0 := b.(host := b.host.(pendingIrq := false));
      RespTagsAppend(b.host.published, Report(Target(b0), Look(b0, Target(b0)).packet));
    }
  }

  lemma FreshRank(h: HostState, x: Xfer)
    requires x.data == [] && h.cur == Some(x) && h.phase == FirstPhase(x) && h.stageSteps == 0
    ensures Rank(h) == Bound(x)
  {
  }

  lemma BoundsFrom(q: seq<Xfer>, m: nat)
    requires 0 < m <= |q|
    ensures Bounds(q[..m]) == 1 + Bound(q[0]) + Bounds(q[1..][..m - 1])
  {
    assert q[..m][1..] == q[1..][..m - 1];
  }

  /** One host step: it answers one transfer, or none; and an effective one uses up work. */
  lemma StepWorks(b: Bus, m: nat)
    requires HostInv(b.host) && !b.host.phase.Setup() && !StartFails(b) && 1 <= m <= Pending(b.host)
    ensures var h, h' := b.host, Step(b).bus.host;
            var spent := if Effective(b) then 1 else 0;
            && HostInv(h') && !h'.phase.Setup()
            && if AnswerCount(h') == AnswerCount(h)
               then m <= Pending(h') && Work(h', m) + spent <= Work(h, m)
               else AnswerCount(h') == AnswerCount(h) + 1 && m - 1 <= Pending(h') && Work(h', m - 1) + spent <= Work(h, m)
  {
    hide Step, RespTags, Rank, HostInv, Bounds;
    var h, h' := b.host, Step(b).bus.host;
    StepKeepsShape(b);
    SetupGoesOn(b);
    CurIffTransfer(h);
    if h.cur.Some? {
      StepProgress(b);
      if Preempted(b) || Step(b).fault {
        PassedOver(b);
        SameRank(h, h');
      } else {
        RankPositive(h);
        if Answers(h, h') { AnsweredWorks(h, h', m); } else { UnderwayWorks(h, h', m); }
      }
    } else if Preempted(b) || Step(b).fault {
      PassedOver(b);
    } else if h.phase.Idle? {
      IdleWakes(b);
    } else {
      AdvanceGoesOn(b);
      if !b.usb.epr[0].Busy() {
        FreshInQueue(h);
        FreshRank(h', h.queue[0]);
        BoundsFrom(h.queue, m);
      }
    }
  }

  lemma AnsweredWorks(h: HostState, h': HostState, m: nat)
    requires Progress(h, h') && Answers(h, h') && 1 <= m <= Pending(h) && Rank(h) >= 1
    ensures AnswerCount(h') == AnswerCount(h) + 1 && m - 1 <= Pending(h') && Work(h', m - 1) + 1 <= Work(h, m)
  {
    hide RespTags, Rank, Bounds;
  }

  lemma UnderwayWorks(h: HostState, h': HostState, m: nat)
    requires Progress(h, h') && !Answers(h, h') && 1 <= m <= Pending(h)
    ensures AnswerCount(h') == AnswerCount(h) && m <= Pending(h') && Work(h', m) + 1 <= Work(h, m)
  {
    hide RespTags, Rank, Bounds;
  }

  lemma CurIffTransfer(h: HostState)
    requires HostInv(h) && !h.phase.Setup()
    ensures h.cur.Some? <==> h.phase.Transfer()
    ensures h.cur.None? ==> h.phase.Idle? || h.phase.Advance?
  {
  }

  lemma FreshInQueue(h: HostState)
    requires HostInv(h) && h.queue != []
    ensures h.queue[0].data == []
  {
  }

  lemma SameRank(h: HostState, h': HostState)
    requires h.cur.Some? && h'.cur == h.cur && h'.phase == h.phase && h'.stageSteps == h.stageSteps
    ensures Rank(h') == Rank(h)
  {
  }

  /** Any other event at most adds to the queue. */
  lemma RequestWorks(b: Bus, e: BusEvent, m: nat)
    requires HostInv(b.host) && !e.HostStep? && m <= Pending(b.host)
    ensures var h, h' := b.host, Apply(b, e).host;
            && HostInv(h') && h'.phase == h.phase && h'.published == h.published
            && m <= Pending(h') && Work(h', m) == Work(h, m)
  {
    hide AfterHwWrite, CpuWrite, Bounds;
    var h, h' := b.host, Apply(b, e).host;
    assert h'.queue[..|h.queue|] == h.queue;
    assert m <= |h.queue| ==> h'.queue[..m] == h.queue[..m];
    assert 1 <= m && m - 1 <= |h.queue| ==> h'.queue[..m - 1] == h.queue[..m - 1];
  }

  /** From any state after enumeration, in every run in which no start fails: either m transfers
      have been answered since, or every effective step has used up some of the work. */
  lemma {:induction false} WorkRunsOut(r: Run, m: nat)
    requires HostInv(Start(r).host) && !Start(r).host.phase.Setup() && NoFailedStart(r)
    requires m <= Pending(Start(r).host)
    ensures var h0, h := Start(r).host, End(r).host;
            var n := AnswerCount(h) - AnswerCount(h0);
            && HostInv(h) && !h.phase.Setup() && n >= 0
            && (n >= m || (m - n <= Pending(h) && Work(h, m - n) + EffectiveSteps(r) <= Work(h0, m)))
  {
    hide Apply, HostInv, StartFails, Effective, Work, Pending, AnswerCount;
    match r
    case Init(_) =>
    case Next(before, e) =>
      WorkRunsOut(before, m);
      EventWorks(End(before), e, m - (AnswerCount(End(before).host) - AnswerCount(Start(r).host)));
  }

  lemma EventWorks(b: Bus, e: BusEvent, left: int)
    requires HostInv(b.host) && !b.host.phase.Setup() && (e.HostStep? ==> !StartFails(b))
    requires left >= 1 ==> left <= Pending(b.host)
    ensures var h, h' := b.host, Apply(b, e).host;
            var spent := if e.HostStep? && Effective(b) then 1 else 0;
            var n := AnswerCount(h') - AnswerCount(h);
            && HostInv(h') && !h'.phase.Setup() && n >= 0
            && (left >= 1 ==> n <= 1 && left - n <= Pending(h') && Work(h', left - n) + spent <= Work(h, left))
  {
    hide Step, HostInv, StartFails, Effective, Work, Pending, RespTags;
    if e.HostStep? {
      StepKeepsShape(b);
      SetupGoesOn(b);
      StepPublishes(b);
      if left >= 1 { StepWorks(b, left); }
    } else {
      RequestWorks(b, e, if left >= 1 then left else 0);
    }
  }

  lemma WorkPositive(h: HostState, m: nat)
    requires HostInv(h) && 1 <= m <= Pending(h)
    ensures Work(h, m) >= 1
  {
    hide HostInv, Rank;
    if h.cur.Some? { RankPositive(h); } else { assert h.queue[..m] != []; }
  }

  /** After as many effective steps as m transfers take at most, m have been answered. */
  lemma EnoughAnswers(r: Run, m: nat)
    requires HostInv(Start(r).host) && !Start(r).host.phase.Setup() && NoFailedStart(r)
    requires m <= Pending(Start(r).host) && EffectiveSteps(r) >= Work(Start(r).host, m)
    ensures AnswerCount(End(r).host) >= AnswerCount(Start(r).host) + m
  {
    hide *;
    WorkRunsOut(r, m);
    var n := AnswerCount(End(r).host) - AnswerCount(Start(r).host);
    if n < m { WorkPositive(End(r).host, m - n); }
  }

  /** The place of the k-th waiting transfer, counting the current one. */
  function Place(h: HostState, k: nat): nat {
    (if h.cur.Some? then 1 else 0) + k + 1
  }

  /** The transfer at place k of the queue is answered, as are those before it, once so many
      effective steps have gone by: what is left of the current one, or the step that wakes an
      idle host, and the start and the bound of each transfer up to it. */
  lemma WaitingIsAnswered(r: Run, k: nat)
    requires HostInv(Start(r).host) && !Start(r).host.phase.Setup() && NoFailedStart(r) && k < |Start(r).host.queue|
    requires EffectiveSteps(r) >= Work(Start(r).host, Place(Start(r).host, k))
    ensures var h := Start(r).host;
            RespTags(h.published) + CurTag(h) + Tags(h.queue[..k + 1]) <= RespTags(End(r).host.published)
  {
    assert Place(Start(r).host, k) <= Pending(Start(r).host);
    hide *;
    EnoughAnswers(r, Place(Start(r).host, k));
    TransfersConserved(r);
    FirstAnswered(Start(r).host, End(r).host, Enqueued(r), k);
  }

  /** What has been answered is a first part of the line, so enough answers include the k-th. */
  lemma FirstAnswered(h: HostState, h': HostState, more: seq<string>, k: nat)
    requires k < |h.queue| && AllTags(h') == AllTags(h) + more
    requires AnswerCount(h') >= AnswerCount(h) + Place(h, k)
    ensures RespTags(h.published) + CurTag(h) + Tags(h.queue[..k + 1]) <= RespTags(h'.published)
  {
    hide RespTags;
    var first := RespTags(h.published) + CurTag(h) + Tags(h.queue[..k + 1]);
    assert Tags(h.queue[..k + 1]) == Tags(h.queue)[..k + 1];
    assert first == AllTags(h')[..|first|];
    assert RespTags(h'.published) == AllTags(h')[..|RespTags(h'.published)|];
  }

  // ----- the one way to wait for ever -----

  /** The host waits between two transfers, and the firmware never clears EP0's flag. */
  predicate NeverServiced(r: Run) {
    End(r).usb.epr[0].Busy() && match r case Init(_) => true case Next(before, _) => NeverServiced(before)
  }

  /** Then nothing is answered and nothing is started, in any run however long. */
  lemma {:induction false} UnservicedStarves(r: Run)
    requires HostInv(Start(r).host) && Start(r).host.phase.Advance? && Start(r).host.queue != [] && NeverServiced(r)
    ensures var h0, h := Start(r).host, End(r).host;
            HostInv(h) && h.phase.Advance? && h.queue != [] && RespTags(h.published) == RespTags(h0.published)
    ensures EffectiveSteps(r) == 0
  {
    hide Step, AfterHwWrite, CpuWrite, HostInv, RespTags;
    match r
    case Init(_) =>
    case Next(before, e) =>
      UnservicedStarves(before);
      var b := End(before);
      if e.HostStep? {
        StepKeepsShape(b);
        if Preempted(b) || Step(b).fault { PassedOver(b); } else { AdvanceGoesOn(b); }
      } else {
        RequestWorks(b, e, 0);
      }
  }
}
