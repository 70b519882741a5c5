/** What every run of the capture runtime guarantees: no frame is lost silently, the counters of a take agree, and a
    stop is clean. */
module CaptureRuns {
  import opened Prelude
  import opened Fanout
  import opened TakePath
  import opened Capture
  import ActiveTake
  import SegmentPlanner
  import opened Arithmetic
  import LossAccounting

  /** The state after some run from a freshly started preview. */
  ghost function Reached(decimation: nat, actions: seq<Action>): (s: Runtime)
    requires decimation > 0
    ensures Inv(s)
  {
    InitialInv(decimation);
    Run(Initial(decimation), actions)
  }

  lemma {:induction false} RunKeepsDecimation(s: Runtime, actions: seq<Action>)
    requires Inv(s)
    ensures Run(s, actions).gate.decimation == s.gate.decimation
    decreases actions
  {
    if actions != [] {
      StepKeeps(s, actions[0]);
      StepKeepsDecimation(s, actions[0]);
      RunKeepsDecimation(Step(s, actions[0]), actions[1..]);
    }
  }

  lemma {:induction false} StepKeepsDecimation(s: Runtime, a: Action)
    requires CanStep(s)
    ensures Step(s, a).gate.decimation == s.gate.decimation
    ensures |s.takes| <= |Step(s, a).takes|
  {
  }

  // Stop timestamps

  /** The clock reading an action takes, 0 when it takes none. */
  function ClockOf(a: Action): nat {
    match a
    case Report(now) => now
    case Terminal(now) => now
    case ExitLoop(now) => now
    case ImuReport(now) => now
    case StopBegin(now) => now
    case _ => 0
  }

  /** The stamp carries the clock reading, or the largest instant when the clock could not be read. */
  predicate StampedAt(stopped: nat, now: nat) {
    stopped == (if now == 0 || now > U64_MAX then U64_MAX else now)
  }

  lemma {:induction false} OpenUntilStamped(s: Runtime, id: nat)
    requires Inv(s) && id < |s.takes|
    ensures s.takes[id].stopped == 0 <==> OpenFor(s, id)
  {
    assert TakeInv(s.takes[id], s.gate.decimation, OpenFor(s, id), WorkOn(s.frameThread, id));
  }

  /** What one step may do to the stamp and the admissions of a take: a stamp once set stays, and with it the number of
      admitted frames; it is set exactly when the gate closes, from that step's clock. */
  predicate StampKept(s: Runtime, q: Runtime, a: Action, id: nat)
    requires id < |s.takes|
  {
    && id < |q.takes|
    && (s.takes[id].stopped > 0 ==>
          q.takes[id].stopped == s.takes[id].stopped && q.takes[id].admitted == s.takes[id].admitted)
    && (s.takes[id].stopped == 0 && q.takes[id].stopped > 0 ==>
          OpenFor(s, id) && !Open(q.gate) && StampedAt(q.takes[id].stopped, ClockOf(a)))
  }

  lemma {:induction false} ArriveStamps(s: Runtime, a: Action, id: nat)
    requires Inv(s) && CanStep(s) && id < |s.takes| && a.Arrive?
    ensures StampKept(s, Step(s, a), a, id)
  {
    OpenUntilStamped(s, id);
    if s.frameThread.Idle? {
      ArrivedCases(s, a.sequence, a.host, a.dropped, a.hasPayload || a.raw != [], a.raw);
    }
  }

  lemma {:induction false} ClosingStamps(s: Runtime, a: Action, id: nat)
    requires ControlInv(s) && CanStep(s) && id < |s.takes| && (s.takes[id].stopped == 0 <==> OpenFor(s, id))
    requires a.Report? || a.Terminal? || a.ExitLoop? || a.ImuReport? || a.StopBegin?
    ensures StampKept(s, Step(s, a), a, id)
  {
  }

  lemma {:induction false} OthersDoNotStamp(s: Runtime, a: Action, id: nat)
    requires ControlInv(s) && CanStep(s) && id < |s.takes|
    requires !a.Arrive? && !a.Report? && !a.Terminal? && !a.ExitLoop? && !a.ImuReport? && !a.StopBegin?
    ensures StampKept(s, Step(s, a), a, id)
  {
  }

  lemma {:induction false} StampStep(s: Runtime, a: Action, id: nat)
    requires Inv(s) && CanStep(s) && id < |s.takes|
    ensures StampKept(s, Step(s, a), a, id)
  {
    OpenUntilStamped(s, id);
    if a.Arrive? {
      ArriveStamps(s, a, id);
    } else if a.Report? || a.Terminal? || a.ExitLoop? || a.ImuReport? || a.StopBegin? {
      ClosingStamps(s, a, id);
    } else {
      OthersDoNotStamp(s, a, id);
    }
  }

  /** The stop timestamp is written once, and no frame is admitted after the gate has closed. */
  lemma {:induction false} StampSticks(s: Runtime, actions: seq<Action>, id: nat)
    requires Inv(s) && id < |s.takes| && s.takes[id].stopped > 0
    ensures var q := Run(s, actions);
            id < |q.takes| && q.takes[id].stopped == s.takes[id].stopped && q.takes[id].admitted == s.takes[id].admitted
    decreases actions
  {
    if actions != [] {
      StepKeeps(s, actions[0]);
      StampStep(s, actions[0], id);
      StampSticks(Step(s, actions[0]), actions[1..], id);
    }
  }

  /** The step that closes the gate of an open take in a run: the first one. */
  ghost function Closer(s: Runtime, actions: seq<Action>, id: nat): (k: nat)
    requires Inv(s) && id < |s.takes|
    ensures k <= |actions|
    decreases actions
  {
    if actions == [] || s.takes[id].stopped > 0 then 0
    else
      StepKeeps(s, actions[0]);
      StepKeepsDecimation(s, actions[0]);
      if Step(s, actions[0]).takes[id].stopped > 0 then 0
      else 1 + Closer(Step(s, actions[0]), actions[1..], id)
  }

  /** Whatever the threads do, the stop timestamp of a take is the clock reading of the earliest step that closes its
      gate: before that step the gate is open, and the stamp never changes after it. */
  lemma {:induction false} EarliestCloserStamps(s: Runtime, actions: seq<Action>, id: nat)
    requires Inv(s) && id < |s.takes| && s.takes[id].stopped == 0
    ensures var k, q := Closer(s, actions, id), Run(s, actions);
            && id < |q.takes|
            && (q.takes[id].stopped > 0 <==> k < |actions|)
            && (k < |actions| ==> StampedAt(q.takes[id].stopped, ClockOf(actions[k])))
            && OpenFor(Run(s, actions[..k]), id)
    decreases actions
  {
    OpenUntilStamped(s, id);
    if actions != [] {
      StepKeeps(s, actions[0]);
      StampStep(s, actions[0], id);
      var q := Step(s, actions[0]);
      if q.takes[id].stopped > 0 {
        StampSticks(q, actions[1..], id);
      } else {
        EarliestCloserStamps(q, actions[1..], id);
        var k := Closer(q, actions[1..], id);
        assert actions[..k + 1][1..] == actions[1..][..k];
      }
    }
  }

  // No silent loss

  /** Nothing will be written to the take any more: a frame of it failed, the frame in work owns a gap, its gate is
      closed with no frame in work, or the frame thread is on its way out. */
  ghost predicate Doomed(s: Runtime, id: nat)
    requires id < |s.takes|
  {
    || s.frameThread.Failing? || s.frameThread.Exited?
    || s.takes[id].failed
    || (s.frameThread.Writing? && s.frameThread.take == id
        && s.frameThread.job.gap != 0 && s.frameThread.job.stage.ToReserve?)
    || (!OpenFor(s, id) && !(s.frameThread.Writing? && s.frameThread.take == id))
  }

  /** The take is written to no more: reservations, planned and encoded frames and rows are as before. Only segments
      of frames that are already there may still be registered. */
  predicate Frozen(s: Runtime, q: Runtime, id: nat)
    requires id < |s.takes|
  {
    |s.takes| <= |q.takes| && SameFrames(s.takes[id].files, q.takes[id].files)
  }

  ghost predicate StaysDoomed(s: Runtime, q: Runtime, id: nat)
    requires id < |s.takes|
  {
    Frozen(s, q, id) && Doomed(q, id)
  }

  /** A frame that owns a gap is refused before anything is reserved for it. */
  lemma {:induction false} GapIsRefused(d: Files, job: Job, answer: Answer)
    requires d.planner.segmentFrames > 0 && job.stage.ToReserve? && job.gap != 0
    ensures WriteStep(d, job, answer).0 == d
    ensures WriteStep(d, job, answer).1.Done? && WriteStep(d, job, answer).1.result.Err?
  {
  }

  lemma {:induction false} DoomedWrite(s: Runtime, answer: Answer, id: nat)
    requires Inv(s) && CanStep(s) && s.frameThread.Writing? && id < |s.takes| && Doomed(s, id)
    ensures StaysDoomed(s, Wrote(s, answer), id)
  {
    var current, job := s.frameThread.take, s.frameThread.job;
    assert TakeInv(s.takes[current], s.gate.decimation, OpenFor(s, current), WorkOn(s.frameThread, current));
    if current == id {
      GapIsRefused(s.takes[id].files, job, answer);
    }
  }

  lemma {:induction false} DoomedArrive(s: Runtime, a: Action, id: nat)
    requires Inv(s) && CanStep(s) && a.Arrive? && id < |s.takes| && Doomed(s, id)
    ensures StaysDoomed(s, Step(s, a), id)
  {
    if s.frameThread.Idle? {
      ArrivedCases(s, a.sequence, a.host, a.dropped, a.hasPayload || a.raw != [], a.raw);
    }
  }

  lemma {:induction false} DoomedClose(s: Runtime, a: Action, id: nat)
    requires ControlInv(s) && CanStep(s) && id < |s.takes| && Doomed(s, id)
    requires a.Report? || a.Terminal? || a.ExitLoop? || a.ImuReport? || a.StopBegin?
    ensures StaysDoomed(s, Step(s, a), id)
  {
    var q := Step(s, a);
    assert q.takes[id].files == s.takes[id].files && q.takes[id].failed == s.takes[id].failed;
  }

  lemma {:induction false} DoomedFinish(s: Runtime, a: Action, id: nat)
    requires ControlInv(s) && CanStep(s) && id < |s.takes| && Doomed(s, id)
    requires a.FinishFrame? || a.Start? || a.RegisterSegment?
    ensures StaysDoomed(s, Step(s, a), id)
  {
  }

  lemma {:induction false} DoomedElsewhere(s: Runtime, a: Action, id: nat)
    requires ControlInv(s) && CanStep(s) && id < |s.takes| && Doomed(s, id)
    requires a.ImuAlarm? || a.ImuExit? || a.StopDrain? || a.StopJoin?
    ensures StaysDoomed(s, Step(s, a), id)
  {
  }

  lemma {:induction false} DoomedStep(s: Runtime, a: Action, id: nat)
    requires Inv(s) && CanStep(s) && id < |s.takes| && Doomed(s, id)
    ensures StaysDoomed(s, Step(s, a), id)
  {
    if a.Arrive? {
      DoomedArrive(s, a, id);
    } else if a.Write? && s.frameThread.Writing? {
      DoomedWrite(s, a.answer, id);
    } else if a.Report? || a.Terminal? || a.ExitLoop? || a.ImuReport? || a.StopBegin? {
      DoomedClose(s, a, id);
    } else if a.FinishFrame? || a.Start? || a.RegisterSegment? {
      DoomedFinish(s, a, id);
    } else if !a.Write? {
      DoomedElsewhere(s, a, id);
    }
  }

  /** A doomed take is never written to again, whatever the threads do. */
  lemma {:induction false} DoomedForever(s: Runtime, actions: seq<Action>, id: nat)
    requires Inv(s) && id < |s.takes| && Doomed(s, id)
    ensures StaysDoomed(s, Run(s, actions), id)
    decreases actions
  {
    if actions != [] {
      StepKeeps(s, actions[0]);
      DoomedStep(s, actions[0], id);
      DoomedForever(Step(s, actions[0]), actions[1..], id);
    }
  }

  /** The frame is not the direct successor of the last one, or frames were rejected in front of it. */
  predicate Gap(s: Runtime, a: Action)
    requires a.Arrive?
  {
    a.dropped > 0 || s.validator.lastSequence != Some(a.sequence - 1)
  }

  /** A gap after the first frame of a take dooms the take, on the decimation grid or off it. */
  lemma {:induction false} GapDooms(s: Runtime, a: Action)
    requires Inv(s) && CanStep(s) && a.Arrive? && s.frameThread.Idle?
    requires Open(s.gate) && s.gate.recording.value.observed > 0 && Gap(s, a)
    ensures s.takes != [] && StaysDoomed(s, Step(s, a), |s.takes| - 1)
  {
    var id := |s.takes| - 1;
    assert s.recording == Some(id);
    assert TakeInv(s.takes[id], s.gate.decimation, OpenFor(s, id), WorkOn(s.frameThread, id));
    ArrivedCases(s, a.sequence, a.host, a.dropped, a.hasPayload || a.raw != [], a.raw);
    GapReachesTheTake(s, a);
  }

  /** The gate never lets a gap pass unrecorded while a take is open. */
  lemma {:induction false} GapReachesTheTake(s: Runtime, a: Action)
    requires Inv(s) && CanStep(s) && a.Arrive? && s.frameThread.Idle?
    requires Open(s.gate) && s.gate.recording.value.observed > 0 && Gap(s, a)
    ensures var t := Step(s, a).frameThread;
            t.Failing? || (t.Writing? && t.job.gap != 0 && t.job.stage.ToReserve? && t.take + 1 == |s.takes|)
  {
  }

  /** The frame thread is on its way to close the gate of the take: it holds the refused frame, has it behind it and is
      about to report it, or is about to raise a terminal error. */
  predicate OnItsWay(s: Runtime, id: nat) {
    match s.frameThread
    case Writing(take, job) => take == id && job.gap != 0 && job.stage.ToReserve?
    case Written(take, ok) => take == id && !ok
    case Reporting => true
    case Failing => true
    case _ => false
  }

  lemma {:induction false} OnItsWayStep(s: Runtime, a: Action, id: nat)
    requires Inv(s) && CanStep(s) && OpenFor(s, id) && OnItsWay(s, id)
    ensures var q := Step(s, a);
            && q.callbacks >= s.callbacks
            && if OpenFor(q, id) then OnItsWay(q, id)
               else a.StopBegin? || q.callbacks > s.callbacks
  {
    if a.Write? && s.frameThread.Writing? {
      GapIsRefused(s.takes[id].files, s.frameThread.job, a.answer);
    }
  }

  /** What the gap owes: the gate is closed, or the frame thread is on its way to close it; unless a stop began, closing
      it costs a callback. */
  ghost predicate Owed(s: Runtime, id: nat, stopped: bool, callbacks: nat) {
    && id < |s.takes|
    && if OpenFor(s, id) then OnItsWay(s, id) && s.callbacks >= callbacks
       else stopped || s.callbacks > callbacks
  }

  lemma {:induction false} CallbacksGrow(s: Runtime, a: Action)
    requires CanStep(s)
    ensures Step(s, a).callbacks >= s.callbacks
  {
  }

  lemma {:induction false} OwedStep(s: Runtime, a: Action, id: nat, stopped: bool, callbacks: nat)
    requires Inv(s) && CanStep(s) && Owed(s, id, stopped, callbacks)
    ensures Inv(Step(s, a)) && Owed(Step(s, a), id, stopped || a.StopBegin?, callbacks)
  {
    StepKeeps(s, a);
    StepKeepsDecimation(s, a);
    CallbacksGrow(s, a);
    if OpenFor(s, id) {
      OnItsWayStep(s, a, id);
    } else {
      StampStep(s, a, id);
      OpenUntilStamped(s, id);
      OpenUntilStamped(Step(s, a), id);
    }
  }

  predicate StopBegins(actions: seq<Action>) {
    exists i :: 0 <= i < |actions| && actions[i].StopBegin?
  }

  lemma {:induction false} OwedForever(s: Runtime, actions: seq<Action>, id: nat, stopped: bool, callbacks: nat)
    requires Inv(s) && Owed(s, id, stopped, callbacks)
    ensures Owed(Run(s, actions), id, stopped || StopBegins(actions), callbacks)
    decreases actions
  {
    if actions != [] {
      var a, rest := actions[0], actions[1..];
      StepKeeps(s, a);
      OwedStep(s, a, id, stopped, callbacks);
      OwedForever(Step(s, a), rest, id, stopped || a.StopBegin?, callbacks);
      if StopBegins(rest) {
        var i :| 0 <= i < |rest| && rest[i].StopBegin?;
        assert actions[i + 1].StopBegin?;
      }
    }
  }

  /** A gap that ended the take is announced by the time the frame thread is idle again or gone: the gate is closed, the
      take carries its stop timestamp, and the failure callback has been called unless the controller had begun a stop
      itself. */
  predicate Announced(s: Runtime, q: Runtime, id: nat, stopBegan: bool)
    requires id < |q.takes|
  {
    q.frameThread.Idle? || q.frameThread.Exited? ==>
      !OpenFor(q, id) && q.takes[id].stopped > 0 && (!stopBegan ==> q.callbacks > s.callbacks)
  }

  lemma {:induction false} GapLeavesOpen(s: Runtime, a: Action)
    requires Inv(s) && CanStep(s) && a.Arrive? && s.frameThread.Idle? && Open(s.gate)
    ensures var q := Step(s, a); Open(q.gate) && |q.takes| == |s.takes| && q.callbacks == s.callbacks
  {
    ArrivedCases(s, a.sequence, a.host, a.dropped, a.hasPayload || a.raw != [], a.raw);
  }

  lemma {:induction false} StaysFrozen(s: Runtime, q: Runtime, t: Runtime, id: nat)
    requires id < |s.takes| && Frozen(s, q, id) && Frozen(q, t, id)
    ensures Frozen(s, t, id)
  {
  }

  /** A gap ended the take: nothing more is written to it, and its end is announced. */
  ghost predicate EndedByGap(s: Runtime, q: Runtime, stopBegan: bool) {
    s.takes != [] && Frozen(s, q, |s.takes| - 1) && Announced(s, q, |s.takes| - 1, stopBegan)
  }

  /** What the step in which the gap arrives leaves behind. */
  ghost predicate GapArrived(s: Runtime, q: Runtime) {
    Inv(q) && s.takes != [] && StaysDoomed(s, q, |s.takes| - 1) && Owed(q, |s.takes| - 1, false, s.callbacks)
  }

  lemma {:induction false} GapArrives(s: Runtime, a: Action)
    requires Inv(s) && a.Arrive? && s.frameThread.Idle?
    requires Open(s.gate) && s.gate.recording.value.observed > 0 && Gap(s, a)
    ensures CanStep(s) && GapArrived(s, Step(s, a))
  {
    StepKeeps(s, a);
    GapDooms(s, a);
    GapReachesTheTake(s, a);
    GapLeavesOpen(s, a);
  }

  lemma {:induction false} ArrivedGapEnds(s: Runtime, q: Runtime, after: seq<Action>)
    requires GapArrived(s, q)
    ensures EndedByGap(s, Run(q, after), StopBegins(after))
  {
    var id := |s.takes| - 1;
    DoomedForever(q, after, id);
    StaysFrozen(s, q, Run(q, after), id);
    OwedForever(q, after, id, false, s.callbacks);
    OpenUntilStamped(Run(q, after), id);
  }

  /** No frame is lost silently: a gap at any point of any run ends the take it falls into, before another row is
      reserved, for every continuation, and the end is announced. */
  lemma {:induction false} NoSilentLoss(decimation: nat, before: seq<Action>, a: Action, after: seq<Action>)
    requires decimation > 0 && a.Arrive?
    requires var s := Reached(decimation, before);
             s.frameThread.Idle? && Open(s.gate) && s.gate.recording.value.observed > 0 && Gap(s, a)
    ensures var s := Reached(decimation, before);
            CanStep(s) && Inv(Step(s, a)) && EndedByGap(s, Run(Step(s, a), after), StopBegins(after))
  {
    GapArrives(Reached(decimation, before), a);
    ArrivedGapEnds(Reached(decimation, before), Step(Reached(decimation, before), a), after);
  }

  /** The rows of every take lie on its decimation grid, at strictly rising times and at their places in the segments,
      in every state of every run. */
  lemma {:induction false} RowsAreOnTheGrid(decimation: nat, actions: seq<Action>, id: nat, i: nat)
    requires decimation > 0
    requires id < |Reached(decimation, actions).takes| && i < |Reached(decimation, actions).takes[id].files.rows|
    ensures var files := Reached(decimation, actions).takes[id].files;
            && files.planner.segmentFrames > 0
            && files.rows[i].source == files.rows[0].source + i * decimation
            && files.rows[i].frame == i
            && files.rows[i].segmentIndex == i / files.planner.segmentFrames
            && files.rows[i].segmentFrame == i % files.planner.segmentFrames
            && forall j :: 0 <= j < i ==> files.rows[j].host < files.rows[i].host
  {
    var s := Reached(decimation, actions);
    RunKeepsDecimation(Initial(decimation), actions);
    assert TakeInv(s.takes[id], s.gate.decimation, OpenFor(s, id), WorkOn(s.frameThread, id));
  }

  /** Nothing on the grid is missing either: while a take is open and has not failed, every grid frame up to the last
      one delivered has its row. */
  lemma {:induction false} EveryGridFrameIsWritten(decimation: nat, actions: seq<Action>)
    requires decimation > 0
    requires var s := Reached(decimation, actions);
             Open(s.gate) && s.frameThread.Idle? && s.gate.recording.value.observed > 0
    ensures var s := Reached(decimation, actions);
            s.takes != [] && s.takes[|s.takes| - 1].files.rows != []
            && var rows := s.takes[|s.takes| - 1].files.rows;
               s.validator.lastSequence.Some?
               && var behind := s.validator.lastSequence.value - rows[|rows| - 1].source;
                  0 <= behind < decimation
  {
    var s := Reached(decimation, actions);
    RunKeepsDecimation(Initial(decimation), actions);
    var id, observed := |s.takes| - 1, s.gate.recording.value.observed;
    assert s.recording == Some(id);
    assert TakeInv(s.takes[id], s.gate.decimation, OpenFor(s, id), WorkOn(s.frameThread, id));
    var rows := s.takes[id].files.rows;
    assert rows[|rows| - 1].source == rows[0].source + (|rows| - 1) * decimation;
    assert (observed - 1) / decimation * decimation + (observed - 1) % decimation == observed - 1;
  }

  // Counter coupling

  /** Between frames the counters of a take without failure agree; of a take with one they agree, or exactly one frame
      is pending. */
  lemma {:induction false} CountersAgree(decimation: nat, actions: seq<Action>, id: nat)
    requires decimation > 0 && id < |Reached(decimation, actions).takes|
    requires var t := Reached(decimation, actions).frameThread; !(t.Writing? && t.take == id)
    ensures var t := Reached(decimation, actions).takes[id];
            && (!t.failed ==> Coupled(t.files))
            && (t.failed ==> Stuck(t.files))
  {
    var s := Reached(decimation, actions);
    assert TakeInv(s.takes[id], s.gate.decimation, OpenFor(s, id), WorkOn(s.frameThread, id));
  }

  /** A failure after the reservation leaves its frame pending for good: no reservation and no end of the take will
      ever succeed, in any continuation. */
  lemma {:induction false} FailureBlocksTheTake(s: Runtime, answer: Answer, actions: seq<Action>,
                                                calls: seq<ActiveTake.Call>)
    requires Inv(s) && CanStep(s) && s.frameThread.Writing? && !s.frameThread.job.stage.ToReserve?
    requires Wrote(s, answer).frameThread == Written(s.frameThread.take, false)
    ensures var id, q := s.frameThread.take, Wrote(s, answer);
            Inv(q) && id < |Run(q, actions).takes|
            && var take := Run(q, actions).takes[id].files.take;
               && take.pending == Some(take.framesWritten) && take.frameDomain == take.framesWritten + 1
               && forall i :: 0 <= i < |calls| ==> !ActiveTake.Calls(take, calls)[i]
  {
    var id, q := s.frameThread.take, Wrote(s, answer);
    WroteKeeps(s, answer);
    assert TakeInv(s.takes[id], s.gate.decimation, OpenFor(s, id), WorkOn(s.frameThread, id));
    FailureAfterReservation(s.takes[id].files, s.frameThread.job, answer, s.gate.decimation);
    DoomedForever(q, actions, id);
    ActiveTake.PendingFrameBlocksForever(Run(q, actions).takes[id].files.take, calls);
  }

  /** What `finish` of a planner leaves behind for n frames: a boundary at every multiple of the segment length below n
      and one at n, each at its own ordinal, at times that never go back and end at the duration. */
  ghost predicate BoundariesComplete(p: SegmentPlanner.Planner, n: nat, duration: real) {
    && p.segmentFrames > 0
    && p.boundaryRecord.Keys == SegmentPlanner.SegmentStarts(p.segmentFrames, n) + {n}
    && |p.boundaryRecord.Keys| == CeilDiv(n, p.segmentFrames) + 1
    && (forall k :: k in p.boundaryRecord ==>
          SegmentPlanner.BoundaryAt(p, k, duration).Ok? && SegmentPlanner.BoundaryAt(p, k, duration).value.frame == k)
    && (forall j, k :: j in p.boundaryRecord && k in p.boundaryRecord && j <= k ==>
          SegmentPlanner.BoundaryAt(p, j, duration).value.time <= SegmentPlanner.BoundaryAt(p, k, duration).value.time)
    && n in p.boundaryRecord && SegmentPlanner.BoundaryAt(p, n, duration).value.time == duration
  }

  /** The counters of a take that ends between frames: all equal for one without failure; with a frame pending, none
      ends. */
  predicate EndsEqual(t: TakeRun) {
    var d := t.files;
    && (!t.failed ==> ActiveTake.Finish(d.take).0.Ok? && d.take.frameDomain == |d.encoded| == |d.rows|)
    && (d.take.pending.Some? ==> ActiveTake.Finish(d.take).0.Err?)
  }

  /** Its planner: it finishes exactly when the registered segments cover the frames, and then they tile them and the
      boundaries are complete. */
  ghost predicate EndsTiled(t: TakeRun, duration: real) {
    var d := t.files;
    var (r, p) := SegmentPlanner.Finished(d.planner, |d.encoded|, d.take.frameDomain, duration);
    && (r.Ok? <==> duration >= 0.0 && d.planner.coveredFrames == |d.rows|)
    && (r.Ok? ==> SegmentPlanner.Tiles(t.segments, |d.rows|) && |t.segments| == p.segmentCount
                  && BoundariesComplete(p, |d.rows|, duration))
  }

  /** Ending a take between frames, in any state of any run, with whatever segments the encoder has announced. */
  lemma {:induction false} EndingATake(decimation: nat, actions: seq<Action>, id: nat, duration: real)
    requires decimation > 0 && id < |Reached(decimation, actions).takes|
    requires var t := Reached(decimation, actions).frameThread; !(t.Writing? && t.take == id)
    ensures var t := Reached(decimation, actions).takes[id];
            EndsEqual(t) && (!t.failed ==> EndsTiled(t, duration))
  {
    var s := Reached(decimation, actions);
    assert TakeInv(s.takes[id], s.gate.decimation, OpenFor(s, id), WorkOn(s.frameThread, id));
    if !s.takes[id].failed {
      EndingCoupled(s.takes[id], duration);
    }
  }

  lemma {:induction false} EndingCoupled(t: TakeRun, duration: real)
    requires Coupled(t.files) && SegmentsTile(t)
    ensures EndsTiled(t, duration)
  {
    var d := t.files;
    if SegmentPlanner.Finished(d.planner, |d.encoded|, d.take.frameDomain, duration).0.Ok? {
      SegmentPlanner.FinishedBoundaries(d.planner, ElapsedSeconds(d.startNs, LastHost(d.rows)), |d.encoded|,
                                        d.take.frameDomain, duration);
    }
  }

  /** Segments that continue at `start`, each ending at the next of `ends`. */
  predicate EndsRise(start: nat, ends: seq<nat>)
    decreases ends
  {
    ends == [] || (start < ends[0] <= U64_MAX && EndsRise(ends[0], ends[1..]))
  }

  function LastEnd(start: nat, ends: seq<nat>): nat {
    if ends == [] then start else ends[|ends| - 1]
  }

  function Registrations(take: nat, index: nat, start: nat, ends: seq<nat>): seq<Action>
    decreases ends
  {
    if ends == [] then []
    else [RegisterSegment(take, index, start, ends[0])] + Registrations(take, index + 1, ends[0], ends[1..])
  }

  lemma {:induction false} RegistrationCovers(s: Runtime, id: nat, end: nat)
    requires Inv(s) && id < |s.takes| && s.takes[id].files.planner.coveredFrames < end <= U64_MAX
    ensures var p := s.takes[id].files.planner;
            var q := SegmentRegistered(s, id, p.segmentCount, p.coveredFrames, end);
            && |q.takes| == |s.takes| && q.frameThread == s.frameThread
            && q.takes[id].failed == s.takes[id].failed
            && SameFrames(s.takes[id].files, q.takes[id].files)
            && q.takes[id].files.planner == p.(coveredFrames := end, segmentCount := p.segmentCount + 1)
            && |q.takes[id].segments| == |s.takes[id].segments| + 1
  {
    var p := s.takes[id].files.planner;
    assert TakeInv(s.takes[id], s.gate.decimation, OpenFor(s, id), WorkOn(s.frameThread, id));
    RegisteredTiles(s.takes[id], p.segmentCount, p.coveredFrames, end);
  }

  /** One announcement that continues the coverage, in front of others. */
  lemma {:induction false} RegistrationsFirst(s: Runtime, id: nat, ends: seq<nat>)
    requires Inv(s) && id < |s.takes| && ends != []
    requires s.takes[id].files.planner.coveredFrames < ends[0] <= U64_MAX
    ensures var p := s.takes[id].files.planner;
            var q := SegmentRegistered(s, id, p.segmentCount, p.coveredFrames, ends[0]);
            Inv(q) && Run(s, Registrations(id, p.segmentCount, p.coveredFrames, ends))
                      == Run(q, Registrations(id, p.segmentCount + 1, ends[0], ends[1..]))
  {
    var p := s.takes[id].files.planner;
    var a := RegisterSegment(id, p.segmentCount, p.coveredFrames, ends[0]);
    StepKeeps(s, a);
    assert Step(s, a) == SegmentRegistered(s, id, p.segmentCount, p.coveredFrames, ends[0]);
    var rest := Registrations(id, p.segmentCount + 1, ends[0], ends[1..]);
    assert ([a] + rest)[1..] == rest;
  }

  /** Every announcement that continues the coverage is accepted and touches nothing else. */
  lemma {:induction false} RegistrationsCover(s: Runtime, id: nat, ends: seq<nat>)
    requires Inv(s) && id < |s.takes|
    requires EndsRise(s.takes[id].files.planner.coveredFrames, ends)
    ensures var p := s.takes[id].files.planner;
            var q := Run(s, Registrations(id, p.segmentCount, p.coveredFrames, ends));
            && id < |q.takes| && q.frameThread == s.frameThread
            && q.takes[id].failed == s.takes[id].failed
            && SameFrames(s.takes[id].files, q.takes[id].files)
            && q.takes[id].files.planner.coveredFrames == LastEnd(p.coveredFrames, ends)
            && |q.takes[id].segments| == |s.takes[id].segments| + |ends|
    decreases ends
  {
    if ends != [] {
      var p := s.takes[id].files.planner;
      RegistrationCovers(s, id, ends[0]);
      RegistrationsFirst(s, id, ends);
      RegistrationsCover(SegmentRegistered(s, id, p.segmentCount, p.coveredFrames, ends[0]), id, ends[1..]);
    }
  }

  /** A take without failure can always be brought to its end: however the encoder cuts the frames that are not covered
      yet, registering its segments makes `finish` succeed with complete boundaries. */
  lemma {:induction false} EveryCutEndsTheTake(decimation: nat, actions: seq<Action>, id: nat, ends: seq<nat>,
                                               duration: real)
    requires decimation > 0 && id < |Reached(decimation, actions).takes| && duration >= 0.0
    requires var s := Reached(decimation, actions);
             && !(s.frameThread.Writing? && s.frameThread.take == id) && !s.takes[id].failed
             && EndsRise(s.takes[id].files.planner.coveredFrames, ends)
             && LastEnd(s.takes[id].files.planner.coveredFrames, ends) == |s.takes[id].files.rows|
    ensures var s := Reached(decimation, actions);
            var p := s.takes[id].files.planner;
            var q := Run(s, Registrations(id, p.segmentCount, p.coveredFrames, ends));
            && id < |q.takes|
            && var d := q.takes[id].files;
               var (r, end) := SegmentPlanner.Finished(d.planner, |d.encoded|, d.take.frameDomain, duration);
               && r.Ok? && |d.rows| == |s.takes[id].files.rows|
               && SegmentPlanner.Tiles(q.takes[id].segments, |d.rows|) && BoundariesComplete(end, |d.rows|, duration)
  {
    var s := Reached(decimation, actions);
    var p := s.takes[id].files.planner;
    RegistrationsCover(s, id, ends);
    var q := Run(s, Registrations(id, p.segmentCount, p.coveredFrames, ends));
    assert TakeInv(q.takes[id], q.gate.decimation, OpenFor(q, id), WorkOn(q.frameThread, id));
    EndingCoupled(q.takes[id], duration);
  }

  // Stop safety

  /** No frame is in work on any take. */
  predicate Drained(s: Runtime) {
    && s.gate.recording.None? && s.recording.None?
    && !s.frameThread.Writing? && !s.frameThread.Written?
    && forall id {:trigger s.takes[id]} :: 0 <= id < |s.takes| ==>
         s.takes[id].admitted == s.takes[id].finished && s.takes[id].stopped > 0
  }

  /** `stop_recording` succeeds only after every admitted frame has finished, and every take then carries its stop
      timestamp. */
  lemma {:induction false} StopIsClean(decimation: nat, actions: seq<Action>, a: Action)
    requires decimation > 0 && StopSucceeds(Reached(decimation, actions), a)
    ensures Drained(Reached(decimation, actions))
  {
    var s := Reached(decimation, actions);
    forall id | 0 <= id < |s.takes|
      ensures s.takes[id].admitted == s.takes[id].finished && s.takes[id].stopped > 0
    {
      assert TakeInv(s.takes[id], s.gate.decimation, OpenFor(s, id), WorkOn(s.frameThread, id));
    }
  }

  /** A stopping recording always has a frame in flight, and failure callbacks never exceed the takes started. */
  lemma {:induction false} StoppingHasFramesInFlight(decimation: nat, actions: seq<Action>)
    requires decimation > 0
    ensures var s := Reached(decimation, actions);
            && s.callbacks <= |s.takes|
            && (s.gate.recording.Some? && s.gate.recording.value.stopping ==>
                  s.gate.recording.value.inflight == 1 && (s.frameThread.Writing? || s.frameThread.Written?))
  {
  }
}
