/** The capture runtime as a state machine: `native/src/capture_runtime.rs` with one frame thread, one IMU thread and
    one serialised controller, stepping from one lock boundary to the next in any order. */
module Capture {
  import opened Prelude
  import opened Arithmetic
  import opened Fanout
  import opened TakePath
  import ActiveTake
  import SegmentPlanner
  import LossAccounting

  // State

  /** The frame thread: between frames, writing an admitted frame, with its outcome but still in flight, about to
      report a failed one, about to raise a terminal error, or gone. */
  datatype FrameThread =
    | Idle
    | Writing(take: nat, job: Job)
    | Written(take: nat, ok: bool)
    | Reporting
    | Failing
    | Exited

  /** The IMU thread: not started, collecting, holding an error it checked against a present recording, or finished. */
  datatype ImuThread = Absent | Collecting | Alarmed | Ended

  /** `stop_recording`: not called, waiting for frames to drain, or reaping the IMU thread. */
  datatype Controller = Ready | Draining(inflight: nat) | Joining

  /** One take: what it has written, the stop timestamp (0 while its gate is open), the frames admitted and finished,
      whether a frame failed, and the segments registered with its planner. */
  datatype TakeRun = TakeRun(files: Files, stopped: nat, admitted: nat, finished: nat, failed: bool,
                             segments: seq<SegmentPlanner.Segment>)

  datatype Runtime = Runtime(
    gate: Gate,
    validator: LossAccounting.Validator,
    recording: Option<nat>,
    running: bool,
    takes: seq<TakeRun>,
    frameThread: FrameThread,
    imu: ImuThread,
    controller: Controller,
    callbacks: nat)

  /** `now` is what the monotonic clock reads, 0 when it cannot be read. */
  datatype Action =
    | Arrive(sequence: nat, host: nat, dropped: nat, hasPayload: bool, raw: seq<Byte>)
    | Write(answer: Answer)
    | FinishFrame
    | Report(now: nat)
    | Terminal(now: nat)
    | ExitLoop(now: nat)
    | ImuAlarm
    | ImuReport(now: nat)
    | ImuExit
    | Start(session: string, segmentFrames: nat, startNs: nat, gateClosedAt: nat, hasImu: bool)
    | StopBegin(now: nat)
    | StopDrain(timedOut: bool)
    | StopJoin(timedOut: bool)
    | RegisterSegment(take: nat, index: nat, start: nat, end: nat)

  /** A runtime whose preview has just been started. */
  function Initial(decimation: nat): Runtime {
    Runtime(Gate(decimation, None), LossAccounting.Validator(None, None), None, true, [], Idle, Absent, Ready, 0)
  }

  function StampOf(now: nat): (t: nat)
    ensures t > 0
  {
    if 0 < now <= U64_MAX then now else U64_MAX
  }

  /** `request_capture_stop` on the installed recording: compare-and-exchange from 0. */
  function Stamped(s: Runtime, now: nat): seq<TakeRun> {
    if s.recording.None? || s.recording.value >= |s.takes| then s.takes
    else
      var id := s.recording.value;
      if s.takes[id].stopped == 0 then s.takes[id := s.takes[id].(stopped := StampOf(now))] else s.takes
  }

  // Steps. An action that its thread cannot take now leaves the state as it is.

  function Step(s: Runtime, a: Action): Runtime
    requires s.gate.decimation > 0
    requires s.frameThread.Writing? ==>
               s.frameThread.take < |s.takes| && s.takes[s.frameThread.take].files.planner.segmentFrames > 0
    requires s.frameThread.Written? ==> s.frameThread.take < |s.takes|
  {
    match a
    case Arrive(sequence, host, dropped, hasPayload, raw) =>
      if s.frameThread.Idle? then Arrived(s, sequence, host, dropped, hasPayload || raw != [], raw) else s
    case Write(answer) => if s.frameThread.Writing? then Wrote(s, answer) else s
    case FinishFrame => if s.frameThread.Written? then FrameFinished(s) else s
    case Report(now) => if s.frameThread.Reporting? then Reported(s, now).(frameThread := Idle) else s
    case Terminal(now) => if s.frameThread.Failing? then Terminated(s, now) else s
    case ExitLoop(now) => if s.frameThread.Idle? then LoopExited(s, now) else s
    case ImuAlarm =>
      if s.imu.Collecting? then s.(imu := if RecordingPresent(s) then Alarmed else Ended) else s
    case ImuReport(now) => if s.imu.Alarmed? then Reported(s, now).(imu := Ended) else s
    case ImuExit => if s.imu.Collecting? then s.(imu := Ended) else s
    case Start(session, segmentFrames, startNs, gateClosedAt, hasImu) =>
      if s.controller.Ready? then TakeStarted(s, session, segmentFrames, startNs, gateClosedAt, hasImu) else s
    case StopBegin(now) => if s.controller.Ready? then StopBegun(s, now) else s
    case StopDrain(timedOut) => if s.controller.Draining? then Drained(s, timedOut) else s
    case StopJoin(timedOut) => if s.controller.Joining? then Joined(s, timedOut) else s
    case RegisterSegment(take, index, start, end) =>
      if take < |s.takes| && end <= U64_MAX then SegmentRegistered(s, take, index, start, end) else s
  }

  predicate RecordingPresent(s: Runtime) { s.recording.Some? && s.gate.recording.Some? }

  /** `process_frame` up to the end of its first critical section. */
  function Arrived(s: Runtime, sequence: nat, host: nat, dropped: nat, hasPayload: bool, raw: seq<Byte>): Runtime
    requires s.gate.decimation > 0
  {
    if sequence > LossAccounting.I64_MAX || host > LossAccounting.I64_MAX || dropped > LossAccounting.I64_MAX
    then s.(frameThread := Failing)
    else
      var (validation, validator) := LossAccounting.Validated(s.validator, sequence, host, true, hasPayload, dropped);
      if validation.Err? then s.(frameThread := Failing)
      else
        var (decision, gate) := Begun(s.gate, validation.value.droppedBefore);
        var next := s.(validator := validator, gate := gate);
        if decision.Err? then next.(frameThread := Failing)
        else if decision.value.record && s.recording.Some? && s.recording.value < |s.takes| then
          var id := s.recording.value;
          next.(frameThread := Writing(id, Job(sequence, host, decision.value.droppedBefore, raw, ToReserve)),
                takes := s.takes[id := s.takes[id].(admitted := s.takes[id].admitted + 1)])
        else next
  }

  /** The sequence numbers in front of a frame that nothing was delivered for. */
  function Before(v: LossAccounting.Validator, sequence: nat, dropped: nat): nat {
    if v.lastSequence.Some? && v.lastSequence.value < sequence then sequence - v.lastSequence.value - 1 else dropped
  }

  /** A frame the frame thread takes: it fits 63 bits, has a payload and moves sequence and time forward, accounts for
      no more lost frames than there is room for, and the count of an open take does not overflow. */
  predicate Accepts(s: Runtime, sequence: nat, host: nat, dropped: nat, hasPayload: bool) {
    var v, most := s.validator, 0x7fff_ffff_ffff_ffff;
    && sequence <= most && host <= most && dropped <= most && hasPayload
    && (v.lastSequence.Some? ==> v.lastSequence.value + dropped < sequence)
    && (v.lastHost.Some? ==> v.lastHost.value < host)
    && (Open(s.gate) && s.gate.recording.value.observed > 0 ==>
          s.gate.recording.value.observed + Before(v, sequence, dropped) < U64_MAX)
  }

  /** One stage of `write_split_sink_frame`. */
  function Wrote(s: Runtime, answer: Answer): Runtime
    requires s.frameThread.Writing? && s.frameThread.take < |s.takes|
    requires s.takes[s.frameThread.take].files.planner.segmentFrames > 0
  {
    var id, job := s.frameThread.take, s.frameThread.job;
    var (files, progress) := WriteStep(s.takes[id].files, job, answer);
    var failed := progress.Done? && progress.result.Err?;
    s.(takes := s.takes[id := s.takes[id].(files := files, failed := s.takes[id].failed || failed)],
       frameThread := if progress.Done? then Written(id, !failed) else Writing(id, job.(stage := progress.stage)))
  }

  /** `finish_recording_frame`. */
  function FrameFinished(s: Runtime): Runtime
    requires s.frameThread.Written? && s.frameThread.take < |s.takes|
  {
    var id := s.frameThread.take;
    var (result, gate) := Finished(s.gate);
    if result.Err? then s.(frameThread := Failing)
    else
      s.(gate := gate, recording := if gate.recording.None? then None else s.recording,
         takes := s.takes[id := s.takes[id].(finished := s.takes[id].finished + 1)],
         frameThread := if s.frameThread.ok then Idle else Reporting)
  }

  /** `report_recording_failure`; the caller always passes its callback. */
  function Reported(s: Runtime, now: nat): Runtime {
    var (report, gate) := FailureMarked(s.gate);
    s.(gate := gate, takes := Stamped(s, now), callbacks := s.callbacks + (if report then 1 else 0),
       recording := if gate.recording.None? then None else s.recording)
  }

  /** `set_terminal_error`. */
  function Terminated(s: Runtime, now: nat): Runtime {
    var (report, gate) := FailureMarked(s.gate);
    s.(gate := gate, takes := Stamped(s, now), running := false, recording := None, frameThread := Exited,
       callbacks := s.callbacks + (if report && s.recording.Some? then 1 else 0))
  }

  /** The tail of `run_loop`. */
  function LoopExited(s: Runtime, now: nat): Runtime {
    s.(gate := Stopping(s.gate), takes := Stamped(s, now), running := false, recording := None, frameThread := Exited)
  }

  /** `start_recording`. */
  function TakeStarted(s: Runtime, session: string, segmentFrames: nat, startNs: nat, gateClosedAt: nat, hasImu: bool)
    : Runtime
  {
    var take := ActiveTake.NewTake(session);
    if startNs == 0 || gateClosedAt != 0 || !s.imu.Absent? || !s.running || s.recording.Some? || segmentFrames == 0
       || take.Err? || Started(s.gate).0.Err? then s
    else
      var files := Files(take.value, SegmentPlanner.NewPlanner(segmentFrames), [], [], startNs);
      s.(gate := Started(s.gate).1, recording := Some(|s.takes|),
         takes := s.takes + [TakeRun(files, 0, 0, 0, false, [])], imu := if hasImu then Collecting else Absent)
  }

  /** `begin_recording_stop`. */
  function StopBegun(s: Runtime, now: nat): Runtime {
    s.(gate := Stopping(s.gate), takes := Stamped(s, now), controller := Draining(Inflight(s.gate)))
  }

  function Drained(s: Runtime, timedOut: bool): Runtime
    requires s.controller.Draining?
  {
    if s.controller.inflight == 0 then s.(recording := None, controller := Joining)
    else if s.recording.None? then s.(controller := Joining)
    else if timedOut then s.(controller := Ready)
    else s
  }

  function Joined(s: Runtime, timedOut: bool): Runtime {
    if s.imu.Absent? || s.imu.Ended? then s.(imu := Absent, controller := Ready)
    else if timedOut then s.(controller := Ready)
    else s
  }

  /** A segment that the encoder announces is registered with the planner of its take, which may still be open. */
  function SegmentRegistered(s: Runtime, take: nat, index: nat, start: nat, end: nat): Runtime
    requires take < |s.takes|
  {
    var t := s.takes[take];
    var (result, planner) := SegmentPlanner.Registered(t.files.planner, index, start, end);
    var segments := if result.Ok? then t.segments + [SegmentPlanner.Segment(start, end)] else t.segments;
    s.(takes := s.takes[take := t.(files := t.files.(planner := planner), segments := segments)])
  }

  /** This step ends a `stop_recording` call with success. */
  predicate StopSucceeds(s: Runtime, a: Action) {
    s.controller.Joining? && a.StopJoin? && (s.imu.Absent? || s.imu.Ended?)
  }

  // Invariant

  datatype Work = NoWork | InWork(job: Job) | Settled(ok: bool)

  function WorkOn(t: FrameThread, id: nat): Work {
    if t.Writing? && t.take == id then InWork(t.job)
    else if t.Written? && t.take == id then Settled(t.ok)
    else NoWork
  }

  predicate OpenFor(s: Runtime, id: nat) { Open(s.gate) && id + 1 == |s.takes| }

  /** The segments registered so far lie end to end, and the planner counts them and what they cover. */
  ghost predicate SegmentsTile(t: TakeRun) {
    && SegmentPlanner.Tiles(t.segments, t.files.planner.coveredFrames)
    && |t.segments| == t.files.planner.segmentCount
    && t.files.planner.coveredFrames <= U64_MAX
  }

  /** What holds of one take, given whether its gate is open and what the frame thread is doing with it. */
  ghost predicate TakeInv(t: TakeRun, decimation: nat, open: bool, work: Work) {
    && (t.stopped == 0 <==> open)
    && t.admitted == t.finished + (if work.NoWork? then 0 else 1)
    && t.files.planner.segmentFrames > 0
    && SegmentsTile(t)
    && RowsOk(t.files, decimation)
    && (work.InWork? ==> !t.failed && JobOk(t.files, work.job, decimation))
    && (work.Settled? ==> work.ok == !t.failed)
    && (!work.InWork? ==> if t.failed then Stuck(t.files) else Coupled(t.files))
  }

  /** The gate, the recording slot, the frame thread and the controller among themselves. */
  ghost predicate ControlInv(s: Runtime) {
    && GateOk(s.gate)
    && (s.recording.Some? ==> s.recording.value + 1 == |s.takes|)
    && (s.gate.recording.Some? ==> s.recording.Some?)
    && (Open(s.gate) ==> !s.gate.recording.value.failureReported)
    && (s.frameThread.Exited? ==> !s.running && !Open(s.gate))
    && Inflight(s.gate) == (if s.frameThread.Writing? || s.frameThread.Written? then 1 else 0)
    && (s.frameThread.Writing? || s.frameThread.Written? ==> s.frameThread.take + 1 == |s.takes|)
    && s.callbacks + (if s.gate.recording.Some? && !s.gate.recording.value.failureReported then 1 else 0) <= |s.takes|
    && (s.controller.Draining? ==> !Open(s.gate) && (s.controller.inflight == 0 ==> s.gate.recording.None?))
    && (s.controller.Joining? ==> s.gate.recording.None? && s.recording.None?)
  }

  /** The frames an open take has observed since its first one, without a gap, and what of them is written. */
  ghost predicate Tracked(d: Files, observed: nat, v: LossAccounting.Validator, decimation: nat)
    requires decimation > 0
  {
    if observed == 0 then d.rows == []
    else
      && d.rows != []
      && |d.rows| == (observed - 1) / decimation + 1
      && v.lastSequence == Some(d.rows[0].source + observed - 1)
      && v.lastHost.Some? && LastHost(d.rows) <= v.lastHost.value
  }

  /** The same while the latest of them is being written. */
  ghost predicate JobTracked(d: Files, job: Job, observed: nat, v: LossAccounting.Validator, decimation: nat) {
    && observed > 0
    && v == LossAccounting.Validator(Some(job.source), Some(job.host))
    && (job.gap == 0 ==> d.take.framesWritten * decimation == observed - 1)
  }

  ghost predicate TrackInv(s: Runtime)
    requires s.gate.decimation > 0
  {
    Open(s.gate) && s.takes != [] ==>
      var t := s.takes[|s.takes| - 1];
      if s.frameThread.Failing? then true
      else if t.failed then s.frameThread == Written(|s.takes| - 1, false) || s.frameThread.Reporting?
      else if s.frameThread.Writing? then
        JobTracked(t.files, s.frameThread.job, s.gate.recording.value.observed, s.validator, s.gate.decimation)
      else Tracked(t.files, s.gate.recording.value.observed, s.validator, s.gate.decimation)
  }

  ghost predicate TakesInv(s: Runtime) {
    forall id {:trigger s.takes[id]} :: 0 <= id < |s.takes| ==>
      TakeInv(s.takes[id], s.gate.decimation, OpenFor(s, id), WorkOn(s.frameThread, id))
  }

  ghost predicate Inv(s: Runtime) {
    ControlInv(s) && TakesInv(s) && TrackInv(s)
  }

  predicate CanStep(s: Runtime) {
    && s.gate.decimation > 0
    && (s.frameThread.Writing? ==>
          s.frameThread.take < |s.takes| && s.takes[s.frameThread.take].files.planner.segmentFrames > 0)
    && (s.frameThread.Written? ==> s.frameThread.take < |s.takes|)
  }

  lemma {:induction false} InvCanStep(s: Runtime)
    requires Inv(s)
    ensures CanStep(s)
  {
  }

  lemma {:induction false} InitialInv(decimation: nat)
    requires decimation > 0
    ensures Inv(Initial(decimation))
  {
  }

  // Every step keeps the invariant

  /** Closing the gate and stamping the take keeps every take: the open one, if any, is the one that is stamped. */
  lemma {:induction false} ClosingKeepsTakes(s: Runtime, q: Runtime, now: nat)
    requires ControlInv(s) && TakesInv(s)
    requires q.takes == Stamped(s, now) && q.gate.decimation == s.gate.decimation && !Open(q.gate)
    requires forall id {:trigger WorkOn(q.frameThread, id)} :: WorkOn(q.frameThread, id) == WorkOn(s.frameThread, id)
    ensures TakesInv(q)
  {
    forall id | 0 <= id < |q.takes|
      ensures TakeInv(q.takes[id], q.gate.decimation, OpenFor(q, id), WorkOn(q.frameThread, id))
    {
      assert TakeInv(s.takes[id], s.gate.decimation, OpenFor(s, id), WorkOn(s.frameThread, id));
    }
  }

  lemma {:induction false} ReportedKeeps(s: Runtime, now: nat, t: FrameThread, imu: ImuThread)
    requires Inv(s) && (t == s.frameThread || (s.frameThread.Reporting? && t.Idle?))
    ensures Inv(Reported(s, now).(frameThread := t, imu := imu))
  {
    ClosingKeepsTakes(s, Reported(s, now).(frameThread := t, imu := imu), now);
  }

  lemma {:induction false} LeavingKeeps(s: Runtime, now: nat)
    requires Inv(s)
    ensures s.frameThread.Failing? ==> Inv(Terminated(s, now))
    ensures s.frameThread.Idle? ==> Inv(LoopExited(s, now))
  {
    if s.frameThread.Failing? {
      ClosingKeepsTakes(s, Terminated(s, now), now);
    }
    if s.frameThread.Idle? {
      ClosingKeepsTakes(s, LoopExited(s, now), now);
    }
  }

  lemma {:induction false} StopBegunKeeps(s: Runtime, now: nat)
    requires Inv(s) && s.controller.Ready?
    ensures Inv(StopBegun(s, now))
  {
    ClosingKeepsTakes(s, StopBegun(s, now), now);
  }

  /** Steps that touch neither the gate, the takes nor the frame thread's work keep the takes. */
  lemma {:induction false} SameTakes(s: Runtime, q: Runtime)
    requires TakesInv(s) && q.takes == s.takes && q.gate.decimation == s.gate.decimation
    requires Open(q.gate) == Open(s.gate)
    requires forall id {:trigger WorkOn(q.frameThread, id)} :: WorkOn(q.frameThread, id) == WorkOn(s.frameThread, id)
    ensures TakesInv(q)
  {
    forall id | 0 <= id < |q.takes|
      ensures TakeInv(q.takes[id], q.gate.decimation, OpenFor(q, id), WorkOn(q.frameThread, id))
    {
      assert TakeInv(s.takes[id], s.gate.decimation, OpenFor(s, id), WorkOn(s.frameThread, id));
    }
  }

  lemma {:induction false} DrainedKeeps(s: Runtime, timedOut: bool)
    requires Inv(s)
    ensures s.controller.Draining? ==> Inv(Drained(s, timedOut))
    ensures s.controller.Joining? ==> Inv(Joined(s, timedOut))
  {
    if s.controller.Draining? {
      SameTakes(s, Drained(s, timedOut));
    }
    if s.controller.Joining? {
      SameTakes(s, Joined(s, timedOut));
    }
  }

  lemma {:induction false} NewTakeIsCoupled(session: string, segmentFrames: nat, startNs: nat)
    requires segmentFrames > 0 && ActiveTake.NewTake(session).Ok?
    ensures Coupled(Files(ActiveTake.NewTake(session).value, SegmentPlanner.NewPlanner(segmentFrames), [], [], startNs))
  {
    assert SegmentPlanner.SegmentStarts(segmentFrames, 0) == {};
  }

  lemma {:induction false} TakeStartedKeeps(s: Runtime, session: string, segmentFrames: nat, startNs: nat,
                                            gateClosedAt: nat, hasImu: bool)
    requires Inv(s) && s.controller.Ready?
    ensures Inv(TakeStarted(s, session, segmentFrames, startNs, gateClosedAt, hasImu))
  {
    var q := TakeStarted(s, session, segmentFrames, startNs, gateClosedAt, hasImu);
    if q.takes != s.takes {
      NewTakeIsCoupled(session, segmentFrames, startNs);
      forall id | 0 <= id < |q.takes|
        ensures TakeInv(q.takes[id], q.gate.decimation, OpenFor(q, id), WorkOn(q.frameThread, id))
      {
        if id < |s.takes| {
          assert TakeInv(s.takes[id], s.gate.decimation, OpenFor(s, id), WorkOn(s.frameThread, id));
        }
      }
    }
  }

  /** The other takes are not touched by work on one of them. */
  lemma {:induction false} OneTakeChanges(s: Runtime, q: Runtime, id: nat)
    requires TakesInv(s) && id < |s.takes| && |q.takes| == |s.takes| && q.takes == s.takes[id := q.takes[id]]
    requires q.gate.decimation == s.gate.decimation && id + 1 == |s.takes|
    requires forall other {:trigger WorkOn(q.frameThread, other)} :: other != id ==>
               WorkOn(q.frameThread, other) == WorkOn(s.frameThread, other)
    requires TakeInv(q.takes[id], q.gate.decimation, OpenFor(q, id), WorkOn(q.frameThread, id))
    ensures TakesInv(q)
  {
    forall other | 0 <= other < |q.takes|
      ensures TakeInv(q.takes[other], q.gate.decimation, OpenFor(q, other), WorkOn(q.frameThread, other))
    {
      if other != id {
        assert q.takes[other] == s.takes[other];
        assert TakeInv(s.takes[other], s.gate.decimation, OpenFor(s, other), WorkOn(s.frameThread, other));
      }
    }
  }

  lemma {:induction false} FrameFinishedKeeps(s: Runtime)
    requires Inv(s) && s.frameThread.Written?
    ensures Inv(FrameFinished(s))
  {
    var id, q := s.frameThread.take, FrameFinished(s);
    assert TakeInv(s.takes[id], s.gate.decimation, OpenFor(s, id), WorkOn(s.frameThread, id));
    OneTakeChanges(s, q, id);
  }

  /** After the last stage of a good frame the written rows are those of the observed frames on the grid. */
  lemma {:induction false} JobTrackedMeansTracked(d: Files, job: Job, observed: nat, v: LossAccounting.Validator,
                                                  decimation: nat, next: Files)
    requires decimation > 0 && JobOk(d, job, decimation) && JobTracked(d, job, observed, v, decimation)
    requires job.stage.ToFinish? && next.rows == d.rows
    ensures Tracked(next, observed, v, decimation)
  {
    var n := d.take.framesWritten;
    var last := d.rows[|d.rows| - 1];
    assert |d.rows| == n + 1;
    DivModUnique(observed - 1, decimation, n, 0);
    assert last.host == job.host;
    assert last.source == d.rows[0].source + n * decimation;
  }

  lemma {:induction false} WroteKeepsTrack(d: Files, job: Job, answer: Answer, observed: nat,
                                           v: LossAccounting.Validator, decimation: nat)
    requires decimation > 0 && JobOk(d, job, decimation) && JobTracked(d, job, observed, v, decimation)
    ensures var (next, progress) := WriteStep(d, job, answer);
            && (progress.Continue? ==> JobTracked(next, job.(stage := progress.stage), observed, v, decimation))
            && (progress == Done(Ok(())) ==> Tracked(next, observed, v, decimation))
  {
    if job.stage.ToFinish? {
      JobTrackedMeansTracked(d, job, observed, v, decimation, WriteStep(d, job, answer).0);
    }
  }

  lemma {:induction false} WroteKeepsTakes(s: Runtime, answer: Answer)
    requires ControlInv(s) && TakesInv(s) && s.frameThread.Writing? && CanStep(s)
    ensures TakesInv(Wrote(s, answer))
  {
    var id, job := s.frameThread.take, s.frameThread.job;
    assert TakeInv(s.takes[id], s.gate.decimation, OpenFor(s, id), WorkOn(s.frameThread, id));
    WriteStepKeeps(s.takes[id].files, job, answer, s.gate.decimation);
    OneTakeChanges(s, Wrote(s, answer), id);
  }

  lemma {:induction false} WroteKeeps(s: Runtime, answer: Answer)
    requires Inv(s) && s.frameThread.Writing? && CanStep(s)
    ensures Inv(Wrote(s, answer))
  {
    var id := s.frameThread.take;
    WroteKeepsTakes(s, answer);
    assert TakeInv(s.takes[id], s.gate.decimation, OpenFor(s, id), WorkOn(s.frameThread, id));
    if Open(s.gate) {
      WroteKeepsTrack(s.takes[id].files, s.frameThread.job, answer, s.gate.recording.value.observed, s.validator,
                      s.gate.decimation);
    }
  }

  // Arrivals

  /** One more observed frame, off the grid: nothing more is due to be written. */
  lemma {:induction false} OffGrid(observed: nat, decimation: nat)
    requires decimation > 0 && observed > 0 && observed % decimation != 0
    ensures observed / decimation == (observed - 1) / decimation
  {
    DivModStep(observed - 1, decimation);
  }

  /** One more observed frame, on the grid: the written ones lie exactly up to it. */
  lemma {:induction false} OnGridNext(observed: nat, decimation: nat)
    requires decimation > 0 && observed > 0 && observed % decimation == 0
    ensures ((observed - 1) / decimation + 1) * decimation == observed
  {
    DivModStep(observed - 1, decimation);
  }

  /** The first frame of a take. */
  lemma {:induction false} AdmittedFirst(d: Files, w: LossAccounting.Validator, decimation: nat, job: Job)
    requires decimation > 0 && d.planner.segmentFrames > 0
    requires Coupled(d) && RowsOk(d, decimation) && d.rows == []
    requires job.stage.ToReserve? && job.gap == 0
    requires w == LossAccounting.Validator(Some(job.source), Some(job.host))
    ensures JobOk(d, job, decimation) && JobTracked(d, job, 1, w, decimation)
  {
    assert d.take.framesWritten == 0;
    assert 0 * decimation == 0;
  }

  /** A later frame that the open gate admits, with what it owes the take it is admitted to. */
  lemma {:induction false} AdmittedJob(d: Files, observed: nat, v: LossAccounting.Validator,
                                       w: LossAccounting.Validator, decimation: nat, job: Job)
    requires decimation > 0 && d.planner.segmentFrames > 0 && observed > 0
    requires Coupled(d) && RowsOk(d, decimation) && Tracked(d, observed, v, decimation)
    requires job.stage.ToReserve?
    requires w == LossAccounting.Validator(Some(job.source), Some(job.host))
    requires job.source == v.lastSequence.value + 1 + job.gap && v.lastHost.value < job.host
    requires job.gap == 0 ==> observed % decimation == 0
    ensures JobOk(d, job, decimation) && JobTracked(d, job, observed + job.gap + 1, w, decimation)
  {
    if job.gap == 0 {
      OnGridNext(observed, decimation);
      assert |d.rows| * decimation == observed;
    }
  }

  /** A frame that the open gate lets pass unrecorded keeps the take on track. */
  lemma {:induction false} SkippedFrame(d: Files, observed: nat, v: LossAccounting.Validator,
                                        w: LossAccounting.Validator, decimation: nat)
    requires decimation > 0 && observed > 0 && observed % decimation != 0 && Tracked(d, observed, v, decimation)
    requires w.lastSequence == Some(v.lastSequence.value + 1)
    requires w.lastHost.Some? && v.lastHost.value < w.lastHost.value
    ensures Tracked(d, observed + 1, w, decimation)
  {
    OffGrid(observed, decimation);
  }

  /** `Arrived` for a frame that passes validation, split by what the gate decides. */
  lemma {:induction false} ArrivedCases(s: Runtime, sequence: nat, host: nat, dropped: nat, hasPayload: bool,
                                        raw: seq<Byte>)
    requires Inv(s) && s.frameThread.Idle?
    ensures var q := Arrived(s, sequence, host, dropped, hasPayload, raw);
            && (q.frameThread.Failing? ==> q == s.(frameThread := Failing, validator := q.validator))
            && (q.frameThread.Writing? ==> FrameAdmitted(s, q, sequence, host, raw))
            && (!q.frameThread.Failing? && !q.frameThread.Writing? ==> FramePassed(s, q, sequence, host))
  {
    if s.gate.recording.Some? {
      assert s.recording.Some?;
    }
  }

  /** What the validator learned from an accepted frame: `gap` sequence numbers lie in front of it. */
  predicate Validates(s: Runtime, q: Runtime, sequence: nat, host: nat, gap: nat) {
    && q.validator == LossAccounting.Validator(Some(sequence), Some(host))
    && (s.validator.lastSequence.Some? ==> sequence == s.validator.lastSequence.value + 1 + gap)
    && (s.validator.lastHost.Some? ==> s.validator.lastHost.value < host)
  }

  predicate FrameAdmitted(s: Runtime, q: Runtime, sequence: nat, host: nat, raw: seq<Byte>)
    requires s.gate.decimation > 0
  {
    && Open(s.gate) && s.recording.Some? && s.recording.value < |s.takes| && q.frameThread.Writing?
    && q.frameThread.job.stage.ToReserve?
    && var id, job, r := s.recording.value, q.frameThread.job, s.gate.recording.value;
       var gap := if r.observed == 0 then 0 else job.gap;
       && q == s.(gate := q.gate, validator := q.validator, frameThread := Writing(id, job), takes := q.takes)
       && q.takes == s.takes[id := s.takes[id].(admitted := s.takes[id].admitted + 1)]
       && job == Job(sequence, host, gap, raw, ToReserve)
       && q.gate == s.gate.(recording := Some(r.(observed := r.observed + gap + 1, inflight := r.inflight + 1)))
       && (r.observed > 0 ==> Validates(s, q, sequence, host, gap))
       && q.validator == LossAccounting.Validator(Some(sequence), Some(host))
       && (r.observed > 0 && gap == 0 ==> r.observed % s.gate.decimation == 0)
  }

  predicate FramePassed(s: Runtime, q: Runtime, sequence: nat, host: nat)
    requires s.gate.decimation > 0
  {
    && q == s.(gate := q.gate, validator := q.validator)
    && if !Open(s.gate) then q.gate == s.gate
       else
         var r := s.gate.recording.value;
         && r.observed > 0 && r.observed % s.gate.decimation != 0
         && q.gate == s.gate.(recording := Some(r.(observed := r.observed + 1)))
         && Validates(s, q, sequence, host, 0)
  }

  lemma {:induction false} AdmittedKeeps(s: Runtime, q: Runtime, sequence: nat, host: nat, raw: seq<Byte>)
    requires Inv(s) && s.frameThread.Idle? && FrameAdmitted(s, q, sequence, host, raw)
    ensures Inv(q)
  {
    var id, job := s.recording.value, q.frameThread.job;
    var t, observed := s.takes[id], s.gate.recording.value.observed;
    assert TakeInv(t, s.gate.decimation, OpenFor(s, id), WorkOn(s.frameThread, id));
    if observed == 0 {
      AdmittedFirst(t.files, q.validator, s.gate.decimation, job);
    } else {
      AdmittedJob(t.files, observed, s.validator, q.validator, s.gate.decimation, job);
    }
    OneTakeChanges(s, q, id);
  }

  lemma {:induction false} PassedKeeps(s: Runtime, q: Runtime, sequence: nat, host: nat)
    requires Inv(s) && s.frameThread.Idle? && FramePassed(s, q, sequence, host)
    ensures Inv(q)
  {
    SameTakes(s, q);
    if Open(s.gate) && s.takes != [] {
      var t, observed := s.takes[|s.takes| - 1], s.gate.recording.value.observed;
      SkippedFrame(t.files, observed, s.validator, q.validator, s.gate.decimation);
    }
  }

  lemma {:induction false} ArrivedKeeps(s: Runtime, sequence: nat, host: nat, dropped: nat, hasPayload: bool,
                                        raw: seq<Byte>)
    requires Inv(s) && s.frameThread.Idle?
    ensures Inv(Arrived(s, sequence, host, dropped, hasPayload, raw))
  {
    var q := Arrived(s, sequence, host, dropped, hasPayload, raw);
    ArrivedCases(s, sequence, host, dropped, hasPayload, raw);
    if q.frameThread.Writing? {
      AdmittedKeeps(s, q, sequence, host, raw);
    } else if q.frameThread.Failing? {
      SameTakes(s, q);
    } else {
      PassedKeeps(s, q, sequence, host);
    }
  }

  // Registrations

  lemma {:induction false} RegisteredKeepsTake(t: TakeRun, u: TakeRun, decimation: nat, open: bool, work: Work)
    requires TakeInv(t, decimation, open, work) && SegmentsTile(u)
    requires u == t.(files := u.files, segments := u.segments) && SameFrames(t.files, u.files)
    ensures TakeInv(u, decimation, open, work)
  {
    SameFramesKeep(t.files, u.files);
    if work.InWork? {
      SameFramesKeepJob(t.files, u.files, work.job, decimation);
    }
  }

  /** A registration moves nothing but the planner's coverage; the segments stay tiled and their count cannot
      overflow. */
  lemma {:induction false} RegisteredTiles(t: TakeRun, index: nat, start: nat, end: nat)
    requires SegmentsTile(t) && end <= U64_MAX
    ensures var (r, p) := SegmentPlanner.Registered(t.files.planner, index, start, end);
            var segments := if r.Ok? then t.segments + [SegmentPlanner.Segment(start, end)] else t.segments;
            var u := t.(files := t.files.(planner := p), segments := segments);
            r != Err(CounterOverflow) && SegmentsTile(u) && SameFrames(t.files, u.files)
  {
    SegmentPlanner.TilesAreFew(t.segments, t.files.planner.coveredFrames);
    if SegmentPlanner.Registered(t.files.planner, index, start, end).0.Ok? {
      SegmentPlanner.TilesSnoc(t.segments, SegmentPlanner.Segment(start, end));
    }
  }

  lemma {:induction false} SegmentRegisteredKeeps(s: Runtime, take: nat, index: nat, start: nat, end: nat)
    requires Inv(s) && take < |s.takes| && end <= U64_MAX
    ensures Inv(SegmentRegistered(s, take, index, start, end))
  {
    var q := SegmentRegistered(s, take, index, start, end);
    forall id | 0 <= id < |q.takes|
      ensures TakeInv(q.takes[id], q.gate.decimation, OpenFor(q, id), WorkOn(q.frameThread, id))
    {
      assert TakeInv(s.takes[id], s.gate.decimation, OpenFor(s, id), WorkOn(s.frameThread, id));
      if id == take {
        RegisteredTiles(s.takes[id], index, start, end);
        RegisteredKeepsTake(s.takes[id], q.takes[id], s.gate.decimation, OpenFor(s, id), WorkOn(s.frameThread, id));
      }
    }
    RegisteredKeepsTrack(s, take, index, start, end);
  }

  lemma {:induction false} RegisteredKeepsTrack(s: Runtime, take: nat, index: nat, start: nat, end: nat)
    requires ControlInv(s) && TrackInv(s) && take < |s.takes| && end <= U64_MAX
    ensures TrackInv(SegmentRegistered(s, take, index, start, end))
  {
    var q := SegmentRegistered(s, take, index, start, end);
    var last := |s.takes| - 1;
    assert q.takes[last].files.rows == s.takes[last].files.rows;
    assert q.takes[last].files.take == s.takes[last].files.take && q.takes[last].failed == s.takes[last].failed;
  }

  /** Every step of every thread keeps the invariant. */
  lemma {:induction false} StepKeeps(s: Runtime, a: Action)
    requires Inv(s)
    ensures CanStep(s) && Inv(Step(s, a))
  {
    InvCanStep(s);
    match a
    case Arrive(sequence, host, dropped, hasPayload, raw) =>
      if s.frameThread.Idle? {
        ArrivedKeeps(s, sequence, host, dropped, hasPayload || raw != [], raw);
      }
    case Write(answer) =>
      if s.frameThread.Writing? {
        WroteKeeps(s, answer);
      }
    case FinishFrame =>
      if s.frameThread.Written? {
        FrameFinishedKeeps(s);
      }
    case Report(now) =>
      if s.frameThread.Reporting? {
        ReportedKeeps(s, now, Idle, s.imu);
      }
    case Terminal(now) => LeavingKeeps(s, now);
    case ExitLoop(now) => LeavingKeeps(s, now);
    case ImuAlarm => ImuKeeps(s, a);
    case ImuReport(now) =>
      if s.imu.Alarmed? {
        ReportedKeeps(s, now, s.frameThread, Ended);
      }
    case ImuExit => ImuKeeps(s, a);
    case Start(session, segmentFrames, startNs, gateClosedAt, hasImu) =>
      if s.controller.Ready? {
        TakeStartedKeeps(s, session, segmentFrames, startNs, gateClosedAt, hasImu);
      }
    case StopBegin(now) =>
      if s.controller.Ready? {
        StopBegunKeeps(s, now);
      }
    case StopDrain(timedOut) => DrainedKeeps(s, timedOut);
    case StopJoin(timedOut) => DrainedKeeps(s, timedOut);
    case RegisterSegment(take, index, start, end) =>
      if take < |s.takes| && end <= U64_MAX {
        SegmentRegisteredKeeps(s, take, index, start, end);
      }
  }

  lemma {:induction false} OtherImuKeeps(s: Runtime, imu: ImuThread)
    requires Inv(s)
    ensures Inv(s.(imu := imu))
  {
    SameTakes(s, s.(imu := imu));
  }

  lemma {:induction false} ImuKeeps(s: Runtime, a: Action)
    requires Inv(s) && CanStep(s) && (a.ImuAlarm? || a.ImuExit?)
    ensures Inv(Step(s, a))
  {
    OtherImuKeeps(s, Step(s, a).imu);
    assert Step(s, a) == s.(imu := Step(s, a).imu);
  }

  /** Any interleaving of the three threads. */
  ghost function Run(s: Runtime, actions: seq<Action>): (q: Runtime)
    requires Inv(s)
    ensures Inv(q)
    decreases actions
  {
    if actions == [] then s
    else
      StepKeeps(s, actions[0]);
      Run(Step(s, actions[0]), actions[1..])
  }
}
