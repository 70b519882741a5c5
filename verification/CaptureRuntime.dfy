/** The critical sections of `native/src/capture_runtime.rs`, each as the in-place update of the locked state, proved to
    be the step of the same name in `Capture`. */
module CaptureRuntime {
  import opened Prelude
  import opened Capture
  import opened TakePath
  import opened Fanout
  import ActiveTake
  import SegmentPlanner
  import LossAccounting

  class SharedState {
    const fanout: CaptureFanoutState
    const validator: LossAccounting.FrameValidator
    var recording: Option<nat>
    var running: bool
    /** Every take since the preview started; the last one is the one `recording` names. */
    var takes: seq<TakeRun>
    var callbacks: nat
    /** The IMU worker handle, with where its thread stands. */
    var imu: ImuThread
    /** Where the frame thread and the controller stand. */
    ghost var frameThread: FrameThread
    ghost var controller: Controller

    ghost function View(): Runtime
      reads this, fanout, validator
    {
      Runtime(fanout.View(), validator.View(), recording, running, takes, frameThread, imu, controller, callbacks)
    }

    ghost predicate Valid()
      reads this, fanout, validator
    {
      ControlInv(View())
    }

    constructor (frameDecimation: nat)
      requires frameDecimation > 0
      ensures Valid() && fresh(fanout) && fresh(validator)
      ensures View() == Initial(frameDecimation)
      ensures running && recording == None && takes == [] && imu.Absent? && callbacks == 0 && !Open(fanout.View())
    {
      fanout := new CaptureFanoutState(frameDecimation);
      validator := new LossAccounting.FrameValidator();
      recording, running, takes, callbacks := None, true, [], 0;
      frameThread, imu, controller := Idle, Absent, Ready;
    }

    /** `request_capture_stop`. */
    method RequestCaptureStop(id: nat, now: nat)
      requires id < |takes|
      modifies this`takes
      ensures old(takes[id].stopped) != 0 ==> takes == old(takes)
      ensures old(takes[id].stopped) == 0 ==>
                takes == old(takes)[id := old(takes)[id].(stopped := if 0 < now <= U64_MAX then now else U64_MAX)]
    {
      var stopped := if 0 < now <= U64_MAX then now else U64_MAX;
      if takes[id].stopped == 0 {
        takes := takes[id := takes[id].(stopped := stopped)];
      }
    }

    /** `process_frame` up to the end of its first critical section: the take and the gap of a frame to be written. */
    method ProcessFrame(sequence: nat, host: nat, dropped: nat, hasPayload: bool, raw: seq<Byte>)
      returns (r: Result<Option<(nat, nat)>>)
      requires Valid() && frameThread.Idle?
      modifies this, fanout, validator
      ensures Valid()
      ensures View() == Arrived(old(View()), sequence, host, dropped, hasPayload, raw)
      ensures r.Err? <==> frameThread.Failing?
      ensures r.Ok? <==> Accepts(old(View()), sequence, host, dropped, hasPayload)
      ensures r.Ok? && r.value.Some? <==> frameThread.Writing?
      ensures r.Ok? && r.value.Some? ==>
                frameThread == Writing(r.value.value.0, Job(sequence, host, r.value.value.1, raw, ToReserve))
    {
      if sequence > LossAccounting.I64_MAX || host > LossAccounting.I64_MAX {
        frameThread := Failing;
        return Err(BadFrame);
      }
      if dropped > LossAccounting.I64_MAX {
        frameThread := Failing;
        return Err(InvalidDropAccounting);
      }
      var validation := validator.Validate(sequence, host, true, hasPayload, dropped);
      if validation.Err? {
        frameThread := Failing;
        return Err(validation.code);
      }
      var decision := fanout.BeginFrame(validation.value.droppedBefore);
      if decision.Err? {
        frameThread := Failing;
        return Err(decision.code);
      }
      if decision.value.record && recording.Some? && recording.value < |takes| {
        var id := recording.value;
        takes := takes[id := takes[id].(admitted := takes[id].admitted + 1)];
        frameThread := Writing(id, Job(sequence, host, decision.value.droppedBefore, raw, ToReserve));
        return Ok(Some((id, decision.value.droppedBefore)));
      }
      return Ok(None);
    }

    /** `finish_recording_frame`; under the invariant it never fails. */
    method FinishRecordingFrame(id: nat, ok: bool) returns (r: Result<()>)
      requires Valid() && frameThread == Written(id, ok)
      modifies this, fanout
      ensures Valid()
      ensures View() == FrameFinished(old(View()))
      ensures frameThread == if ok then Idle else Reporting
      ensures recording == if fanout.recording.None? then None else old(recording)
      ensures takes == old(takes)[id := old(takes)[id].(finished := old(takes)[id].finished + 1)]
      ensures r.Ok?
    {
      var inflight := fanout.FinishFrame();
      if inflight.Err? {
        assert false;
        return Err(InvalidState);
      }
      if fanout.recording.None? {
        recording := None;
      }
      takes := takes[id := takes[id].(finished := takes[id].finished + 1)];
      frameThread := if ok then Idle else Reporting;
      return Ok(());
    }

    /** `report_recording_failure`, from the frame thread or from the IMU thread. */
    method ReportRecordingFailure(now: nat) returns (called: bool)
      requires Valid()
      modifies this, fanout
      ensures Valid()
      ensures View() == Reported(old(View()), now)
      ensures called == (callbacks == old(callbacks) + 1)
      ensures recording == if fanout.recording.None? then None else old(recording)
      ensures !Open(fanout.View())
    {
      var inflight;
      called, inflight := fanout.MarkFailure();
      if recording.Some? {
        RequestCaptureStop(recording.value, now);
      }
      if fanout.recording.None? {
        recording := None;
      }
      if called {
        callbacks := callbacks + 1;
      }
    }

    /** `set_terminal_error`. */
    method SetTerminalError(now: nat)
      requires Valid() && frameThread.Failing?
      modifies this, fanout
      ensures Valid()
      ensures View() == Terminated(old(View()), now)
      ensures !running && recording == None && frameThread.Exited? && !Open(fanout.View())
    {
      running := false;
      var shouldReport, inflight := fanout.MarkFailure();
      if recording.Some? {
        RequestCaptureStop(recording.value, now);
      }
      if shouldReport && recording.Some? {
        callbacks := callbacks + 1;
      }
      recording := None;
      frameThread := Exited;
    }

    /** The tail of `run_loop`. */
    method LeaveLoop(now: nat)
      requires Valid() && frameThread.Idle?
      modifies this, fanout
      ensures Valid()
      ensures View() == LoopExited(old(View()), now)
      ensures !running && recording == None && frameThread.Exited? && !Open(fanout.View())
      ensures callbacks == old(callbacks)
    {
      running := false;
      if recording.Some? {
        RequestCaptureStop(recording.value, now);
      }
      recording := None;
      var inflight := fanout.StartStopping();
      frameThread := Exited;
    }

    /** `start_recording`: a refused start changes nothing. */
    method StartRecording(session: string, segmentFrames: nat, startNs: nat, gateClosedAt: nat, hasImu: bool)
      returns (r: Result<()>)
      requires Valid() && controller.Ready?
      modifies this, fanout
      ensures Valid()
      ensures View() == TakeStarted(old(View()), session, segmentFrames, startNs, gateClosedAt, hasImu)
      ensures r.Ok? <==> |takes| == |old(takes)| + 1
      ensures r.Ok? <==> startNs > 0 && segmentFrames > 0 && session != "" && gateClosedAt == 0
                         && old(imu.Absent? && running && recording.None?)
      ensures r.Ok? ==> recording == Some(|old(takes)|) && Open(fanout.View()) && running
      ensures r.Ok? ==> imu == if hasImu then Collecting else Absent
      ensures r.Err? ==> View() == old(View())
    {
      if startNs == 0 || segmentFrames == 0 || session == "" {
        return Err(InvalidArgument);
      }
      if gateClosedAt != 0 {
        return Err(InvalidState);
      }
      if !imu.Absent? || !running || recording.Some? {
        return Err(InvalidState);
      }
      var started := fanout.StartRecording();
      if started.Err? {
        assert false;
        return Err(InvalidState);
      }
      recording := Some(|takes|);
      var take := ActiveTake.NewTake(session).value;
      var files := Files(take, SegmentPlanner.NewPlanner(segmentFrames), [], [], startNs);
      takes := takes + [TakeRun(files, 0, 0, 0, false, [])];
      imu := if hasImu then Collecting else Absent;
      return Ok(());
    }

    /** `begin_recording_stop`. */
    method BeginRecordingStop(now: nat) returns (inflight: nat)
      requires Valid() && controller.Ready?
      modifies this, fanout
      ensures Valid()
      ensures View() == StopBegun(old(View()), now)
      ensures controller == Draining(inflight) && !Open(fanout.View()) && recording == old(recording)
    {
      inflight := fanout.StartStopping();
      if recording.Some? {
        RequestCaptureStop(recording.value, now);
      }
      controller := Draining(inflight);
    }
  }
}
