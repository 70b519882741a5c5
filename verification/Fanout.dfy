/** The recording gate: `CaptureFanoutState` of `native/src/recording.rs`. */
module Fanout {
  import opened Prelude

  datatype Recording = Recording(observed: nat, inflight: nat, stopping: bool, failureReported: bool)

  datatype Gate = Gate(decimation: nat, recording: Option<Recording>)

  datatype Decision = Decision(record: bool, droppedBefore: nat)

  /** A recording that is stopping still has a frame in flight; otherwise the gate has dropped it. */
  predicate GateOk(g: Gate) {
    g.decimation > 0 && (g.recording.Some? && g.recording.value.stopping ==> g.recording.value.inflight > 0)
  }

  /** Frames may still be admitted. */
  predicate Open(g: Gate) {
    g.recording.Some? && !g.recording.value.stopping
  }

  function Inflight(g: Gate): nat {
    if g.recording.Some? then g.recording.value.inflight else 0
  }

  function Started(g: Gate): (Result<()>, Gate) {
    if g.recording.Some? && (g.recording.value.inflight != 0 || !g.recording.value.stopping)
    then (Err(InvalidState), g)
    else (Ok(()), g.(recording := Some(Recording(0, 0, false, false))))
  }

  /** `begin_frame`: the first frame of a take is always recorded and owns no gap; later ones are recorded on the
      decimation grid, and also whenever frames were lost in front of them. */
  function Begun(g: Gate, dropped: nat): (Result<Decision>, Gate)
    requires g.decimation > 0
  {
    if !Open(g) then (Ok(Decision(false, dropped)), g)
    else
      var r := g.recording.value;
      if r.observed == 0 then Admitted(g, r.(observed := 1), 0)
      else if r.observed + dropped + 1 > U64_MAX then (Err(CounterOverflow), g)
      else
        var seen := r.(observed := r.observed + dropped + 1);
        if dropped != 0 || r.observed % g.decimation == 0 then Admitted(g, seen, dropped)
        else (Ok(Decision(false, dropped)), g.(recording := Some(seen)))
  }

  function Admitted(g: Gate, r: Recording, dropped: nat): (Result<Decision>, Gate) {
    if r.inflight + 1 > U64_MAX then (Err(CounterOverflow), g.(recording := Some(r)))
    else (Ok(Decision(true, dropped)), g.(recording := Some(r.(inflight := r.inflight + 1))))
  }

  function Finished(g: Gate): (Result<nat>, Gate) {
    if g.recording.None? || g.recording.value.inflight == 0 then (Err(InvalidState), g)
    else
      var r := g.recording.value.(inflight := g.recording.value.inflight - 1);
      (Ok(r.inflight), g.(recording := if r.inflight == 0 && r.stopping then None else Some(r)))
  }

  function Stopping(g: Gate): Gate {
    if g.recording.None? then g
    else if g.recording.value.inflight == 0 then g.(recording := None)
    else g.(recording := Some(g.recording.value.(stopping := true)))
  }

  /** `mark_failure`: whether this call is the one to report, and the closed gate. */
  function FailureMarked(g: Gate): (bool, Gate) {
    if g.recording.None? then (false, g)
    else (!g.recording.value.failureReported,
          Stopping(g.(recording := Some(g.recording.value.(failureReported := true)))))
  }

  class CaptureFanoutState {
    const frameDecimation: nat
    var recording: Option<Recording>

    ghost function View(): Gate
      reads this
    {
      Gate(frameDecimation, recording)
    }

    ghost predicate Valid()
      reads this
    {
      GateOk(View())
    }

    constructor (frameDecimation: nat)
      requires frameDecimation > 0
      ensures Valid() && View() == Gate(frameDecimation, None)
    {
      this.frameDecimation := frameDecimation;
      recording := None;
    }

    method StartRecording() returns (r: Result<()>)
      requires Valid()
      modifies this
      ensures Valid()
      ensures (r, View()) == Started(old(View()))
      ensures r.Ok? <==> old(recording.None? || (recording.value.inflight == 0 && recording.value.stopping))
      ensures recording == if r.Ok? then Some(Recording(0, 0, false, false)) else old(recording)
    {
      if recording.Some? {
        if recording.value.inflight != 0 || !recording.value.stopping {
          return Err(InvalidState);
        }
      }
      recording := Some(Recording(0, 0, false, false));
      return Ok(());
    }

    method BeginFrame(dropped: nat) returns (r: Result<Decision>)
      requires Valid()
      modifies this
      ensures Valid()
      ensures (r, View()) == Begun(old(View()), dropped)
      ensures !Open(old(View())) ==> r == Ok(Decision(false, dropped)) && recording == old(recording)
      ensures Open(old(View())) ==>
                var before := old(recording).value;
                var gap := if before.observed == 0 then 0 else dropped;
                var record := before.observed == 0 || gap > 0 || before.observed % frameDecimation == 0;
                && (r.Ok? <==> before.observed + gap < U64_MAX && (record ==> before.inflight < U64_MAX))
                && (r.Ok? ==>
                      && r.value == Decision(record, gap)
                      && recording == Some(before.(observed := before.observed + gap + 1,
                                                   inflight := before.inflight + (if record then 1 else 0))))
    {
      if recording.None? {
        return Ok(Decision(false, dropped));
      }
      var state := recording.value;
      var record, gap := false, dropped;
      if !state.stopping {
        if state.observed == 0 {
          state := state.(observed := 1);
          gap := 0;
          record := true;
        } else {
          var index := state.observed;
          if index + gap + 1 > U64_MAX {
            return Err(CounterOverflow);
          }
          state := state.(observed := index + gap + 1);
          record := gap != 0 || index % frameDecimation == 0;
        }
        recording := Some(state);
        if record {
          if state.inflight + 1 > U64_MAX {
            return Err(CounterOverflow);
          }
          recording := Some(state.(inflight := state.inflight + 1));
        }
      }
      return Ok(Decision(record, gap));
    }

    method FinishFrame() returns (r: Result<nat>)
      requires Valid()
      modifies this
      ensures Valid()
      ensures (r, View()) == Finished(old(View()))
      ensures r.Ok? <==> old(recording.Some? && recording.value.inflight > 0)
      ensures r.Ok? ==> r.value == old(recording).value.inflight - 1
                        && recording == if r.value == 0 && old(recording).value.stopping then None
                                        else Some(old(recording).value.(inflight := r.value))
      ensures r.Err? ==> recording == old(recording)
    {
      if recording.None? || recording.value.inflight == 0 {
        return Err(InvalidState);
      }
      var inflight := recording.value.inflight - 1;
      recording := Some(recording.value.(inflight := inflight));
      if inflight == 0 && recording.value.stopping {
        recording := None;
      }
      return Ok(inflight);
    }

    method StartStopping() returns (inflight: nat)
      requires Valid()
      modifies this
      ensures Valid()
      ensures View() == Stopping(old(View())) && inflight == Inflight(old(View()))
      ensures !Open(View())
      ensures inflight == 0 ==> recording == None
      ensures inflight > 0 ==> recording == Some(old(recording).value.(stopping := true))
    {
      if recording.None? {
        return 0;
      }
      recording := Some(recording.value.(stopping := true));
      inflight := recording.value.inflight;
      if inflight == 0 {
        recording := None;
      }
    }

    method MarkFailure() returns (shouldReport: bool, inflight: nat)
      requires Valid()
      modifies this
      ensures Valid()
      ensures (shouldReport, View()) == FailureMarked(old(View()))
      ensures inflight == Inflight(old(View())) && !Open(View())
      ensures shouldReport <==> old(recording.Some? && !recording.value.failureReported)
      ensures inflight == 0 ==> recording == None
      ensures inflight > 0 ==>
                recording == Some(old(recording).value.(stopping := true, failureReported := true))
    {
      if recording.None? {
        return false, 0;
      }
      shouldReport := !recording.value.failureReported;
      recording := Some(recording.value.(failureReported := true));
      inflight := StartStopping();
    }
  }
}
