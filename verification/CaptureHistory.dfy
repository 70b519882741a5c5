/** Where the contents of a take come from: in every state of every run each encoded payload and each row is that of a
    frame that was delivered, and each segment boundary lies at the time of its frame. */
module CaptureHistory {
  import opened Prelude
  import opened Jpeg
  import opened Fanout
  import opened TakePath
  import opened Capture
  import opened CaptureRuns
  import ActiveTake
  import SegmentPlanner

  /** The action delivers the frame of this row, and this is its JPEG payload. */
  ghost predicate Delivers(a: Action, row: Row, payload: seq<Byte>) {
    a.Arrive? && a.sequence == row.source && a.host == row.host && PayloadOf(a.raw, payload)
  }

  /** Row i and entry i of the encoder belong to one delivered frame. */
  ghost predicate RowDelivered(d: Files, done: seq<Action>, i: nat) {
    && i < |d.rows| && i < |d.encoded|
    && exists j {:trigger done[j]} :: 0 <= j < |done| && Delivers(done[j], d.rows[i], d.encoded[i])
  }

  ghost predicate FramesDelivered(d: Files, done: seq<Action>) {
    forall i: nat {:trigger RowDelivered(d, done, i)} :: i < |d.rows| ==> RowDelivered(d, done, i)
  }

  /** The take was started with this session, segment length and start time. */
  ghost predicate BegunBy(d: Files, done: seq<Action>) {
    exists j {:trigger done[j]} :: 0 <= j < |done| && done[j].Start? && done[j].session == d.take.session
                                   && done[j].segmentFrames == d.planner.segmentFrames && done[j].startNs == d.startNs
  }

  /** The boundary in front of a written frame carries the time of that frame. */
  predicate Timed(d: Files) {
    forall k {:trigger d.planner.boundaryElapsed[k]} :: k in d.planner.boundaryElapsed && k < |d.rows| ==>
      d.planner.boundaryElapsed[k] == ElapsedSeconds(d.startNs, d.rows[k].host)
  }

  ghost predicate TakeHistory(d: Files, done: seq<Action>) {
    FramesDelivered(d, done) && BegunBy(d, done) && Timed(d)
  }

  /** The frame in work was delivered, and the boundary it opened carries its time. */
  ghost predicate JobHistory(d: Files, job: Job, done: seq<Action>) {
    && (exists j {:trigger done[j]} :: 0 <= j < |done| && done[j].Arrive? && done[j].sequence == job.source
                                       && done[j].host == job.host && done[j].raw == job.raw)
    && (job.stage.ToEncode? || job.stage.ToIndex? ==>
          d.take.framesWritten in d.planner.boundaryElapsed ==>
            d.planner.boundaryElapsed[d.take.framesWritten] == ElapsedSeconds(d.startNs, job.host))
  }

  ghost predicate History(s: Runtime, done: seq<Action>) {
    && (forall id: nat {:trigger s.takes[id]} :: id < |s.takes| ==> TakeHistory(s.takes[id].files, done))
    && (s.frameThread.Writing? && s.frameThread.take < |s.takes| ==>
          JobHistory(s.takes[s.frameThread.take].files, s.frameThread.job, done))
  }

  // One more action

  lemma {:induction false} LaterTake(d: Files, done: seq<Action>, a: Action)
    requires TakeHistory(d, done)
    ensures TakeHistory(d, done + [a])
  {
    forall i: nat | i < |d.rows| ensures RowDelivered(d, done + [a], i) {
      assert RowDelivered(d, done, i);
      var j :| 0 <= j < |done| && Delivers(done[j], d.rows[i], d.encoded[i]);
      assert (done + [a])[j] == done[j];
    }
    var j :| 0 <= j < |done| && done[j].Start? && done[j].session == d.take.session
             && done[j].segmentFrames == d.planner.segmentFrames && done[j].startNs == d.startNs;
    assert (done + [a])[j] == done[j];
  }

  lemma {:induction false} LaterJob(d: Files, job: Job, done: seq<Action>, a: Action)
    requires JobHistory(d, job, done)
    ensures JobHistory(d, job, done + [a])
  {
    var j :| 0 <= j < |done| && done[j].Arrive? && done[j].sequence == job.source
             && done[j].host == job.host && done[j].raw == job.raw;
    assert (done + [a])[j] == done[j];
  }

  /** What history looks at in the files of a take. */
  predicate SameContents(d: Files, q: Files) {
    && q.rows == d.rows && d.encoded <= q.encoded && q.startNs == d.startNs && q.take.session == d.take.session
    && q.planner.segmentFrames == d.planner.segmentFrames
    && q.planner.boundaryElapsed == d.planner.boundaryElapsed
  }

  lemma {:induction false} SameContentsKeep(d: Files, q: Files, done: seq<Action>)
    requires TakeHistory(d, done) && SameContents(d, q)
    ensures TakeHistory(q, done)
  {
    forall i: nat | i < |q.rows| ensures RowDelivered(q, done, i) {
      assert RowDelivered(d, done, i);
      var j :| 0 <= j < |done| && Delivers(done[j], d.rows[i], d.encoded[i]);
      assert Delivers(done[j], q.rows[i], q.encoded[i]);
    }
  }

  // The frame in work

  lemma {:induction false} PlanKeepsHistory(d: Files, job: Job, answer: Answer, decimation: nat, done: seq<Action>)
    requires JobOk(d, job, decimation) && job.stage.ToPlan? && TakeHistory(d, done) && JobHistory(d, job, done)
    ensures var (next, progress) := WriteStep(d, job, answer);
            && TakeHistory(next, done)
            && (progress.Continue? ==> JobHistory(next, job.(stage := progress.stage), done))
  {
    var next := WriteStep(d, job, answer).0;
    assert d.take.framesWritten !in d.planner.boundaryElapsed;
    forall i: nat | i < |next.rows| ensures RowDelivered(next, done, i) {
      assert RowDelivered(d, done, i);
    }
  }

  lemma {:induction false} IndexKeepsHistory(d: Files, job: Job, answer: Answer, decimation: nat, done: seq<Action>)
    requires JobOk(d, job, decimation) && job.stage.ToIndex? && TakeHistory(d, done) && JobHistory(d, job, done)
    ensures var (next, progress) := WriteStep(d, job, answer);
            && TakeHistory(next, done)
            && (progress.Continue? ==> JobHistory(next, job.(stage := progress.stage), done))
  {
    var next := WriteStep(d, job, answer).0;
    if answer.accepted {
      forall i: nat | i < |next.rows| ensures RowDelivered(next, done, i) {
        if i < |d.rows| {
          assert RowDelivered(d, done, i);
          var j :| 0 <= j < |done| && Delivers(done[j], d.rows[i], d.encoded[i]);
          assert Delivers(done[j], next.rows[i], next.encoded[i]);
        } else {
          var j :| 0 <= j < |done| && done[j].Arrive? && done[j].sequence == job.source
                   && done[j].host == job.host && done[j].raw == job.raw;
          assert Delivers(done[j], next.rows[i], next.encoded[i]);
        }
      }
    }
  }

  lemma {:induction false} StageKeepsHistory(d: Files, job: Job, answer: Answer, decimation: nat, done: seq<Action>)
    requires JobOk(d, job, decimation) && TakeHistory(d, done) && JobHistory(d, job, done)
    ensures var (next, progress) := WriteStep(d, job, answer);
            && TakeHistory(next, done)
            && (progress.Continue? ==> JobHistory(next, job.(stage := progress.stage), done))
  {
    if job.stage.ToPlan? {
      PlanKeepsHistory(d, job, answer, decimation, done);
    } else if job.stage.ToIndex? {
      IndexKeepsHistory(d, job, answer, decimation, done);
    } else {
      SameContentsKeep(d, WriteStep(d, job, answer).0, done);
    }
  }

  lemma {:induction false} WroteKeepsHistory(s: Runtime, answer: Answer, done: seq<Action>)
    requires Inv(s) && CanStep(s) && s.frameThread.Writing? && History(s, done)
    ensures History(Wrote(s, answer), done)
  {
    var id, q := s.frameThread.take, Wrote(s, answer);
    assert TakeInv(s.takes[id], s.gate.decimation, OpenFor(s, id), WorkOn(s.frameThread, id));
    StageKeepsHistory(s.takes[id].files, s.frameThread.job, answer, s.gate.decimation, done);
    forall other: nat | other < |q.takes| ensures TakeHistory(q.takes[other].files, done) {
      assert TakeHistory(s.takes[other].files, done);
    }
  }

  // The other steps

  lemma {:induction false} OthersKeepContents(s: Runtime, a: Action, id: nat)
    requires CanStep(s) && !a.Write? && !a.Arrive? && id < |s.takes|
    ensures id < |Step(s, a).takes| && SameContents(s.takes[id].files, Step(s, a).takes[id].files)
  {
  }

  lemma {:induction false} OthersKeepJob(s: Runtime, a: Action)
    requires ControlInv(s) && CanStep(s) && !a.Write? && !a.Arrive? && Step(s, a).frameThread.Writing?
    ensures Step(s, a).frameThread == s.frameThread
    ensures var id := s.frameThread.take;
            && id < |s.takes| && id < |Step(s, a).takes|
            && Step(s, a).takes[id].files.take == s.takes[id].files.take
  {
  }

  lemma {:induction false} StartHistory(s: Runtime, a: Action, done: seq<Action>)
    requires CanStep(s) && a.Start? && |Step(s, a).takes| > |s.takes|
    ensures |Step(s, a).takes| == |s.takes| + 1 && TakeHistory(Step(s, a).takes[|s.takes|].files, done + [a])
  {
    assert (done + [a])[|done|] == a;
  }

  lemma {:induction false} OnlyStartAddsATake(s: Runtime, a: Action)
    requires CanStep(s) && |Step(s, a).takes| > |s.takes|
    ensures a.Start?
  {
  }

  lemma {:induction false} OtherKeepsHistory(s: Runtime, a: Action, done: seq<Action>)
    requires Inv(s) && CanStep(s) && !a.Write? && !a.Arrive? && History(s, done)
    ensures History(Step(s, a), done + [a])
  {
    var q := Step(s, a);
    forall id: nat | id < |q.takes| ensures TakeHistory(q.takes[id].files, done + [a]) {
      if id < |s.takes| {
        OthersKeepContents(s, a, id);
        SameContentsKeep(s.takes[id].files, q.takes[id].files, done);
        LaterTake(q.takes[id].files, done, a);
      } else {
        OnlyStartAddsATake(s, a);
        StartHistory(s, a, done);
      }
    }
    if q.frameThread.Writing? {
      var id := s.frameThread.take;
      OthersKeepJob(s, a);
      OthersKeepContents(s, a, id);
      LaterJob(s.takes[id].files, s.frameThread.job, done, a);
    }
  }

  lemma {:induction false} ArriveKeepsHistory(s: Runtime, a: Action, done: seq<Action>)
    requires Inv(s) && CanStep(s) && a.Arrive? && s.frameThread.Idle? && History(s, done)
    ensures History(Step(s, a), done + [a])
  {
    var q := Step(s, a);
    ArrivedCases(s, a.sequence, a.host, a.dropped, a.hasPayload || a.raw != [], a.raw);
    forall id: nat | id < |q.takes| ensures TakeHistory(q.takes[id].files, done + [a]) {
      assert q.takes[id].files == s.takes[id].files;
      LaterTake(s.takes[id].files, done, a);
    }
    assert (done + [a])[|done|] == a;
  }

  lemma {:induction false} LaterHistory(s: Runtime, done: seq<Action>, a: Action)
    requires History(s, done)
    ensures History(s, done + [a])
  {
    forall id: nat | id < |s.takes| ensures TakeHistory(s.takes[id].files, done + [a]) {
      LaterTake(s.takes[id].files, done, a);
    }
    if s.frameThread.Writing? && s.frameThread.take < |s.takes| {
      LaterJob(s.takes[s.frameThread.take].files, s.frameThread.job, done, a);
    }
  }

  lemma {:induction false} StepKeepsHistory(s: Runtime, a: Action, done: seq<Action>)
    requires Inv(s) && History(s, done)
    ensures CanStep(s) && History(Step(s, a), done + [a])
  {
    InvCanStep(s);
    if a.Write? {
      if s.frameThread.Writing? {
        WroteKeepsHistory(s, a.answer, done);
        LaterHistory(Wrote(s, a.answer), done, a);
      } else {
        LaterHistory(s, done, a);
      }
    } else if a.Arrive? {
      if s.frameThread.Idle? {
        ArriveKeepsHistory(s, a, done);
      } else {
        LaterHistory(s, done, a);
      }
    } else {
      OtherKeepsHistory(s, a, done);
    }
  }

  lemma {:induction false} RunKeepsHistory(s: Runtime, done: seq<Action>, actions: seq<Action>)
    requires Inv(s) && History(s, done)
    ensures History(Run(s, actions), done + actions)
    decreases actions
  {
    if actions == [] {
      assert done + actions == done;
    } else {
      StepKeeps(s, actions[0]);
      StepKeepsHistory(s, actions[0], done);
      RunKeepsHistory(Step(s, actions[0]), done + [actions[0]], actions[1..]);
      assert done + [actions[0]] + actions[1..] == done + actions;
    }
  }

  lemma {:induction false} ReachedHistory(decimation: nat, actions: seq<Action>)
    requires decimation > 0
    ensures History(Reached(decimation, actions), actions)
  {
    InitialInv(decimation);
    RunKeepsHistory(Initial(decimation), [], actions);
    assert [] + actions == actions;
  }

  // What every run guarantees

  /** Entry i of the encoder is the JPEG payload of a delivered frame, whose source sequence and time row i carries; the
      take has the session, the segment length and the start time it was started with. */
  lemma {:induction false} EncodedFramesWereDelivered(decimation: nat, actions: seq<Action>, id: nat)
    requires decimation > 0 && id < |Reached(decimation, actions).takes|
    ensures var d := Reached(decimation, actions).takes[id].files;
            && |d.rows| <= |d.encoded|
            && (forall i: nat {:trigger d.rows[i]} :: i < |d.rows| ==>
                  exists j {:trigger actions[j]} ::
                    0 <= j < |actions| && Delivers(actions[j], d.rows[i], d.encoded[i]))
            && BegunBy(d, actions)
  {
    ReachedHistory(decimation, actions);
    var d := Reached(decimation, actions).takes[id].files;
    assert TakeHistory(d, actions);
    assert RowDelivered(d, actions, 0) || |d.rows| == 0;
    if |d.rows| > 0 {
      assert RowDelivered(d, actions, |d.rows| - 1);
    }
    forall i: nat | i < |d.rows|
      ensures exists j {:trigger actions[j]} :: 0 <= j < |actions| && Delivers(actions[j], d.rows[i], d.encoded[i])
    {
      assert RowDelivered(d, actions, i);
    }
  }

  const NS: real := 1_000_000_000.0

  /** The nanoseconds from the start of the take to a frame, or 0 for a frame in front of it. */
  function Since(startNs: nat, host: nat): nat {
    if host >= startNs then host - startNs else 0
  }

  lemma {:induction false} ElapsedIsSince(startNs: nat, host: nat)
    ensures ElapsedSeconds(startNs, host) * NS == Since(startNs, host) as real
  {
  }

  /** The boundary in front of frame k lies at the time of that frame behind the start of the take, and never behind the
      duration. */
  ghost predicate BoundaryTimed(d: Files, p: SegmentPlanner.Planner, k: nat, duration: real) {
    && k < |d.rows| && SegmentPlanner.BoundaryAt(p, k, duration).Ok?
    && var time := SegmentPlanner.BoundaryAt(p, k, duration).value.time;
       var since := Since(d.startNs, d.rows[k].host) as real;
       if since <= duration * NS then time * NS == since else time == duration
  }

  /** Every segment boundary of a take that ends, in any state of any run, lies at the time of the frame that opens the
      segment. */
  lemma {:induction false} BoundariesAreTimed(decimation: nat, actions: seq<Action>, id: nat, duration: real, k: nat)
    requires decimation > 0 && id < |Reached(decimation, actions).takes|
    requires var s := Reached(decimation, actions);
             && !(s.frameThread.Writing? && s.frameThread.take == id) && !s.takes[id].failed
             && var d := s.takes[id].files;
                var (r, p) := SegmentPlanner.Finished(d.planner, |d.encoded|, d.take.frameDomain, duration);
                r.Ok? && k in p.boundaryRecord && k < |d.rows|
    ensures var d := Reached(decimation, actions).takes[id].files;
            var p := SegmentPlanner.Finished(d.planner, |d.encoded|, d.take.frameDomain, duration).1;
            BoundaryTimed(d, p, k, duration)
  {
    var s := Reached(decimation, actions);
    ReachedHistory(decimation, actions);
    assert TakeInv(s.takes[id], s.gate.decimation, OpenFor(s, id), WorkOn(s.frameThread, id));
    assert TakeHistory(s.takes[id].files, actions);
    CoupledBoundary(s.takes[id].files, duration, k);
  }

  lemma {:induction false} CoupledBoundary(d: Files, duration: real, k: nat)
    requires Coupled(d) && Timed(d) && k < |d.rows|
    requires SegmentPlanner.Finished(d.planner, |d.encoded|, d.take.frameDomain, duration).0.Ok?
    requires k in SegmentPlanner.Finished(d.planner, |d.encoded|, d.take.frameDomain, duration).1.boundaryRecord
    ensures var p := SegmentPlanner.Finished(d.planner, |d.encoded|, d.take.frameDomain, duration).1;
            BoundaryTimed(d, p, k, duration)
  {
    var latest := ElapsedSeconds(d.startNs, LastHost(d.rows));
    SegmentPlanner.FinishedBoundary(d.planner, latest, |d.encoded|, d.take.frameDomain, duration, k);
    ElapsedIsSince(d.startNs, d.rows[k].host);
  }
}
