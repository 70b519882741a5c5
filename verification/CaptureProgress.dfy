/** That the capture runtime gets somewhere: which frames it takes, that a take whose frames are all good stays open and
    is written in full, and that a stop can always be brought to its end. */
module CaptureProgress {
  import opened Prelude
  import opened Jpeg
  import opened Fanout
  import opened TakePath
  import opened Capture
  import opened CaptureRuns
  import opened Arithmetic
  import ActiveTake
  import SegmentPlanner
  import LossAccounting

  // Arrivals

  /** What an arrival does: a frame that is not acceptable is an error, an acceptable one is recorded exactly if it is
      the first of an open take, comes behind a gap or lies on the decimation grid. */
  lemma {:induction false} ArrivedExactly(s: Runtime, sequence: nat, host: nat, dropped: nat, hasPayload: bool,
                                          raw: seq<Byte>)
    requires Inv(s) && s.frameThread.Idle?
    ensures var q, gap := Arrived(s, sequence, host, dropped, hasPayload, raw), Before(s.validator, sequence, dropped);
            && (q.frameThread.Failing? <==> !Accepts(s, sequence, host, dropped, hasPayload))
            && (!q.frameThread.Failing? ==>
                  q.validator == LossAccounting.Validator(Some(sequence), Some(host)))
            && (!q.frameThread.Failing? && !Open(s.gate) ==> q == s.(validator := q.validator))
            && (!q.frameThread.Failing? && Open(s.gate) ==> AdmittedExactly(s, q, sequence, host, gap, raw))
  {
  }

  predicate AdmittedExactly(s: Runtime, q: Runtime, sequence: nat, host: nat, gap: nat, raw: seq<Byte>)
    requires Open(s.gate) && s.gate.decimation > 0
  {
    var r := s.gate.recording.value;
    var lost := if r.observed == 0 then 0 else gap;
    if r.observed == 0 || lost > 0 || r.observed % s.gate.decimation == 0 then
      && |s.takes| > 0 && q.frameThread == Writing(|s.takes| - 1, Job(sequence, host, lost, raw, ToReserve))
      && q.gate.recording == Some(r.(observed := r.observed + lost + 1, inflight := 1))
    else
      && q.frameThread.Idle? && q.takes == s.takes
      && q.gate.recording == Some(r.(observed := r.observed + 1))
  }

  // Starting a take

  /** The recording slot outlives the gate only while a stop that met no frame in flight is on its way. */
  predicate SlotOk(s: Runtime) {
    s.recording.Some? && s.gate.recording.None? ==> s.controller.Draining? && s.controller.inflight == 0
  }

  lemma {:induction false} SlotStep(s: Runtime, a: Action)
    requires Inv(s) && CanStep(s) && SlotOk(s)
    ensures SlotOk(Step(s, a))
  {
    if a.Arrive? && s.frameThread.Idle? {
      ArrivedCases(s, a.sequence, a.host, a.dropped, a.hasPayload || a.raw != [], a.raw);
    }
  }

  lemma {:induction false} SlotRun(s: Runtime, actions: seq<Action>)
    requires Inv(s) && SlotOk(s)
    ensures SlotOk(Run(s, actions))
    decreases actions
  {
    if actions != [] {
      StepKeeps(s, actions[0]);
      SlotStep(s, actions[0]);
      SlotRun(Step(s, actions[0]), actions[1..]);
    }
  }

  /** `start_recording` installs a take exactly with valid arguments, a running preview, no recording and no IMU thread;
      the take is open and has everything before it. Anything else changes nothing. */
  lemma {:induction false} TakeStartsExactly(decimation: nat, actions: seq<Action>, session: string,
                                             segmentFrames: nat, startNs: nat, gateClosedAt: nat, hasImu: bool)
    requires decimation > 0
    ensures var s := Reached(decimation, actions);
            var q := Step(s, Start(session, segmentFrames, startNs, gateClosedAt, hasImu));
            if s.controller.Ready? && s.running && s.recording.None? && s.imu.Absent?
               && session != "" && segmentFrames > 0 && startNs > 0 && gateClosedAt == 0 then
              && |q.takes| == |s.takes| + 1 && q.takes[..|s.takes|] == s.takes && q.recording == Some(|s.takes|)
              && NothingTaken(q) && q.frameThread == s.frameThread && q.validator == s.validator
              && (s.frameThread.Idle? ==> Fine(q))
              && q.imu == (if hasImu then Collecting else Absent)
            else q == s
  {
    InitialInv(decimation);
    SlotRun(Initial(decimation), actions);
  }

  /** An open take that no frame was delivered to yet. */
  predicate NothingTaken(s: Runtime) {
    && Open(s.gate) && s.gate.recording.value.observed == 0 && |s.takes| > 0
    && var t := s.takes[|s.takes| - 1];
       t.stopped == 0 && !t.failed && t.files.rows == [] && t.files.encoded == [] && t.files.take.bytesWritten == 0
  }

  // A take whose frames are all good

  /** The latest take is open and nothing has failed in it. */
  ghost predicate Fine(s: Runtime) {
    && Open(s.gate) && |s.takes| > 0 && s.recording == Some(|s.takes| - 1)
    && s.gate.recording.value.observed <= U64_MAX && s.controller.Ready? && !s.imu.Alarmed? && s.running
    && var t := s.takes[|s.takes| - 1];
       && !t.failed && t.files.take.bytesWritten <= U64_MAX
       && match s.frameThread
          case Idle => true
          case Writing(id, job) => id + 1 == |s.takes| && FineJob(t.files, job)
          case Written(id, ok) => id + 1 == |s.takes| && ok
          case _ => false
  }

  ghost predicate FineJob(d: Files, job: Job) {
    && job.gap == 0 && HasPayload(job.raw) && d.take.framesWritten < U64_MAX
    && (job.stage.ToFinish? ==> d.take.bytesWritten + job.stage.bytes <= U64_MAX)
  }

  ghost predicate HasPayload(raw: seq<Byte>) {
    exists s: Span {:trigger IsPayload(raw, s)} :: IsPayload(raw, s)
  }

  /** The step fails nothing: frames follow each other without a gap and have a JPEG payload, encoder and index accept
      them, and nobody stops the recording. */
  ghost predicate Healthy(s: Runtime, a: Action) {
    match a
    case Arrive(sequence, host, dropped, hasPayload, raw) =>
      s.frameThread.Idle? ==>
        && Accepts(s, sequence, host, dropped, true) && HasPayload(raw)
        && (s.gate.recording.Some? && s.gate.recording.value.observed > 0 ==>
              Before(s.validator, sequence, dropped) == 0)
    case Write(answer) =>
      answer.accepted && (|s.takes| > 0 ==> s.takes[|s.takes| - 1].files.take.bytesWritten + answer.bytes <= U64_MAX)
    case ExitLoop(_) => false
    case StopBegin(_) => false
    case ImuAlarm => !s.imu.Collecting?
    case _ => true
  }

  ghost predicate HealthyRun(s: Runtime, actions: seq<Action>)
    requires Inv(s)
    decreases actions
  {
    if actions == [] then true
    else
      StepKeeps(s, actions[0]);
      Healthy(s, actions[0]) && HealthyRun(Step(s, actions[0]), actions[1..])
  }

  lemma {:induction false} FineArrival(s: Runtime, a: Action)
    requires Inv(s) && CanStep(s) && Fine(s) && a.Arrive? && s.frameThread.Idle? && Healthy(s, a)
    ensures Fine(Step(s, a)) && Step(s, a).callbacks == s.callbacks
  {
    var id := |s.takes| - 1;
    PayloadExists(a.raw);
    ArrivedExactly(s, a.sequence, a.host, a.dropped, true, a.raw);
    ArrivedCases(s, a.sequence, a.host, a.dropped, true, a.raw);
    assert TakeInv(s.takes[id], s.gate.decimation, OpenFor(s, id), WorkOn(s.frameThread, id));
    WrittenAreObserved(s);
  }

  /** No more frames are written than were observed. */
  lemma {:induction false} WrittenAreObserved(s: Runtime)
    requires Inv(s) && Open(s.gate) && |s.takes| > 0 && s.frameThread.Idle? && !s.takes[|s.takes| - 1].failed
    ensures s.takes[|s.takes| - 1].files.take.framesWritten <= s.gate.recording.value.observed
  {
    var id, observed := |s.takes| - 1, s.gate.recording.value.observed;
    assert TakeInv(s.takes[id], s.gate.decimation, OpenFor(s, id), WorkOn(s.frameThread, id));
    if observed > 0 {
      QuotientIsSmaller(observed - 1, s.gate.decimation);
    }
  }

  lemma {:induction false} QuotientIsSmaller(a: nat, d: nat)
    requires d > 0
    ensures a / d <= a
  {
    DivModUnique(a, d, a / d, a % d);
    if a / d > a {
      ProductGrows(a / d, d);
    }
  }

  lemma {:induction false} ProductGrows(q: nat, d: nat)
    requires d > 0
    ensures q * d >= q
  {
  }

  lemma {:induction false} FineWrite(s: Runtime, a: Action)
    requires Inv(s) && CanStep(s) && Fine(s) && a.Write? && s.frameThread.Writing? && Healthy(s, a)
    ensures Fine(Step(s, a)) && Step(s, a).callbacks == s.callbacks
    ensures ThreadRank(Step(s, a).frameThread) < ThreadRank(s.frameThread)
  {
    var id, job := s.frameThread.take, s.frameThread.job;
    var d := s.takes[id].files;
    assert TakeInv(s.takes[id], s.gate.decimation, OpenFor(s, id), WorkOn(s.frameThread, id));
    StageSucceeds(d, job, a.answer, a.answer, s.gate.decimation);
    StageShrinks(d, job, a.answer);
    ReservationFits(d, job, s.gate.decimation);
  }

  lemma {:induction false} ReservationFits(d: Files, job: Job, decimation: nat)
    requires JobOk(d, job, decimation) && FineJob(d, job)
    ensures job.stage.ToReserve? ==> d.take.frameDomain < U64_MAX
  {
  }

  lemma {:induction false} FineOther(s: Runtime, a: Action)
    requires ControlInv(s) && CanStep(s) && Fine(s) && Healthy(s, a)
    requires (a.Arrive? ==> !s.frameThread.Idle?) && (a.Write? ==> !s.frameThread.Writing?)
    ensures Fine(Step(s, a)) && Step(s, a).callbacks == s.callbacks
  {
  }

  lemma {:induction false} FineStep(s: Runtime, a: Action)
    requires Inv(s) && CanStep(s) && Fine(s) && Healthy(s, a)
    ensures Fine(Step(s, a)) && Step(s, a).callbacks == s.callbacks && |Step(s, a).takes| == |s.takes|
  {
    if a.Arrive? && s.frameThread.Idle? {
      FineArrival(s, a);
    } else if a.Write? && s.frameThread.Writing? {
      FineWrite(s, a);
    } else {
      FineOther(s, a);
    }
  }

  /** As long as every step is healthy the take stays open, nothing fails in it and nothing is reported, however the
      threads interleave. */
  lemma {:induction false} HealthyTakeStaysOpen(s: Runtime, actions: seq<Action>)
    requires Inv(s) && Fine(s) && HealthyRun(s, actions)
    ensures var q := Run(s, actions); Fine(q) && q.callbacks == s.callbacks && |q.takes| == |s.takes|
    decreases actions
  {
    if actions != [] {
      StepKeeps(s, actions[0]);
      FineStep(s, actions[0]);
      HealthyTakeStaysOpen(Step(s, actions[0]), actions[1..]);
    }
  }

  /** In such a run a take has, whenever the frame thread is idle, a row for every d-th frame since its start. */
  lemma {:induction false} HealthyTakeIsComplete(decimation: nat, before: seq<Action>, actions: seq<Action>)
    requires decimation > 0 && Fine(Reached(decimation, before)) && HealthyRun(Reached(decimation, before), actions)
    requires Run(Reached(decimation, before), actions).frameThread.Idle?
    ensures var q := Run(Reached(decimation, before), actions);
            && Fine(q) && q.callbacks == Reached(decimation, before).callbacks
            && var d, observed := q.takes[|q.takes| - 1].files, q.gate.recording.value.observed;
               && |d.rows| == |d.encoded| == d.take.framesWritten
               && |d.rows| == (if observed == 0 then 0 else (observed - 1) / decimation + 1)
  {
    var s := Reached(decimation, before);
    RunKeepsDecimation(Initial(decimation), before);
    RunKeepsDecimation(s, actions);
    HealthyTakeStaysOpen(s, actions);
    IdleTakeIsComplete(Run(s, actions));
  }

  lemma {:induction false} IdleTakeIsComplete(s: Runtime)
    requires Inv(s) && Fine(s) && s.frameThread.Idle?
    ensures var d, observed := s.takes[|s.takes| - 1].files, s.gate.recording.value.observed;
            && |d.rows| == |d.encoded| == d.take.framesWritten
            && |d.rows| == (if observed == 0 then 0 else (observed - 1) / s.gate.decimation + 1)
  {
    var id := |s.takes| - 1;
    assert TakeInv(s.takes[id], s.gate.decimation, OpenFor(s, id), WorkOn(s.frameThread, id));
  }

  // Such frames, written one after the other

  /** A frame, and the bytes that its index row will take. */
  datatype Delivery = Delivery(sequence: nat, host: nat, raw: seq<Byte>, bytes: nat)

  function Writes(answer: Answer, n: nat): seq<Action> {
    if n == 0 then [] else [Write(answer)] + Writes(answer, n - 1)
  }

  /** The frame arrives and, if it is recorded, passes the five stages and is finished. */
  function Turn(x: Delivery): seq<Action> {
    [Arrive(x.sequence, x.host, 0, true, x.raw)] + (Writes(Answer(true, x.bytes), 5) + [FinishFrame])
  }

  function Turns(xs: seq<Delivery>): seq<Action> {
    if |xs| == 0 then [] else Turns(xs[..|xs| - 1]) + Turn(xs[|xs| - 1])
  }

  lemma {:induction false} RunAppend(s: Runtime, a: seq<Action>, b: seq<Action>)
    requires Inv(s)
    ensures Run(s, a + b) == Run(Run(s, a), b)
    decreases a
  {
    if a == [] {
      assert a + b == b;
    } else {
      StepKeeps(s, a[0]);
      assert (a + b)[1..] == a[1..] + b;
      RunAppend(Step(s, a[0]), a[1..], b);
    }
  }

  lemma {:induction false} WritesElsewhere(s: Runtime, answer: Answer, n: nat)
    requires Inv(s) && !s.frameThread.Writing?
    ensures Run(s, Writes(answer, n)) == s
    decreases n
  {
    if n > 0 {
      assert Writes(answer, n)[1..] == Writes(answer, n - 1);
      InvCanStep(s);
      WritesElsewhere(s, answer, n - 1);
    }
  }

  /** The state after all stages of the frame in work. */
  function AfterWriting(s: Runtime, answer: Answer): Runtime
    requires CanStep(s) && s.frameThread.Writing?
  {
    var id, job := s.frameThread.take, s.frameThread.job;
    var (d, r) := TakePath.Written(s.takes[id].files, job, answer, answer);
    s.(takes := s.takes[id := s.takes[id].(files := d, failed := s.takes[id].failed || r.Err?)],
       frameThread := FrameThread.Written(id, r.Ok?))
  }

  lemma {:induction false} OneWrite(s: Runtime, answer: Answer)
    requires CanStep(s) && s.frameThread.Writing?
    ensures var q := Step(s, Write(answer));
            if q.frameThread.Writing? then
              && CanStep(q) && Rank(q.frameThread.job.stage) < Rank(s.frameThread.job.stage)
              && AfterWriting(q, answer) == AfterWriting(s, answer)
            else q == AfterWriting(s, answer)
  {
    StageShrinks(s.takes[s.frameThread.take].files, s.frameThread.job, answer);
  }

  lemma {:induction false} WritesWrite(s: Runtime, answer: Answer, n: nat)
    requires Inv(s) && CanStep(s) && s.frameThread.Writing? && Rank(s.frameThread.job.stage) < n
    ensures Run(s, Writes(answer, n)) == AfterWriting(s, answer)
    decreases n
  {
    assert Writes(answer, n)[1..] == Writes(answer, n - 1);
    var q := Step(s, Write(answer));
    StepKeeps(s, Write(answer));
    OneWrite(s, answer);
    if q.frameThread.Writing? {
      WritesWrite(q, answer, n - 1);
    } else {
      WritesElsewhere(q, answer, n - 1);
    }
  }

  /** The row and the payload of the frame are the new ones of the take. */
  ghost predicate Adds(d: Files, q: Files, x: Delivery)
    requires d.planner.segmentFrames > 0
  {
    var n := |d.rows|;
    && q.rows == d.rows + [Row(n, x.sequence, x.host, n / d.planner.segmentFrames, n % d.planner.segmentFrames)]
    && |q.encoded| == |d.encoded| + 1 && q.encoded[..|d.encoded|] == d.encoded
    && PayloadOf(x.raw, q.encoded[|d.encoded|])
    && q.take.bytesWritten == d.take.bytesWritten + x.bytes
  }

  lemma {:induction false} WrittenIsAdded(d: Files, job: Job, x: Delivery, decimation: nat)
    requires JobOk(d, job, decimation) && job.stage.ToReserve? && FineJob(d, job)
    requires job.source == x.sequence && job.host == x.host && job.raw == x.raw
    requires d.take.bytesWritten + x.bytes <= U64_MAX
    ensures var (q, r) := TakePath.Written(d, job, Answer(true, x.bytes), Answer(true, x.bytes));
            r.Ok? && Adds(d, q, x)
  {
    FrameIsWrittenExactly(d, job, Answer(true, x.bytes), Answer(true, x.bytes), decimation);
    FrameIsWritten(d, job, Answer(true, x.bytes), Answer(true, x.bytes), decimation);
  }

  /** The frame may follow the ones before it. */
  ghost predicate Follows(s: Runtime, x: Delivery) {
    && Accepts(s, x.sequence, x.host, 0, true) && HasPayload(x.raw)
    && (s.gate.recording.Some? && s.gate.recording.value.observed > 0 ==> Before(s.validator, x.sequence, 0) == 0)
    && |s.takes| > 0 && s.takes[|s.takes| - 1].files.take.bytesWritten + x.bytes <= U64_MAX
  }

  /** What one turn leaves behind. */
  ghost predicate Turned(s: Runtime, q: Runtime, x: Delivery)
    requires Fine(s) && Fine(q) && |q.takes| == |s.takes| && s.gate.decimation > 0
    requires s.takes[|s.takes| - 1].files.planner.segmentFrames > 0
  {
    var d, e, observed := s.takes[|s.takes| - 1].files, q.takes[|s.takes| - 1].files, s.gate.recording.value.observed;
    && q.frameThread.Idle? && q.callbacks == s.callbacks && q.gate.decimation == s.gate.decimation
    && q.gate.recording.value.observed == observed + 1
    && q.validator == LossAccounting.Validator(Some(x.sequence), Some(x.host))
    && if observed % s.gate.decimation == 0 then Adds(d, e, x) && |d.rows| * s.gate.decimation == observed else e == d
  }

  lemma {:induction false} TurnRuns(s: Runtime, x: Delivery)
    requires Inv(s)
    ensures CanStep(s) && Inv(Step(s, Turn(x)[0]))
    ensures var q := Run(Step(s, Turn(x)[0]), Writes(Answer(true, x.bytes), 5));
            CanStep(q) && Run(s, Turn(x)) == Step(q, FinishFrame)
  {
    var a, writes := Turn(x)[0], Writes(Answer(true, x.bytes), 5);
    StepKeeps(s, a);
    assert Turn(x)[1..] == writes + [FinishFrame];
    RunAppend(Step(s, a), writes, [FinishFrame]);
    InvCanStep(Run(Step(s, a), writes));
    assert [FinishFrame][1..] == [];
  }

  /** The frame is recorded. */
  lemma {:induction false} RecordedTurn(s: Runtime, x: Delivery)
    requires Inv(s) && CanStep(s) && Fine(s) && s.frameThread.Idle? && Follows(s, x)
    requires s.gate.recording.value.observed % s.gate.decimation == 0
    requires s.takes[|s.takes| - 1].files.planner.segmentFrames > 0
    ensures var q := Run(s, Turn(x)); Fine(q) && |q.takes| == |s.takes| && Turned(s, q, x)
  {
    var a, answer, id := Turn(x)[0], Answer(true, x.bytes), |s.takes| - 1;
    TurnRuns(s, x);
    PayloadExists(x.raw);
    ArrivedExactly(s, x.sequence, x.host, 0, true, x.raw);
    ArrivedCases(s, x.sequence, x.host, 0, true, x.raw);
    FineArrival(s, a);
    var p := Step(s, a);
    InvCanStep(p);
    RecordedWrites(s, p, x);
  }

  lemma {:induction false} RecordedWrites(s: Runtime, p: Runtime, x: Delivery)
    requires Inv(s) && CanStep(s) && Fine(s) && s.frameThread.Idle? && Follows(s, x)
    requires Inv(p) && CanStep(p) && Fine(p) && FrameAdmitted(s, p, x.sequence, x.host, x.raw)
    requires p.frameThread.job.gap == 0 && p.callbacks == s.callbacks
    requires s.gate.recording.value.observed % s.gate.decimation == 0
    requires s.takes[|s.takes| - 1].files.planner.segmentFrames > 0
    ensures var q := Run(p, Writes(Answer(true, x.bytes), 5));
            CanStep(q) && Fine(Step(q, FinishFrame)) && |Step(q, FinishFrame).takes| == |s.takes|
            && Turned(s, Step(q, FinishFrame), x)
  {
    var id, answer := |s.takes| - 1, Answer(true, x.bytes);
    assert TakeInv(p.takes[id], p.gate.decimation, OpenFor(p, id), WorkOn(p.frameThread, id));
    WrittenIsAdded(p.takes[id].files, p.frameThread.job, x, p.gate.decimation);
    WritesWrite(p, answer, 5);
    RecordedFinish(s, p, x);
  }

  lemma {:induction false} RecordedFinish(s: Runtime, p: Runtime, x: Delivery)
    requires ControlInv(s) && Fine(s) && s.frameThread.Idle? && Follows(s, x)
    requires ControlInv(p) && TrackInv(p) && CanStep(p) && Fine(p)
    requires FrameAdmitted(s, p, x.sequence, x.host, x.raw)
    requires p.frameThread.job.gap == 0 && p.callbacks == s.callbacks
    requires s.gate.recording.value.observed % s.gate.decimation == 0
    requires var id, d := |s.takes| - 1, s.takes[|s.takes| - 1].files;
             && d.planner.segmentFrames > 0 && |d.rows| == d.take.framesWritten
             && AfterWriting(p, Answer(true, x.bytes)).frameThread == FrameThread.Written(id, true)
             && Adds(d, AfterWriting(p, Answer(true, x.bytes)).takes[id].files, x)
    ensures var q := AfterWriting(p, Answer(true, x.bytes));
            CanStep(q) && Fine(Step(q, FinishFrame)) && |Step(q, FinishFrame).takes| == |s.takes|
            && Turned(s, Step(q, FinishFrame), x)
  {
  }

  /** The frame is between two recorded ones. */
  lemma {:induction false} SkippedTurn(s: Runtime, x: Delivery)
    requires Inv(s) && CanStep(s) && Fine(s) && s.frameThread.Idle? && Follows(s, x)
    requires s.gate.recording.value.observed % s.gate.decimation != 0
    requires s.takes[|s.takes| - 1].files.planner.segmentFrames > 0
    ensures var q := Run(s, Turn(x)); Fine(q) && |q.takes| == |s.takes| && Turned(s, q, x)
  {
    TurnRuns(s, x);
    PayloadExists(x.raw);
    FineArrival(s, Turn(x)[0]);
    SkippedArrival(s, x);
    WritesElsewhere(Step(s, Turn(x)[0]), Answer(true, x.bytes), 5);
  }

  lemma {:induction false} SkippedArrival(s: Runtime, x: Delivery)
    requires Inv(s) && CanStep(s) && Fine(s) && s.frameThread.Idle? && Follows(s, x)
    requires s.gate.recording.value.observed % s.gate.decimation != 0
    requires s.takes[|s.takes| - 1].files.planner.segmentFrames > 0
    ensures var p := Step(s, Turn(x)[0]);
            |p.takes| == |s.takes| && (Fine(p) ==> Turned(s, p, x)) && Step(p, FinishFrame) == p
  {
    PayloadExists(x.raw);
    ArrivedExactly(s, x.sequence, x.host, 0, true, x.raw);
  }

  function Bytes(xs: seq<Delivery>): nat {
    if |xs| == 0 then 0 else Bytes(xs[..|xs| - 1]) + xs[|xs| - 1].bytes
  }

  /** The frames follow each other without a gap behind what came before, have a JPEG payload, and fit the counters. */
  ghost predicate Deliverable(v: LossAccounting.Validator, xs: seq<Delivery>) {
    && |xs| <= U64_MAX && Bytes(xs) <= U64_MAX
    && (forall i {:trigger xs[i]} :: 0 <= i < |xs| ==>
          && xs[i].sequence == xs[0].sequence + i && HasPayload(xs[i].raw)
          && xs[i].sequence <= 0x7fff_ffff_ffff_ffff && xs[i].host <= 0x7fff_ffff_ffff_ffff)
    && (forall i, j :: 0 <= i < j < |xs| ==> xs[i].host < xs[j].host)
    && (|xs| > 0 ==>
          && (v.lastSequence.Some? ==> v.lastSequence.value < xs[0].sequence)
          && (v.lastHost.Some? ==> v.lastHost.value < xs[0].host))
  }

  /** Row i and entry i of the encoder are those of frame i * d. */
  ghost predicate RowIs(d: Files, xs: seq<Delivery>, decimation: nat, i: nat) {
    && i < |d.rows| && i < |d.encoded| && i * decimation < |xs|
    && var x := xs[i * decimation];
       d.rows[i].source == x.sequence && d.rows[i].host == x.host && PayloadOf(x.raw, d.encoded[i])
  }

  ghost predicate RowsAre(d: Files, xs: seq<Delivery>, decimation: nat) {
    && |d.rows| == |d.encoded| && d.take.bytesWritten <= Bytes(xs)
    && forall i: nat {:trigger RowIs(d, xs, decimation, i)} :: i < |d.rows| ==> RowIs(d, xs, decimation, i)
  }

  /** All these frames, and no others, have been delivered since s. */
  ghost predicate TurnsDone(s: Runtime, q: Runtime, xs: seq<Delivery>) {
    && Fine(q) && q.frameThread.Idle? && |q.takes| == |s.takes| && q.callbacks == s.callbacks
    && q.gate.decimation == s.gate.decimation && q.gate.recording.value.observed == |xs|
    && q.validator == (if |xs| == 0 then s.validator
                       else LossAccounting.Validator(Some(xs[|xs| - 1].sequence), Some(xs[|xs| - 1].host)))
    && RowsAre(q.takes[|q.takes| - 1].files, xs, s.gate.decimation)
  }

  lemma {:induction false} DeliverableBefore(v: LossAccounting.Validator, xs: seq<Delivery>)
    requires |xs| > 0 && Deliverable(v, xs)
    ensures Deliverable(v, xs[..|xs| - 1])
  {
  }

  lemma {:induction false} RowsStay(d: Files, xs: seq<Delivery>, x: Delivery, decimation: nat)
    requires RowsAre(d, xs, decimation)
    ensures RowsAre(d, xs + [x], decimation)
  {
    assert (xs + [x])[..|xs|] == xs;
    forall i: nat | i < |d.rows| ensures RowIs(d, xs + [x], decimation, i) {
      assert RowIs(d, xs, decimation, i);
    }
  }

  lemma {:induction false} RowsGrow(d: Files, e: Files, xs: seq<Delivery>, x: Delivery, decimation: nat)
    requires RowsAre(d, xs, decimation) && d.planner.segmentFrames > 0 && Adds(d, e, x)
    requires |d.rows| * decimation == |xs|
    ensures RowsAre(e, xs + [x], decimation)
  {
    assert (xs + [x])[..|xs|] == xs;
    forall i: nat | i < |e.rows| ensures RowIs(e, xs + [x], decimation, i) {
      if i < |d.rows| {
        assert RowIs(d, xs, decimation, i);
        assert e.encoded[i] == e.encoded[..|d.encoded|][i];
      }
    }
  }

  lemma {:induction false} NextFollows(s: Runtime, q: Runtime, xs: seq<Delivery>)
    requires |xs| > 0 && Deliverable(s.validator, xs) && TurnsDone(s, q, xs[..|xs| - 1])
    ensures Follows(q, xs[|xs| - 1])
  {
    if |xs| > 1 {
      assert xs[|xs| - 2].sequence + 1 == xs[|xs| - 1].sequence;
    }
  }

  lemma {:induction false} TurnedIsDone(s: Runtime, q: Runtime, e: Runtime, xs: seq<Delivery>)
    requires |xs| > 0 && TurnsDone(s, q, xs[..|xs| - 1]) && q.gate.decimation > 0
    requires q.takes[|q.takes| - 1].files.planner.segmentFrames > 0
    requires Fine(e) && |e.takes| == |q.takes| && Turned(q, e, xs[|xs| - 1])
    ensures TurnsDone(s, e, xs)
  {
    var before, x, d := xs[..|xs| - 1], xs[|xs| - 1], q.takes[|q.takes| - 1].files;
    assert before + [x] == xs;
    if |before| % q.gate.decimation == 0 {
      RowsGrow(d, e.takes[|q.takes| - 1].files, before, x, q.gate.decimation);
    } else {
      RowsStay(d, before, x, q.gate.decimation);
    }
  }

  lemma {:induction false} OneTurn(s: Runtime, x: Delivery)
    requires Inv(s) && CanStep(s) && Fine(s) && s.frameThread.Idle? && Follows(s, x)
    ensures s.takes[|s.takes| - 1].files.planner.segmentFrames > 0
    ensures var q := Run(s, Turn(x)); Fine(q) && |q.takes| == |s.takes| && Turned(s, q, x)
  {
    var id := |s.takes| - 1;
    assert TakeInv(s.takes[id], s.gate.decimation, OpenFor(s, id), WorkOn(s.frameThread, id));
    if s.gate.recording.value.observed % s.gate.decimation == 0 {
      RecordedTurn(s, x);
    } else {
      SkippedTurn(s, x);
    }
  }

  lemma {:induction false} NextTurn(s: Runtime, q: Runtime, xs: seq<Delivery>)
    requires |xs| > 0 && Deliverable(s.validator, xs) && Inv(q) && CanStep(q) && TurnsDone(s, q, xs[..|xs| - 1])
    ensures TurnsDone(s, Run(q, Turn(xs[|xs| - 1])), xs)
  {
    NextFollows(s, q, xs);
    OneTurn(q, xs[|xs| - 1]);
    TurnedIsDone(s, q, Run(q, Turn(xs[|xs| - 1])), xs);
  }

  lemma {:induction false} TurnsRun(s: Runtime, xs: seq<Delivery>)
    requires Inv(s) && Fine(s) && s.frameThread.Idle? && NothingTaken(s) && Deliverable(s.validator, xs)
    ensures TurnsDone(s, Run(s, Turns(xs)), xs)
    decreases |xs|
  {
    if |xs| > 0 {
      var before, x := xs[..|xs| - 1], xs[|xs| - 1];
      DeliverableBefore(s.validator, xs);
      TurnsRun(s, before);
      RunAppend(s, Turns(before), Turn(x));
      InvCanStep(Run(s, Turns(before)));
      NextTurn(s, Run(s, Turns(before)), xs);
    }
  }

  /** All of the frames have been taken, and the take has their rows, up to the last frame on the grid. */
  ghost predicate WrittenInFull(s: Runtime, q: Runtime, xs: seq<Delivery>)
    requires s.gate.decimation > 0
  {
    && Fine(q) && q.frameThread.Idle? && |q.takes| == |s.takes| && q.callbacks == s.callbacks
    && RowsAre(q.takes[|q.takes| - 1].files, xs, s.gate.decimation)
    && |q.takes[|q.takes| - 1].files.rows| == (if |xs| == 0 then 0 else (|xs| - 1) / s.gate.decimation + 1)
  }

  lemma {:induction false} TurnsAreComplete(s: Runtime, xs: seq<Delivery>)
    requires Inv(s) && NothingTaken(s) && Fine(s) && s.frameThread.Idle? && Deliverable(s.validator, xs)
    ensures WrittenInFull(s, Run(s, Turns(xs)), xs)
  {
    TurnsRun(s, xs);
    IdleTakeIsComplete(Run(s, Turns(xs)));
  }

  /** A take is within reach: from any state in which one was just opened, frames that follow each other without a gap
      and hold a JPEG payload are all taken, nothing fails, and row i and entry i of the encoder are those of frame
      i * d. */
  lemma {:induction false} GoodFramesAreWritten(decimation: nat, actions: seq<Action>, xs: seq<Delivery>)
    requires decimation > 0
    requires var s := Reached(decimation, actions);
             NothingTaken(s) && Fine(s) && s.frameThread.Idle? && Deliverable(s.validator, xs)
    ensures WrittenInFull(Reached(decimation, actions), Run(Reached(decimation, actions), Turns(xs)), xs)
  {
    TurnsAreComplete(Reached(decimation, actions), xs);
  }

  // Stopping

  function ThreadRank(t: FrameThread): nat {
    match t
    case Writing(_, job) => 3 + Rank(job.stage)
    case Written(_, _) => 2
    case Reporting => 1
    case Failing => 1
    case _ => 0
  }

  /** How many steps a stop is away from its end at most. */
  function ToGo(s: Runtime): nat {
    ThreadRank(s.frameThread)
    + (if s.imu.Collecting? || s.imu.Alarmed? then 1 else 0)
    + (match s.controller case Ready => 3 case Draining(_) => 2 case Joining => 1)
  }

  /** What takes a stop nearer to its end: the frame thread finishes what it has in hand, the IMU thread leaves, and the
      controller goes on. */
  function NextMove(s: Runtime): Action {
    match s.frameThread
    case Writing(_, _) => Write(Answer(true, 0))
    case Written(_, _) => FinishFrame
    case Reporting => Report(1)
    case Failing => Terminal(1)
    case _ =>
      if s.imu.Collecting? then ImuExit
      else if s.imu.Alarmed? then ImuReport(1)
      else if s.controller.Ready? then StopBegin(1)
      else if s.controller.Draining? then StopDrain(false)
      else StopJoin(false)
  }

  lemma {:induction false} StageShrinks(d: Files, job: Job, answer: Answer)
    requires d.planner.segmentFrames > 0
    ensures var p := WriteStep(d, job, answer).1; p.Continue? ==> Rank(p.stage) < Rank(job.stage)
  {
  }

  lemma {:induction false} ThreadMove(s: Runtime)
    requires Inv(s) && CanStep(s) && ThreadRank(s.frameThread) > 0
    ensures var q := Step(s, NextMove(s));
            && ThreadRank(q.frameThread) < ThreadRank(s.frameThread)
            && q.imu == s.imu && q.controller == s.controller && |q.takes| == |s.takes|
            && (q.frameThread.Failing? ==> s.frameThread.Failing?)
            && (!s.frameThread.Failing? ==> q.running == s.running)
  {
    if s.frameThread.Writing? {
      StageShrinks(s.takes[s.frameThread.take].files, s.frameThread.job, Answer(true, 0));
    }
  }

  lemma {:induction false} ControllerMove(s: Runtime)
    requires ControlInv(s) && CanStep(s) && SlotOk(s) && ThreadRank(s.frameThread) == 0
    ensures var q := Step(s, NextMove(s));
            && q.frameThread == s.frameThread && |q.takes| == |s.takes| && q.running == s.running
            && (ToGo(q) < ToGo(s) || StopSucceeds(s, NextMove(s)))
            && (StopSucceeds(s, NextMove(s)) ==>
                  q.controller.Ready? && q.imu.Absent? && q.recording.None? && q.gate.recording.None?)
  {
  }

  /** The controller is back, with nothing left of the recording. */
  predicate Stopped(s: Runtime) {
    s.controller.Ready? && s.imu.Absent? && s.recording.None? && s.gate.recording.None?
  }

  lemma {:induction false} WayToTheStop(s: Runtime) returns (more: seq<Action>)
    requires Inv(s) && SlotOk(s)
    ensures |more| > 0 && StopSucceeds(Run(s, more[..|more| - 1]), more[|more| - 1])
    ensures var q := Run(s, more);
            Stopped(q) && |q.takes| == |s.takes| && (!s.frameThread.Failing? ==> q.running == s.running)
    decreases ToGo(s)
  {
    var a := NextMove(s);
    StepKeeps(s, a);
    SlotStep(s, a);
    if ThreadRank(s.frameThread) > 0 {
      ThreadMove(s);
    } else {
      ControllerMove(s);
    }
    if ThreadRank(s.frameThread) == 0 && StopSucceeds(s, a) {
      more := [a];
      assert more[..0] == [] && more[1..] == [];
    } else {
      var rest := WayToTheStop(Step(s, a));
      more := [a] + rest;
      assert more[1..] == rest;
      assert more[..|more| - 1][1..] == rest[..|rest| - 1];
    }
  }

  /** From every state of every run `stop_recording` can be brought to success, whatever frame is in work and whatever
      the IMU thread is at; then nothing is left of the recording, and the preview runs on unless the frame thread had
      met an error. */
  lemma {:induction false} StopCanSucceed(decimation: nat, actions: seq<Action>) returns (more: seq<Action>)
    requires decimation > 0
    ensures var s := Reached(decimation, actions);
            && |more| > 0 && StopSucceeds(Run(s, more[..|more| - 1]), more[|more| - 1])
            && Stopped(Run(s, more)) && |Run(s, more).takes| == |s.takes|
            && (!s.frameThread.Failing? ==> Run(s, more).running == s.running)
  {
    InitialInv(decimation);
    SlotRun(Initial(decimation), actions);
    more := WayToTheStop(Reached(decimation, actions));
  }

  /** A stop gives up only while a frame is in flight or the IMU thread has not left, and changes nothing then but that
      the controller is back; it waits as long as it has time. */
  lemma {:induction false} TimedOutStop(decimation: nat, actions: seq<Action>, timedOut: bool)
    requires decimation > 0
    ensures var s := Reached(decimation, actions);
            && (s.controller.Draining? && Inflight(s.gate) > 0 ==>
                  Step(s, StopDrain(timedOut)) == if timedOut then s.(controller := Ready) else s)
            && (s.controller.Draining? && Inflight(s.gate) == 0 ==>
                  Step(s, StopDrain(timedOut)) == s.(controller := Joining, recording := None))
            && (s.controller.Joining? && (s.imu.Collecting? || s.imu.Alarmed?) ==>
                  Step(s, StopJoin(timedOut)) == if timedOut then s.(controller := Ready) else s)
  {
    InitialInv(decimation);
    SlotRun(Initial(decimation), actions);
  }

  // The IMU thread

  /** An error of the IMU collector while a recording is there closes its gate, stamps it and is reported once; without
      a recording, and when it leaves on its own, the thread just ends. */
  lemma {:induction false} ImuFailureEndsTheTake(decimation: nat, actions: seq<Action>, now: nat)
    requires decimation > 0 && Reached(decimation, actions).imu.Collecting?
    ensures var s := Reached(decimation, actions);
            var q := Step(s, ImuAlarm);
            var end := Step(q, ImuReport(now));
            && Step(s, ImuExit) == s.(imu := Ended)
            && (s.gate.recording.None? ==> q == s.(imu := Ended))
            && (s.gate.recording.Some? ==>
                  && q.imu.Alarmed? && end.imu.Ended? && !Open(end.gate)
                  && end.frameThread == s.frameThread && end.running == s.running)
            && (Open(s.gate) ==>
                  && |s.takes| > 0 && |end.takes| == |s.takes| && end.callbacks == s.callbacks + 1
                  && StampedAt(end.takes[|s.takes| - 1].stopped, now))
  {
    var s := Reached(decimation, actions);
    InvCanStep(s);
    if Open(s.gate) {
      OpenUntilStamped(s, |s.takes| - 1);
    }
  }
}
