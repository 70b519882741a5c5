/** One admitted frame on its way into a take: `write_split_sink_frame` of `native/src/capture_runtime.rs` over the
    reservation counter, the segment planner, the encoder and the frame index. */
module TakePath {
  import opened Prelude
  import opened Arithmetic
  import opened Jpeg
  import opened ActiveTake
  import opened SegmentPlanner

  /** A row of the frame index. */
  datatype Row = Row(frame: nat, source: nat, host: nat, segmentIndex: nat, segmentFrame: nat)

  /** What one take owns: encoder submissions and accepted index rows stand for the encoder and the sink. */
  datatype Files = Files(take: Take, planner: Planner, encoded: seq<seq<Byte>>, rows: seq<Row>, startNs: nat)

  /** How far the writer has come with a frame; every stage ends at a lock boundary. */
  datatype Stage =
    | ToReserve
    | ToPlan(reserved: Reserved)
    | ToEncode(reserved: Reserved, plan: Plan)
    | ToIndex(reserved: Reserved, plan: Plan)
    | ToFinish(reserved: Reserved, bytes: nat)

  datatype Job = Job(source: nat, host: nat, gap: nat, raw: seq<Byte>, stage: Stage)

  datatype Progress = Continue(stage: Stage) | Done(result: Result<()>)

  /** What encoder and index answer: whether the step is accepted, and how many bytes the index row takes. */
  datatype Answer = Answer(accepted: bool, bytes: nat)

  function ElapsedSeconds(startNs: nat, host: nat): real {
    if host >= startNs then (host - startNs) as real / 1_000_000_000.0 else 0.0
  }

  function WriteStep(d: Files, job: Job, answer: Answer): (Files, Progress)
    requires d.planner.segmentFrames > 0
  {
    match job.stage
    case ToReserve =>
      if job.raw == [] then (d, Done(Err(RawFrameUnavailable)))
      else if JpegPayload(job.raw).Err? then (d, Done(Err(BadFrame)))
      else
        var (reserved, take) := Reserve(d.take, Source(job.source, job.host, job.gap));
        (d.(take := take), if reserved.Ok? then Continue(ToPlan(reserved.value)) else Done(Err(reserved.code)))
    case ToPlan(reserved) =>
      var (plan, planner) := NextFrame(d.planner, reserved.record, ElapsedSeconds(d.startNs, job.host));
      (d.(planner := planner), if plan.Ok? then Continue(ToEncode(reserved, plan.value)) else Done(Err(plan.code)))
    case ToEncode(reserved, plan) =>
      if answer.accepted && JpegPayload(job.raw).Ok? then
        var span := JpegPayload(job.raw).value;
        (d.(encoded := d.encoded + [job.raw[span.start..span.end]]), Continue(ToIndex(reserved, plan)))
      else (d, Done(Err(EncoderFailed)))
    case ToIndex(reserved, plan) =>
      if answer.accepted then
        var row := Row(reserved.record, reserved.source, reserved.host, plan.segmentIndex, plan.segmentFrame);
        (d.(rows := d.rows + [row]), Continue(ToFinish(reserved, answer.bytes)))
      else (d, Done(Err(WriteFailed)))
    case ToFinish(reserved, bytes) =>
      var (result, take) := ActiveTake.FinishFrame(d.take, reserved, bytes);
      (d.(take := take), Done(result))
  }

  // Counter coupling

  /** Row i names frame i at its exact place in the segments. */
  predicate RowsInPlace(rows: seq<Row>, segmentFrames: nat)
    requires segmentFrames > 0
  {
    forall i :: 0 <= i < |rows| ==>
      rows[i].frame == i && rows[i].segmentIndex == i / segmentFrames && rows[i].segmentFrame == i % segmentFrames
  }

  /** The time of the last row, or 0. */
  function LastHost(rows: seq<Row>): nat {
    if rows == [] then 0 else rows[|rows| - 1].host
  }

  predicate HostsRise(rows: seq<Row>) {
    forall i, j :: 0 <= i < j < |rows| ==> rows[i].host < rows[j].host
  }

  /** Row i carries the source sequence s0 + i*decimation. */
  predicate OnGrid(rows: seq<Row>, decimation: nat) {
    forall i :: 0 <= i < |rows| ==> rows[i].source == rows[0].source + i * decimation
  }

  /** What holds of the rows of a take at every moment, failed or not. */
  predicate RowsOk(d: Files, decimation: nat)
    requires d.planner.segmentFrames > 0
  {
    RowsInPlace(d.rows, d.planner.segmentFrames) && HostsRise(d.rows) && OnGrid(d.rows, decimation)
  }

  /** The five counters, each with how far it is ahead of the written frames. */
  predicate CountersAt(d: Files, reserved: nat, planned: nat, submitted: nat, indexed: nat) {
    var n := d.take.framesWritten;
    && !d.take.closed
    && d.take.frameDomain == n + reserved
    && d.take.pending == (if reserved == 1 then Some(n) else None)
    && d.planner.framesWritten == n + planned
    && |d.encoded| == n + submitted
    && |d.rows| == n + indexed
  }

  /** Between frames of a take without failure all counters agree. */
  ghost predicate Coupled(d: Files) {
    CountersAt(d, 0, 0, 0, 0) && PathOk(d.planner, ElapsedSeconds(d.startNs, LastHost(d.rows)))
  }

  ghost predicate ReservedFor(d: Files, job: Job, r: Reserved) {
    r == Reserved(d.take.session, d.take.framesWritten, job.source, job.host) && job.gap == 0
  }

  ghost predicate PlannedFor(d: Files, plan: Plan)
    requires d.planner.segmentFrames > 0
  {
    var n := d.take.framesWritten;
    && plan.ordinal == n
    && plan.segmentIndex == n / d.planner.segmentFrames && plan.segmentFrame == n % d.planner.segmentFrames
  }

  /** The frame in work against its take: which counters it has moved already. */
  ghost predicate InStage(d: Files, job: Job)
    requires d.planner.segmentFrames > 0
  {
    var elapsed := ElapsedSeconds(d.startNs, job.host);
    match job.stage
    case ToReserve => Coupled(d) && (d.rows != [] ==> LastHost(d.rows) < job.host)
    case ToPlan(r) =>
      && CountersAt(d, 1, 0, 0, 0) && ReservedFor(d, job, r) && (d.rows != [] ==> LastHost(d.rows) < job.host)
      && PathOk(d.planner, ElapsedSeconds(d.startNs, LastHost(d.rows))) && d.take.frameDomain <= U64_MAX
    case ToEncode(r, plan) =>
      && CountersAt(d, 1, 1, 0, 0) && ReservedFor(d, job, r) && PlannedFor(d, plan) && PathOk(d.planner, elapsed)
      && (d.rows != [] ==> LastHost(d.rows) < job.host)
    case ToIndex(r, plan) =>
      && CountersAt(d, 1, 1, 1, 0) && ReservedFor(d, job, r) && PlannedFor(d, plan) && PathOk(d.planner, elapsed)
      && PayloadOf(job.raw, d.encoded[|d.encoded| - 1])
      && (d.rows != [] ==> LastHost(d.rows) < job.host)
    case ToFinish(r, bytes) =>
      && CountersAt(d, 1, 1, 1, 1) && ReservedFor(d, job, r) && PathOk(d.planner, elapsed)
      && PayloadOf(job.raw, d.encoded[|d.encoded| - 1])
      && d.rows[|d.rows| - 1].host == job.host && d.rows[|d.rows| - 1].source == job.source
  }

  /** The frame in work continues the source grid of the rows. */
  predicate NextOnGrid(d: Files, job: Job, decimation: nat) {
    d.rows != [] && job.gap == 0 && !job.stage.ToFinish? ==>
      job.source == d.rows[0].source + |d.rows| * decimation
  }

  /** A failed frame: it either never got a reservation, and the counters still agree, or its reservation is pending. */
  ghost predicate Stuck(d: Files) {
    Coupled(d) || (d.take.pending == Some(d.take.framesWritten) && d.take.frameDomain == d.take.framesWritten + 1)
  }

  ghost predicate JobOk(d: Files, job: Job, decimation: nat) {
    && d.planner.segmentFrames > 0
    && RowsOk(d, decimation) && InStage(d, job) && NextOnGrid(d, job, decimation)
  }

  /** The two differ at most in what segments are registered. */
  predicate SameFrames(d: Files, e: Files) {
    e == d.(planner := d.planner.(segmentCount := e.planner.segmentCount, coveredFrames := e.planner.coveredFrames))
  }

  lemma {:induction false} SameFramesKeep(d: Files, e: Files)
    requires SameFrames(d, e)
    ensures Coupled(d) ==> Coupled(e)
    ensures Stuck(d) ==> Stuck(e)
  {
  }

  lemma {:induction false} SameFramesKeepJob(d: Files, e: Files, job: Job, decimation: nat)
    requires SameFrames(d, e) && JobOk(d, job, decimation)
    ensures JobOk(e, job, decimation)
  {
  }

  lemma {:induction false} ElapsedRises(startNs: nat, a: nat, b: nat)
    requires a <= b
    ensures 0.0 <= ElapsedSeconds(startNs, a) <= ElapsedSeconds(startNs, b)
  {
  }

  lemma {:induction false} AppendRow(d: Files, job: Job, row: Row, decimation: nat)
    requires d.planner.segmentFrames > 0 && RowsOk(d, decimation)
    requires row.frame == |d.rows| && row.host == job.host && row.source == job.source
    requires row.segmentIndex == |d.rows| / d.planner.segmentFrames
    requires row.segmentFrame == |d.rows| % d.planner.segmentFrames
    requires d.rows != [] ==> LastHost(d.rows) < job.host
    requires d.rows != [] ==> job.source == d.rows[0].source + |d.rows| * decimation
    ensures RowsOk(d.(rows := d.rows + [row]), decimation)
  {
    var rows := d.rows + [row];
    forall i | 0 <= i < |rows| ensures rows[i].source == rows[0].source + i * decimation {
      if i == |d.rows| && i == 0 {
        assert 0 * decimation == 0;
      }
    }
  }

  /** What one stage owes: the rows stay in place, a going frame stays in step with its take, a written one leaves all
      counters equal, a failing one leaves the take stuck. */
  ghost predicate StageKept(d: Files, job: Job, next: Files, progress: Progress, decimation: nat)
    requires d.planner.segmentFrames > 0
  {
    && next.planner.segmentFrames == d.planner.segmentFrames && RowsOk(next, decimation)
    && next.planner.segmentCount == d.planner.segmentCount && next.planner.coveredFrames == d.planner.coveredFrames
    && (progress.Continue? ==> JobOk(next, job.(stage := progress.stage), decimation))
    && (progress == Done(Ok(())) ==> Coupled(next) && next.rows != [] && LastHost(next.rows) == job.host)
    && (progress.Done? && progress.result.Err? ==> Stuck(next))
  }

  lemma {:induction false} ReserveKeeps(d: Files, job: Job, answer: Answer, decimation: nat)
    requires JobOk(d, job, decimation) && job.stage.ToReserve?
    ensures StageKept(d, job, WriteStep(d, job, answer).0, WriteStep(d, job, answer).1, decimation)
  {
  }

  lemma {:induction false} PlanKeeps(d: Files, job: Job, answer: Answer, decimation: nat)
    requires JobOk(d, job, decimation) && job.stage.ToPlan?
    ensures StageKept(d, job, WriteStep(d, job, answer).0, WriteStep(d, job, answer).1, decimation)
  {
    ElapsedRises(d.startNs, LastHost(d.rows), job.host);
    NextFrameKeepsPath(d.planner, ElapsedSeconds(d.startNs, LastHost(d.rows)), ElapsedSeconds(d.startNs, job.host));
  }

  lemma {:induction false} IndexKeeps(d: Files, job: Job, answer: Answer, decimation: nat)
    requires JobOk(d, job, decimation) && job.stage.ToIndex?
    ensures StageKept(d, job, WriteStep(d, job, answer).0, WriteStep(d, job, answer).1, decimation)
  {
    if answer.accepted {
      var r, plan := job.stage.reserved, job.stage.plan;
      AppendRow(d, job, Row(r.record, r.source, r.host, plan.segmentIndex, plan.segmentFrame), decimation);
    }
  }

  /** Each stage keeps what the frame and its take owe each other; a failing one leaves the take stuck. */
  lemma {:induction false} WriteStepKeeps(d: Files, job: Job, answer: Answer, decimation: nat)
    requires JobOk(d, job, decimation)
    ensures StageKept(d, job, WriteStep(d, job, answer).0, WriteStep(d, job, answer).1, decimation)
  {
    match job.stage
    case ToReserve => ReserveKeeps(d, job, answer, decimation);
    case ToPlan(_) => PlanKeeps(d, job, answer, decimation);
    case ToEncode(_, _) =>
    case ToIndex(_, _) => IndexKeeps(d, job, answer, decimation);
    case ToFinish(_, _) =>
  }

  /** A failure before the reservation changes nothing; one after it leaves exactly that frame pending. */
  lemma {:induction false} FailureAfterReservation(d: Files, job: Job, answer: Answer, decimation: nat)
    requires JobOk(d, job, decimation)
    requires WriteStep(d, job, answer).1.Done? && WriteStep(d, job, answer).1.result.Err?
    ensures var next := WriteStep(d, job, answer).0;
            if job.stage.ToReserve? then next == d
            else next.take.pending == Some(next.take.framesWritten)
                 && next.take.frameDomain == next.take.framesWritten + 1
  {
  }

  // One frame, start to end

  function Rank(stage: Stage): nat {
    match stage
    case ToReserve => 4
    case ToPlan(_) => 3
    case ToEncode(_, _) => 2
    case ToIndex(_, _) => 1
    case ToFinish(_, _) => 0
  }

  /** All stages of one frame, with what the encoder and the index will answer. */
  function Written(d: Files, job: Job, encoder: Answer, index: Answer): (Files, Result<()>)
    requires d.planner.segmentFrames > 0
    decreases Rank(job.stage)
  {
    var (next, progress) := WriteStep(d, job, if job.stage.ToEncode? then encoder else index);
    if progress.Done? then (next, progress.result)
    else Written(next, job.(stage := progress.stage), encoder, index)
  }

  /** The row that the frame will get: its own number, source and time, at its place in the segments. */
  function RowOf(d: Files, job: Job): Row
    requires d.planner.segmentFrames > 0
  {
    var n := d.take.framesWritten;
    Row(n, job.source, job.host, n / d.planner.segmentFrames, n % d.planner.segmentFrames)
  }

  /** All five counters moved by one from the `framesWritten` frames before the job; the job's own row was added, and
      its own JPEG payload was given to the encoder. */
  ghost predicate OneFrameMore(d: Files, job: Job, next: Files)
    requires d.planner.segmentFrames > 0
  {
    var n := d.take.framesWritten;
    && next.take.framesWritten == n + 1 && next.take.frameDomain == n + 1 && next.planner.framesWritten == n + 1
    && |next.encoded| == n + 1 && |next.rows| == n + 1
    && n <= |d.rows| && next.rows == d.rows[..n] + [RowOf(d, job)]
    && n <= |d.encoded| && next.encoded[..n] == d.encoded[..n] && PayloadOf(job.raw, next.encoded[n])
  }

  /** A stage adds at most the job's own row, and only the last one counts the frame as written. */
  lemma {:induction false} StageAdds(d: Files, job: Job, answer: Answer, decimation: nat)
    requires JobOk(d, job, decimation)
    ensures var (next, progress) := WriteStep(d, job, answer);
            && next.planner.segmentFrames == d.planner.segmentFrames
            && d.take.framesWritten <= |d.rows| && d.take.framesWritten <= |next.rows|
            && next.rows[..d.take.framesWritten] == d.rows[..d.take.framesWritten]
            && d.take.framesWritten <= |d.encoded| && d.take.framesWritten <= |next.encoded|
            && next.encoded[..d.take.framesWritten] == d.encoded[..d.take.framesWritten]
            && (progress != Done(Ok(())) ==> next.take.framesWritten == d.take.framesWritten)
            && (progress == Done(Ok(())) ==> OneFrameMore(d, job, next))
  {
    if job.stage.ToFinish? {
      var n := d.take.framesWritten;
      assert d.rows == d.rows[..n] + [d.rows[n]];
    }
  }

  lemma {:induction false} WrittenAdds(d: Files, job: Job, encoder: Answer, index: Answer, decimation: nat)
    requires JobOk(d, job, decimation)
    ensures var (next, result) := Written(d, job, encoder, index);
            && (result.Ok? ==> OneFrameMore(d, job, next))
            && (result.Err? ==> next.take.framesWritten == d.take.framesWritten)
    decreases Rank(job.stage)
  {
    var answer := if job.stage.ToEncode? then encoder else index;
    WriteStepKeeps(d, job, answer, decimation);
    StageAdds(d, job, answer, decimation);
    var (next, progress) := WriteStep(d, job, answer);
    if progress.Continue? {
      WrittenAdds(next, job.(stage := progress.stage), encoder, index, decimation);
    }
  }

  lemma {:induction false} WrittenKeeps(d: Files, job: Job, encoder: Answer, index: Answer, decimation: nat)
    requires JobOk(d, job, decimation)
    ensures var (next, result) := Written(d, job, encoder, index);
            && next.planner.segmentFrames == d.planner.segmentFrames && RowsOk(next, decimation)
            && (result.Ok? ==> Coupled(next))
            && (result.Err? ==> Stuck(next))
    decreases Rank(job.stage)
  {
    var answer := if job.stage.ToEncode? then encoder else index;
    WriteStepKeeps(d, job, answer, decimation);
    var (next, progress) := WriteStep(d, job, answer);
    if progress.Continue? {
      WrittenKeeps(next, job.(stage := progress.stage), encoder, index, decimation);
    }
  }

  /** The bytes that the index row of the frame takes. */
  function RowBytes(job: Job, index: Answer): nat {
    if job.stage.ToFinish? then job.stage.bytes else index.bytes
  }

  /** Whatever the stages that are left ask for is there. */
  ghost predicate Acceptable(d: Files, job: Job, encoder: Answer, index: Answer) {
    && (job.stage.ToReserve? ==> job.gap == 0 && d.take.frameDomain < U64_MAX)
    && (Rank(job.stage) >= 2 ==> (exists s: Span {:trigger IsPayload(job.raw, s)} :: IsPayload(job.raw, s)))
    && (Rank(job.stage) >= 2 ==> encoder.accepted)
    && (Rank(job.stage) >= 1 ==> index.accepted)
    && d.take.framesWritten < U64_MAX && d.take.bytesWritten + RowBytes(job, index) <= U64_MAX
  }

  lemma {:induction false} PayloadExists(raw: seq<Byte>)
    ensures JpegPayload(raw).Ok? <==> exists s: Span {:trigger IsPayload(raw, s)} :: IsPayload(raw, s)
    ensures JpegPayload(raw).Ok? ==> raw != []
  {
    if s: Span {:trigger IsPayload(raw, s)} :| IsPayload(raw, s) {
      PayloadIsTheOne(raw, s);
    }
  }

  /** A stage fails exactly when what it asks for is not there. */
  lemma {:induction false} StageSucceeds(d: Files, job: Job, encoder: Answer, index: Answer, decimation: nat)
    requires JobOk(d, job, decimation)
    ensures var (next, progress) := WriteStep(d, job, if job.stage.ToEncode? then encoder else index);
            && (progress.Continue? ==> (Acceptable(d, job, encoder, index)
                                        <==> Acceptable(next, job.(stage := progress.stage), encoder, index)))
            && (progress.Continue? ==> RowBytes(job.(stage := progress.stage), index) == RowBytes(job, index)
                                       && next.take.bytesWritten == d.take.bytesWritten)
            && (progress.Done? ==> (progress.result.Ok? <==> Acceptable(d, job, encoder, index)))
            && (progress == Done(Ok(())) ==>
                  next.take.bytesWritten == d.take.bytesWritten + RowBytes(job, index))
  {
    PayloadExists(job.raw);
    if job.stage.ToPlan? && d.planner.framesWritten < U64_MAX {
      ElapsedRises(d.startNs, LastHost(d.rows), job.host);
      NextFrameKeepsPath(d.planner, ElapsedSeconds(d.startNs, LastHost(d.rows)), ElapsedSeconds(d.startNs, job.host));
    }
  }

  lemma {:induction false} WrittenSucceeds(d: Files, job: Job, encoder: Answer, index: Answer, decimation: nat)
    requires JobOk(d, job, decimation)
    ensures var (next, result) := Written(d, job, encoder, index);
            && (result.Ok? <==> Acceptable(d, job, encoder, index))
            && (result.Ok? ==> next.take.bytesWritten == d.take.bytesWritten + RowBytes(job, index))
    decreases Rank(job.stage)
  {
    var answer := if job.stage.ToEncode? then encoder else index;
    WriteStepKeeps(d, job, answer, decimation);
    StageSucceeds(d, job, encoder, index, decimation);
    var (next, progress) := WriteStep(d, job, answer);
    if progress.Continue? {
      WrittenSucceeds(next, job.(stage := progress.stage), encoder, index, decimation);
    }
  }

  /** A frame is written exactly when it owns no gap and holds a payload, encoder and index accept it and no counter is
      full. */
  lemma {:induction false} FrameIsWrittenExactly(d: Files, job: Job, encoder: Answer, index: Answer, decimation: nat)
    requires JobOk(d, job, decimation) && job.stage.ToReserve?
    ensures var (next, result) := Written(d, job, encoder, index);
            && (result.Ok? <==>
                  && job.gap == 0 && (exists s: Span {:trigger IsPayload(job.raw, s)} :: IsPayload(job.raw, s))
                  && encoder.accepted && index.accepted
                  && d.take.framesWritten < U64_MAX && d.take.bytesWritten + index.bytes <= U64_MAX)
            && (result.Ok? ==> next.take.bytesWritten == d.take.bytesWritten + index.bytes)
  {
    WrittenSucceeds(d, job, encoder, index, decimation);
  }

  /** A frame that is written moves every counter by one and adds exactly its row, at its exact place; any failure
      writes no frame and leaves all counters as they agree, or one frame pending. */
  lemma {:induction false} FrameIsWritten(d: Files, job: Job, encoder: Answer, index: Answer, decimation: nat)
    requires JobOk(d, job, decimation) && job.stage.ToReserve?
    ensures var (next, result) := Written(d, job, encoder, index);
            && next.planner.segmentFrames == d.planner.segmentFrames && RowsOk(next, decimation)
            && (result.Ok? ==> Coupled(next) && OneFrameMore(d, job, next) && next.rows == d.rows + [RowOf(d, job)]
                               && next.encoded[..|d.encoded|] == d.encoded)
            && (result.Err? ==> Stuck(next) && next.take.framesWritten == d.take.framesWritten)
  {
    WrittenKeeps(d, job, encoder, index, decimation);
    WrittenAdds(d, job, encoder, index, decimation);
    assert |d.rows| == d.take.framesWritten;
    assert d.rows[..d.take.framesWritten] == d.rows && d.encoded[..d.take.framesWritten] == d.encoded;
  }

  class SplitSinkRecording {
    const activeTake: ActiveTakeWriter
    const segmentPlanner: RecordingSegmentPlanner
    const recordingStartNs: nat
    /** The payloads the encoder accepted and the rows the sink accepted. */
    var encoded: seq<seq<Byte>>
    var rows: seq<Row>

    ghost function View(): Files
      reads this, activeTake, segmentPlanner
    {
      Files(activeTake.View(), segmentPlanner.View(), encoded, rows, recordingStartNs)
    }

    ghost predicate Valid()
      reads this, activeTake, segmentPlanner
    {
      activeTake.Valid() && segmentPlanner.Valid()
    }

    constructor (session: string, segmentFrames: nat, recordingStartNs: nat)
      requires session != "" && segmentFrames > 0
      ensures Valid() && fresh(activeTake) && fresh(segmentPlanner)
      ensures Coupled(View()) && rows == []
    {
      activeTake := new ActiveTakeWriter(session);
      segmentPlanner := new RecordingSegmentPlanner(segmentFrames);
      this.recordingStartNs := recordingStartNs;
      encoded, rows := [], [];
    }

    /** `write_split_sink_frame`. */
    method WriteFrame(raw: seq<Byte>, source: nat, host: nat, gap: nat, encoder: Answer, index: Answer)
      returns (r: Result<()>)
      requires Valid()
      modifies this, activeTake, segmentPlanner
      ensures Valid()
      ensures (View(), r) == Written(old(View()), Job(source, host, gap, raw, ToReserve), encoder, index)
      ensures gap != 0 ==> r.Err? && View() == old(View())
      ensures r.Ok? ==> |encoded| == |old(encoded)| + 1 && encoded[..|old(encoded)|] == old(encoded)
                        && PayloadOf(raw, encoded[|old(encoded)|])
    {
      if raw == [] {
        return Err(RawFrameUnavailable);
      }
      var payload := JpegPayload(raw);
      if payload.Err? {
        return Err(BadFrame);
      }
      ghost var before := View();
      ghost var job := Job(source, host, gap, raw, ToReserve);
      var reserved := activeTake.ReserveFrame(Source(source, host, gap));
      if reserved.Err? {
        return Err(reserved.code);
      }
      assert Written(before, job, encoder, index)
          == Written(View(), job.(stage := ToPlan(reserved.value)), encoder, index);
      var elapsed := ElapsedSeconds(recordingStartNs, host);
      var plan := segmentPlanner.PlanFrame(reserved.value.record, elapsed);
      if plan.Err? {
        return Err(plan.code);
      }
      assert Written(before, job, encoder, index)
          == Written(View(), job.(stage := ToEncode(reserved.value, plan.value)), encoder, index);
      if !encoder.accepted {
        return Err(EncoderFailed);
      }
      encoded := encoded + [raw[payload.value.start..payload.value.end]];
      assert Written(before, job, encoder, index)
          == Written(View(), job.(stage := ToIndex(reserved.value, plan.value)), encoder, index);
      if !index.accepted {
        return Err(WriteFailed);
      }
      rows := rows + [Row(reserved.value.record, reserved.value.source, reserved.value.host,
                          plan.value.segmentIndex, plan.value.segmentFrame)];
      assert Written(before, job, encoder, index)
          == Written(View(), job.(stage := ToFinish(reserved.value, index.bytes)), encoder, index);
      r := activeTake.FinishPendingFrame(reserved.value, index.bytes);
    }
  }
}
