/** The frame index of every take: the capture runtime of `native/src/capture_runtime.rs` with one asynchronous index
    writer of `native/src/recording.rs` behind each take. The frame thread offers the encoding of each row to the
    writer of its take; writers, threads and controller interleave at their atomic steps. */
module FrameIndex {
  import opened Prelude
  import opened TakePath
  import opened Capture
  import CaptureRuns
  import IndexWriter

  /** The encoding of a row, and a writer just created over an empty file. */
  datatype Sink = Sink(encode: Row -> IndexWriter.Record, blank: IndexWriter.Writer)

  /** `index[i]` is the writer behind take i. */
  datatype Recording = Recording(runtime: Runtime, index: seq<IndexWriter.Writer>)

  /** `counted` says whether the byte and frame counters of the sink, which it shares with the IMU, take the record. */
  datatype Action =
    | Move(move: Capture.Action)
    | Offer(counted: bool)
    | Proceed(step: IndexWriter.Action, counted: bool)
    | Work(take: nat, work: IndexWriter.Action)
    | Close(take: nat, close: IndexWriter.Action)

  /** The frame thread stands in front of the index of this take. */
  predicate AtIndex(r: Runtime, id: nat) {
    r.frameThread.Writing? && r.frameThread.take == id && r.frameThread.job.stage.ToIndex?
  }

  /** The row of the frame in work. */
  function RowIn(job: Job): Row
    requires job.stage.ToIndex?
  {
    var reserved, plan := job.stage.reserved, job.stage.plan;
    Row(reserved.record, reserved.source, reserved.host, plan.segmentIndex, plan.segmentFrame)
  }

  predicate InCall(w: IndexWriter.Caller) { w.Checked? || w.Reserved? || w.Refused? }

  predicate OfCall(b: IndexWriter.Action) { b.Reserve? || b.Send? || b.RollBack? }

  predicate Ready(s: Recording) { CanStep(s.runtime) && |s.index| == |s.runtime.takes| }

  // Steps. An action that its thread cannot take now leaves the state as it is.

  function Step(k: Sink, s: Recording, a: Action): Recording
    requires Ready(s)
  {
    match a
    case Move(b) => Moved(k, s, b)
    case Offer(counted) =>
      if !s.runtime.frameThread.Writing? || !AtIndex(s.runtime, s.runtime.frameThread.take) then s
      else Offered(k, s, counted)
    case Proceed(b, counted) =>
      if !s.runtime.frameThread.Writing? || !AtIndex(s.runtime, s.runtime.frameThread.take) || !OfCall(b) then s
      else
        var w := s.index[s.runtime.frameThread.take];
        if InCall(w.caller) then Answered(s, IndexWriter.Step(w, b), counted) else s
    case Work(id, b) =>
      if id < |s.index| && !IndexWriter.IsCallerAction(b)
      then s.(index := s.index[id := IndexWriter.Step(s.index[id], b)])
      else s
    case Close(id, b) =>
      if id < |s.index| && (b.CloseSender? || b.Join?)
      then s.(index := s.index[id := IndexWriter.Step(s.index[id], b)])
      else s
  }

  /** Everything but the index stage; a take that starts gets its writer. */
  function Moved(k: Sink, s: Recording, b: Capture.Action): Recording
    requires Ready(s)
  {
    if b.Write? && s.runtime.frameThread.Writing? && AtIndex(s.runtime, s.runtime.frameThread.take) then s
    else
      var runtime := Capture.Step(s.runtime, b);
      Recording(runtime, if |runtime.takes| > |s.index| then s.index + [k.blank] else s.index)
  }

  /** The start of `write`; a writer that is closed refuses. */
  function Offered(k: Sink, s: Recording, counted: bool): Recording
    requires Ready(s) && s.runtime.frameThread.Writing? && AtIndex(s.runtime, s.runtime.frameThread.take)
  {
    var w := s.index[s.runtime.frameThread.take];
    if InCall(w.caller) then s
    else if !w.caller.Ready? then s.(runtime := Wrote(s.runtime, Answer(false, 0)))
    else Answered(s, IndexWriter.Step(w, IndexWriter.Check(k.encode(RowIn(s.runtime.frameThread.job)))), counted)
  }

  /** The writer after a step of the call; once it has answered, the frame thread goes on. */
  function Answered(s: Recording, w: IndexWriter.Writer, counted: bool): Recording
    requires Ready(s) && s.runtime.frameThread.Writing?
  {
    var next := s.(index := s.index[s.runtime.frameThread.take := w]);
    if !w.caller.Ready? then next
    else
      var last := w.caller.last;
      next.(runtime := Wrote(s.runtime, Answer(last.Ok? && counted, if last.Ok? then last.value else 0)))
  }

  // Invariant

  function Encoded(k: Sink, rows: seq<Row>): (r: seq<IndexWriter.Record>)
    ensures |r| == |rows|
  {
    seq(|rows|, i requires 0 <= i < |rows| => k.encode(rows[i]))
  }

  /** The records written are the rows in order; only a take that failed may have one record more. */
  predicate Matches(k: Sink, t: TakeRun, told: seq<IndexWriter.Record>) {
    Encoded(k, t.files.rows) <= told && |told| <= |t.files.rows| + (if t.failed then 1 else 0)
  }

  /** A call in progress carries the row of the frame in work. */
  predicate CallOk(k: Sink, r: Runtime, w: IndexWriter.Writer, id: nat) {
    InCall(w.caller) ==> AtIndex(r, id) && w.caller.payload == k.encode(RowIn(r.frameThread.job))
  }

  ghost predicate Indexed(k: Sink, r: Runtime, w: IndexWriter.Writer, id: nat)
    requires id < |r.takes|
  {
    IndexWriter.Inv(w) && Matches(k, r.takes[id], w.told) && CallOk(k, r, w, id)
  }

  ghost predicate Inv(k: Sink, s: Recording) {
    && Capture.Inv(s.runtime) && |s.index| == |s.runtime.takes|
    && forall id: nat {:trigger s.index[id]} :: id < |s.index| ==> Indexed(k, s.runtime, s.index[id], id)
  }

  lemma {:induction false} InvReady(k: Sink, s: Recording)
    requires Inv(k, s)
    ensures Ready(s)
  {
    InvCanStep(s.runtime);
  }

  // The runtime outside the index stage

  lemma {:induction false} EncodedSnoc(k: Sink, rows: seq<Row>, row: Row)
    ensures Encoded(k, rows + [row]) == Encoded(k, rows) + [k.encode(row)]
  {
  }

  /** A step other than the index stage leaves the rows of a take as they are. */
  predicate SameRows(t: TakeRun, u: TakeRun) {
    u.files.rows == t.files.rows && (t.failed ==> u.failed)
  }

  lemma {:induction false} WriteKeepsRows(r: Runtime, answer: Answer, id: nat)
    requires CanStep(r) && r.frameThread.Writing? && id < |r.takes| && !AtIndex(r, id)
    ensures SameRows(r.takes[id], Wrote(r, answer).takes[id])
  {
  }

  lemma {:induction false} ArriveKeepsRows(r: Runtime, a: Capture.Action, id: nat)
    requires CanStep(r) && a.Arrive? && id < |r.takes|
    ensures id < |Capture.Step(r, a).takes| && SameRows(r.takes[id], Capture.Step(r, a).takes[id])
  {
  }

  lemma {:induction false} RestKeepsRows(r: Runtime, a: Capture.Action, id: nat)
    requires CanStep(r) && id < |r.takes| && !a.Arrive? && !a.Write?
    ensures id < |Capture.Step(r, a).takes| && SameRows(r.takes[id], Capture.Step(r, a).takes[id])
  {
  }

  lemma {:induction false} MoveKeepsRows(r: Runtime, a: Capture.Action, id: nat)
    requires CanStep(r) && id < |r.takes| && !(a.Write? && AtIndex(r, id))
    ensures id < |Capture.Step(r, a).takes| && SameRows(r.takes[id], Capture.Step(r, a).takes[id])
  {
    if a.Arrive? {
      ArriveKeepsRows(r, a, id);
    } else if !a.Write? {
      RestKeepsRows(r, a, id);
    } else if r.frameThread.Writing? {
      WriteKeepsRows(r, a.answer, id);
    }
  }

  /** Only the frame thread itself leaves the index stage. */
  lemma {:induction false} MoveKeepsStage(r: Runtime, a: Capture.Action, id: nat)
    requires CanStep(r) && AtIndex(r, id) && !a.Write?
    ensures Capture.Step(r, a).frameThread == r.frameThread
  {
  }

  lemma {:induction false} MoveKeepsIndexed(k: Sink, r: Runtime, a: Capture.Action, w: IndexWriter.Writer, id: nat)
    requires CanStep(r) && id < |r.takes| && Indexed(k, r, w, id) && !(a.Write? && AtIndex(r, id))
    ensures id < |Capture.Step(r, a).takes| && Indexed(k, Capture.Step(r, a), w, id)
  {
    MoveKeepsRows(r, a, id);
    if InCall(w.caller) {
      MoveKeepsStage(r, a, id);
    }
  }

  lemma {:induction false} AtMostOneTakeMore(r: Runtime, a: Capture.Action)
    requires CanStep(r)
    ensures var q := Capture.Step(r, a);
            |q.takes| == |r.takes|
            || (|q.takes| == |r.takes| + 1 && q.takes[|r.takes|].files.rows == [] && !q.takes[|r.takes|].failed)
  {
  }

  lemma {:induction false} BlankIsIndexed(k: Sink, r: Runtime, id: nat)
    requires IndexWriter.IsNew(k.blank) && id < |r.takes| && r.takes[id].files.rows == [] && !r.takes[id].failed
    ensures Indexed(k, r, k.blank, id)
  {
    IndexWriter.NewWriterInv(k.blank);
  }

  lemma {:induction false} MovedKeepsIndexed(k: Sink, s: Recording, a: Capture.Action, id: nat)
    requires Inv(k, s) && Ready(s) && IndexWriter.IsNew(k.blank)
    requires !(a.Write? && s.runtime.frameThread.Writing? && AtIndex(s.runtime, s.runtime.frameThread.take))
    requires id < |Moved(k, s, a).index|
    ensures id < |Moved(k, s, a).runtime.takes|
    ensures Indexed(k, Moved(k, s, a).runtime, Moved(k, s, a).index[id], id)
  {
    AtMostOneTakeMore(s.runtime, a);
    if id < |s.index| {
      assert Indexed(k, s.runtime, s.index[id], id);
      MoveKeepsIndexed(k, s.runtime, a, s.index[id], id);
    } else {
      BlankIsIndexed(k, Moved(k, s, a).runtime, id);
    }
  }

  lemma {:induction false} MovedKeeps(k: Sink, s: Recording, a: Capture.Action)
    requires Inv(k, s) && Ready(s) && IndexWriter.IsNew(k.blank)
    requires !(a.Write? && s.runtime.frameThread.Writing? && AtIndex(s.runtime, s.runtime.frameThread.take))
    ensures Inv(k, Moved(k, s, a))
  {
    Capture.StepKeeps(s.runtime, a);
    AtMostOneTakeMore(s.runtime, a);
    var q := Moved(k, s, a);
    forall id: nat | id < |q.index| ensures Indexed(k, q.runtime, q.index[id], id) {
      MovedKeepsIndexed(k, s, a, id);
    }
  }

  // The index stage

  /** The runtime behind the index stage: the row is added exactly when it is accepted. */
  lemma {:induction false} IndexStage(r: Runtime, answer: Answer, id: nat)
    requires CanStep(r) && AtIndex(r, id) && id < |r.takes|
    ensures var q := Wrote(r, answer);
            && |q.takes| == |r.takes|
            && (forall other {:trigger q.takes[other]} :: 0 <= other < |q.takes| && other != id ==>
                  q.takes[other] == r.takes[other])
            && !AtIndex(q, id)
            && if answer.accepted then
                 q.takes[id].files.rows == r.takes[id].files.rows + [RowIn(r.frameThread.job)]
                 && q.takes[id].failed == r.takes[id].failed
               else q.takes[id].files.rows == r.takes[id].files.rows && q.takes[id].failed
  {
  }

  /** The records told to the caller, by the answer of the call. */
  predicate CallAnswers(w: IndexWriter.Writer, q: IndexWriter.Writer, payload: IndexWriter.Record) {
    if InCall(q.caller) then q.caller.payload == payload && q.told == w.told
    else
      && q.caller.Ready?
      && q.told == (if q.caller.last.Ok? then w.told + [payload] else w.told)
  }

  lemma {:induction false} CheckAnswers(w: IndexWriter.Writer, payload: IndexWriter.Record)
    requires w.caller.Ready?
    ensures CallAnswers(w, IndexWriter.Step(w, IndexWriter.Check(payload)), payload)
  {
  }

  lemma {:induction false} CallStepAnswers(w: IndexWriter.Writer, b: IndexWriter.Action)
    requires InCall(w.caller) && OfCall(b)
    ensures CallAnswers(w, IndexWriter.Step(w, b), w.caller.payload)
  {
  }

  /** What the answer of the writer does to the records of its take. */
  lemma {:induction false} AnswerMatches(k: Sink, t: TakeRun, u: TakeRun, told: seq<IndexWriter.Record>, row: Row,
                                         ok: bool, counted: bool)
    requires Matches(k, t, told) && !t.failed
    requires if ok && counted then u.files.rows == t.files.rows + [row] && !u.failed
             else u.files.rows == t.files.rows && u.failed
    ensures Matches(k, u, if ok then told + [k.encode(row)] else told)
  {
    EncodedSnoc(k, t.files.rows, row);
    assert Encoded(k, t.files.rows) == told;
  }

  lemma {:induction false} TakeNotFailed(r: Runtime, id: nat)
    requires Capture.Inv(r) && AtIndex(r, id) && id < |r.takes|
    ensures !r.takes[id].failed
  {
    assert TakeInv(r.takes[id], r.gate.decimation, OpenFor(r, id), WorkOn(r.frameThread, id));
  }

  /** The writers of the other takes are not in a call. */
  lemma {:induction false} OthersStayIndexed(k: Sink, r: Runtime, q: Runtime, w: IndexWriter.Writer, id: nat,
                                             other: nat)
    requires other < |r.takes| && Indexed(k, r, w, other) && AtIndex(r, id) && other != id
    requires other < |q.takes| && q.takes[other] == r.takes[other]
    ensures Indexed(k, q, w, other)
  {
  }

  /** The writer of the take behind a step of its call, and the runtime it leads to. */
  ghost predicate TurnOk(k: Sink, s: Recording, w: IndexWriter.Writer) {
    && Ready(s) && s.runtime.frameThread.Writing? && AtIndex(s.runtime, s.runtime.frameThread.take)
    && IndexWriter.Inv(w)
    && CallAnswers(s.index[s.runtime.frameThread.take], w, k.encode(RowIn(s.runtime.frameThread.job)))
  }

  lemma {:induction false} AnsweredKeeps(k: Sink, s: Recording, w: IndexWriter.Writer, counted: bool)
    requires Inv(k, s) && TurnOk(k, s, w)
    ensures Inv(k, Answered(s, w, counted))
  {
    var id, q := s.runtime.frameThread.take, Answered(s, w, counted);
    TakeNotFailed(s.runtime, id);
    assert Indexed(k, s.runtime, s.index[id], id);
    if w.caller.Ready? {
      var last := w.caller.last;
      var answer := Answer(last.Ok? && counted, if last.Ok? then last.value else 0);
      WroteKeeps(s.runtime, answer);
      IndexStage(s.runtime, answer, id);
      AnswerMatches(k, s.runtime.takes[id], q.runtime.takes[id], s.index[id].told, RowIn(s.runtime.frameThread.job),
                    last.Ok?, counted);
    }
    forall other: nat | other < |q.index| ensures Indexed(k, q.runtime, q.index[other], other) {
      if other != id {
        assert Indexed(k, s.runtime, s.index[other], other);
        OthersStayIndexed(k, s.runtime, q.runtime, s.index[other], id, other);
      }
    }
  }

  /** A writer that is closed refuses, and the frame fails. */
  lemma {:induction false} RefusedKeeps(k: Sink, s: Recording)
    requires Inv(k, s) && Ready(s) && s.runtime.frameThread.Writing?
    requires AtIndex(s.runtime, s.runtime.frameThread.take)
    requires !InCall(s.index[s.runtime.frameThread.take].caller)
    ensures Inv(k, s.(runtime := Wrote(s.runtime, Answer(false, 0))))
  {
    var id, q := s.runtime.frameThread.take, s.(runtime := Wrote(s.runtime, Answer(false, 0)));
    WroteKeeps(s.runtime, Answer(false, 0));
    IndexStage(s.runtime, Answer(false, 0), id);
    TakeNotFailed(s.runtime, id);
    forall other: nat | other < |q.index| ensures Indexed(k, q.runtime, q.index[other], other) {
      assert Indexed(k, s.runtime, s.index[other], other);
      if other != id {
        OthersStayIndexed(k, s.runtime, q.runtime, s.index[other], id, other);
      }
    }
  }

  lemma {:induction false} OfferedKeeps(k: Sink, s: Recording, counted: bool)
    requires Inv(k, s) && Ready(s) && s.runtime.frameThread.Writing?
    requires AtIndex(s.runtime, s.runtime.frameThread.take)
    ensures Inv(k, Offered(k, s, counted))
  {
    var w := s.index[s.runtime.frameThread.take];
    var payload := k.encode(RowIn(s.runtime.frameThread.job));
    assert Indexed(k, s.runtime, w, s.runtime.frameThread.take);
    if w.caller.Ready? {
      IndexWriter.StepKeeps(w, IndexWriter.Check(payload));
      CheckAnswers(w, payload);
      AnsweredKeeps(k, s, IndexWriter.Step(w, IndexWriter.Check(payload)), counted);
    } else if !InCall(w.caller) {
      RefusedKeeps(k, s);
    }
  }

  lemma {:induction false} ProceedKeeps(k: Sink, s: Recording, b: IndexWriter.Action, counted: bool)
    requires Inv(k, s) && Ready(s) && s.runtime.frameThread.Writing? && OfCall(b)
    requires AtIndex(s.runtime, s.runtime.frameThread.take)
    requires InCall(s.index[s.runtime.frameThread.take].caller)
    ensures Inv(k, Answered(s, IndexWriter.Step(s.index[s.runtime.frameThread.take], b), counted))
  {
    var w := s.index[s.runtime.frameThread.take];
    assert Indexed(k, s.runtime, w, s.runtime.frameThread.take);
    IndexWriter.StepKeeps(w, b);
    CallStepAnswers(w, b);
    AnsweredKeeps(k, s, IndexWriter.Step(w, b), counted);
  }

  // The writers

  /** The worker, and the end of a writer, tell the caller of no record. */
  lemma {:induction false} WriterKeepsTold(w: IndexWriter.Writer, b: IndexWriter.Action)
    requires !IndexWriter.IsCallerAction(b) || b.CloseSender? || b.Join?
    ensures var q := IndexWriter.Step(w, b);
            && q.told == w.told
            && (InCall(q.caller) ==> q.caller == w.caller)
  {
  }

  lemma {:induction false} WriterKeeps(k: Sink, s: Recording, id: nat, b: IndexWriter.Action)
    requires Inv(k, s) && id < |s.index| && (!IndexWriter.IsCallerAction(b) || b.CloseSender? || b.Join?)
    ensures Inv(k, s.(index := s.index[id := IndexWriter.Step(s.index[id], b)]))
  {
    var q := s.(index := s.index[id := IndexWriter.Step(s.index[id], b)]);
    IndexWriter.StepKeeps(s.index[id], b);
    WriterKeepsTold(s.index[id], b);
    forall other: nat | other < |q.index| ensures Indexed(k, q.runtime, q.index[other], other) {
      assert Indexed(k, s.runtime, s.index[other], other);
    }
  }

  /** Every step of every thread keeps the invariant. */
  lemma {:induction false} StepKeeps(k: Sink, s: Recording, a: Action)
    requires Inv(k, s) && IndexWriter.IsNew(k.blank)
    ensures Ready(s) && Inv(k, Step(k, s, a))
  {
    InvReady(k, s);
    match a
    case Move(b) =>
      if !(b.Write? && s.runtime.frameThread.Writing? && AtIndex(s.runtime, s.runtime.frameThread.take)) {
        MovedKeeps(k, s, b);
      }
    case Offer(counted) =>
      if s.runtime.frameThread.Writing? && AtIndex(s.runtime, s.runtime.frameThread.take) {
        OfferedKeeps(k, s, counted);
      }
    case Proceed(b, counted) =>
      if s.runtime.frameThread.Writing? && AtIndex(s.runtime, s.runtime.frameThread.take) && OfCall(b)
         && InCall(s.index[s.runtime.frameThread.take].caller) {
        ProceedKeeps(k, s, b, counted);
      }
    case Work(id, b) =>
      if id < |s.index| && !IndexWriter.IsCallerAction(b) {
        WriterKeeps(k, s, id, b);
      }
    case Close(id, b) =>
      if id < |s.index| && (b.CloseSender? || b.Join?) {
        WriterKeeps(k, s, id, b);
      }
  }

  // Runs

  ghost function Run(k: Sink, s: Recording, actions: seq<Action>): (q: Recording)
    requires Inv(k, s) && IndexWriter.IsNew(k.blank)
    ensures Inv(k, q)
    decreases actions
  {
    if actions == [] then s
    else
      StepKeeps(k, s, actions[0]);
      Run(k, Step(k, s, actions[0]), actions[1..])
  }

  lemma {:induction false} InitialInv(k: Sink, decimation: nat)
    requires decimation > 0
    ensures Inv(k, Recording(Initial(decimation), []))
  {
    Capture.InitialInv(decimation);
  }

  /** The state after some run from a freshly started preview. */
  ghost function Reached(k: Sink, decimation: nat, actions: seq<Action>): (s: Recording)
    requires decimation > 0 && IndexWriter.IsNew(k.blank)
    ensures Inv(k, s)
  {
    InitialInv(k, decimation);
    Run(k, Recording(Initial(decimation), []), actions)
  }

  lemma {:induction false} StepKeepsDecimation(k: Sink, s: Recording, a: Action)
    requires Ready(s)
    ensures Step(k, s, a).runtime.gate.decimation == s.runtime.gate.decimation
  {
    if a.Move? {
      CaptureRuns.StepKeepsDecimation(s.runtime, a.move);
    }
  }

  lemma {:induction false} RunKeepsDecimation(k: Sink, s: Recording, actions: seq<Action>)
    requires Inv(k, s) && IndexWriter.IsNew(k.blank)
    ensures Run(k, s, actions).runtime.gate.decimation == s.runtime.gate.decimation
    decreases actions
  {
    if actions != [] {
      StepKeeps(k, s, actions[0]);
      StepKeepsDecimation(k, s, actions[0]);
      RunKeepsDecimation(k, Step(k, s, actions[0]), actions[1..]);
    }
  }

  /** What a closed index holds: the encoding of the rows 0 to n in order, which lie on the grid of the take; if a frame
      of the take failed behind its index, the record of that frame may follow them. */
  ghost predicate IndexComplete(k: Sink, t: TakeRun, w: IndexWriter.Writer, decimation: nat) {
    && t.files.planner.segmentFrames > 0 && RowsOk(t.files, decimation)
    && |t.files.rows| <= |w.told| <= |t.files.rows| + 1
    && w.file == IndexWriter.Concat(Encoded(k, t.files.rows) + w.told[|t.files.rows|..])
    && (!t.failed ==> w.file == IndexWriter.Concat(Encoded(k, t.files.rows)))
    && w.caller == IndexWriter.Closed(Ok(|w.file|))
  }

  lemma {:induction false} ClosedIndex(k: Sink, r: Runtime, w: IndexWriter.Writer, id: nat)
    requires Capture.Inv(r) && id < |r.takes| && Indexed(k, r, w, id)
    requires w.caller.Closed? && w.caller.outcome.Ok?
    ensures IndexComplete(k, r.takes[id], w, r.gate.decimation)
  {
    IndexWriter.ClosedIsComplete(w);
    assert TakeInv(r.takes[id], r.gate.decimation, OpenFor(r, id), WorkOn(r.frameThread, id));
    var rows := r.takes[id].files.rows;
    assert w.told == Encoded(k, rows) + w.told[|rows|..];
    if !r.takes[id].failed {
      assert w.told == Encoded(k, rows);
    }
  }

  /** Whenever the index of a take is flushed and closed with success, in whatever order the threads stepped, its file
      is the encoding of exactly the rows of the take, frame by frame on the decimation grid. */
  lemma {:induction false} FlushedIndexIsTheTake(k: Sink, decimation: nat, actions: seq<Action>, id: nat)
    requires decimation > 0 && IndexWriter.IsNew(k.blank)
    requires var s := Reached(k, decimation, actions);
             id < |s.index| && s.index[id].caller.Closed? && s.index[id].caller.outcome.Ok?
    ensures var s := Reached(k, decimation, actions);
            |s.index| == |s.runtime.takes| && IndexComplete(k, s.runtime.takes[id], s.index[id], decimation)
  {
    var s := Reached(k, decimation, actions);
    RunKeepsDecimation(k, Recording(Initial(decimation), []), actions);
    assert Indexed(k, s.runtime, s.index[id], id);
    ClosedIndex(k, s.runtime, s.index[id], id);
  }

  // The way to a flushed index

  /** A step of the writer of a take, outside `write`. */
  function Lift(id: nat, b: IndexWriter.Action): Action {
    if IndexWriter.IsCallerAction(b) then Close(id, b) else Work(id, b)
  }

  function Lifted(id: nat, bs: seq<IndexWriter.Action>): seq<Action> {
    if |bs| == 0 then [] else [Lift(id, bs[0])] + Lifted(id, bs[1..])
  }

  lemma {:induction false} LiftedStep(k: Sink, s: Recording, id: nat, b: IndexWriter.Action)
    requires Ready(s) && id < |s.index| && !IndexWriter.InCall(b)
    ensures Step(k, s, Lift(id, b)) == s.(index := s.index[id := IndexWriter.Step(s.index[id], b)])
  {
  }

  lemma {:induction false} LiftedRun(k: Sink, s: Recording, id: nat, bs: seq<IndexWriter.Action>)
    requires Inv(k, s) && IndexWriter.IsNew(k.blank) && id < |s.index| && IndexWriter.NoCall(bs)
    ensures Run(k, s, Lifted(id, bs)) == s.(index := s.index[id := IndexWriter.Run(s.index[id], bs)])
    decreases |bs|
  {
    if |bs| == 0 {
      assert s.index[id := s.index[id]] == s.index;
    } else {
      var q := Step(k, s, Lift(id, bs[0]));
      StepKeeps(k, s, Lift(id, bs[0]));
      LiftedStep(k, s, id, bs[0]);
      assert Lifted(id, bs)[1..] == Lifted(id, bs[1..]);
      LiftedRun(k, q, id, bs[1..]);
      assert s.index[id := q.index[id]][id := IndexWriter.Run(q.index[id], bs[1..])]
          == s.index[id := IndexWriter.Run(q.index[id], bs[1..])];
    }
  }

  /** From every state of every run the index of a take that is between two records can be flushed and closed; if no
      write has failed and its bytes fit a u64 that succeeds, and the file is the encoding of the rows of the take. */
  lemma {:induction false} IndexCanBeFlushed(k: Sink, decimation: nat, actions: seq<Action>, id: nat)
    returns (more: seq<Action>)
    requires decimation > 0 && IndexWriter.IsNew(k.blank)
    requires id < |Reached(k, decimation, actions).index| && Reached(k, decimation, actions).index[id].caller.Ready?
    ensures var s := Reached(k, decimation, actions);
            var q := Run(k, s, more);
            && |q.index| == |s.index| == |s.runtime.takes| && q.runtime == s.runtime && q.index[id].caller.Closed?
            && (IndexWriter.Fine(s.index[id]) && |IndexWriter.Concat(s.index[id].sent)| <= U64_MAX ==>
                  IndexComplete(k, s.runtime.takes[id], q.index[id], decimation))
  {
    var s := Reached(k, decimation, actions);
    RunKeepsDecimation(k, Recording(Initial(decimation), []), actions);
    assert Indexed(k, s.runtime, s.index[id], id);
    var bs := IndexWriter.WayToTheEnd(s.index[id]);
    LiftedRun(k, s, id, bs);
    more := Lifted(id, bs);
    var q := Run(k, s, more);
    assert Indexed(k, q.runtime, q.index[id], id);
    if q.index[id].caller.outcome.Ok? {
      ClosedIndex(k, q.runtime, q.index[id], id);
    }
  }
}
