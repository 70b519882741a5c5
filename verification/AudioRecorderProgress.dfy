/** When a recording succeeds: if no I/O action fails and the capture stops, every thread reaches its end, and the
    recording ends well. */
module AudioRecorderProgress {
  import opened Prelude
  import opened Wav
  import opened CheckpointFormat
  import opened Segments
  import opened AudioRecorder
  import opened AudioRecorderRuns
  import BlockPool
  import Checkpoint
  import CheckpointWriter
  import DurabilityChain
  import DurabilityRuns

  // Runs in which nothing fails

  /** The step is not a failure of the device, the disk or a commit, and no segment is submitted with 8 pending. */
  predicate Healthy(s: Recorder, a: Action) {
    match a
    case Capture(b) => !b.Fail?
    case Fill(io) => Sound(io)
    case Finish(io) => Sound(io)
    case Submit(b) => b.Reserve? ==> s.chain.pending < DurabilityChain.MAX_PENDING_COMMITS
    case Work(b) => (b.SyncNext? ==> b.ok) && (b.Perform? ==> b.answer.ok)
    case _ => true
  }

  predicate HealthyRun(c: Codec, e: Encoding, s: Recorder, actions: seq<Action>)
    requires LayoutOk(e.layout)
    decreases actions
  {
    actions == [] || (Healthy(s, actions[0]) && HealthyRun(c, e, Step(c, e, s, actions[0]), actions[1..]))
  }

  /** The commit worker and the submitting side have met no error. */
  predicate ChainFine(s: DurabilityChain.Chain) {
    && !s.worker.Failing? && !DurabilityChain.HasError(s)
    && !s.submitter.Refused?
    && (s.submitter.Ready? ==> s.submitter.last.Ok?)
    && (s.submitter.Joined? ==> s.submitter.result.Ok?)
  }

  predicate WriterFine(w: Writer) {
    match w
    case Sealing(_, _, next) => next.Over? ==> !next.failed
    case Leaving(failed) => !failed
    case Closing(failed) => !failed
    case _ => true
  }

  /** Nothing has failed so far. */
  predicate Fine(s: Recorder) {
    ChainFine(s.chain) && WriterFine(s.writer) && !s.pool.disk.Broken?
  }

  // The commit worker

  lemma {:induction false} PerformedOk(c: Codec, m: Checkpoint.Machine, answer: Checkpoint.Answer)
    requires m.phase.Before? && answer.ok
    ensures var q := Checkpoint.Step(c, m, Checkpoint.Action.Perform(answer));
            if q.phase.Before? then CheckpointWriter.Rank(q.phase) < CheckpointWriter.Rank(m.phase)
            else q.phase.Idle? && q.last.Ok?
  {
  }

  lemma {:induction false} CommitStaysFine(c: Codec, s: DurabilityChain.Chain, b: DurabilityChain.Action)
    requires DurabilityChain.PublishedOk(s) && Checkpoint.CountersOk(c, s.checkpoint) && ChainFine(s)
    requires b.BeginCommit? || (b.Perform? && b.answer.ok)
    ensures ChainFine(DurabilityChain.Step(c, s, b))
  {
    if b.BeginCommit? && s.worker.Syncing? {
      DurabilityChain.BegunCases(c, s);
    } else if b.Perform? && s.worker.Committing? {
      PerformedOk(c, s.checkpoint, b.answer);
    }
  }

  lemma {:induction false} OtherWorkStaysFine(c: Codec, s: DurabilityChain.Chain, b: DurabilityChain.Action)
    requires ChainFine(s) && OfWorker(b) && !b.BeginCommit? && !b.Perform? && (b.SyncNext? ==> b.ok)
    ensures ChainFine(DurabilityChain.Step(c, s, b))
  {
  }

  lemma {:induction false} WorkStaysFine(c: Codec, s: DurabilityChain.Chain, b: DurabilityChain.Action)
    requires DurabilityChain.PublishedOk(s) && Checkpoint.CountersOk(c, s.checkpoint) && ChainFine(s) && OfWorker(b)
    requires (b.SyncNext? ==> b.ok) && (b.Perform? ==> b.answer.ok)
    ensures ChainFine(DurabilityChain.Step(c, s, b))
  {
    if b.BeginCommit? || b.Perform? {
      CommitStaysFine(c, s, b);
    } else {
      OtherWorkStaysFine(c, s, b);
    }
  }

  lemma {:induction false} SubmitStaysFine(c: Codec, s: DurabilityChain.Chain, b: DurabilityChain.Action)
    requires DurabilityChain.PendingExact(s) && ChainFine(s) && OfSubmit(b)
    requires b.Reserve? ==> s.pending < DurabilityChain.MAX_PENDING_COMMITS
    ensures ChainFine(DurabilityChain.Step(c, s, b))
  {
  }

  lemma {:induction false} CloseStaysFine(c: Codec, s: DurabilityChain.Chain, b: DurabilityChain.Action)
    requires ChainFine(s) && (b.CloseSender? || b.Join?)
    ensures ChainFine(DurabilityChain.Step(c, s, b))
  {
  }

  // The disk thread

  /** Behind a seal that meets no error: on the way into `submit`, or past it when there was nothing to seal. */
  predicate SealedWell(s: Recorder, q: Recorder, next: After) {
    && q.pool == s.pool
    && if q.writer.Sealing? then q.writer.next == next && q.chain == s.chain.(submitter := q.chain.submitter)
                                 && q.chain.submitter == DurabilityChain.Checked(q.writer.item)
       else q.writer == Onward(next) && q.chain == s.chain
  }

  lemma {:induction false} SealSucceeds(c: Codec, e: Encoding, s: Recorder, io: Answer, next: After)
    requires HeadersExist(e.layout) && Sound(io) && s.track.active.Some?
    requires s.track.active.value.frames <= e.layout.segmentFrames
    requires |s.track.active.value.file| >= HEADER_BYTES + s.track.active.value.frames * e.layout.frameBytes
    requires ChainFine(s.chain) && s.chain.submitter.Ready? && s.chain.senderOpen
    ensures SealedWell(s, SealActive(c, e, s, io, next), next)
  {
    SplitBytes(s.track.active.value.frames, e.layout.segmentFrames, e.layout.frameBytes);
    SealExactly(e.layout, s.track, io.(submit := true));
  }

  /** A round that meets no error writes frames, and seals a full segment. */
  lemma {:induction false} RoundSucceeds(c: Codec, e: Encoding, s: Recorder, r: Result<()>, done: nat, next: After,
                                         io: Answer)
    requires HeadersExist(e.layout) && Sound(io) && r.Ok? && s.track.active.Some?
    requires s.track.active.value.frames <= e.layout.segmentFrames
    requires |s.track.active.value.file| >= HEADER_BYTES + s.track.active.value.frames * e.layout.frameBytes
    requires ChainFine(s.chain) && s.chain.submitter.Ready? && s.chain.senderOpen
    ensures SealedWell(s, EndRound(c, e, s, r, done, next, io), next)
  {
    if s.track.active.value.frames == e.layout.segmentFrames {
      SealSucceeds(c, e, s, io, next);
    }
  }

  lemma {:induction false} FillSucceeds(c: Codec, e: Encoding, s: Recorder, io: Answer) returns (next: After)
    requires LayoutOk(e.layout) && HeadersExist(e.layout) && Sound(io)
    requires s.writer.InLoop? && s.writer.remaining > 0
    requires Roomy(e.layout, s.track) && |s.writer.rest| == s.writer.remaining * e.layout.frameBytes
    requires ChainFine(s.chain) && s.chain.submitter.Ready? && s.chain.senderOpen
    ensures next.BackTo? && next.remaining < s.writer.remaining
    ensures SealedWell(s, Filling(c, e, s, io), next)
  {
    var rest, remaining := s.writer.rest, s.writer.remaining;
    var r, t, taken := FillingIsRound(c, e, s, io);
    FilledSucceeds(e.layout, s.track, rest, remaining, s.pool.written + Done(s, remaining), io);
    next := BackTo(Rest(e.layout, rest, remaining, taken), remaining - taken);
    RoundSucceeds(c, e, s.(track := t), r, Done(s, remaining), next, io);
  }

  lemma {:induction false} FinishSucceedsToo(c: Codec, e: Encoding, s: Recorder, io: Answer)
    requires LayoutOk(e.layout) && HeadersExist(e.layout) && Sound(io) && s.writer == Leaving(false)
    requires Roomy(e.layout, s.track)
    requires ChainFine(s.chain) && s.chain.submitter.Ready? && s.chain.senderOpen
    ensures SealedWell(s, Finishing(c, e, s, io), Over(false))
  {
    if s.track.active.Some? {
      SealSucceeds(c, e, s, io, Over(false));
    }
  }

  lemma {:induction false} SealedWellIsFine(s: Recorder, q: Recorder, next: After)
    requires Fine(s) && SealedWell(s, q, next) && (next.Over? ==> !next.failed)
    ensures Fine(q)
  {
  }

  lemma {:induction false} FillStaysFine(c: Codec, e: Encoding, s: Recorder, io: Answer)
    requires EncodingOk(e) && HeadersExist(e.layout) && Sound(io)
    requires Fine(s) && Linked(s) && Placed(e, s) && s.writer.InLoop? && s.writer.remaining > 0
    ensures Fine(Filling(c, e, s, io))
    ensures var q := Filling(c, e, s, io);
            exists next: After {:trigger SealedWell(s, q, next)} ::
              SealedWell(s, q, next) && next.BackTo? && next.remaining < s.writer.remaining
  {
    LaidIsRoomy(e.layout, s.track, Offered(e, s)[..|Offered(e, s)| - |s.writer.rest|]);
    var next := FillSucceeds(c, e, s, io);
    SealedWellIsFine(s, Filling(c, e, s, io), next);
  }

  lemma {:induction false} FinishStaysFine(c: Codec, e: Encoding, s: Recorder, io: Answer)
    requires EncodingOk(e) && HeadersExist(e.layout) && Sound(io)
    requires Fine(s) && Linked(s) && Placed(e, s) && s.writer.Leaving?
    ensures Fine(Finishing(c, e, s, io)) && SealedWell(s, Finishing(c, e, s, io), Over(false))
  {
    LaidIsRoomy(e.layout, s.track, Offered(e, s));
    FinishSucceedsToo(c, e, s, io);
    SealedWellIsFine(s, Finishing(c, e, s, io), Over(false));
  }

  lemma {:induction false} SettledStaysFine(s: Recorder)
    requires Fine(s) && s.writer.Sealing?
    ensures Fine(Settled(s)) && Settled(s).pool == s.pool && Settled(s).chain == s.chain
    ensures s.chain.submitter.Ready? ==> Settled(s).writer == Onward(s.writer.next)
  {
  }

  lemma {:induction false} PoolStaysFine(p: BlockPool.Pool, b: BlockPool.Action)
    requires !p.disk.Broken? && !b.Write?
    ensures !BlockPool.Step(p, b).disk.Broken?
  {
  }

  /** What the writer thread may assume of the chain it submits to. */
  lemma {:induction false} ChainFacts(c: Codec, e: Encoding, all: multiset<nat>, s: Recorder)
    requires Inv(c, e, all, s)
    ensures DurabilityChain.PendingExact(s.chain) && DurabilityChain.PublishedOk(s.chain)
    ensures Checkpoint.CountersOk(c, s.chain.checkpoint)
  {
  }

  lemma {:induction false} ChainStepStaysFine(c: Codec, s: Recorder, a: Action)
    requires Fine(s) && Healthy(s, a) && DurabilityChain.PendingExact(s.chain)
    requires DurabilityChain.PublishedOk(s.chain) && Checkpoint.CountersOk(c, s.chain.checkpoint)
    ensures a.Submit? && OfSubmit(a.submit) ==> ChainFine(Chained(c, s, a.submit))
    ensures a.Close? && (a.close.CloseSender? || a.close.Join?) ==> ChainFine(Chained(c, s, a.close))
    ensures a.Work? && OfWorker(a.work) ==> ChainFine(Chained(c, s, a.work))
  {
    match a
    case Submit(b) =>
      if OfSubmit(b) {
        SubmitStaysFine(c, s.chain, b);
      }
    case Close(b) =>
      if b.CloseSender? || b.Join? {
        CloseStaysFine(c, s.chain, b);
      }
    case Work(b) =>
      if OfWorker(b) {
        WorkStaysFine(c, s.chain, b);
      }
    case _ =>
  }

  lemma {:induction false} BlockStepStaysFine(c: Codec, e: Encoding, s: Recorder, a: Action)
    requires LayoutOk(e.layout) && Fine(s) && (a.Capture? || a.Serve? || a.BeginWrite? || a.EndWrite?)
    ensures Fine(Step(c, e, s, a))
  {
    if a.Capture? && OfCapture(a.capture) {
      PoolStaysFine(s.pool, a.capture);
    } else if a.Serve? && OfDisk(a.block) {
      PoolStaysFine(s.pool, a.block);
    }
  }

  lemma {:induction false} WriterStepStaysFine(c: Codec, e: Encoding, s: Recorder, a: Action)
    requires EncodingOk(e) && HeadersExist(e.layout) && Linked(s) && Placed(e, s) && Fine(s) && Healthy(s, a)
    requires a.Fill? || a.Finish?
    ensures Fine(Step(c, e, s, a))
  {
    if a.Fill? && s.writer.InLoop? && s.writer.remaining > 0 {
      FillStaysFine(c, e, s, a.io);
    } else if a.Finish? && s.writer.Leaving? {
      FinishStaysFine(c, e, s, a.io);
    }
  }

  lemma {:induction false} CommitStepStaysFine(c: Codec, e: Encoding, s: Recorder, a: Action)
    requires LayoutOk(e.layout) && Fine(s) && Healthy(s, a) && DurabilityChain.PendingExact(s.chain)
    requires DurabilityChain.PublishedOk(s.chain) && Checkpoint.CountersOk(c, s.chain.checkpoint)
    requires a.Submit? || a.Close? || a.Work?
    ensures Fine(Step(c, e, s, a))
  {
    ChainStepStaysFine(c, s, a);
    if a.Submit? && s.writer.Sealing? && OfSubmit(a.submit) {
      SettledStaysFine(s.(chain := Chained(c, s, a.submit)));
    }
  }

  /** Every healthy step leaves everything fine. */
  lemma {:induction false} StepStaysFine(c: Codec, e: Encoding, all: multiset<nat>, s: Recorder, a: Action)
    requires EncodingOk(e) && HeadersExist(e.layout) && Inv(c, e, all, s) && Fine(s) && Healthy(s, a)
    ensures Fine(Step(c, e, s, a))
  {
    if a.Submit? || a.Close? || a.Work? {
      ChainFacts(c, e, all, s);
      CommitStepStaysFine(c, e, s, a);
    } else if a.Fill? || a.Finish? {
      WriterStepStaysFine(c, e, s, a);
    } else {
      BlockStepStaysFine(c, e, s, a);
    }
  }

  lemma {:induction false} RunStaysFine(c: Codec, e: Encoding, all: multiset<nat>, s: Recorder, actions: seq<Action>)
    requires EncodingOk(e) && HeadersExist(e.layout) && Inv(c, e, all, s) && Fine(s)
    requires HealthyRun(c, e, s, actions)
    ensures Inv(c, e, all, Run(c, e, s, actions)) && Fine(Run(c, e, s, actions))
    decreases actions
  {
    if actions != [] {
      StepKeeps(c, e, all, s, actions[0]);
      StepStaysFine(c, e, all, s, actions[0]);
      RunStaysFine(c, e, all, Step(c, e, s, actions[0]), actions[1..]);
    }
  }

  lemma {:induction false} NewIsFine(s: Recorder, all: multiset<nat>)
    requires IsNew(s, all)
    ensures Fine(s)
  {
  }

  /** The capture thread is done, and without an error. */
  predicate CaptureDone(s: Recorder) { s.pool.capture.Drained? || s.pool.capture.Stopped? }

  /** If no I/O action fails and no submission meets a full backlog, a recording whose capture has stopped and whose
      worker has been joined has ended well. */
  lemma {:induction false} HealthyRecordingEndsWell(c: Codec, e: Encoding, all: multiset<nat>, start: Recorder,
                                                    actions: seq<Action>)
    requires EncodingOk(e) && HeadersExist(e.layout) && IsNew(start, all) && HealthyRun(c, e, start, actions)
    requires var s := Run(c, e, start, actions); CaptureDone(s) && s.chain.submitter.Joined?
    ensures EndedWell(Run(c, e, start, actions))
  {
    NewInv(c, e, all, start);
    NewIsFine(start, all);
    RunStaysFine(c, e, all, start, actions);
    JoinedEndsWell(Run(c, e, start, actions));
  }

  lemma {:induction false} JoinedEndsWell(s: Recorder)
    requires Linked(s) && Fine(s) && CaptureDone(s) && s.chain.submitter.Joined?
    ensures EndedWell(s)
  {
    assert s.chain.submitter.result.value == ();
  }

  // The way to the end

  /** The worker has something to do. */
  predicate WorkDue(s: DurabilityChain.Chain) {
    !s.worker.Finished? && !(s.worker.Waiting? && s.channel == [] && s.senderOpen)
  }

  /** What the worker does next when nothing fails. */
  function NextWork(s: DurabilityChain.Chain): DurabilityChain.Action {
    match s.worker
    case Gathering(_) => DurabilityChain.Gather
    case Syncing(batch, synced) =>
      if synced < |batch| then DurabilityChain.SyncNext(true) else DurabilityChain.BeginCommit
    case Committing(_) => DurabilityChain.Perform(Checkpoint.Answer(true, true, 0))
    case Storing(_) => DurabilityChain.Store
    case Releasing(_) => DurabilityChain.Release
    case _ => DurabilityChain.Receive
  }

  /** How far the worker is from its next turn. */
  function WorkLeft(s: DurabilityChain.Chain): nat {
    match s.worker
    case Finished => 0
    case Waiting => 1
    case Releasing(_) => 2
    case Storing(_) => 3
    case Committing(_) => 4 + CheckpointWriter.Rank(s.checkpoint.phase)
    case Syncing(batch, synced) => 20 + (if synced <= |batch| then |batch| - synced else 0)
    case _ => 40
  }

  /** The work of the worker shrinks, and it touches nothing of the submitting side. */
  predicate WorkShrinks(s: DurabilityChain.Chain, q: DurabilityChain.Chain) {
    && q.submitter == s.submitter && q.senderOpen == s.senderOpen
    && (|q.channel| < |s.channel| || (|q.channel| == |s.channel| && WorkLeft(q) < WorkLeft(s)))
  }

  lemma {:induction false} CommitShrinks(c: Codec, s: DurabilityChain.Chain)
    requires DurabilityChain.PublishedOk(s) && Checkpoint.CountersOk(c, s.checkpoint)
    requires s.worker.Committing? || (s.worker.Syncing? && s.worker.synced == |s.worker.batch|)
    ensures WorkShrinks(s, DurabilityChain.Step(c, s, NextWork(s)))
  {
    if s.worker.Syncing? {
      DurabilityChain.BegunCases(c, s);
    } else {
      PerformedOk(c, s.checkpoint, Checkpoint.Answer(true, true, 0));
    }
  }

  lemma {:induction false} NextWorkShrinks(c: Codec, s: DurabilityChain.Chain)
    requires DurabilityChain.PendingExact(s) && DurabilityChain.InOrder(s) && ChainFine(s) && WorkDue(s)
    requires DurabilityChain.PublishedOk(s) && Checkpoint.CountersOk(c, s.checkpoint)
    ensures OfWorker(NextWork(s)) && WorkShrinks(s, DurabilityChain.Step(c, s, NextWork(s)))
  {
    if s.worker.Committing? || (s.worker.Syncing? && s.worker.synced == |s.worker.batch|) {
      CommitShrinks(c, s);
    }
  }

  const SOUND := Segments.Answer(true, true, true, 0, true, true, true)

  /** What the disk thread does next when nothing fails. */
  function NextStep(s: Recorder): Action {
    match s.writer
    case Between =>
      if s.pool.disk.Waiting? then Serve(BlockPool.Receive)
      else if s.pool.disk.Received? then Serve(BlockPool.Uncount)
      else if s.pool.disk.Writing? then BeginWrite
      else Serve(BlockPool.Return)
    case InLoop(_, remaining) => if remaining > 0 then Fill(SOUND) else EndWrite
    case Sealing(_, _, _) =>
      Submit(if s.chain.submitter.Checked? then DurabilityChain.Reserve else DurabilityChain.Send)
    case Leaving(_) => Finish(SOUND)
    case Closing(_) => Close(if s.chain.submitter.Ready? then DurabilityChain.CloseSender else DurabilityChain.Join)
  }

  /** Where the disk thread stands in its block, and then at its end. */
  function Stage(s: Recorder): nat {
    match s.writer
    case Between =>
      if s.pool.disk.Received? then 6
      else if s.pool.disk.Writing? then 5
      else if s.pool.disk.Returning? then 3
      else 2
    case InLoop(_, _) => 4
    case Sealing(_, _, next) => if next.BackTo? then 4 else 1
    case Leaving(_) => 1
    case Closing(_) => 0
  }

  function FramesLeft(w: Writer): nat {
    match w
    case InLoop(_, remaining) => remaining
    case Sealing(_, _, BackTo(_, remaining)) => remaining
    case _ => 0
  }

  /** How far the disk thread is from the end of a submission, or of the recording. */
  function CallLeft(s: Recorder): nat {
    match s.writer
    case Leaving(_) => 4
    case Sealing(_, _, _) => if s.chain.submitter.Checked? then 3 else 2
    case Closing(_) => if s.chain.submitter.Ready? then 2 else if s.chain.submitter.Closing? then 1 else 0
    case _ => 0
  }

  /** The disk thread comes nearer to its end. */
  predicate DiskShrinks(s: Recorder, q: Recorder) {
    || |q.pool.queue| < |s.pool.queue|
    || (|q.pool.queue| == |s.pool.queue|
        && (|| Stage(q) < Stage(s)
            || (Stage(q) == Stage(s)
                && (|| FramesLeft(q.writer) < FramesLeft(s.writer)
                    || (FramesLeft(q.writer) == FramesLeft(s.writer) && CallLeft(q) < CallLeft(s))))))
  }

  /** Between two blocks: the queue shrinks, the block in hand goes on, or the loop is left. */
  lemma {:induction false} BetweenShrinks(c: Codec, e: Encoding, s: Recorder)
    requires LayoutOk(e.layout) && Fine(s) && CaptureDone(s) && s.writer.Between?
    requires BlockPool.QueuedExact(s.pool) && !s.pool.disk.Finished?
    ensures var q := Step(c, e, s, NextStep(s)); DiskShrinks(s, q) && CaptureDone(q)
  {
  }

  lemma {:induction false} InLoopShrinks(c: Codec, e: Encoding, s: Recorder)
    requires EncodingOk(e) && HeadersExist(e.layout) && Fine(s) && Linked(s) && Placed(e, s)
    requires CaptureDone(s) && s.writer.InLoop?
    ensures var q := Step(c, e, s, NextStep(s)); DiskShrinks(s, q) && CaptureDone(q)
  {
    if s.writer.remaining > 0 {
      FillStaysFine(c, e, s, SOUND);
    }
  }

  lemma {:induction false} LeavingShrinks(c: Codec, e: Encoding, s: Recorder)
    requires EncodingOk(e) && HeadersExist(e.layout) && Fine(s) && Linked(s) && Placed(e, s)
    requires CaptureDone(s) && s.writer.Leaving?
    ensures var q := Step(c, e, s, NextStep(s)); DiskShrinks(s, q) && CaptureDone(q)
  {
    FinishStaysFine(c, e, s, SOUND);
  }

  lemma {:induction false} SealingShrinks(c: Codec, e: Encoding, s: Recorder)
    requires LayoutOk(e.layout) && Fine(s) && Linked(s) && CaptureDone(s) && s.writer.Sealing?
    requires DurabilityChain.PendingExact(s.chain) && !WorkDue(s.chain)
    ensures Healthy(s, NextStep(s))
    ensures var q := Step(c, e, s, NextStep(s)); DiskShrinks(s, q) && CaptureDone(q)
  {
    var q := s.(chain := Chained(c, s, NextStep(s).submit));
    assert if s.chain.submitter.Checked? then q.chain.submitter.Reserved? else q.chain.submitter.Ready?;
    SettledStaysFine(q);
  }

  lemma {:induction false} ClosingShrinks(c: Codec, e: Encoding, s: Recorder)
    requires LayoutOk(e.layout) && Fine(s) && Linked(s) && CaptureDone(s) && s.writer.Closing?
    requires DurabilityChain.PendingExact(s.chain) && !WorkDue(s.chain) && !s.chain.submitter.Joined?
    ensures var q := Step(c, e, s, NextStep(s)); DiskShrinks(s, q) && CaptureDone(q)
  {
  }

  lemma {:induction false} NextStepShrinks(c: Codec, e: Encoding, all: multiset<nat>, s: Recorder)
    requires EncodingOk(e) && HeadersExist(e.layout) && Inv(c, e, all, s) && Fine(s) && CaptureDone(s)
    requires !WorkDue(s.chain) && !s.chain.submitter.Joined?
    ensures Healthy(s, NextStep(s))
    ensures var q := Step(c, e, s, NextStep(s)); DiskShrinks(s, q) && CaptureDone(q)
  {
    ChainFacts(c, e, all, s);
    match s.writer
    case Between => BetweenShrinks(c, e, s);
    case InLoop(_, _) => InLoopShrinks(c, e, s);
    case Sealing(_, _, _) => SealingShrinks(c, e, s);
    case Leaving(_) => LeavingShrinks(c, e, s);
    case Closing(_) => ClosingShrinks(c, e, s);
  }

  lemma {:induction false} WorkerStepShrinks(c: Codec, e: Encoding, all: multiset<nat>, s: Recorder)
    requires EncodingOk(e) && Inv(c, e, all, s) && Fine(s) && CaptureDone(s) && WorkDue(s.chain)
    ensures Healthy(s, Work(NextWork(s.chain)))
    ensures var q := Step(c, e, s, Work(NextWork(s.chain)));
            && q == s.(chain := q.chain) && WorkShrinks(s.chain, q.chain) && CaptureDone(q)
            && Stage(q) == Stage(s) && CallLeft(q) == CallLeft(s)
  {
    ChainFacts(c, e, all, s);
    NextWorkShrinks(c, s.chain);
  }

  /** The way to the end from a state in which nothing has failed. */
  lemma {:induction false} WayToTheEnd(c: Codec, e: Encoding, all: multiset<nat>, s: Recorder)
    returns (actions: seq<Action>)
    requires EncodingOk(e) && HeadersExist(e.layout) && Inv(c, e, all, s) && Fine(s) && CaptureDone(s)
    ensures HealthyRun(c, e, s, actions) && EndedWell(Run(c, e, s, actions))
    decreases |s.pool.queue|, Stage(s), FramesLeft(s.writer), CallLeft(s), |s.chain.channel|, WorkLeft(s.chain)
  {
    if !WorkDue(s.chain) && s.chain.submitter.Joined? {
      JoinedEndsWell(s);
      actions := [];
    } else {
      var a := if WorkDue(s.chain) then Work(NextWork(s.chain)) else NextStep(s);
      if WorkDue(s.chain) {
        WorkerStepShrinks(c, e, all, s);
      } else {
        NextStepShrinks(c, e, all, s);
      }
      StepKeeps(c, e, all, s, a);
      StepStaysFine(c, e, all, s, a);
      var rest := WayToTheEnd(c, e, all, Step(c, e, s, a));
      actions := [a] + rest;
      assert actions[1..] == rest;
    }
  }

  /** As long as nothing has failed a recording whose capture has stopped can be brought to its end, and only a failure
      keeps it from ending well. */
  lemma {:induction false} HealthyRecordingCanEnd(c: Codec, e: Encoding, all: multiset<nat>, start: Recorder,
                                                  actions: seq<Action>) returns (more: seq<Action>)
    requires EncodingOk(e) && HeadersExist(e.layout) && IsNew(start, all) && HealthyRun(c, e, start, actions)
    requires CaptureDone(Run(c, e, start, actions))
    ensures HealthyRun(c, e, Run(c, e, start, actions), more)
    ensures EndedWell(Run(c, e, Run(c, e, start, actions), more))
  {
    NewInv(c, e, all, start);
    NewIsFine(start, all);
    RunStaysFine(c, e, all, start, actions);
    more := WayToTheEnd(c, e, all, Run(c, e, start, actions));
  }
}
