/** From a sealed segment to a checkpoint that survives a crash: `CommitWorker` of `native/src/audio.rs`, with the
    commit its closure performs. The writer thread submits, the worker syncs batches and commits, the capture thread
    appends clock anchors; they interleave at their atomic steps and I/O actions. */
module DurabilityChain {
  import opened Prelude
  import opened AudioClock
  import opened CheckpointFormat
  import opened Disk
  import Checkpoint

  const MAX_PENDING_COMMITS: nat := 8

  /** A sealed segment and the bytes of its file, which no one writes any more. */
  datatype Item = Item(record: Segment, file: seq<Byte>)

  /** The submitting thread: between calls with the last answer, inside `submit`, or joining the worker. */
  datatype Submitter =
    | Ready(last: Result<()>)
    | Checked(item: Item)
    | Reserved(item: Item)
    | Refused(item: Item)
    | Closing
    | Joined(result: Result<()>)

  /** The worker thread; `synced` counts the segments of the batch whose files are synced. */
  datatype Worker =
    | Waiting
    | Gathering(batch: seq<Item>)
    | Syncing(batch: seq<Item>, synced: nat)
    | Committing(batch: seq<Item>)
    | Storing(batch: seq<Item>)
    | Releasing(batch: seq<Item>)
    | Failing(batch: seq<Item>, synced: nat)
    | Reported(batch: seq<Item>, synced: nat)
    | Gone(batch: seq<Item>, synced: nat)
    | Finished

  /** `sent` are all segments that reached the channel, `committed` how many of them the worker has released, and
      `onDisk` the positions whose files are synced. */
  datatype Chain = Chain(
    submitter: Submitter,
    worker: Worker,
    channel: seq<Item>,
    senderOpen: bool,
    pending: nat,
    clock: Option<Checkpoint.Clock>,
    durableRecords: seq<Segment>,
    durableSamples: nat,
    checkpoint: Checkpoint.Machine,
    sent: seq<Item>,
    committed: nat,
    onDisk: set<nat>)

  datatype Action =
    | Check(item: Item)
    | Reserve
    | Send
    | RollBack
    | CloseSender
    | Join
    | Receive
    | Gather
    | SyncNext(ok: bool)
    | BeginCommit
    | Perform(answer: Checkpoint.Answer)
    | Store
    | Release
    | Report
    | Exit
    | Observe(anchor: Anchor, keep: bool)

  predicate HasError(s: Chain) { s.worker.Reported? || s.worker.Gone? }

  function Step(c: Codec, s: Chain, a: Action): Chain {
    match a
    case Check(_) => Submit(s, a)
    case Reserve => Submit(s, a)
    case Send => Submit(s, a)
    case RollBack => Submit(s, a)
    case CloseSender => Submit(s, a)
    case Join => Submit(s, a)
    case Observe(anchor, keep) => Observed(s, anchor, keep)
    case BeginCommit => Commit(c, s, a)
    case Perform(_) => Commit(c, s, a)
    case _ => Work(s, a)
  }

  /** The steps of `submit` and `finish`. */
  function Submit(s: Chain, a: Action): Chain {
    match a
    case Check(item) =>
      if !s.submitter.Ready? || !s.senderOpen then s
      else if HasError(s) then s.(submitter := Ready(Err(AudioFailed)))
      else s.(submitter := Checked(item))
    case Reserve =>
      if !s.submitter.Checked? then s
      else if s.pending >= MAX_PENDING_COMMITS then s.(submitter := Ready(Err(AudioFailed)))
      else s.(pending := s.pending + 1, submitter := Reserved(s.submitter.item))
    case Send =>
      if !s.submitter.Reserved? then s
      else if |s.channel| >= MAX_PENDING_COMMITS || s.worker.Gone? then s.(submitter := Refused(s.submitter.item))
      else
        var item := s.submitter.item;
        s.(channel := s.channel + [item], sent := s.sent + [item], submitter := Ready(Ok(())))
    case RollBack =>
      if !s.submitter.Refused? || s.pending == 0 then s
      else s.(pending := s.pending - 1, submitter := Ready(Err(AudioFailed)))
    case CloseSender => if s.submitter.Ready? then s.(senderOpen := false, submitter := Closing) else s
    case Join =>
      if !s.submitter.Closing? || !(s.worker.Gone? || s.worker.Finished?) then s
      else s.(submitter := Joined(if s.worker.Finished? then Ok(()) else Err(AudioFailed)))
    case _ => s
  }

  /** The capture thread under the checkpoint lock: it only appends. */
  function Observed(s: Chain, anchor: Anchor, keep: bool): Chain {
    if s.clock.None? then s
    else
      var clock := s.clock.value.(lastAnchor := Some(anchor));
      s.(clock := Some(if keep then clock.(anchors := clock.anchors + [anchor]) else clock))
  }

  /** The worker outside `commit_checkpoint`. */
  function Work(s: Chain, a: Action): Chain {
    match a
    case Receive =>
      if !s.worker.Waiting? then s
      else if s.channel != [] then s.(worker := Gathering([s.channel[0]]), channel := s.channel[1..])
      else if !s.senderOpen then s.(worker := Finished)
      else s
    case Gather =>
      if !s.worker.Gathering? then s
      else if s.channel != [] && |s.worker.batch| < MAX_PENDING_COMMITS then
        s.(worker := Gathering(s.worker.batch + [s.channel[0]]), channel := s.channel[1..])
      else s.(worker := Syncing(s.worker.batch, 0))
    case SyncNext(ok) =>
      if !s.worker.Syncing? || s.worker.synced >= |s.worker.batch| then s
      else if !ok then s.(worker := Failing(s.worker.batch, s.worker.synced))
      else s.(worker := Syncing(s.worker.batch, s.worker.synced + 1),
              durableRecords := s.durableRecords + [s.worker.batch[s.worker.synced].record],
              onDisk := s.onDisk + {s.committed + s.worker.synced})
    case Store =>
      if !s.worker.Storing? then s
      else s.(durableSamples := SampleCount(s.durableRecords), worker := Releasing(s.worker.batch))
    case Release =>
      if !s.worker.Releasing? || s.pending < |s.worker.batch| then s
      else s.(pending := s.pending - |s.worker.batch|, committed := s.committed + |s.worker.batch|, worker := Waiting)
    case Report => if s.worker.Failing? then s.(worker := Reported(s.worker.batch, s.worker.synced)) else s
    case Exit => if s.worker.Reported? then s.(worker := Gone(s.worker.batch, s.worker.synced)) else s
    case _ => s
  }

  /** The worker inside `commit_checkpoint`. */
  function Commit(c: Codec, s: Chain, a: Action): Chain {
    match a
    case BeginCommit =>
      if !s.worker.Syncing? || s.worker.synced < |s.worker.batch| then s
      else After(s, Checkpoint.Begun(s.checkpoint, s.clock, s.durableRecords), s.worker.batch)
    case Perform(answer) =>
      if !s.worker.Committing? || !s.checkpoint.phase.Before? then s
      else After(s, Checkpoint.Performed(c, s.checkpoint, answer), s.worker.batch)
    case _ => s
  }

  function After(s: Chain, m: Checkpoint.Machine, batch: seq<Item>): Chain {
    s.(checkpoint := m,
       worker := if m.phase.Before? then Committing(batch)
                 else if m.last.Ok? then Storing(batch)
                 else Failing(batch, |batch|))
  }

  predicate IsNew(s: Chain) {
    && s.submitter == Ready(Ok(())) && s.worker.Waiting? && s.senderOpen
    && |s.channel| == 0 && s.pending == 0 && |s.durableRecords| == 0 && s.durableSamples == 0
    && |s.sent| == 0 && s.committed == 0 && s.onDisk == {}
    && Checkpoint.IsNew(s.checkpoint)
  }

  // Invariant

  function BatchOf(w: Worker): seq<Item> {
    if w.Waiting? || w.Finished? then [] else w.batch
  }

  /** How many segments of the batch are synced. */
  function SyncedOf(w: Worker): nat {
    if w.Syncing? || w.Failing? || w.Reported? || w.Gone? then w.synced
    else if w.Committing? || w.Storing? || w.Releasing? then |w.batch|
    else 0
  }

  function Reservation(s: Submitter): nat {
    if s.Reserved? || s.Refused? then 1 else 0
  }

  function RecordsOf(items: seq<Item>): (r: seq<Segment>)
    ensures |r| == |items|
  {
    seq(|items|, i requires 0 <= i < |items| => items[i].record)
  }

  /** The backlog counter is exact and bounded. */
  predicate PendingExact(s: Chain) {
    && s.pending == |s.channel| + Reservation(s.submitter) + |BatchOf(s.worker)|
    && s.pending <= MAX_PENDING_COMMITS
    && (s.worker.Finished? ==> s.channel == [] && !s.senderOpen)
    && (s.senderOpen <==> !s.submitter.Closing? && !s.submitter.Joined?)
    && (s.submitter.Joined? ==> s.worker.Gone? || s.worker.Finished?)
    && (s.submitter.Joined? && s.submitter.result.Ok? ==> s.worker.Finished?)
  }

  /** Segments leave in the order they came: committed, then the batch, then the channel. */
  predicate InOrder(s: Chain) {
    && s.committed <= |s.sent|
    && s.sent[s.committed..] == BatchOf(s.worker) + s.channel
    && SyncedOf(s.worker) <= |BatchOf(s.worker)|
  }

  /** The positions whose segments are in `durable_records`. */
  function DurableCount(s: Chain): nat { s.committed + SyncedOf(s.worker) }

  ghost predicate Recorded(s: Chain) {
    && DurableCount(s) <= |s.sent|
    && s.durableRecords == RecordsOf(s.sent[..DurableCount(s)])
    && forall i: nat :: i < DurableCount(s) ==> i in s.onDisk
  }

  /** What is published, against what is recorded. */
  ghost predicate PublishedOk(s: Chain) {
    && (s.worker.Committing? <==> s.checkpoint.phase.Before?)
    && (s.checkpoint.phase.Broken? ==> s.worker.Failing? || HasError(s))
    && (s.checkpoint.published.Some? ==>
          && s.clock.Some?
          && s.checkpoint.published.value.anchors <= s.clock.value.anchors
          && s.checkpoint.published.value.segments <= s.durableRecords)
    && (!s.checkpoint.phase.Idle? ==> s.checkpoint.phase.pending.snapshot.segments == s.durableRecords
                                      && s.clock.Some?
                                      && s.checkpoint.phase.pending.snapshot.anchors <= s.clock.value.anchors)
  }

  /** With a clock installed, whatever counts as durable is published. */
  ghost predicate DurableOk(s: Chain) {
    && s.durableSamples == SampleCount(s.durableRecords[..DurableFrom(s)])
    && (s.clock.Some? ==> PublishedSegments(s) == s.durableRecords[..PublishedCount(s)])
  }

  function DurableFrom(s: Chain): nat {
    if s.worker.Releasing? && s.committed + |s.worker.batch| <= |s.durableRecords| then s.committed + |s.worker.batch|
    else Min(s.committed, |s.durableRecords|)
  }

  function PublishedCount(s: Chain): nat {
    if s.worker.Storing? || s.worker.Releasing? then |s.durableRecords| else Min(s.committed, |s.durableRecords|)
  }

  function PublishedSegments(s: Chain): seq<Segment> {
    if s.checkpoint.published.Some? then s.checkpoint.published.value.segments else []
  }

  ghost predicate Inv(c: Codec, s: Chain) {
    PendingExact(s) && InOrder(s) && Recorded(s) && PublishedOk(s) && DurableOk(s) && Checkpoint.Inv(c, s.checkpoint)
  }

  // Every step keeps the invariant

  lemma {:induction false} SubmitKeepsPending(s: Chain, a: Action)
    requires PendingExact(s)
    ensures PendingExact(Submit(s, a))
  {
  }

  lemma {:induction false} SubmitKeepsOrder(s: Chain, a: Action)
    requires InOrder(s)
    ensures InOrder(Submit(s, a))
  {
    if a.Send? && s.submitter.Reserved? {
      var item := s.submitter.item;
      assert (s.sent + [item])[s.committed..] == s.sent[s.committed..] + [item];
    }
  }

  lemma {:induction false} SubmitKeepsRecorded(s: Chain, a: Action)
    requires Recorded(s)
    ensures Recorded(Submit(s, a))
  {
    if a.Send? && s.submitter.Reserved? {
      assert (s.sent + [s.submitter.item])[..DurableCount(s)] == s.sent[..DurableCount(s)];
    }
  }

  /** The submitting thread touches none of what the worker has recorded or published. */
  lemma {:induction false} SubmitKeepsRest(s: Chain, a: Action)
    ensures var q := Submit(s, a);
            && q.worker == s.worker && q.checkpoint == s.checkpoint && q.clock == s.clock
            && q.durableRecords == s.durableRecords && q.durableSamples == s.durableSamples
            && q.committed == s.committed
  {
  }

  lemma {:induction false} SameRecordsKeep(s: Chain, q: Chain)
    requires q.worker == s.worker && q.checkpoint == s.checkpoint && q.clock == s.clock
    requires q.durableRecords == s.durableRecords && q.durableSamples == s.durableSamples && q.committed == s.committed
    requires PublishedOk(s) && DurableOk(s)
    ensures PublishedOk(q) && DurableOk(q)
  {
  }

  lemma {:induction false} ObservedKeeps(s: Chain, anchor: Anchor, keep: bool)
    requires PendingExact(s) && InOrder(s) && Recorded(s) && PublishedOk(s) && DurableOk(s)
    ensures var q := Observed(s, anchor, keep);
            && PendingExact(q) && InOrder(q) && Recorded(q) && PublishedOk(q) && DurableOk(q)
            && q.checkpoint == s.checkpoint
  {
    var q := Observed(s, anchor, keep);
    assert s.clock.Some? ==> s.clock.value.anchors <= q.clock.value.anchors;
  }

  // The worker outside the commit

  lemma {:induction false} TakeFirst(items: seq<Item>, batch: seq<Item>, channel: seq<Item>)
    requires items == batch + channel && channel != []
    ensures items == batch + [channel[0]] + channel[1..]
  {
  }

  lemma {:induction false} WorkKeepsPending(s: Chain, a: Action)
    requires PendingExact(s)
    ensures PendingExact(Work(s, a))
  {
  }

  lemma {:induction false} ReceiveKeepsOrder(s: Chain)
    requires InOrder(s) && s.worker.Waiting? && s.channel != []
    ensures InOrder(Work(s, Receive))
  {
    TakeFirst(s.sent[s.committed..], [], s.channel);
  }

  lemma {:induction false} GatherKeepsOrder(s: Chain)
    requires InOrder(s) && s.worker.Gathering? && s.channel != []
    ensures InOrder(Work(s, Gather))
  {
    TakeFirst(s.sent[s.committed..], s.worker.batch, s.channel);
  }

  lemma {:induction false} ReleaseKeepsOrder(s: Chain)
    requires InOrder(s) && s.worker.Releasing?
    ensures InOrder(Work(s, Release))
  {
    var n := |s.worker.batch|;
    assert s.sent[s.committed..][n..] == s.channel;
    assert s.sent[s.committed + n..] == s.sent[s.committed..][n..];
  }

  lemma {:induction false} WorkKeepsOrder(s: Chain, a: Action)
    requires InOrder(s)
    ensures InOrder(Work(s, a))
  {
    match a
    case Receive =>
      if s.worker.Waiting? && s.channel != [] {
        ReceiveKeepsOrder(s);
      }
    case Gather =>
      if s.worker.Gathering? && s.channel != [] {
        GatherKeepsOrder(s);
      }
    case Release =>
      if s.worker.Releasing? {
        ReleaseKeepsOrder(s);
      }
    case _ =>
  }

  /** The next segment of the batch is the next one of all that were sent. */
  lemma {:induction false} NextOfBatch(s: Chain)
    requires InOrder(s) && s.worker.Syncing? && s.worker.synced < |s.worker.batch|
    ensures DurableCount(s) < |s.sent| && s.sent[DurableCount(s)] == s.worker.batch[s.worker.synced]
  {
    assert s.sent[s.committed..][s.worker.synced] == s.worker.batch[s.worker.synced];
  }

  lemma {:induction false} RecordsSnoc(items: seq<Item>, n: nat)
    requires n < |items|
    ensures RecordsOf(items[..n + 1]) == RecordsOf(items[..n]) + [items[n].record]
  {
  }

  lemma {:induction false} SyncKeepsRecorded(s: Chain)
    requires InOrder(s) && Recorded(s) && s.worker.Syncing? && s.worker.synced < |s.worker.batch|
    ensures Recorded(Work(s, SyncNext(true)))
  {
    NextOfBatch(s);
    RecordsSnoc(s.sent, DurableCount(s));
  }

  lemma {:induction false} WorkKeepsRecorded(s: Chain, a: Action)
    requires InOrder(s) && Recorded(s)
    ensures Recorded(Work(s, a))
  {
    if a.SyncNext? && a.ok && s.worker.Syncing? && s.worker.synced < |s.worker.batch| {
      SyncKeepsRecorded(s);
    } else {
      var q := Work(s, a);
      assert q.durableRecords == s.durableRecords && q.sent == s.sent && q.onDisk == s.onDisk;
      assert DurableCount(q) == DurableCount(s);
    }
  }

  lemma {:induction false} WorkKeepsPublished(s: Chain, a: Action)
    requires PublishedOk(s)
    ensures PublishedOk(Work(s, a)) && Work(s, a).checkpoint == s.checkpoint
  {
  }

  lemma {:induction false} RecordedLength(s: Chain)
    requires Recorded(s)
    ensures |s.durableRecords| == DurableCount(s)
  {
  }

  lemma {:induction false} SyncKeepsDurable(s: Chain)
    requires Recorded(s) && DurableOk(s) && s.worker.Syncing? && s.worker.synced < |s.worker.batch|
    ensures DurableOk(Work(s, SyncNext(true)))
  {
    RecordedLength(s);
    var q := Work(s, SyncNext(true));
    assert q.durableRecords[..s.committed] == s.durableRecords[..s.committed];
  }

  lemma {:induction false} StoreKeepsDurable(s: Chain)
    requires InOrder(s) && Recorded(s) && DurableOk(s)
    ensures DurableOk(Work(s, Store))
    ensures s.worker.Releasing? ==> DurableOk(Work(s, Release))
  {
    RecordedLength(s);
    assert s.durableRecords[..|s.durableRecords|] == s.durableRecords;
  }

  lemma {:induction false} WorkKeepsDurable(s: Chain, a: Action)
    requires InOrder(s) && Recorded(s) && DurableOk(s)
    ensures DurableOk(Work(s, a))
  {
    if a.SyncNext? && a.ok && s.worker.Syncing? && s.worker.synced < |s.worker.batch| {
      SyncKeepsDurable(s);
    } else if a.Store? || (a.Release? && s.worker.Releasing?) {
      StoreKeepsDurable(s);
    } else {
      var q := Work(s, a);
      assert q.durableRecords == s.durableRecords && q.committed == s.committed && q.checkpoint == s.checkpoint;
      assert DurableFrom(q) == DurableFrom(s) && PublishedCount(q) == PublishedCount(s);
    }
  }

  // The commit

  lemma {:induction false} CommitIsLegal(s: Chain)
    requires PublishedOk(s)
    ensures Checkpoint.Legal(s.checkpoint, Checkpoint.Action.Commit(s.clock, s.durableRecords))
  {
  }

  /** The commit moves neither the channel nor the records. */
  lemma {:induction false} AfterKeepsQueue(s: Chain, m: Checkpoint.Machine)
    requires PendingExact(s) && InOrder(s) && Recorded(s)
    requires s.worker.Committing? || (s.worker.Syncing? && s.worker.synced == |s.worker.batch|)
    ensures PendingExact(After(s, m, s.worker.batch)) && InOrder(After(s, m, s.worker.batch))
    ensures Recorded(After(s, m, s.worker.batch))
  {
  }

  lemma {:induction false} CountersOfPublished(c: Codec, m: Checkpoint.Machine)
    requires Checkpoint.CountersOk(c, m)
    ensures m.published.Some? ==>
              m.journal.anchors == |m.published.value.anchors| && m.journal.segments == |m.published.value.segments|
    ensures m.published.None? ==> m.journal.anchors == 0 && m.journal.segments == 0
  {
    if m.published.None? {
      Checkpoint.NoRows(m.rows);
    }
  }

  /** What `commit_checkpoint` does first: nothing without a clock, otherwise it takes up exactly the records. */
  lemma {:induction false} BegunCases(c: Codec, s: Chain)
    requires PublishedOk(s) && Checkpoint.CountersOk(c, s.checkpoint) && s.checkpoint.phase.Idle?
    ensures var m := Checkpoint.Begun(s.checkpoint, s.clock, s.durableRecords);
            if s.clock.None? then m == s.checkpoint.(last := Ok(()))
            else m.phase.Before? && m == s.checkpoint.(phase := m.phase)
                 && m.phase.pending.snapshot.segments == s.durableRecords
                 && m.phase.pending.snapshot.anchors == s.clock.value.anchors
  {
    CountersOfPublished(c, s.checkpoint);
  }

  lemma {:induction false} BeginKeepsPublished(c: Codec, s: Chain)
    requires PublishedOk(s) && Checkpoint.Inv(c, s.checkpoint) && s.worker.Syncing?
    ensures Checkpoint.Inv(c, Checkpoint.Begun(s.checkpoint, s.clock, s.durableRecords))
    ensures PublishedOk(After(s, Checkpoint.Begun(s.checkpoint, s.clock, s.durableRecords), s.worker.batch))
  {
    CommitIsLegal(s);
    Checkpoint.BeginKeeps(c, s.checkpoint, s.clock, s.durableRecords);
    BegunCases(c, s);
  }

  lemma {:induction false} BeginKeepsDurable(c: Codec, s: Chain)
    requires PublishedOk(s) && Checkpoint.CountersOk(c, s.checkpoint) && Recorded(s) && DurableOk(s)
    requires s.worker.Syncing?
    ensures DurableOk(After(s, Checkpoint.Begun(s.checkpoint, s.clock, s.durableRecords), s.worker.batch))
  {
    BegunCases(c, s);
  }

  /** What an I/O action does to the commit. */
  lemma {:induction false} PerformedCases(c: Codec, m: Checkpoint.Machine, answer: Checkpoint.Answer)
    requires m.phase.Before?
    ensures var q, p := Checkpoint.Performed(c, m, answer), m.phase.pending;
            || (q.phase.Before? && q.phase.pending == p && q.published == m.published)
            || (q.phase.Broken? && q.phase.pending == p && q.published == m.published && q.last.Err?)
            || (q.phase.Idle? && q.published == Some(p.snapshot) && q.last.Ok?)
  {
  }

  lemma {:induction false} PerformKeepsPublished(c: Codec, s: Chain, answer: Checkpoint.Answer)
    requires PublishedOk(s) && Checkpoint.Inv(c, s.checkpoint) && s.worker.Committing?
    ensures Checkpoint.Inv(c, Checkpoint.Performed(c, s.checkpoint, answer))
    ensures PublishedOk(After(s, Checkpoint.Performed(c, s.checkpoint, answer), s.worker.batch))
  {
    Checkpoint.StepKeeps(c, s.checkpoint, Checkpoint.Action.Perform(answer));
    PerformedCases(c, s.checkpoint, answer);
  }

  lemma {:induction false} PerformKeepsDurable(c: Codec, s: Chain, answer: Checkpoint.Answer)
    requires PublishedOk(s) && Recorded(s) && DurableOk(s) && s.worker.Committing?
    ensures DurableOk(After(s, Checkpoint.Performed(c, s.checkpoint, answer), s.worker.batch))
  {
    PerformedCases(c, s.checkpoint, answer);
    RecordedLength(s);
    assert s.durableRecords[..|s.durableRecords|] == s.durableRecords;
  }

  lemma {:induction false} BeginCommitKeeps(c: Codec, s: Chain)
    requires Inv(c, s) && s.worker.Syncing? && s.worker.synced == |s.worker.batch|
    ensures Inv(c, Commit(c, s, BeginCommit))
  {
    AfterKeepsQueue(s, Checkpoint.Begun(s.checkpoint, s.clock, s.durableRecords));
    BeginKeepsPublished(c, s);
    BeginKeepsDurable(c, s);
  }

  lemma {:induction false} PerformKeeps(c: Codec, s: Chain, answer: Checkpoint.Answer)
    requires Inv(c, s) && s.worker.Committing?
    ensures Inv(c, Commit(c, s, Perform(answer)))
  {
    AfterKeepsQueue(s, Checkpoint.Performed(c, s.checkpoint, answer));
    PerformKeepsPublished(c, s, answer);
    PerformKeepsDurable(c, s, answer);
  }

  lemma {:induction false} CommitKeeps(c: Codec, s: Chain, a: Action)
    requires Inv(c, s)
    ensures Inv(c, Commit(c, s, a))
  {
    match a
    case BeginCommit =>
      if s.worker.Syncing? && s.worker.synced >= |s.worker.batch| {
        BeginCommitKeeps(c, s);
      }
    case Perform(answer) =>
      if s.worker.Committing? {
        PerformKeeps(c, s, answer);
      }
    case _ =>
  }

  lemma {:induction false} SubmitKeeps(c: Codec, s: Chain, a: Action)
    requires Inv(c, s)
    ensures Inv(c, Submit(s, a))
  {
    SubmitKeepsPending(s, a);
    SubmitKeepsOrder(s, a);
    SubmitKeepsRecorded(s, a);
    SubmitKeepsRest(s, a);
    SameRecordsKeep(s, Submit(s, a));
  }

  lemma {:induction false} WorkKeeps(c: Codec, s: Chain, a: Action)
    requires Inv(c, s)
    ensures Inv(c, Work(s, a))
  {
    WorkKeepsPending(s, a);
    WorkKeepsOrder(s, a);
    WorkKeepsRecorded(s, a);
    WorkKeepsPublished(s, a);
    WorkKeepsDurable(s, a);
  }

  lemma {:induction false} StepKeeps(c: Codec, s: Chain, a: Action)
    requires Inv(c, s)
    ensures Inv(c, Step(c, s, a))
  {
    SubmitKeeps(c, s, a);
    WorkKeeps(c, s, a);
    CommitKeeps(c, s, a);
    if a.Observe? {
      ObservedKeeps(s, a.anchor, a.keep);
    }
  }

  lemma {:induction false} NewInv(c: Codec, s: Chain)
    requires IsNew(s)
    ensures Inv(c, s)
  {
    Checkpoint.NewInv(c, s.checkpoint);
    assert s.sent[s.committed..] == BatchOf(s.worker) + s.channel;
    assert s.durableRecords == RecordsOf(s.sent[..0]);
    assert |s.durableRecords[..0]| == 0;
  }

  function Run(c: Codec, s: Chain, actions: seq<Action>): Chain
    decreases actions
  {
    if actions == [] then s else Run(c, Step(c, s, actions[0]), actions[1..])
  }

  lemma {:induction false} RunKeeps(c: Codec, s: Chain, actions: seq<Action>)
    requires Inv(c, s)
    ensures Inv(c, Run(c, s, actions))
    decreases actions
  {
    if actions != [] {
      StepKeeps(c, s, actions[0]);
      RunKeeps(c, Step(c, s, actions[0]), actions[1..]);
    }
  }
}
