/** The commit worker as it updates its fields: `CommitWorker` of `native/src/audio.rs` with the closure that
    `SegmentWriter::with_progress` gives it. Every call is a run of the machine in `DurabilityChain`. */
module Commits {
  import opened Prelude
  import opened CheckpointFormat
  import opened DurabilityChain
  import opened Paths
  import Checkpoint
  import CheckpointWriter

  function StepOf(c: Codec): (Chain, Action) -> Chain {
    (s: Chain, a: Action) => Step(c, s, a)
  }

  lemma {:induction false} FoldedIsRun(c: Codec, s: Chain, actions: seq<Action>)
    ensures Folded(StepOf(c), s, actions) == Run(c, s, actions)
    decreases actions
  {
    if actions != [] {
      FoldedIsRun(c, Step(c, s, actions[0]), actions[1..]);
    }
  }

  /** A path of the worker is a run of the chain, so what holds of all runs holds after every call. */
  lemma {:induction false} CallIsARun(c: Codec, s: Chain, q: Chain) returns (actions: seq<Action>)
    requires Leads(StepOf(c), s, q)
    ensures Run(c, s, actions) == q
  {
    actions := LeadsIsARun(StepOf(c), s, q);
    FoldedIsRun(c, s, actions);
  }

  /** `commit_checkpoint` inside the worker, all its I/O actions answered. */
  lemma {:induction false} CommitLeads(c: Codec, start: Chain, s: Chain,
                                       answers: Checkpoint.Io -> Checkpoint.Answer)
    requires Leads(StepOf(c), start, s) && s.worker.Committing? && s.checkpoint.phase.Before?
    ensures Leads(StepOf(c), start, After(s, CheckpointWriter.Completed(c, s.checkpoint, answers), s.worker.batch))
    decreases CheckpointWriter.Rank(s.checkpoint.phase)
  {
    var next := Step(c, s, Perform(answers(s.checkpoint.phase.io)));
    StepOn(StepOf(c), start, s, Perform(answers(s.checkpoint.phase.io)));
    assert CheckpointWriter.Completed(c, s.checkpoint, answers)
        == CheckpointWriter.Completed(c, next.checkpoint, answers);
    if next.checkpoint.phase.Before? {
      CommitLeads(c, start, next, answers);
      var done := CheckpointWriter.Completed(c, s.checkpoint, answers);
      assert After(next, done, next.worker.batch) == After(s, done, s.worker.batch);
    }
  }

  /** The whole commit, from the moment the batch is synced. */
  lemma {:induction false} BatchCommitLeads(c: Codec, s: Chain, answers: Checkpoint.Io -> Checkpoint.Answer)
    requires s.worker.Syncing? && s.worker.synced == |s.worker.batch|
    ensures var begun := Checkpoint.Begun(s.checkpoint, s.clock, s.durableRecords);
            Leads(StepOf(c), s, After(s, CheckpointWriter.Completed(c, begun, answers), s.worker.batch))
  {
    var next := Step(c, s, BeginCommit);
    Stay(StepOf(c), s);
    StepOn(StepOf(c), s, s, BeginCommit);
    if next.checkpoint.phase.Before? {
      CommitLeads(c, s, next, answers);
    }
  }

  /** `submit` in one piece. */
  function Offered(s: Chain, item: Item): (Result<()>, Chain)
    requires s.submitter.Ready? && s.senderOpen
  {
    if HasError(s) || s.pending >= MAX_PENDING_COMMITS || |s.channel| >= MAX_PENDING_COMMITS
    then (Err(AudioFailed), s.(submitter := Ready(Err(AudioFailed))))
    else (Ok(()), s.(pending := s.pending + 1, channel := s.channel + [item], sent := s.sent + [item],
                     submitter := Ready(Ok(()))))
  }

  /** An uninterrupted `submit` is four steps of the machine. */
  lemma {:induction false} SubmitLeads(c: Codec, s: Chain, item: Item)
    requires s.submitter.Ready? && s.senderOpen
    ensures Leads(StepOf(c), s, Offered(s, item).1)
  {
    var s1 := Step(c, s, Check(item));
    var s2 := Step(c, s1, Reserve);
    var s3 := Step(c, s2, Send);
    Stay(StepOf(c), s);
    StepOn(StepOf(c), s, s, Check(item));
    StepOn(StepOf(c), s, s1, Reserve);
    StepOn(StepOf(c), s, s2, Send);
    StepOn(StepOf(c), s, s3, RollBack);
    assert Step(c, s3, RollBack) == Offered(s, item).1;
  }

  /** A committed batch leaves the backlog, and its samples count as durable. */
  function ReleasedBatch(s: Chain): Chain
    requires s.worker.Storing? && s.pending >= |s.worker.batch|
  {
    s.(durableSamples := SampleCount(s.durableRecords), pending := s.pending - |s.worker.batch|,
       committed := s.committed + |s.worker.batch|, worker := Waiting)
  }

  lemma {:induction false} ReleaseLeads(c: Codec, s: Chain)
    requires s.worker.Storing? && s.pending >= |s.worker.batch|
    ensures Leads(StepOf(c), s, ReleasedBatch(s))
  {
    var stored := Step(c, s, Store);
    Stay(StepOf(c), s);
    StepOn(StepOf(c), s, s, Store);
    StepOn(StepOf(c), s, stored, Release);
    assert Step(c, stored, Release) == ReleasedBatch(s);
  }

  /** The failed worker after its last two steps. */
  lemma {:induction false} GivenUpLeads(c: Codec, s: Chain)
    requires s.worker.Failing?
    ensures Leads(StepOf(c), s, s.(worker := Gone(s.worker.batch, s.worker.synced)))
  {
    var reported := Step(c, s, Report);
    Stay(StepOf(c), s);
    StepOn(StepOf(c), s, s, Report);
    StepOn(StepOf(c), s, reported, Exit);
    assert Step(c, reported, Exit) == s.(worker := Gone(s.worker.batch, s.worker.synced));
  }

  /** One segment of a batch synced, or the failure that ends the worker. */
  function SyncedOne(s: Chain, ok: bool): Chain
    requires s.worker.Syncing? && s.worker.synced < |s.worker.batch|
  {
    var batch, i := s.worker.batch, s.worker.synced;
    if ok then
      s.(worker := Syncing(batch, i + 1), durableRecords := s.durableRecords + [batch[i].record],
         onDisk := s.onDisk + {s.committed + i})
    else s.(worker := Failing(batch, i))
  }

  lemma {:induction false} SyncedLeads(c: Codec, start: Chain, s: Chain, ok: bool)
    requires Leads(StepOf(c), start, s) && s.worker.Syncing? && s.worker.synced < |s.worker.batch|
    ensures Leads(StepOf(c), start, SyncedOne(s, ok))
  {
    StepOn(StepOf(c), start, s, SyncNext(ok));
    assert Step(c, s, SyncNext(ok)) == SyncedOne(s, ok);
  }

  /** The commit of these records succeeds: nothing has failed before, and with a clock no observer has regressed and
      each I/O action succeeds. */
  ghost predicate WillCommit(journal: Checkpoint.Counters, failed: bool, clock: Option<Checkpoint.Clock>,
                             records: seq<Segment>, answers: Checkpoint.Io -> Checkpoint.Answer) {
    && !failed
    && (clock.Some? ==>
          && journal.anchors <= |clock.value.anchors| && journal.segments <= |records|
          && CheckpointWriter.AllOk(CheckpointWriter.IosOf(journal.created), answers))
  }

  class CommitWorker {
    const journal: CheckpointWriter.CheckpointJournal
    var channel: seq<Item>
    var senderOpen: bool
    var pendingCommits: nat
    var commitError: bool
    var clock: Option<Checkpoint.Clock>
    var durableRecords: seq<Segment>
    var durableSamples: nat
    ghost var submitter: Submitter
    ghost var worker: Worker
    ghost var sent: seq<Item>
    ghost var committed: nat
    ghost var onDisk: set<nat>

    ghost function View(): Chain
      reads this, journal
    {
      Chain(submitter, worker, channel, senderOpen, pendingCommits, clock, durableRecords, durableSamples,
            journal.View(), sent, committed, onDisk)
    }

    ghost predicate Valid()
      reads this, journal
    {
      journal.Valid() && (commitError <==> worker.Gone?) && (worker.Gone? || worker.Waiting?)
    }

    constructor (codec: Codec, clock: Option<Checkpoint.Clock>)
      ensures Valid() && fresh(journal) && journal.codec == codec
      ensures IsNew(View()) && this.clock == clock
    {
      journal := new CheckpointWriter.CheckpointJournal(codec);
      channel, senderOpen, pendingCommits, commitError := [], true, 0, false;
      this.clock, durableRecords, durableSamples := clock, [], 0;
      submitter, worker, sent, committed, onDisk := Ready(Ok(())), Waiting, [], 0, {};
    }

    /** `submit`: a refused segment leaves no trace. */
    method SubmitSegment(item: Item) returns (r: Result<()>)
      requires Valid() && submitter.Ready? && senderOpen
      modifies this
      ensures Valid()
      ensures (r, View()) == Offered(old(View()), item)
      ensures r.Err? ==> View() == old(View()).(submitter := Ready(r))
    {
      if commitError || pendingCommits >= MAX_PENDING_COMMITS {
        submitter := Ready(Err(AudioFailed));
        return Err(AudioFailed);
      }
      pendingCommits := pendingCommits + 1;
      if |channel| >= MAX_PENDING_COMMITS {
        pendingCommits := pendingCommits - 1;
        submitter := Ready(Err(AudioFailed));
        return Err(AudioFailed);
      }
      channel := channel + [item];
      sent := sent + [item];
      submitter := Ready(Ok(()));
      return Ok(());
    }

    /** The first segment and what has accumulated behind it, at most 8. */
    method GatherBatch() returns (batch: seq<Item>)
      requires worker.Waiting? && channel != []
      modifies this`channel, this`worker
      ensures Leads(StepOf(journal.codec), old(View()), View())
      ensures worker == Syncing(batch, 0) && 1 <= |batch| <= MAX_PENDING_COMMITS
      ensures old(channel) == batch + channel && (|batch| < MAX_PENDING_COMMITS ==> channel == [])
    {
      ghost var step, start := StepOf(journal.codec), View();
      Stay(step, start);
      StepOn(step, start, start, Receive);
      batch := [channel[0]];
      channel := channel[1..];
      worker := Gathering(batch);
      while channel != [] && |batch| < MAX_PENDING_COMMITS
        invariant Leads(step, start, View())
        invariant worker == Gathering(batch) && 1 <= |batch| <= MAX_PENDING_COMMITS
        invariant old(channel) == batch + channel
        decreases |channel|
      {
        StepOn(step, start, View(), Gather);
        batch := batch + [channel[0]];
        channel := channel[1..];
        worker := Gathering(batch);
      }
      StepOn(step, start, View(), Gather);
      worker := Syncing(batch, 0);
    }

    /** The segments of a batch are synced in order and recorded; the first failure ends the worker. */
    method SyncBatch(batch: seq<Item>, syncs: nat -> bool) returns (ok: bool)
      requires worker == Syncing(batch, 0)
      modifies this`worker, this`durableRecords, this`onDisk
      ensures Leads(StepOf(journal.codec), old(View()), View())
      ensures ok <==> forall i: nat {:trigger syncs(i)} :: i < |batch| ==> syncs(i)
      ensures ok ==> worker == Syncing(batch, |batch|) && durableRecords == old(durableRecords) + RecordsOf(batch)
      ensures !ok ==> worker.Failing? && worker.batch == batch
    {
      ghost var step, start := StepOf(journal.codec), View();
      Stay(step, start);
      var i := 0;
      assert RecordsOf(batch[..0]) == [];
      while i < |batch|
        invariant 0 <= i <= |batch| && worker == Syncing(batch, i)
        invariant forall j: nat {:trigger syncs(j)} :: j < i ==> syncs(j)
        invariant durableRecords == old(durableRecords) + RecordsOf(batch[..i])
        invariant Leads(step, start, View())
      {
        SyncedLeads(journal.codec, start, View(), syncs(i));
        if !syncs(i) {
          worker := Failing(batch, i);
          return false;
        }
        RecordsSnoc(batch, i);
        durableRecords := durableRecords + [batch[i].record];
        onDisk := onDisk + {committed + i};
        worker := Syncing(batch, i + 1);
        i := i + 1;
      }
      assert batch[..|batch|] == batch;
      return true;
    }

    /** The commit of a synced batch. */
    method CommitBatch(batch: seq<Item>, answers: Checkpoint.Io -> Checkpoint.Answer) returns (r: Result<()>)
      requires journal.Valid() && worker == Syncing(batch, |batch|)
      modifies journal, this`worker
      ensures journal.Valid()
      ensures Leads(StepOf(journal.codec), old(View()), View())
      ensures worker == if r.Ok? then Storing(batch) else Failing(batch, |batch|)
      ensures r.Ok? <==> WillCommit(old(View().checkpoint.journal), old(journal.failed), clock, durableRecords, answers)
      ensures r.Ok? && clock.Some? ==>
                journal.published == Some(CheckpointWriter.SnapshotOf(clock.value, durableRecords))
    {
      BatchCommitLeads(journal.codec, View(), answers);
      r := journal.Commit(clock, durableRecords, answers);
      worker := if r.Ok? then Storing(batch) else Failing(batch, |batch|);
    }

    /** The error is published, then the receiver is gone. */
    method GiveUp()
      requires worker.Failing?
      modifies this`worker, this`commitError
      ensures Leads(StepOf(journal.codec), old(View()), View())
      ensures commitError && worker == Gone(old(worker).batch, old(worker).synced)
    {
      GivenUpLeads(journal.codec, View());
      commitError := true;
      worker := Gone(worker.batch, worker.synced);
    }

    /** Only after its commit does a batch count as durable and leave the backlog. */
    method ReleaseBatch(batch: seq<Item>)
      requires worker == Storing(batch) && pendingCommits >= |batch|
      modifies this`worker, this`durableSamples, this`pendingCommits, this`committed
      ensures Leads(StepOf(journal.codec), old(View()), View())
      ensures worker.Waiting? && durableSamples == SampleCount(durableRecords)
      ensures pendingCommits == old(pendingCommits) - |batch| && committed == old(committed) + |batch|
    {
      ReleaseLeads(journal.codec, View());
      durableSamples := if durableRecords == [] then 0 else durableRecords[|durableRecords| - 1].end;
      pendingCommits := pendingCommits - |batch|;
      committed := committed + |batch|;
      worker := Waiting;
    }

    /** A committed batch leaves the backlog; a failed one ends the worker. */
    method EndTurn(batch: seq<Item>, r: Result<()>)
      requires journal.Valid() && !commitError && pendingCommits >= |batch|
      requires if r.Ok? then worker == Storing(batch) else worker.Failing? && worker.batch == batch
      modifies this`worker, this`commitError, this`durableSamples, this`pendingCommits, this`committed
      ensures Valid()
      ensures Leads(StepOf(journal.codec), old(View()), View())
      ensures r.Err? <==> commitError
      ensures r.Ok? ==> durableSamples == SampleCount(durableRecords)
      ensures r.Err? ==> durableSamples == old(durableSamples) && pendingCommits == old(pendingCommits)
    {
      if r.Ok? {
        ReleaseBatch(batch);
      } else {
        GiveUp();
      }
    }

    /** One turn of the worker loop over what has accumulated, at most 8 segments: it succeeds exactly when every sync
        and the commit do; then their records are durable, in order, and with a clock they are published. */
    method CommitTurn(syncs: nat -> bool, answers: Checkpoint.Io -> Checkpoint.Answer) returns (r: Result<()>)
      requires Valid() && worker.Waiting? && channel != [] && PendingExact(View())
      modifies this, journal
      ensures Valid()
      ensures Leads(StepOf(journal.codec), old(View()), View())
      ensures r.Err? <==> commitError
      ensures var n := Min(|old(channel)|, MAX_PENDING_COMMITS);
              var records := old(durableRecords) + RecordsOf(old(channel)[..n]);
              && (r.Ok? <==> (forall i: nat {:trigger syncs(i)} :: i < n ==> syncs(i))
                             && WillCommit(old(View().checkpoint.journal), old(journal.failed), clock, records,
                                           answers))
              && (r.Ok? ==> durableRecords == records && channel == old(channel)[n..]
                            && durableSamples == SampleCount(records))
              && (r.Ok? && clock.Some? ==>
                    journal.published == Some(CheckpointWriter.SnapshotOf(clock.value, records)))
      ensures clock == old(clock)
      ensures r.Err? ==> durableSamples == old(durableSamples) && pendingCommits == old(pendingCommits)
    {
      ghost var step, start := StepOf(journal.codec), View();
      var batch := GatherBatch();
      ghost var gathered := View();
      var ok := SyncBatch(batch, syncs);
      Through(step, start, gathered, View());
      r := Err(WriteFailed);
      if ok {
        ghost var synced := View();
        r := CommitBatch(batch, answers);
        Through(step, start, synced, View());
      }
      ghost var decided := View();
      EndTurn(batch, r);
      Through(step, start, decided, View());
    }
  }
}
