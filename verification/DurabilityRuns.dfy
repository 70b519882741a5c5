/** What every run of the durability chain guarantees, across a crash at any moment. */
module DurabilityRuns {
  import opened Prelude
  import opened CheckpointFormat
  import opened Disk
  import opened DurabilityChain
  import opened AudioClock
  import Checkpoint
  import Segments

  // The commit worker

  /** The backlog counter is the queued and in-flight segments plus at most one reservation, and never exceeds 8; a
      channel whose worker is alive always has room for an admitted segment. */
  lemma {:induction false} BacklogIsBounded(c: Codec, start: Chain, actions: seq<Action>)
    requires IsNew(start)
    ensures var s := Run(c, start, actions);
            && s.pending == |s.channel| + Reservation(s.submitter) + |BatchOf(s.worker)| <= MAX_PENDING_COMMITS
            && (s.submitter.Reserved? && !s.worker.Gone? ==>
                  var q := Step(c, s, Send);
                  q.submitter == Ready(Ok(())) && q.sent == s.sent + [s.submitter.item])
  {
    NewInv(c, start);
    RunKeeps(c, start, actions);
  }

  /** The durable records are at every moment a prefix of what was submitted, in order and each once. */
  lemma {:induction false} CommitsAreAPrefix(c: Codec, start: Chain, actions: seq<Action>)
    requires IsNew(start)
    ensures var s := Run(c, start, actions);
            && s.committed <= DurableCount(s) <= |s.sent|
            && s.durableRecords == RecordsOf(s.sent[..DurableCount(s)])
  {
    NewInv(c, start);
    RunKeeps(c, start, actions);
  }

  /** Everything submitted is synced and recorded once, and with a clock installed also published. */
  ghost predicate AllCommitted(s: Chain) {
    && s.committed == |s.sent| && s.pending == 0
    && s.durableRecords == RecordsOf(s.sent)
    && (forall i: nat :: i < |s.sent| ==> i in s.onDisk)
    && (s.clock.Some? ==> PublishedSegments(s) == RecordsOf(s.sent))
  }

  /** `finish` returning `Ok` means that every submitted segment is synced and recorded exactly once, and with a clock
      installed also published. */
  lemma {:induction false} FinishCommitsEverything(c: Codec, start: Chain, actions: seq<Action>)
    requires IsNew(start)
    requires var s := Run(c, start, actions); s.submitter == Joined(Ok(()))
    ensures AllCommitted(Run(c, start, actions))
  {
    NewInv(c, start);
    RunKeeps(c, start, actions);
    JoinedIsCommitted(Run(c, start, actions));
  }

  lemma {:induction false} JoinedIsCommitted(s: Chain)
    requires PendingExact(s) && InOrder(s) && Recorded(s) && DurableOk(s) && s.submitter == Joined(Ok(()))
    ensures AllCommitted(s)
  {
    assert |s.sent[s.committed..]| == 0;
    assert s.sent[..|s.sent|] == s.sent;
    RecordedLength(s);
    assert s.durableRecords[..|s.durableRecords|] == s.durableRecords;
  }

  // Crashes

  /** What a crash leaves of the segment files: a synced one is intact. */
  ghost predicate FilesSurvive(s: Chain, found: nat -> Option<seq<Byte>>) {
    forall i: nat {:trigger found(i)} :: i < |s.sent| && i in s.onDisk ==> found(i) == Some(s.sent[i].file)
  }

  /** Every segment the inventory names was submitted at that position, and its file is there, byte for byte. */
  ghost predicate InventoryOnDisk(s: Chain, inventory: Inventory, found: nat -> Option<seq<Byte>>) {
    |inventory.segments| <= |s.sent|
    && forall i: nat {:trigger found(i)} :: i < |inventory.segments| ==>
         inventory.segments[i] == s.sent[i].record && found(i) == Some(s.sent[i].file)
  }

  lemma {:induction false} RecordedOnDisk(s: Chain, inventory: Inventory, found: nat -> Option<seq<Byte>>)
    requires Recorded(s) && FilesSurvive(s, found) && inventory.segments <= s.durableRecords
    ensures InventoryOnDisk(s, inventory, found)
  {
    RecordedLength(s);
    forall i: nat | i < |inventory.segments|
      ensures inventory.segments[i] == s.sent[i].record && found(i) == Some(s.sent[i].file)
    {
      assert inventory.segments[i] == s.durableRecords[i];
    }
  }

  /** No header that can survive a crash names a segment whose file might not: whenever the crash falls, recovery finds
      no checkpoint at all, or an inventory whose every segment is on disk with exactly the bytes submitted. */
  lemma {:induction false} SurvivingHeaderNamesDurableFiles(c: Codec, start: Chain, actions: seq<Action>, image: Image,
                                                            found: nat -> Option<seq<Byte>>)
    requires Good(c) && IsNew(start)
    requires var s := Run(c, start, actions); Survives(s.checkpoint.disk, image) && FilesSurvive(s, found)
    ensures var s, r := Run(c, start, actions), Recover(c, image.header, image.journal);
            || (r.NoCheckpoint? && s.checkpoint.published.None?)
            || (r.Recovered? && InventoryOnDisk(s, r.inventory, found))
  {
    NewInv(c, start);
    RunKeeps(c, start, actions);
    InventorySurvives(c, Run(c, start, actions), image, found);
  }

  lemma {:induction false} InventorySurvives(c: Codec, s: Chain, image: Image, found: nat -> Option<seq<Byte>>)
    requires Good(c) && Inv(c, s) && Survives(s.checkpoint.disk, image) && FilesSurvive(s, found)
    ensures var r := Recover(c, image.header, image.journal);
            || (r.NoCheckpoint? && s.checkpoint.published.None?)
            || (r.Recovered? && InventoryOnDisk(s, r.inventory, found)
                && r.inventory.sampleCount == SampleCount(r.inventory.segments))
  {
    Checkpoint.CrashFrom(c, s.checkpoint, image);
    var r := Recover(c, image.header, image.journal);
    if r.Recovered? {
      RecordedOnDisk(s, r.inventory, found);
    }
  }

  /** With the clock checkpoint installed first, `durable_samples` never promises more than a crash leaves: it is the
      end of a segment that recovery returns, or 0. */
  lemma {:induction false} DurableSamplesSurvive(c: Codec, start: Chain, actions: seq<Action>, image: Image)
    requires Good(c) && IsNew(start) && start.clock.Some?
    requires Survives(Run(c, start, actions).checkpoint.disk, image)
    ensures var s, r := Run(c, start, actions), Recover(c, image.header, image.journal);
            if r.Recovered? then DurableFrom(s) <= |r.inventory.segments|
                                 && s.durableSamples == SampleCount(r.inventory.segments[..DurableFrom(s)])
            else r.NoCheckpoint? && s.durableSamples == 0
  {
    NewInv(c, start);
    RunKeeps(c, start, actions);
    ClockStays(c, start, actions);
    var s, r := Run(c, start, actions), Recover(c, image.header, image.journal);
    Checkpoint.CrashFrom(c, s.checkpoint, image);
    RecordedLength(s);
    assert DurableFrom(s) <= PublishedCount(s) <= |s.durableRecords|;
    DurableIsPublished(s);
    if r.Recovered? {
      PrefixOfPrefix(PublishedSegments(s), r.inventory.segments, DurableFrom(s));
    }
  }

  lemma {:induction false} DurableIsPublished(s: Chain)
    requires DurableOk(s) && s.clock.Some? && DurableFrom(s) <= PublishedCount(s) <= |s.durableRecords|
    ensures DurableFrom(s) <= |PublishedSegments(s)|
    ensures s.durableSamples == SampleCount(PublishedSegments(s)[..DurableFrom(s)])
  {
    PrefixOfPrefix(PublishedSegments(s), s.durableRecords, DurableFrom(s));
  }

  lemma {:induction false} PrefixOfPrefix<T>(a: seq<T>, b: seq<T>, n: nat)
    requires n <= |a| && a <= b
    ensures n <= |b| && a[..n] == b[..n]
  {
  }

  lemma {:induction false} ClockStays(c: Codec, s: Chain, actions: seq<Action>)
    ensures Run(c, s, actions).clock.Some? == s.clock.Some?
    decreases actions
  {
    if actions != [] {
      ClockStays(c, Step(c, s, actions[0]), actions[1..]);
    }
  }

  // From the stream to the recovered audio

  /** What the writer of the stream has submitted. */
  predicate Submitted(s: Chain, t: Segments.Track) {
    && |s.sent| == |t.records| == |t.files|
    && forall i :: 0 <= i < |s.sent| ==> s.sent[i] == Item(t.records[i], t.files[i])
  }

  /** The file of a recovered segment: a header for its samples, then exactly samples [start, end) of the stream. */
  predicate HoldsItsSamples(f: Segments.Layout, stream: seq<Byte>, segment: Segment, file: Option<seq<Byte>>) {
    var low, high := Segments.At(f, segment.start), Segments.At(f, segment.end);
    && segment.start <= segment.end && low <= high <= |stream| && file.Some?
    && f.header(Segments.At(f, segment.end - segment.start)).Ok?
    && file.value == f.header(Segments.At(f, segment.end - segment.start)).value + stream[low..high]
  }

  /** Segment i starts where the one before it ends and takes the next S samples, or all that are left. */
  predicate InPlace(f: Segments.Layout, segments: seq<Segment>, n: nat, i: nat)
    requires i < |segments|
  {
    && segments[i].index == i
    && segments[i].start == (if i == 0 then 0 else segments[i - 1].end)
    && segments[i].end == Min(segments[i].start + f.segmentFrames, n)
  }

  /** The inventory is a gapless beginning of the recording, cut every S samples, and its files hold it. */
  ghost predicate RecoversTheStream(f: Segments.Layout, stream: seq<Byte>, n: nat, inventory: Inventory,
                                    found: nat -> Option<seq<Byte>>) {
    && inventory.sampleCount <= n
    && forall i: nat {:trigger found(i)} :: i < |inventory.segments| ==>
         InPlace(f, inventory.segments, n, i) && HoldsItsSamples(f, stream, inventory.segments[i], found(i))
  }

  lemma {:induction false} PieceBounds(f: Segments.Layout, t: Segments.Track, stream: seq<Byte>, n: nat, i: nat)
    requires Segments.Tiled(f, t, stream, n) && i < |t.records|
    ensures InPlace(f, t.records, n, i) && HoldsItsSamples(f, stream, t.records[i], Some(t.files[i]))
  {
    assert Segments.PieceAt(f, t, stream, n, i);
    Segments.StartStep(f, i);
    if i > 0 {
      assert Segments.PieceAt(f, t, stream, n, i - 1);
    }
  }

  lemma {:induction false} InventoryIsTheStream(s: Chain, f: Segments.Layout, t: Segments.Track, stream: seq<Byte>,
                                                n: nat, inventory: Inventory, found: nat -> Option<seq<Byte>>)
    requires Segments.Tiled(f, t, stream, n) && Submitted(s, t)
    requires InventoryOnDisk(s, inventory, found) && inventory.sampleCount == SampleCount(inventory.segments)
    ensures RecoversTheStream(f, stream, n, inventory, found)
  {
    forall i: nat | i < |inventory.segments|
      ensures InPlace(f, inventory.segments, n, i) && HoldsItsSamples(f, stream, inventory.segments[i], found(i))
    {
      SegmentIsTheStream(s, f, t, stream, n, inventory, found, i);
    }
    if inventory.segments != [] {
      SegmentIsTheStream(s, f, t, stream, n, inventory, found, |inventory.segments| - 1);
    }
  }

  lemma {:induction false} SegmentIsTheStream(s: Chain, f: Segments.Layout, t: Segments.Track, stream: seq<Byte>,
                                              n: nat, inventory: Inventory, found: nat -> Option<seq<Byte>>, i: nat)
    requires Segments.Tiled(f, t, stream, n) && Submitted(s, t)
    requires InventoryOnDisk(s, inventory, found) && i < |inventory.segments|
    ensures InPlace(f, inventory.segments, n, i) && HoldsItsSamples(f, stream, inventory.segments[i], found(i))
  {
    assert found(i) == Some(s.sent[i].file) && inventory.segments[i] == t.records[i];
    if i > 0 {
      assert found(i - 1) == Some(s.sent[i - 1].file) && inventory.segments[i - 1] == t.records[i - 1];
    }
    PieceBounds(f, t, stream, n, i);
  }

  lemma {:induction false} DurableEnd(s: Chain, f: Segments.Layout, t: Segments.Track, stream: seq<Byte>, n: nat)
    requires Recorded(s) && DurableOk(s) && Segments.Tiled(f, t, stream, n) && Submitted(s, t)
    ensures s.durableSamples <= n
  {
    RecordedLength(s);
    var k := DurableFrom(s);
    if k > 0 {
      assert s.durableRecords[k - 1] == s.sent[k - 1].record;
      PieceBounds(f, t, stream, n, k - 1);
    }
  }

  // The clock anchors recovered

  /** The anchors that were kept, in their order. */
  function Kept(actions: seq<Action>): seq<Anchor> {
    if |actions| == 0 then []
    else
      var before, a := Kept(actions[..|actions| - 1]), actions[|actions| - 1];
      if a.Observe? && a.keep then before + [a.anchor] else before
  }

  /** The anchor observed last. */
  function LastSeen(first: Option<Anchor>, actions: seq<Action>): Option<Anchor> {
    if |actions| == 0 then first
    else
      var a := actions[|actions| - 1];
      if a.Observe? then Some(a.anchor) else LastSeen(first, actions[..|actions| - 1])
  }

  /** What had been observed after so many steps. */
  ghost predicate SeenAt(start: Checkpoint.Clock, done: seq<Action>, s: Snapshot, k: nat) {
    && k <= |done| && s.anchors == start.anchors + Kept(done[..k])
    && s.lastAnchor == LastSeen(start.lastAnchor, done[..k]) && s.settings == start.settings
  }

  ghost predicate SeenOnce(start: Checkpoint.Clock, done: seq<Action>, s: Snapshot) {
    exists k: nat {:trigger SeenAt(start, done, s, k)} :: SeenAt(start, done, s, k)
  }

  ghost predicate ClockHistory(start: Checkpoint.Clock, s: Chain, done: seq<Action>) {
    && s.clock.Some? && SeenAt(start, done, Snapshot(s.clock.value.anchors, s.clock.value.lastAnchor, [],
                                                     s.clock.value.settings), |done|)
    && (s.checkpoint.published.Some? ==> SeenOnce(start, done, s.checkpoint.published.value))
    && (!s.checkpoint.phase.Idle? ==> SeenOnce(start, done, s.checkpoint.phase.pending.snapshot))
  }

  lemma {:induction false} SeenBefore(start: Checkpoint.Clock, done: seq<Action>, a: Action, s: Snapshot)
    requires SeenOnce(start, done, s)
    ensures SeenOnce(start, done + [a], s)
  {
    var k: nat :| SeenAt(start, done, s, k);
    assert (done + [a])[..k] == done[..k];
    assert SeenAt(start, done + [a], s, k);
  }

  lemma {:induction false} ClockStep(c: Codec, start: Checkpoint.Clock, s: Chain, done: seq<Action>, a: Action)
    requires ClockHistory(start, s, done)
    ensures var clock := Step(c, s, a).clock;
            clock.Some? && SeenAt(start, done + [a], Snapshot(clock.value.anchors, clock.value.lastAnchor, [],
                                                              clock.value.settings), |done| + 1)
  {
    assert done[..|done|] == done && (done + [a])[..|done| + 1] == done + [a] && (done + [a])[..|done|] == done;
    if a.Observe? && a.keep {
      assert start.anchors + Kept(done) + [a.anchor] == start.anchors + (Kept(done) + [a.anchor]);
    }
  }

  /** A step of a commit keeps its snapshots, or begins one with the clock as it stands. */
  lemma {:induction false} CommitStep(c: Codec, s: Chain, a: Action)
    ensures var m, q := s.checkpoint, Step(c, s, a).checkpoint;
            && (q.published == m.published
                || (!m.phase.Idle? && q.published == Some(m.phase.pending.snapshot)))
            && (!q.phase.Idle? ==>
                  (!m.phase.Idle? && q.phase.pending == m.phase.pending)
                  || (s.clock.Some? && q.phase.pending.snapshot
                                    == Snapshot(s.clock.value.anchors, s.clock.value.lastAnchor, s.durableRecords,
                                                s.clock.value.settings)))
  {
  }

  lemma {:induction false} ClockHistoryStep(c: Codec, start: Checkpoint.Clock, s: Chain, done: seq<Action>, a: Action)
    requires ClockHistory(start, s, done)
    ensures ClockHistory(start, Step(c, s, a), done + [a])
  {
    ClockStep(c, start, s, done, a);
    CommitStep(c, s, a);
    var q := Step(c, s, a).checkpoint;
    if q.published.Some? {
      SeenBefore(start, done, a, q.published.value);
    }
    if !q.phase.Idle? {
      if !SeenOnce(start, done, q.phase.pending.snapshot) {
        assert SeenAt(start, done, q.phase.pending.snapshot, |done|);
      }
      SeenBefore(start, done, a, q.phase.pending.snapshot);
    }
  }

  lemma {:induction false} ClockHistoryRun(c: Codec, start: Checkpoint.Clock, s: Chain, done: seq<Action>,
                                           actions: seq<Action>)
    requires ClockHistory(start, s, done)
    ensures ClockHistory(start, Run(c, s, actions), done + actions)
    decreases actions
  {
    if actions == [] {
      assert done + actions == done;
    } else {
      ClockHistoryStep(c, start, s, done, actions[0]);
      ClockHistoryRun(c, start, Step(c, s, actions[0]), done + [actions[0]], actions[1..]);
      assert done + [actions[0]] + actions[1..] == done + actions;
    }
  }

  /** The inventory has the clock as it stood after k steps: all anchors kept until then, and behind them the one seen
      last, unless that is the last one kept. */
  ghost predicate HasClockAt(start: Checkpoint.Clock, actions: seq<Action>, inventory: Inventory, k: nat) {
    && k <= |actions| && inventory.settings == start.settings
    && var kept, last := start.anchors + Kept(actions[..k]), LastSeen(start.lastAnchor, actions[..k]);
       inventory.anchors
       == if last.None? || (|kept| > 0 && kept[|kept| - 1] == last.value) then kept else kept + [last.value]
  }

  lemma {:induction false} ClockSinceStart(c: Codec, start: Chain, actions: seq<Action>)
    requires IsNew(start) && start.clock.Some?
    ensures ClockHistory(start.clock.value, Run(c, start, actions), actions)
  {
    var clock, none: seq<Action> := start.clock.value, [];
    assert none[..0] == none && clock.anchors + Kept(none) == clock.anchors;
    ClockHistoryRun(c, clock, start, none, actions);
    assert none + actions == actions;
  }

  lemma {:induction false} SeenIsFound(start: Checkpoint.Clock, actions: seq<Action>, s: Snapshot) returns (k: nat)
    requires SeenOnce(start, actions, s)
    ensures k <= |actions| && HasClockAt(start, actions, Expanded(s), k)
  {
    k :| SeenAt(start, actions, s, k);
  }

  lemma {:induction false} RecoveredClockWasSeen(c: Codec, clock: Checkpoint.Clock, s: Chain, actions: seq<Action>,
                                                 image: Image) returns (k: nat)
    requires Good(c) && Checkpoint.Inv(c, s.checkpoint) && ClockHistory(clock, s, actions)
    requires Survives(s.checkpoint.disk, image) && Recover(c, image.header, image.journal).Recovered?
    ensures HasClockAt(clock, actions, Recover(c, image.header, image.journal).inventory, k)
  {
    Checkpoint.CrashFrom(c, s.checkpoint, image);
    var r := Recover(c, image.header, image.journal);
    var snapshot := if r == Checkpoint.Outcome(s.checkpoint.published) then s.checkpoint.published.value
                    else s.checkpoint.phase.pending.snapshot;
    k := SeenIsFound(clock, actions, snapshot);
  }

  /** Whenever a crash falls, the clock recovered is the one that had been observed at some moment of the run: no anchor
      is lost in between, reordered or made up. */
  lemma {:induction false} RecoveredClockWasObserved(c: Codec, start: Chain, actions: seq<Action>, image: Image)
    returns (k: nat)
    requires Good(c) && IsNew(start) && start.clock.Some?
    requires var s := Run(c, start, actions);
             Survives(s.checkpoint.disk, image) && Recover(c, image.header, image.journal).Recovered?
    ensures HasClockAt(start.clock.value, actions, Recover(c, image.header, image.journal).inventory, k)
  {
    NewInv(c, start);
    RunKeeps(c, start, actions);
    ClockSinceStart(c, start, actions);
    k := RecoveredClockWasSeen(c, start.clock.value, Run(c, start, actions), actions, image);
  }

  // Without a clock checkpoint

  /** If no clock checkpoint is installed, commits succeed without writing anything, and a crash finds no checkpoint. */
  lemma {:induction false} NothingIsPublishedWithoutClock(c: Codec, start: Chain, actions: seq<Action>, image: Image)
    requires Good(c) && IsNew(start) && start.clock.None?
    requires Survives(Run(c, start, actions).checkpoint.disk, image)
    ensures Recover(c, image.header, image.journal) == NoCheckpoint
  {
    NewInv(c, start);
    RunKeeps(c, start, actions);
    ClockStays(c, start, actions);
    Checkpoint.CrashFrom(c, Run(c, start, actions).checkpoint, image);
  }

  /** One submitted segment on its way to the end of the worker's turn, without an error. */
  function OneSegment(item: Item): seq<Action> {
    [Check(item), Reserve, Send, Receive, Gather, SyncNext(true), BeginCommit, Store]
  }

  lemma {:induction false} OneSegmentRuns(c: Codec, start: Chain, item: Item)
    requires IsNew(start) && start.clock.None?
    ensures var s := Run(c, start, OneSegment(item));
            s.durableSamples == item.record.end && s.checkpoint.published.None?
  {
    var s1 := Step(c, Step(c, Step(c, start, Check(item)), Reserve), Send);
    assert s1.channel == [item] && s1.worker.Waiting?;
    var s2 := Step(c, Step(c, s1, Receive), Gather);
    assert s2.worker == Syncing([item], 0);
    var s3 := Step(c, Step(c, s2, SyncNext(true)), BeginCommit);
    assert s3.durableRecords == [item.record] && s3.worker == Storing([item]);
    var s4 := Step(c, s3, Store);
    assert s4.durableSamples == item.record.end;
    var rest := [Receive, Gather, SyncNext(true), BeginCommit, Store];
    ThreeSteps(c, start, Check(item), Reserve, Send, rest);
    ThreeSteps(c, s1, Receive, Gather, SyncNext(true), [BeginCommit, Store]);
    TwoSteps(c, Step(c, s2, SyncNext(true)), BeginCommit, Store);
    assert OneSegment(item) == [Check(item), Reserve, Send] + rest;
    assert rest == [Receive, Gather, SyncNext(true)] + [BeginCommit, Store];
  }

  /** So the installed clock is needed: without one, a single submitted segment already counts as durable although
      nothing is published, and no crash finds a checkpoint. */
  lemma {:induction false} DurableClaimNeedsTheClock(c: Codec, start: Chain, item: Item, image: Image)
    requires Good(c) && IsNew(start) && start.clock.None?
    requires Survives(Run(c, start, OneSegment(item)).checkpoint.disk, image)
    ensures var s := Run(c, start, OneSegment(item));
            s.durableSamples == item.record.end && s.checkpoint.published.None?
    ensures Recover(c, image.header, image.journal) == NoCheckpoint
  {
    OneSegmentRuns(c, start, item);
    NothingIsPublishedWithoutClock(c, start, OneSegment(item), image);
  }

  lemma {:induction false} RunStep(c: Codec, s: Chain, a: Action, rest: seq<Action>)
    ensures Run(c, s, [a] + rest) == Run(c, Step(c, s, a), rest)
  {
    assert ([a] + rest)[1..] == rest;
  }

  lemma {:induction false} ThreeSteps(c: Codec, s: Chain, a1: Action, a2: Action, a3: Action, rest: seq<Action>)
    ensures Run(c, s, [a1, a2, a3] + rest) == Run(c, Step(c, Step(c, Step(c, s, a1), a2), a3), rest)
  {
    assert [a1, a2, a3] + rest == [a1] + ([a2] + ([a3] + rest));
    RunStep(c, s, a1, [a2] + ([a3] + rest));
    RunStep(c, Step(c, s, a1), a2, [a3] + rest);
    RunStep(c, Step(c, Step(c, s, a1), a2), a3, rest);
  }

  lemma {:induction false} TwoSteps(c: Codec, s: Chain, a1: Action, a2: Action)
    ensures Run(c, s, [a1, a2]) == Step(c, Step(c, s, a1), a2)
  {
    assert [a1, a2] == [a1] + ([a2] + []);
    RunStep(c, s, a1, [a2] + []);
    RunStep(c, Step(c, s, a1), a2, []);
  }
}
