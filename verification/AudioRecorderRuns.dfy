/** What every run of the audio recorder guarantees, from the frames read to the audio that a crash leaves. */
module AudioRecorderRuns {
  import opened Prelude
  import opened CheckpointFormat
  import opened Disk
  import opened Wav
  import opened Segments
  import opened AudioRecorder
  import BlockPool
  import Checkpoint
  import DurabilityChain
  import DurabilityRuns

  // What is submitted

  lemma {:induction false} Grouped(a: seq<int>, b: seq<int>, d: seq<int>)
    ensures a + b + d == a + (b + d)
  {
  }

  lemma {:induction false} OfferedIsRead(e: Encoding, s: Recorder)
    requires BlockPool.Conserved(s.pool)
    ensures Offered(e, s) <= Bytes(e, s.pool.read)
  {
    var offered := s.pool.stream + BlockPool.Unwritten(s.pool.disk);
    var later := BlockPool.Frames(s.pool.queue) + BlockPool.Unsent(s.pool.capture);
    Grouped(s.pool.stream + BlockPool.Unwritten(s.pool.disk), BlockPool.Frames(s.pool.queue),
            BlockPool.Unsent(s.pool.capture));
    BytesAppend(e, offered, later);
  }

  lemma {:induction false} PlacedTiles(e: Encoding, s: Recorder)
    requires EncodingOk(e) && Placed(e, s)
    ensures TiledSoFar(e.layout, s.track, Offered(e, s))
  {
    var f, offered := e.layout, Offered(e, s);
    match s.writer
    case Between =>
      BytesAppend(e, s.pool.stream, BlockPool.Unwritten(s.pool.disk));
      LaidIsPrefixKept(f, s.track, Bytes(e, s.pool.stream), offered);
      KeptTiles(f, s.track, offered);
    case InLoop(rest, remaining) =>
      RestKept(f, s.track, offered, rest, remaining);
      KeptTiles(f, s.track, offered);
    case Sealing(_, _, _) => KeptTiles(f, s.track, offered);
    case Leaving(_) => KeptTiles(f, s.track, offered);
    case Closing(_) =>
  }

  /** The segments that reached the commit worker, as the beginning of everything read: in order, cut every S frames,
      each file a header and its own stretch of the stream. */
  ghost predicate SentIsTheStream(e: Encoding, s: Recorder, n: nat) {
    && n == SampleCount(s.track.records) && n <= |s.pool.read|
    && At(e.layout, n) <= |Bytes(e, s.pool.read)|
    && Tiled(e.layout, s.track, Bytes(e, s.pool.read)[..At(e.layout, n)], n)
    && DurabilityRuns.Submitted(s.chain, s.track)
  }

  lemma {:induction false} InvSends(c: Codec, e: Encoding, all: multiset<nat>, s: Recorder)
    requires EncodingOk(e) && Inv(c, e, all, s)
    ensures SentIsTheStream(e, s, SampleCount(s.track.records))
    ensures s.track.completed.samples == SampleCount(s.track.records)
  {
    OfferedIsRead(e, s);
    PlacedTiles(e, s);
    TiledInMore(e.layout, s.track, Offered(e, s), Bytes(e, s.pool.read));
    BytesLength(e, s.pool.read);
    AtOrder(e.layout, SampleCount(s.track.records), |s.pool.read|);
  }

  lemma {:induction false} AtOrder(f: Layout, a: nat, b: nat)
    requires LayoutOk(f) && At(f, a) <= At(f, b)
    ensures a <= b
  {
    if b < a {
      var d: nat := a - b;
      AtPositive(f, d);
      AtPlus(f, b, d);
    }
  }

  /** At every moment of every run the segments sent are exactly those sealed, and they tile a prefix of what the
      capture thread has read. */
  lemma {:induction false} SegmentsSentAreTheStream(c: Codec, e: Encoding, all: multiset<nat>, start: Recorder,
                                                    actions: seq<Action>)
    requires EncodingOk(e) && IsNew(start, all)
    ensures var s := Run(c, e, start, actions); SentIsTheStream(e, s, SampleCount(s.track.records))
  {
    NewInv(c, e, all, start);
    RunKeeps(c, e, all, start, actions);
    InvSends(c, e, all, Run(c, e, start, actions));
  }

  lemma {:induction false} RoundOfAdvances(c: Codec, e: Encoding, s: Recorder, io: Answer, q: Recorder, r: Result<()>,
                                           t: Track, taken: nat)
    requires s.writer.InLoop? && RoundOf(c, e, s, io, q, r, t, taken)
    requires r.Ok? && t.active.value.frames == e.layout.segmentFrames ==>
               |t.active.value.file| >= HEADER_BYTES + t.active.value.frames * e.layout.frameBytes
    ensures q.writer.InLoop? ==> q.writer.remaining < s.writer.remaining
  {
  }

  lemma {:induction false} RoundAdvances(c: Codec, e: Encoding, s: Recorder, io: Answer)
    requires EncodingOk(e) && Placed(e, s) && BlockPool.Conserved(s.pool)
    requires s.writer.InLoop? && s.writer.remaining > 0
    ensures var q := Filling(c, e, s, io); q.writer.InLoop? ==> q.writer.remaining < s.writer.remaining
  {
    var r, t, taken := FillInPlace(c, e, s, io);
    if r.Ok? {
      var stream := Offered(e, s)[..|Offered(e, s)| - |s.writer.rest|] + s.writer.rest[..At(e.layout, taken)];
      ActiveBytes(e.layout, t, stream);
    }
    RoundOfAdvances(c, e, s, io, Filling(c, e, s, io), r, t, taken);
  }

  lemma {:induction false} FinishAdvances(c: Codec, e: Encoding, s: Recorder, io: Answer)
    requires LayoutOk(e.layout) && Placed(e, s) && s.writer.Leaving?
    ensures !Finishing(c, e, s, io).writer.Leaving?
  {
    if s.track.active.Some? {
      LastSeal(e.layout, s.track, Offered(e, s), io);
    }
  }

  predicate Advances(s: Recorder, q: Recorder) {
    && (s.writer.InLoop? && s.writer.remaining > 0 && q.writer.InLoop? ==> q.writer.remaining < s.writer.remaining)
    && (s.writer.Leaving? ==> !q.writer.Leaving?)
  }

  lemma {:induction false} AdvancesFrom(c: Codec, e: Encoding, s: Recorder, io: Answer)
    requires EncodingOk(e) && Placed(e, s) && BlockPool.Conserved(s.pool)
    ensures s.writer.InLoop? ==> Advances(s, Step(c, e, s, Fill(io)))
    ensures s.writer.Leaving? ==> Advances(s, Step(c, e, s, Finish(io)))
  {
    if s.writer.InLoop? && s.writer.remaining > 0 {
      RoundAdvances(c, e, s, io);
    } else if s.writer.Leaving? {
      FinishAdvances(c, e, s, io);
    }
  }

  /** The disk thread never stands still inside `write_frames` or in front of its last seal: a round writes frames, or
      leaves the loop for the submission of a full segment or for an error. */
  lemma {:induction false} DiskThreadAdvances(c: Codec, e: Encoding, all: multiset<nat>, start: Recorder,
                                              actions: seq<Action>, io: Answer)
    requires EncodingOk(e) && IsNew(start, all)
    ensures var s := Run(c, e, start, actions);
            && (s.writer.InLoop? ==> Advances(s, Step(c, e, s, Fill(io))))
            && (s.writer.Leaving? ==> Advances(s, Step(c, e, s, Finish(io))))
  {
    NewInv(c, e, all, start);
    RunKeeps(c, e, all, start, actions);
    AdvancesFrom(c, e, Run(c, e, start, actions), io);
  }

  // Crashes

  lemma {:induction false} RecoversMore(f: Layout, stream: seq<Byte>, more: seq<Byte>, n: nat, inventory: Inventory,
                                        found: nat -> Option<seq<Byte>>)
    requires DurabilityRuns.RecoversTheStream(f, stream, n, inventory, found) && stream <= more
    ensures DurabilityRuns.RecoversTheStream(f, more, n, inventory, found)
  {
    forall i: nat | i < |inventory.segments|
      ensures DurabilityRuns.InPlace(f, inventory.segments, n, i)
      ensures DurabilityRuns.HoldsItsSamples(f, more, inventory.segments[i], found(i))
    {
      assert found(i) == found(i);
      var low, high := At(f, inventory.segments[i].start), At(f, inventory.segments[i].end);
      assert more[low..high] == stream[low..high];
    }
  }

  lemma {:induction false} CrashFrom(c: Codec, e: Encoding, all: multiset<nat>, s: Recorder, image: Image,
                                     found: nat -> Option<seq<Byte>>)
    requires Good(c) && EncodingOk(e) && Inv(c, e, all, s)
    requires Survives(s.chain.checkpoint.disk, image) && DurabilityRuns.FilesSurvive(s.chain, found)
    ensures var r, n := Recover(c, image.header, image.journal), SampleCount(s.track.records);
            && n <= |s.pool.read|
            && (|| (r.NoCheckpoint? && s.chain.checkpoint.published.None?)
                || (r.Recovered? && DurabilityRuns.RecoversTheStream(e.layout, Bytes(e, s.pool.read), n, r.inventory,
                                                                     found)))
  {
    var f, n, read := e.layout, SampleCount(s.track.records), Bytes(e, s.pool.read);
    InvSends(c, e, all, s);
    DurabilityRuns.InventorySurvives(c, s.chain, image, found);
    var r := Recover(c, image.header, image.journal);
    if r.Recovered? {
      DurabilityRuns.InventoryIsTheStream(s.chain, f, s.track, read[..At(f, n)], n, r.inventory, found);
      RecoversMore(f, read[..At(f, n)], read, n, r.inventory, found);
    }
  }

  /** End to end: whenever a crash falls, whatever has failed and whichever segment is open, the audio recovered is a
      gapless beginning of the captured stream, cut every S frames, or no checkpoint has been published. */
  lemma {:induction false} RecoveredAudioIsTheStream(c: Codec, e: Encoding, all: multiset<nat>, start: Recorder,
                                                     actions: seq<Action>, image: Image,
                                                     found: nat -> Option<seq<Byte>>)
    requires Good(c) && EncodingOk(e) && IsNew(start, all)
    requires var s := Run(c, e, start, actions);
             Survives(s.chain.checkpoint.disk, image) && DurabilityRuns.FilesSurvive(s.chain, found)
    ensures var s, r := Run(c, e, start, actions), Recover(c, image.header, image.journal);
            var n := SampleCount(s.track.records);
            && n <= |s.pool.read|
            && (|| (r.NoCheckpoint? && s.chain.checkpoint.published.None?)
                || (r.Recovered? && DurabilityRuns.RecoversTheStream(e.layout, Bytes(e, s.pool.read), n, r.inventory,
                                                                     found)))
  {
    NewInv(c, e, all, start);
    RunKeeps(c, e, all, start, actions);
    CrashFrom(c, e, all, Run(c, e, start, actions), image, found);
  }

  /** `durable_samples` never exceeds the samples of the published progress, and these never what was read. */
  lemma {:induction false} DurableWithinWritten(c: Codec, e: Encoding, all: multiset<nat>, start: Recorder,
                                                actions: seq<Action>)
    requires EncodingOk(e) && IsNew(start, all)
    ensures var s := Run(c, e, start, actions);
            s.chain.durableSamples <= s.track.completed.samples <= |s.pool.read|
  {
    NewInv(c, e, all, start);
    RunKeeps(c, e, all, start, actions);
    var s := Run(c, e, start, actions);
    var n := SampleCount(s.track.records);
    InvSends(c, e, all, s);
    DurabilityRuns.DurableEnd(s.chain, e.layout, s.track, Bytes(e, s.pool.read)[..At(e.layout, n)], n);
  }

  // A recording that ends well

  /** Everything `start_and_capture` asks for before it returns a recording. */
  predicate EndedWell(s: Recorder) {
    && (s.pool.capture.Drained? || s.pool.capture.Stopped?)
    && s.writer == Closing(false) && s.chain.submitter == DurabilityChain.Joined(Ok(()))
  }

  lemma {:induction false} AllSealed(c: Codec, e: Encoding, all: multiset<nat>, s: Recorder)
    requires EncodingOk(e) && Inv(c, e, all, s) && EndedWell(s)
    ensures s.pool.stream == s.pool.read && SampleCount(s.track.records) == |s.pool.read|
  {
    NothingUnwritten(e, s);
    BytesLength(e, s.pool.stream);
    AtOrder(e.layout, SampleCount(s.track.records), |s.pool.stream|);
    AtOrder(e.layout, |s.pool.stream|, SampleCount(s.track.records));
  }

  lemma {:induction false} WellEndedIsPublished(c: Codec, s: DurabilityChain.Chain, image: Image)
    requires Good(c) && DurabilityChain.Inv(c, s) && s.submitter == DurabilityChain.Joined(Ok(()))
    requires s.clock.Some? && s.sent != [] && Survives(s.checkpoint.disk, image)
    ensures var r := Recover(c, image.header, image.journal);
            && r.Recovered? && r.inventory.segments == DurabilityChain.RecordsOf(s.sent)
            && r.inventory.sampleCount == SampleCount(r.inventory.segments)
  {
    DurabilityRuns.JoinedIsCommitted(s);
    Checkpoint.CrashFrom(c, s.checkpoint, image);
  }

  /** A recording that ended well is recovered whole: every frame read from the device, whenever the machine crashes
      afterwards. */
  lemma {:induction false} EndedRecordingSurvives(c: Codec, e: Encoding, all: multiset<nat>, start: Recorder,
                                                  actions: seq<Action>, image: Image,
                                                  found: nat -> Option<seq<Byte>>)
    requires Good(c) && EncodingOk(e) && IsNew(start, all)
    requires var s := Run(c, e, start, actions);
             && EndedWell(s) && s.chain.clock.Some? && s.pool.read != []
             && Survives(s.chain.checkpoint.disk, image) && DurabilityRuns.FilesSurvive(s.chain, found)
    ensures var s, r := Run(c, e, start, actions), Recover(c, image.header, image.journal);
            && r.Recovered? && r.inventory.sampleCount == |s.pool.read|
            && DurabilityRuns.RecoversTheStream(e.layout, Bytes(e, s.pool.read), |s.pool.read|, r.inventory, found)
  {
    NewInv(c, e, all, start);
    RunKeeps(c, e, all, start, actions);
    var s := Run(c, e, start, actions);
    EndedFrom(c, e, all, s, image, found);
  }

  lemma {:induction false} EndedFrom(c: Codec, e: Encoding, all: multiset<nat>, s: Recorder, image: Image,
                                     found: nat -> Option<seq<Byte>>)
    requires Good(c) && EncodingOk(e) && Inv(c, e, all, s)
    requires EndedWell(s) && s.chain.clock.Some? && s.pool.read != []
    requires Survives(s.chain.checkpoint.disk, image) && DurabilityRuns.FilesSurvive(s.chain, found)
    ensures var r := Recover(c, image.header, image.journal);
            && r.Recovered? && r.inventory.sampleCount == |s.pool.read|
            && DurabilityRuns.RecoversTheStream(e.layout, Bytes(e, s.pool.read), |s.pool.read|, r.inventory, found)
  {
    AllSealed(c, e, all, s);
    SentAll(s);
    WellEndedIsPublished(c, s.chain, image);
    CrashFrom(c, e, all, s, image, found);
  }

  lemma {:induction false} SentAll(s: Recorder)
    requires Linked(s) && s.pool.read != [] && SampleCount(s.track.records) == |s.pool.read|
    ensures s.chain.sent != []
    ensures SampleCount(DurabilityChain.RecordsOf(s.chain.sent)) == |s.pool.read|
  {
    var n := |s.chain.sent|;
    assert s.chain.sent[n - 1].record == s.track.records[n - 1];
  }
}
