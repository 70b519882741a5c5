/** The audio recorder as one machine: the capture thread and the disk thread of `start_and_capture`, the segment
    writer that the disk thread drives, and the commit worker behind it, of `native/src/audio.rs`. They interleave at
    the atomic steps of their queues and counters. */
module AudioRecorder {
  import opened Prelude
  import opened Arithmetic
  import opened Wav
  import opened CheckpointFormat
  import opened Segments
  import BlockPool
  import DurabilityChain
  import DurabilityRuns

  /** The segment layout, and the bytes of a PCM frame. */
  datatype Encoding = Encoding(layout: Layout, pcm: int -> seq<Byte>)

  ghost predicate EncodingOk(e: Encoding) {
    LayoutOk(e.layout) && forall x {:trigger e.pcm(x)} :: |e.pcm(x)| == e.layout.frameBytes
  }

  /** The bytes of a stretch of frames. */
  function Bytes(e: Encoding, frames: seq<int>): seq<Byte> {
    if |frames| == 0 then [] else Bytes(e, frames[..|frames| - 1]) + e.pcm(frames[|frames| - 1])
  }

  /** Where the disk thread goes on behind a seal: the rest of its block, or the end. */
  datatype After = BackTo(rest: seq<Byte>, remaining: nat) | Over(failed: bool)

  /** The disk thread: between calls of `write_frames`, in its loop, inside `submit` with a sealed segment, having left
      the block loop, or past `finish_active` and about to join the worker. */
  datatype Writer =
    | Between
    | InLoop(rest: seq<Byte>, remaining: nat)
    | Sealing(item: DurabilityChain.Item, sealed: Track, next: After)
    | Leaving(failed: bool)
    | Closing(failed: bool)

  datatype Recorder = Recorder(pool: BlockPool.Pool, writer: Writer, track: Track, chain: DurabilityChain.Chain)

  datatype Action =
    | Capture(capture: BlockPool.Action)
    | Serve(block: BlockPool.Action)
    | BeginWrite
    | Fill(io: Answer)
    | EndWrite
    | Finish(io: Answer)
    | Submit(submit: DurabilityChain.Action)
    | Close(close: DurabilityChain.Action)
    | Work(work: DurabilityChain.Action)

  predicate IsNew(s: Recorder, all: multiset<nat>) {
    BlockPool.IsNew(s.pool, all) && s.writer.Between? && s.track == NewTrack() && DurabilityChain.IsNew(s.chain)
  }

  // Steps. An action that its thread cannot take now leaves the state as it is.

  function Step(c: Codec, e: Encoding, s: Recorder, a: Action): Recorder
    requires LayoutOk(e.layout)
  {
    match a
    case Capture(b) => if OfCapture(b) then s.(pool := BlockPool.Step(s.pool, b)) else s
    case Serve(b) => if s.writer.Between? && OfDisk(b) then Served(s, b) else s
    case BeginWrite => if s.writer.Between? && s.pool.disk.Writing? then Begun(e, s) else s
    case Fill(io) => if s.writer.InLoop? && s.writer.remaining > 0 then Filling(c, e, s, io) else s
    case EndWrite => if s.writer.InLoop? && s.writer.remaining == 0 then Ended(s) else s
    case Finish(io) => if s.writer.Leaving? then Finishing(c, e, s, io) else s
    case Submit(b) => if s.writer.Sealing? && OfSubmit(b) then Settled(s.(chain := Chained(c, s, b))) else s
    case Close(b) => if s.writer.Closing? && (b.CloseSender? || b.Join?) then s.(chain := Chained(c, s, b)) else s
    case Work(b) => if OfWorker(b) then s.(chain := Chained(c, s, b)) else s
  }

  function Chained(c: Codec, s: Recorder, b: DurabilityChain.Action): DurabilityChain.Chain {
    DurabilityChain.Step(c, s.chain, b)
  }

  predicate OfCapture(b: BlockPool.Action) {
    b.Read? || b.Fail? || b.Stop? || b.Count? || b.Send? || b.Refill?
  }

  predicate OfDisk(b: BlockPool.Action) { b.Receive? || b.Uncount? || b.Return? }

  predicate OfSubmit(b: DurabilityChain.Action) { b.Reserve? || b.Send? || b.RollBack? }

  predicate OfWorker(b: DurabilityChain.Action) {
    !b.Check? && !OfSubmit(b) && !b.CloseSender? && !b.Join?
  }

  /** The disk thread around `write_frames`; without a block or a sender it leaves its loop. */
  function Served(s: Recorder, b: BlockPool.Action): Recorder {
    var pool := BlockPool.Step(s.pool, b);
    s.(pool := pool, writer := if pool.disk.Finished? then Leaving(false) else Between)
  }

  /** `write_frames` up to its loop: a failed commit stops it at once. */
  function Begun(e: Encoding, s: Recorder): Recorder
    requires s.pool.disk.Writing?
  {
    var frames := s.pool.disk.block.frames;
    if DurabilityChain.HasError(s.chain) then Failed(s, 0)
    else s.(writer := InLoop(Bytes(e, frames), |frames|))
  }

  /** An error of `write_frames` ends the block loop, with part of the block counted. */
  function Failed(s: Recorder, part: nat): Recorder {
    s.(pool := BlockPool.Step(s.pool, BlockPool.Write(false, part)), writer := Leaving(true))
  }

  /** The frames of the block in work that are written. */
  function Done(s: Recorder, remaining: nat): nat {
    var frames := BlockPool.Unwritten(s.pool.disk);
    if remaining <= |frames| then |frames| - remaining else 0
  }

  /** One round of the loop of `write_frames`. */
  function Filling(c: Codec, e: Encoding, s: Recorder, io: Answer): Recorder
    requires LayoutOk(e.layout) && s.writer.InLoop? && s.writer.remaining > 0
  {
    var f, rest, remaining := e.layout, s.writer.rest, s.writer.remaining;
    if !Roomy(f, s.track) || |rest| != remaining * f.frameBytes then s
    else
      var (r, t, taken) := Filled(f, s.track, rest, remaining, s.pool.written + Done(s, remaining), io);
      var next := BackTo(Rest(f, rest, remaining, taken), remaining - taken);
      EndRound(c, e, s.(track := t), r, Done(s, remaining), next, io)
  }

  /** The rest of the round: an error ends the loop, and a full segment is sealed at once. */
  function EndRound(c: Codec, e: Encoding, s: Recorder, r: Result<()>, done: nat, next: After, io: Answer): Recorder
    requires r.Ok? ==> s.track.active.Some?
  {
    if r.Err? then Failed(s, done)
    else if s.track.active.value.frames == e.layout.segmentFrames then SealActive(c, e, s, io, next)
    else Resumed(s, next)
  }

  function Ended(s: Recorder): Recorder {
    s.(pool := BlockPool.Step(s.pool, BlockPool.Write(true, 0)), writer := Between)
  }

  /** `finish` of the writer, which also runs after a failure: what is open is sealed. */
  function Finishing(c: Codec, e: Encoding, s: Recorder, io: Answer): Recorder
    requires s.writer.Leaving?
  {
    if s.track.active.None? then s.(writer := Closing(s.writer.failed))
    else SealActive(c, e, s, io, Over(s.writer.failed))
  }

  /** `finish_active` up to the check in `submit`. */
  function SealActive(c: Codec, e: Encoding, s: Recorder, io: Answer, next: After): Recorder
    requires s.track.active.Some?
  {
    var a := s.track.active.value;
    if |a.file| < HEADER_BYTES + a.frames * e.layout.frameBytes then s
    else
      var (r, t) := FinishActive(e.layout, s.track, io.(submit := true));
      if r.Err? then Refused(s.(track := t), next)
      else if |t.records| == |s.track.records| || |t.files| == 0 then Resumed(s.(track := t), next)
      else
        var item := DurabilityChain.Item(t.records[|t.records| - 1], t.files[|t.files| - 1]);
        Settled(s.(track := s.track.(active := None), writer := Sealing(item, t, next),
                   chain := Chained(c, s, DurabilityChain.Check(item))))
  }

  /** The disk thread behind `submit`, once that has an answer: only a submitted segment is taken into the inventory. */
  function Settled(s: Recorder): Recorder
    requires s.writer.Sealing?
  {
    if !s.chain.submitter.Ready? then s
    else if s.chain.submitter.last.Ok? then Resumed(s.(track := s.writer.sealed), s.writer.next)
    else Refused(s, s.writer.next)
  }

  /** Where the disk thread is behind a successful seal. */
  function Onward(next: After): Writer {
    if next.BackTo? then InLoop(next.rest, next.remaining) else Closing(next.failed)
  }

  function Resumed(s: Recorder, next: After): Recorder { s.(writer := Onward(next)) }

  function Refused(s: Recorder, next: After): Recorder {
    if next.BackTo? then Failed(s, Done(s, next.remaining)) else s.(writer := Closing(true))
  }

  // Invariant

  /** The bytes of everything handed to the writer so far. */
  function Offered(e: Encoding, s: Recorder): seq<Byte> {
    Bytes(e, s.pool.stream + BlockPool.Unwritten(s.pool.disk))
  }

  /** What the writer has submitted is what the channel took, in the same order. */
  ghost predicate Linked(s: Recorder) {
    && DurabilityRuns.Submitted(s.chain, s.track)
    && match s.writer
       case Sealing(item, sealed, _) =>
         && s.chain.senderOpen && InSubmit(s.chain.submitter, item) && s.track.active.None?
         && sealed.records == s.track.records + [item.record] && sealed.files == s.track.files + [item.file]
       case Closing(_) => s.chain.submitter.Ready? || s.chain.submitter.Closing? || s.chain.submitter.Joined?
       case _ => s.chain.senderOpen && s.chain.submitter.Ready?
  }

  predicate InSubmit(w: DurabilityChain.Submitter, item: DurabilityChain.Item) {
    (w.Checked? || w.Reserved? || w.Refused?) && w.item == item
  }

  /** The submitted segments are the beginning of the stream, cut every S frames. */
  ghost predicate TiledSoFar(f: Layout, t: Track, stream: seq<Byte>) {
    var n := SampleCount(t.records);
    At(f, n) <= |stream| && Tiled(f, t, stream[..At(f, n)], n) && t.completed.samples == n
  }

  /** The loop of `write_frames` between two rounds. */
  ghost predicate AtRest(f: Layout, t: Track, offered: seq<Byte>, rest: seq<Byte>, remaining: nat) {
    && |rest| == At(f, remaining) && |rest| <= |offered| && rest == offered[|offered| - |rest|..]
    && Laid(f, t, offered[..|offered| - |rest|])
  }

  /** The disk thread has left its loop, without an error only because nothing more will come. */
  predicate LoopLeft(d: BlockPool.Disk, failed: bool) {
    if failed then d.Broken? || d.Finished? else d.Finished?
  }

  /** The last seal, if nothing failed, has taken in everything. */
  ghost predicate AllTaken(e: Encoding, s: Recorder, t: Track, failed: bool) {
    !failed ==> At(e.layout, SampleCount(t.records)) == |Offered(e, s)|
  }

  ghost predicate Placed(e: Encoding, s: Recorder) {
    var f, offered := e.layout, Offered(e, s);
    match s.writer
    case Between => !s.pool.disk.Broken? && !s.pool.disk.Finished? && Laid(f, s.track, Bytes(e, s.pool.stream))
    case InLoop(rest, remaining) =>
      && s.pool.disk.Writing? && remaining <= |s.pool.disk.block.frames|
      && AtRest(f, s.track, offered, rest, remaining)
    case Sealing(_, sealed, BackTo(rest, remaining)) =>
      && s.pool.disk.Writing? && remaining <= |s.pool.disk.block.frames|
      && AtRest(f, sealed, offered, rest, remaining) && PrefixKept(f, s.track, offered)
    case Sealing(_, sealed, Over(failed)) =>
      && LoopLeft(s.pool.disk, failed) && PrefixKept(f, s.track, offered)
      && TiledSoFar(f, sealed, offered) && AllTaken(e, s, sealed, failed)
    case Leaving(failed) =>
      && LoopLeft(s.pool.disk, failed) && PrefixKept(f, s.track, offered) && (!failed ==> Laid(f, s.track, offered))
    case Closing(failed) =>
      && (!failed ==> s.pool.disk.Finished?) && TiledSoFar(f, s.track, offered) && AllTaken(e, s, s.track, failed)
  }

  ghost predicate Inv(c: Codec, e: Encoding, all: multiset<nat>, s: Recorder) {
    BlockPool.Inv(s.pool, all) && DurabilityChain.Inv(c, s.chain) && Linked(s) && Placed(e, s)
  }

  // Bytes of frames

  lemma {:induction false} BytesLength(e: Encoding, frames: seq<int>)
    requires EncodingOk(e)
    ensures |Bytes(e, frames)| == At(e.layout, |frames|)
    decreases |frames|
  {
    if |frames| > 0 {
      var last := frames[|frames| - 1];
      BytesLength(e, frames[..|frames| - 1]);
      AtPlus(e.layout, |frames| - 1, 1);
      assert |e.pcm(last)| == At(e.layout, 1);
    }
  }

  lemma {:induction false} BytesAppend(e: Encoding, a: seq<int>, b: seq<int>)
    ensures Bytes(e, a + b) == Bytes(e, a) + Bytes(e, b)
    decreases |b|
  {
    if |b| == 0 {
      assert a + b == a;
    } else {
      BytesAppend(e, a, b[..|b| - 1]);
      assert (a + b)[..|a + b| - 1] == a + b[..|b| - 1];
    }
  }

  // What is submitted is tiled

  lemma {:induction false} TiledEnd(f: Layout, t: Track, stream: seq<Byte>, n: nat)
    requires Tiled(f, t, stream, n)
    ensures SampleCount(t.records) == n
  {
    var k := |t.records|;
    if k > 0 {
      assert PieceAt(f, t, stream, n, k - 1);
    }
  }

  lemma {:induction false} KeptTiles(f: Layout, t: Track, offered: seq<Byte>)
    requires LayoutOk(f) && PrefixKept(f, t, offered)
    ensures TiledSoFar(f, t, offered)
  {
    var n := StartOf(f, |t.records|);
    AtPlus(f, n, ActiveFrames(t));
    var kept, full := offered[..At(f, Frames(f, t))], offered[..At(f, n)];
    assert full == kept[..At(f, n)];
    SegmentsStay(f, t, t, kept, full);
    FullSegmentsTile(f, t, full);
    TiledEnd(f, t, full, n);
  }

  lemma {:induction false} TiledInMore(f: Layout, t: Track, stream: seq<Byte>, more: seq<Byte>)
    requires TiledSoFar(f, t, stream) && stream <= more
    ensures TiledSoFar(f, t, more)
  {
    var n := At(f, SampleCount(t.records));
    assert more[..n] == stream[..n];
  }

  lemma {:induction false} RestKept(f: Layout, t: Track, offered: seq<Byte>, rest: seq<Byte>, remaining: nat)
    requires LayoutOk(f) && AtRest(f, t, offered, rest, remaining)
    ensures PrefixKept(f, t, offered)
  {
    KeptIsPrefixKept(f, t, offered[..|offered| - |rest|], offered);
  }

  // Every step keeps the link to the commit worker

  lemma {:induction false} WorkKeepsSubmitter(c: Codec, s: DurabilityChain.Chain, b: DurabilityChain.Action)
    requires OfWorker(b)
    ensures var q := DurabilityChain.Step(c, s, b);
            q.submitter == s.submitter && q.sent == s.sent && q.senderOpen == s.senderOpen
  {
  }

  lemma {:induction false} SubmittedOne(s: DurabilityChain.Chain, t: Track, q: DurabilityChain.Chain, u: Track,
                                        item: DurabilityChain.Item)
    requires DurabilityRuns.Submitted(s, t) && q.sent == s.sent + [item]
    requires u.records == t.records + [item.record] && u.files == t.files + [item.file]
    ensures DurabilityRuns.Submitted(q, u)
  {
  }

  lemma {:induction false} SettledKeepsLink(c: Codec, s: Recorder, b: DurabilityChain.Action)
    requires Linked(s) && s.writer.Sealing? && OfSubmit(b)
    ensures Linked(Settled(s.(chain := Chained(c, s, b))))
  {
    var q := s.(chain := Chained(c, s, b));
    if q.chain.sent != s.chain.sent {
      SubmittedOne(s.chain, s.track, q.chain, s.writer.sealed, s.writer.item);
    }
  }

  /** A seal takes at most one segment more into the inventory. */
  lemma {:induction false} SealAddsOne(f: Layout, t: Track, io: Answer)
    requires t.active.Some? && |t.active.value.file| >= HEADER_BYTES + t.active.value.frames * f.frameBytes
    ensures var u := FinishActive(f, t, io).1;
            && u.active.None?
            && if |u.records| == |t.records| then u.records == t.records && u.files == t.files
               else |u.records| > 0 && |u.files| > 0
                    && u.records == t.records + [u.records[|u.records| - 1]]
                    && u.files == t.files + [u.files[|u.files| - 1]]
  {
  }

  lemma {:induction false} SealedKeepsLink(c: Codec, e: Encoding, s: Recorder, io: Answer, next: After)
    requires DurabilityRuns.Submitted(s.chain, s.track) && s.chain.senderOpen && s.chain.submitter.Ready?
    requires s.track.active.Some? && !s.writer.Sealing?
    ensures Linked(SealActive(c, e, s, io, next))
  {
    var a := s.track.active.value;
    if |a.file| >= HEADER_BYTES + a.frames * e.layout.frameBytes {
      SealAddsOne(e.layout, s.track, io.(submit := true));
    }
  }

  lemma {:induction false} RoundKeepsLink(c: Codec, e: Encoding, s: Recorder, r: Result<()>, done: nat, next: After,
                                          io: Answer)
    requires Linked(s) && s.writer.InLoop? && next.BackTo? && (r.Ok? ==> s.track.active.Some?)
    ensures Linked(EndRound(c, e, s, r, done, next, io))
  {
    if r.Ok? {
      SealedKeepsLink(c, e, s, io, next);
    }
  }

  lemma {:induction false} FillSealsNothing(f: Layout, t: Track, data: seq<Byte>, remaining: nat, total: nat,
                                            io: Answer)
    requires LayoutOk(f) && Roomy(f, t) && remaining > 0 && |data| == remaining * f.frameBytes
    ensures var u := Filled(f, t, data, remaining, total, io).1; u.records == t.records && u.files == t.files
  {
  }

  /** What a round comes to: an error or a written stretch, in front of the same inventory. */
  ghost predicate RoundOf(c: Codec, e: Encoding, s: Recorder, io: Answer, q: Recorder, r: Result<()>, t: Track,
                          taken: nat)
    requires s.writer.InLoop?
  {
    var rest, remaining := s.writer.rest, s.writer.remaining;
    && taken <= remaining && |rest| == remaining * e.layout.frameBytes
    && t.records == s.track.records && t.files == s.track.files && (r.Ok? ==> taken > 0 && t.active.Some?)
    && q == EndRound(c, e, s.(track := t), r, Done(s, remaining),
                  BackTo(Rest(e.layout, rest, remaining, taken), remaining - taken), io)
  }

  lemma {:induction false} FillingIsRound(c: Codec, e: Encoding, s: Recorder, io: Answer)
    returns (r: Result<()>, t: Track, taken: nat)
    requires LayoutOk(e.layout) && s.writer.InLoop? && s.writer.remaining > 0
    requires Roomy(e.layout, s.track) && |s.writer.rest| == s.writer.remaining * e.layout.frameBytes
    ensures (r, t, taken) == Filled(e.layout, s.track, s.writer.rest, s.writer.remaining,
                                    s.pool.written + Done(s, s.writer.remaining), io)
    ensures RoundOf(c, e, s, io, Filling(c, e, s, io), r, t, taken)
  {
    var filled := Filled(e.layout, s.track, s.writer.rest, s.writer.remaining,
                         s.pool.written + Done(s, s.writer.remaining), io);
    r, t, taken := filled.0, filled.1, filled.2;
    FillSealsNothing(e.layout, s.track, s.writer.rest, s.writer.remaining,
                     s.pool.written + Done(s, s.writer.remaining), io);
  }

  lemma {:induction false} RoundOfKeepsLink(c: Codec, e: Encoding, s: Recorder, io: Answer, q: Recorder,
                                            r: Result<()>, t: Track, taken: nat)
    requires Linked(s) && s.writer.InLoop? && RoundOf(c, e, s, io, q, r, t, taken)
    ensures Linked(q)
  {
    var rest, remaining := s.writer.rest, s.writer.remaining;
    RoundKeepsLink(c, e, s.(track := t), r, Done(s, remaining),
                   BackTo(Rest(e.layout, rest, remaining, taken), remaining - taken), io);
  }

  lemma {:induction false} FillingKeepsLink(c: Codec, e: Encoding, s: Recorder, io: Answer)
    requires LayoutOk(e.layout) && Linked(s) && s.writer.InLoop? && s.writer.remaining > 0
    ensures Linked(Filling(c, e, s, io))
  {
    var f, rest, remaining := e.layout, s.writer.rest, s.writer.remaining;
    if Roomy(f, s.track) && |rest| == remaining * f.frameBytes {
      var r, t, taken := FillingIsRound(c, e, s, io);
      RoundOfKeepsLink(c, e, s, io, Filling(c, e, s, io), r, t, taken);
    }
  }

  lemma {:induction false} StepKeepsLink(c: Codec, e: Encoding, s: Recorder, a: Action)
    requires LayoutOk(e.layout) && Linked(s)
    ensures Linked(Step(c, e, s, a))
  {
    match a
    case Fill(io) =>
      if s.writer.InLoop? && s.writer.remaining > 0 {
        FillingKeepsLink(c, e, s, io);
      }
    case Finish(io) =>
      if s.writer.Leaving? && s.track.active.Some? {
        SealedKeepsLink(c, e, s, io, Over(s.writer.failed));
      }
    case Submit(b) =>
      if s.writer.Sealing? && OfSubmit(b) {
        SettledKeepsLink(c, s, b);
      }
    case Work(b) =>
      if OfWorker(b) {
        WorkKeepsSubmitter(c, s.chain, b);
      }
    case _ =>
  }

  // Every step keeps the stream in place

  lemma {:induction false} SamePlace(e: Encoding, s: Recorder, q: Recorder)
    requires Placed(e, s) && q.writer == s.writer && q.track == s.track
    requires q.pool.stream == s.pool.stream && q.pool.disk == s.pool.disk
    ensures Placed(e, q)
  {
  }

  lemma {:induction false} CaptureKeepsDisk(p: BlockPool.Pool, b: BlockPool.Action)
    requires OfCapture(b)
    ensures BlockPool.Step(p, b).stream == p.stream && BlockPool.Step(p, b).disk == p.disk
  {
  }

  /** A failed write keeps what was offered. */
  lemma {:induction false} FailedOffers(e: Encoding, s: Recorder, part: nat)
    requires s.pool.disk.Writing?
    ensures Failed(s, part).pool.disk.Broken? && Offered(e, Failed(s, part)) == Offered(e, s)
  {
  }

  lemma {:induction false} NothingUnwritten(e: Encoding, s: Recorder)
    requires BlockPool.Unwritten(s.pool.disk) == []
    ensures Offered(e, s) == Bytes(e, s.pool.stream)
  {
    assert s.pool.stream + [] == s.pool.stream;
  }

  lemma {:induction false} LaidIsPrefixKept(f: Layout, t: Track, stream: seq<Byte>, offered: seq<Byte>)
    requires Laid(f, t, stream) && stream <= offered
    ensures PrefixKept(f, t, offered)
  {
    KeptIsPrefixKept(f, t, stream, offered);
  }

  lemma {:induction false} ServedKeepsPlace(e: Encoding, s: Recorder, b: BlockPool.Action)
    requires Placed(e, s) && s.writer.Between? && OfDisk(b)
    ensures Placed(e, Served(s, b))
  {
    var q := Served(s, b);
    assert q.pool.stream == s.pool.stream;
    if q.pool.disk.Finished? {
      NothingUnwritten(e, q);
      LaidIsPrefixKept(e.layout, q.track, Offered(e, q), Offered(e, q));
    }
  }

  lemma {:induction false} BegunKeepsPlace(e: Encoding, s: Recorder)
    requires EncodingOk(e) && Placed(e, s) && s.writer.Between? && s.pool.disk.Writing?
    ensures Placed(e, Begun(e, s))
  {
    var stream, frames := s.pool.stream, s.pool.disk.block.frames;
    BytesAppend(e, stream, frames);
    BytesLength(e, frames);
    if DurabilityChain.HasError(s.chain) {
      FailedOffers(e, s, 0);
      LaidIsPrefixKept(e.layout, s.track, Bytes(e, stream), Offered(e, s));
    } else {
      assert Offered(e, s)[..|Bytes(e, stream)|] == Bytes(e, stream);
      assert Offered(e, s)[|Bytes(e, stream)|..] == Bytes(e, frames);
    }
  }

  lemma {:induction false} EndedKeepsPlace(e: Encoding, s: Recorder)
    requires Placed(e, s) && s.writer.InLoop? && s.writer.remaining == 0
    ensures Placed(e, Ended(s))
  {
    assert |s.writer.rest| == 0;
    assert Offered(e, s)[..|Offered(e, s)|] == Offered(e, s);
  }

  /** Behind `submit`. */
  lemma {:induction false} SettledKeepsPlace(e: Encoding, s: Recorder)
    requires LayoutOk(e.layout) && Placed(e, s) && s.writer.Sealing?
    ensures Placed(e, Settled(s))
  {
    var next := s.writer.next;
    if next.BackTo? {
      FailedOffers(e, s, Done(s, next.remaining));
    } else {
      KeptTiles(e.layout, s.track, Offered(e, s));
    }
  }

  // A round of the loop

  /** What `write_frames` has counted is what it has laid out. */
  lemma {:induction false} TotalIsFrames(e: Encoding, s: Recorder)
    requires EncodingOk(e) && Placed(e, s) && s.writer.InLoop? && BlockPool.Conserved(s.pool)
    ensures s.pool.written + Done(s, s.writer.remaining) == Frames(e.layout, s.track)
  {
    var f, frames, remaining := e.layout, s.pool.stream + s.pool.disk.block.frames, s.writer.remaining;
    BytesLength(e, frames);
    AtInjective(f, |frames|, Frames(f, s.track), remaining);
  }

  /** The seal of a full segment drops it or lays it out. */
  lemma {:induction false} FullSeal(f: Layout, t: Track, offered: seq<Byte>, rest: seq<Byte>, remaining: nat,
                                    io: Answer)
    requires LayoutOk(f) && |rest| == At(f, remaining) && |rest| <= |offered|
    requires rest == offered[|offered| - |rest|..]
    requires Current(f, t, offered[..|offered| - |rest|]) && t.active.value.frames == f.segmentFrames
    ensures |t.active.value.file| >= HEADER_BYTES + At(f, f.segmentFrames)
    ensures PrefixKept(f, t.(active := None), offered)
    ensures var (r, u) := FinishActive(f, t, io);
            if r.Ok? then AtRest(f, u, offered, rest, remaining) else u == t.(active := None)
  {
    var stream := offered[..|offered| - |rest|];
    ActiveBytes(f, t, stream);
    FinishFullKeeps(f, t, stream, io);
    DropKeeps(f, t, stream);
    KeptIsPrefixKept(f, t.(active := None), stream[..At(f, StartOf(f, |t.records|))], offered);
  }

  lemma {:induction false} SealedKeepsPlace(c: Codec, e: Encoding, s: Recorder, io: Answer, next: After)
    requires LayoutOk(e.layout) && s.track.active.Some? && PrefixKept(e.layout, s.track.(active := None), Offered(e, s))
    requires |s.track.active.value.file| >= HEADER_BYTES + s.track.active.value.frames * e.layout.frameBytes
    requires var (r, u) := FinishActive(e.layout, s.track, io.(submit := true));
             if r.Ok? then Placed(e, s.(track := u, writer := Onward(next)))
             else u == s.track.(active := None)
    requires if next.BackTo? then s.pool.disk.Writing? && next.remaining <= |s.pool.disk.block.frames|
             else LoopLeft(s.pool.disk, next.failed)
    ensures Placed(e, SealActive(c, e, s, io, next))
  {
    var (r, u) := FinishActive(e.layout, s.track, io.(submit := true));
    if r.Err? {
      if next.BackTo? {
        FailedOffers(e, s, Done(s, next.remaining));
      } else {
        KeptTiles(e.layout, u, Offered(e, s));
      }
    } else if |u.records| != |s.track.records| && |u.files| > 0 {
      var item := DurabilityChain.Item(u.records[|u.records| - 1], u.files[|u.files| - 1]);
      SettledKeepsPlace(e, s.(track := s.track.(active := None), writer := Sealing(item, u, next),
                              chain := Chained(c, s, DurabilityChain.Check(item))));
    }
  }

  /** What a round has to show for itself to stay in place. */
  ghost predicate RoundPlaces(e: Encoding, s: Recorder, r: Result<()>, t: Track, taken: nat)
    requires s.writer.InLoop?
  {
    && |s.writer.rest| <= |Offered(e, s)| && At(e.layout, taken) <= |s.writer.rest|
    && var stream := Offered(e, s)[..|Offered(e, s)| - |s.writer.rest|];
       if r.Ok? then Current(e.layout, t, stream + s.writer.rest[..At(e.layout, taken)])
                     && 0 < t.active.value.frames <= e.layout.segmentFrames
       else Kept(e.layout, t, stream)
  }

  lemma {:induction false} RoundKeepsPlace(c: Codec, e: Encoding, s: Recorder, r: Result<()>, t: Track, taken: nat,
                                           io: Answer)
    requires LayoutOk(e.layout) && Placed(e, s) && s.writer.InLoop? && taken <= s.writer.remaining
    requires r.Ok? && RoundPlaces(e, s, r, t, taken)
    ensures |s.writer.rest| == s.writer.remaining * e.layout.frameBytes
    ensures var rest, remaining := s.writer.rest, s.writer.remaining;
            Placed(e, EndRound(c, e, s.(track := t), r, Done(s, remaining),
                            BackTo(Rest(e.layout, rest, remaining, taken), remaining - taken), io))
  {
    var f, rest, remaining, offered := e.layout, s.writer.rest, s.writer.remaining, Offered(e, s);
    var later, q := Rest(f, rest, remaining, taken), s.(track := t);
    Advance(f, offered, rest, remaining, taken);
    assert Offered(e, q) == offered;
    if t.active.value.frames == f.segmentFrames {
      FullSealKeepsPlace(c, e, q, io, BackTo(later, remaining - taken));
    } else {
      PartFilledKeepsPlace(e, q, BackTo(later, remaining - taken));
    }
  }

  lemma {:induction false} PartFilledKeepsPlace(e: Encoding, s: Recorder, next: After)
    requires s.pool.disk.Writing? && next.BackTo?
    requires next.remaining <= |s.pool.disk.block.frames| && |next.rest| == At(e.layout, next.remaining)
    requires |next.rest| <= |Offered(e, s)| && next.rest == Offered(e, s)[|Offered(e, s)| - |next.rest|..]
    requires Current(e.layout, s.track, Offered(e, s)[..|Offered(e, s)| - |next.rest|])
    requires 0 < s.track.active.value.frames < e.layout.segmentFrames
    ensures Placed(e, Resumed(s, next))
  {
  }

  lemma {:induction false} FullSealKeepsPlace(c: Codec, e: Encoding, s: Recorder, io: Answer, next: After)
    requires LayoutOk(e.layout) && s.pool.disk.Writing? && next.BackTo?
    requires next.remaining <= |s.pool.disk.block.frames| && |next.rest| == At(e.layout, next.remaining)
    requires |next.rest| <= |Offered(e, s)| && next.rest == Offered(e, s)[|Offered(e, s)| - |next.rest|..]
    requires Current(e.layout, s.track, Offered(e, s)[..|Offered(e, s)| - |next.rest|])
    requires s.track.active.value.frames == e.layout.segmentFrames
    ensures Placed(e, SealActive(c, e, s, io, next))
  {
    FullSeal(e.layout, s.track, Offered(e, s), next.rest, next.remaining, io.(submit := true));
    SealedKeepsPlace(c, e, s, io, next);
  }

  /** What is written moves from the rest of the block to the stream. */
  lemma {:induction false} Advance(f: Layout, offered: seq<Byte>, rest: seq<Byte>, remaining: nat, taken: nat)
    requires |rest| == At(f, remaining) && |rest| <= |offered| && rest == offered[|offered| - |rest|..]
    requires taken <= remaining && At(f, taken) <= |rest|
    ensures |rest| == remaining * f.frameBytes
    ensures var later := Rest(f, rest, remaining, taken);
            && |later| == At(f, remaining - taken) && |later| <= |offered| && later == offered[|offered| - |later|..]
            && offered[..|offered| - |later|] == offered[..|offered| - |rest|] + rest[..At(f, taken)]
  {
    var later := Rest(f, rest, remaining, taken);
    assert rest == rest[..At(f, taken)] + later;
    assert offered == offered[..|offered| - |rest|] + rest;
  }

  lemma {:induction false} RoundFailsInPlace(c: Codec, e: Encoding, s: Recorder, t: Track, r: Result<()>, done: nat,
                                             next: After, io: Answer)
    requires Placed(e, s) && s.writer.InLoop? && r.Err?
    requires Kept(e.layout, t, Offered(e, s)[..|Offered(e, s)| - |s.writer.rest|])
    ensures Placed(e, EndRound(c, e, s.(track := t), r, done, next, io))
  {
    FailedOffers(e, s.(track := t), done);
    KeptIsPrefixKept(e.layout, t, Offered(e, s)[..|Offered(e, s)| - |s.writer.rest|], Offered(e, s));
  }

  /** A round in place: what is written is laid out, and nothing of a failed write counts. */
  lemma {:induction false} FillInPlace(c: Codec, e: Encoding, s: Recorder, io: Answer)
    returns (r: Result<()>, t: Track, taken: nat)
    requires EncodingOk(e) && Placed(e, s) && s.writer.InLoop? && s.writer.remaining > 0
    requires BlockPool.Conserved(s.pool)
    ensures RoundOf(c, e, s, io, Filling(c, e, s, io), r, t, taken)
    ensures RoundPlaces(e, s, r, t, taken)
  {
    var stream := Offered(e, s)[..|Offered(e, s)| - |s.writer.rest|];
    LaidIsRoomy(e.layout, s.track, stream);
    TotalIsFrames(e, s);
    r, t, taken := FillingIsRound(c, e, s, io);
    FilledKeeps(e.layout, s.track, stream, s.writer.rest, s.writer.remaining, io);
  }

  lemma {:induction false} WrittenRoundKeepsPlace(c: Codec, e: Encoding, s: Recorder, io: Answer, q: Recorder,
                                                  r: Result<()>, t: Track, taken: nat)
    requires LayoutOk(e.layout) && Placed(e, s) && s.writer.InLoop? && RoundOf(c, e, s, io, q, r, t, taken)
    requires r.Ok? && RoundPlaces(e, s, r, t, taken)
    ensures Placed(e, q)
  {
    RoundKeepsPlace(c, e, s, r, t, taken, io);
  }

  lemma {:induction false} FailedRoundKeepsPlace(c: Codec, e: Encoding, s: Recorder, io: Answer, q: Recorder,
                                                 r: Result<()>, t: Track, taken: nat)
    requires LayoutOk(e.layout) && Placed(e, s) && s.writer.InLoop? && RoundOf(c, e, s, io, q, r, t, taken)
    requires r.Err? && RoundPlaces(e, s, r, t, taken)
    ensures Placed(e, q)
  {
    var rest, remaining := s.writer.rest, s.writer.remaining;
    RoundFailsInPlace(c, e, s, t, r, Done(s, remaining),
                      BackTo(Rest(e.layout, rest, remaining, taken), remaining - taken), io);
  }

  lemma {:induction false} FillingKeepsPlace(c: Codec, e: Encoding, s: Recorder, io: Answer)
    requires EncodingOk(e) && Placed(e, s) && s.writer.InLoop? && s.writer.remaining > 0
    requires BlockPool.Conserved(s.pool)
    ensures Placed(e, Filling(c, e, s, io))
  {
    var r, t, taken := FillInPlace(c, e, s, io);
    if r.Ok? {
      WrittenRoundKeepsPlace(c, e, s, io, Filling(c, e, s, io), r, t, taken);
    } else {
      FailedRoundKeepsPlace(c, e, s, io, Filling(c, e, s, io), r, t, taken);
    }
  }

  // The last seal

  lemma {:induction false} LastSeal(f: Layout, t: Track, offered: seq<Byte>, io: Answer)
    requires LayoutOk(f) && PrefixKept(f, t, offered) && t.active.Some?
    ensures |t.active.value.file| >= HEADER_BYTES + At(f, t.active.value.frames)
    ensures PrefixKept(f, t.(active := None), offered)
    ensures var (r, u) := FinishActive(f, t, io);
            if r.Ok? then TiledSoFar(f, u, offered) && SampleCount(u.records) == Frames(f, t)
            else u == t.(active := None)
  {
    var kept := offered[..At(f, Frames(f, t))];
    ActiveBytes(f, t, kept);
    DropKeeps(f, t, kept);
    KeptIsPrefixKept(f, t.(active := None), kept[..At(f, StartOf(f, |t.records|))], offered);
    FinishTiles(f, t, kept, io);
    var (r, u) := FinishActive(f, t, io);
    if r.Ok? {
      TiledEnd(f, u, kept, Frames(f, t));
      CompletedAll(f, t, kept, io);
    }
  }

  lemma {:induction false} CompletedAll(f: Layout, t: Track, kept: seq<Byte>, io: Answer)
    requires LayoutOk(f) && Kept(f, t, kept) && t.active.Some?
    requires |t.active.value.file| >= HEADER_BYTES + At(f, t.active.value.frames)
    requires FinishActive(f, t, io).0.Ok?
    ensures FinishActive(f, t, io).1.completed.samples == Frames(f, t)
  {
    if t.active.value.frames > 0 {
      AtPositive(f, t.active.value.frames);
    }
  }

  lemma {:induction false} FinishingKeepsPlace(c: Codec, e: Encoding, s: Recorder, io: Answer)
    requires LayoutOk(e.layout) && Placed(e, s) && s.writer.Leaving?
    ensures Placed(e, Finishing(c, e, s, io))
  {
    var f, offered, failed := e.layout, Offered(e, s), s.writer.failed;
    if s.track.active.None? {
      KeptTiles(f, s.track, offered);
      TiledEnd(f, s.track, offered[..At(f, SampleCount(s.track.records))], SampleCount(s.track.records));
      FramesWithoutActive(f, s.track, offered);
    } else {
      LastSeal(f, s.track, offered, io.(submit := true));
      SealedKeepsPlace(c, e, s, io, Over(failed));
    }
  }

  lemma {:induction false} FramesWithoutActive(f: Layout, t: Track, offered: seq<Byte>)
    requires LayoutOk(f) && PrefixKept(f, t, offered) && t.active.None?
    ensures SampleCount(t.records) == Frames(f, t)
  {
    var n := StartOf(f, |t.records|);
    FullSegmentsTile(f, t, offered[..At(f, n)]);
    TiledEnd(f, t, offered[..At(f, n)], n);
  }

  // Every step keeps the invariant

  lemma {:induction false} StepKeepsPlace(c: Codec, e: Encoding, s: Recorder, a: Action)
    requires EncodingOk(e) && Placed(e, s) && BlockPool.Conserved(s.pool)
    ensures Placed(e, Step(c, e, s, a))
  {
    match a
    case Capture(b) =>
      if OfCapture(b) {
        CaptureKeepsDisk(s.pool, b);
        SamePlace(e, s, Step(c, e, s, a));
      }
    case Serve(b) =>
      if s.writer.Between? && OfDisk(b) {
        ServedKeepsPlace(e, s, b);
      }
    case BeginWrite =>
      if s.writer.Between? && s.pool.disk.Writing? {
        BegunKeepsPlace(e, s);
      }
    case Fill(io) =>
      if s.writer.InLoop? && s.writer.remaining > 0 {
        FillingKeepsPlace(c, e, s, io);
      }
    case EndWrite =>
      if s.writer.InLoop? && s.writer.remaining == 0 {
        EndedKeepsPlace(e, s);
      }
    case Finish(io) =>
      if s.writer.Leaving? {
        FinishingKeepsPlace(c, e, s, io);
      }
    case Submit(b) =>
      if s.writer.Sealing? && OfSubmit(b) {
        SettledKeepsPlace(e, s.(chain := Chained(c, s, b)));
      }
    case Close(b) => SamePlace(e, s, s.(chain := Chained(c, s, b)));
    case Work(b) => SamePlace(e, s, s.(chain := Chained(c, s, b)));
  }

  /** One step of the recorder takes at most one step of the block pool and one of the commit worker. */
  ghost predicate Moves(c: Codec, s: Recorder, q: Recorder) {
    && (q.pool == s.pool || exists b {:trigger BlockPool.Step(s.pool, b)} :: q.pool == BlockPool.Step(s.pool, b))
    && (q.chain == s.chain
        || exists b {:trigger DurabilityChain.Step(c, s.chain, b)} :: q.chain == DurabilityChain.Step(c, s.chain, b))
  }

  lemma {:induction false} SettledMoves(c: Codec, s: Recorder, q: Recorder)
    requires q.writer.Sealing? && q.pool == s.pool && Moves(c, s, q)
    ensures Moves(c, s, Settled(q))
  {
  }

  lemma {:induction false} SealedMoves(c: Codec, e: Encoding, s: Recorder, io: Answer, next: After)
    requires s.track.active.Some?
    ensures Moves(c, s, SealActive(c, e, s, io, next))
  {
  }

  lemma {:induction false} RoundMoves(c: Codec, e: Encoding, s: Recorder, r: Result<()>, done: nat, next: After,
                                      io: Answer)
    requires r.Ok? ==> s.track.active.Some?
    ensures Moves(c, s, EndRound(c, e, s, r, done, next, io))
  {
    if r.Ok? {
      SealedMoves(c, e, s, io, next);
    }
  }

  lemma {:induction false} RoundOfMoves(c: Codec, e: Encoding, s: Recorder, io: Answer, q: Recorder, r: Result<()>,
                                        t: Track, taken: nat)
    requires s.writer.InLoop? && RoundOf(c, e, s, io, q, r, t, taken)
    ensures Moves(c, s, q)
  {
    var rest, remaining := s.writer.rest, s.writer.remaining;
    RoundMoves(c, e, s.(track := t), r, Done(s, remaining),
               BackTo(Rest(e.layout, rest, remaining, taken), remaining - taken), io);
  }

  lemma {:induction false} FillingMoves(c: Codec, e: Encoding, s: Recorder, io: Answer)
    requires LayoutOk(e.layout) && s.writer.InLoop? && s.writer.remaining > 0
    ensures Moves(c, s, Filling(c, e, s, io))
  {
    if Roomy(e.layout, s.track) && |s.writer.rest| == s.writer.remaining * e.layout.frameBytes {
      var r, t, taken := FillingIsRound(c, e, s, io);
      RoundOfMoves(c, e, s, io, Filling(c, e, s, io), r, t, taken);
    }
  }

  lemma {:induction false} StepMoves(c: Codec, e: Encoding, s: Recorder, a: Action)
    requires LayoutOk(e.layout)
    ensures Moves(c, s, Step(c, e, s, a))
  {
    match a
    case Fill(io) =>
      if s.writer.InLoop? && s.writer.remaining > 0 {
        FillingMoves(c, e, s, io);
      }
    case Finish(io) =>
      if s.writer.Leaving? && s.track.active.Some? {
        SealedMoves(c, e, s, io, Over(s.writer.failed));
      }
    case Submit(b) =>
      if s.writer.Sealing? && OfSubmit(b) {
        SettledMoves(c, s, s.(chain := Chained(c, s, b)));
      }
    case _ =>
  }

  lemma {:induction false} MovesKeepPool(c: Codec, all: multiset<nat>, s: Recorder, q: Recorder)
    requires Moves(c, s, q) && BlockPool.Inv(s.pool, all)
    ensures BlockPool.Inv(q.pool, all)
  {
    if q.pool != s.pool {
      var b :| q.pool == BlockPool.Step(s.pool, b);
      BlockPool.StepKeeps(s.pool, b, all);
    }
  }

  lemma {:induction false} MovesKeepChain(c: Codec, s: Recorder, q: Recorder)
    requires Moves(c, s, q) && DurabilityChain.Inv(c, s.chain)
    ensures DurabilityChain.Inv(c, q.chain)
  {
    if q.chain != s.chain {
      var b :| q.chain == DurabilityChain.Step(c, s.chain, b);
      DurabilityChain.StepKeeps(c, s.chain, b);
    }
  }

  /** Every step of every thread keeps the invariant. */
  lemma {:induction false} StepKeeps(c: Codec, e: Encoding, all: multiset<nat>, s: Recorder, a: Action)
    requires EncodingOk(e) && Inv(c, e, all, s)
    ensures Inv(c, e, all, Step(c, e, s, a))
  {
    StepMoves(c, e, s, a);
    MovesKeepPool(c, all, s, Step(c, e, s, a));
    MovesKeepChain(c, s, Step(c, e, s, a));
    StepKeepsLink(c, e, s, a);
    StepKeepsPlace(c, e, s, a);
  }

  lemma {:induction false} NewInv(c: Codec, e: Encoding, all: multiset<nat>, s: Recorder)
    requires EncodingOk(e) && IsNew(s, all)
    ensures Inv(c, e, all, s)
  {
    BlockPool.NewInv(s.pool, all);
    DurabilityChain.NewInv(c, s.chain);
    NewTrackIsLaid(e.layout);
    assert Bytes(e, s.pool.stream) == [];
  }

  /** Any interleaving of the threads. */
  function Run(c: Codec, e: Encoding, s: Recorder, actions: seq<Action>): Recorder
    requires LayoutOk(e.layout)
    decreases actions
  {
    if actions == [] then s else Run(c, e, Step(c, e, s, actions[0]), actions[1..])
  }

  lemma {:induction false} RunKeeps(c: Codec, e: Encoding, all: multiset<nat>, s: Recorder, actions: seq<Action>)
    requires EncodingOk(e) && Inv(c, e, all, s)
    ensures Inv(c, e, all, Run(c, e, s, actions))
    decreases actions
  {
    if actions != [] {
      StepKeeps(c, e, all, s, actions[0]);
      RunKeeps(c, e, all, Step(c, e, s, actions[0]), actions[1..]);
    }
  }
}
