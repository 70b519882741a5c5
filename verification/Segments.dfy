/** Cutting the PCM stream into WAV segments: `SegmentWriter` of `native/src/audio.rs`. */
module Segments {
  import opened Prelude
  import opened Arithmetic
  import opened Wav
  import opened CheckpointFormat

  /** The bytes of a frame, the frames of a segment, and the header that describes so many data bytes. */
  datatype Layout = Layout(frameBytes: nat, segmentFrames: nat, header: nat -> Result<seq<Byte>>)

  ghost predicate LayoutOk(f: Layout) {
    f.frameBytes > 0 && f.segmentFrames > 0 && HeadersFit(f)
  }

  ghost predicate HeadersFit(f: Layout) {
    forall n: nat {:trigger f.header(n)} :: f.header(n).Ok? ==> |f.header(n).value| == HEADER_BYTES
  }

  /** The open segment; `data_bytes` is `frames` times the frame size, and `file` is what is on disk. */
  datatype Active = Active(index: nat, start: nat, frames: nat, file: seq<Byte>)

  datatype Progress = Progress(samples: nat, bytes: nat, segments: nat)

  /** `records` and `files` are the segments handed to the commit worker. */
  datatype Track = Track(nextIndex: nat, active: Option<Active>, records: seq<Segment>, files: seq<seq<Byte>>,
                         completed: Progress)

  /** How the disk and the commit queue answer; a failing write leaves `part` of its bytes. */
  datatype Answer = Answer(create: bool, head: bool, write: bool, part: nat, resize: bool, rehead: bool, submit: bool)

  function NewTrack(): Track {
    Track(0, None, [], [], Progress(0, 0, 0))
  }

  // Operations

  function OpenSegment(f: Layout, t: Track, start: nat, io: Answer): (Result<()>, Track) {
    if !io.create then (Err(WriteFailed), t)
    else if f.header(0).Err? then (Err(f.header(0).code), t)
    else if !io.head then (Err(WriteFailed), t)
    else (Ok(()), t.(active := Some(Active(t.nextIndex, start, 0, f.header(0).value)), nextIndex := t.nextIndex + 1))
  }

  function Put(t: Track, bytes: seq<Byte>, frames: nat, io: Answer): (Result<()>, Track)
    requires t.active.Some?
  {
    var a := t.active.value;
    if io.write then (Ok(()), t.(active := Some(a.(frames := a.frames + frames, file := a.file + bytes))))
    else
      var part := if io.part < |bytes| then bytes[..io.part] else bytes;
      (Err(WriteFailed), t.(active := Some(a.(file := a.file + part))))
  }

  /** The file cut to the frames that count, under its final header. */
  function Sealed(file: seq<Byte>, header: seq<Byte>, dataBytes: nat): seq<Byte>
    requires |file| >= HEADER_BYTES + dataBytes
  {
    header + file[HEADER_BYTES..HEADER_BYTES + dataBytes]
  }

  function FinishActive(f: Layout, t: Track, io: Answer): (Result<()>, Track)
    requires t.active.Some? && |t.active.value.file| >= HEADER_BYTES + t.active.value.frames * f.frameBytes
  {
    var a, next := t.active.value, t.(active := None);
    var dataBytes := a.frames * f.frameBytes;
    if dataBytes == 0 then (Ok(()), next)
    else if !io.resize then (Err(WriteFailed), next)
    else if f.header(dataBytes).Err? then (Err(f.header(dataBytes).code), next)
    else if !io.rehead then (Err(WriteFailed), next)
    else if !io.submit then (Err(AudioFailed), next)
    else
      var end := a.start + a.frames;
      (Ok(()), next.(records := t.records + [Segment(a.index, a.start, end)],
                     files := t.files + [Sealed(a.file, f.header(dataBytes).value, dataBytes)],
                     completed := Progress(Max(t.completed.samples, end), t.completed.bytes + HEADER_BYTES + dataBytes,
                                           t.completed.segments + 1)))
  }

  // When an operation succeeds

  /** Disk and commit queue accept everything. */
  predicate Sound(io: Answer) {
    io.create && io.head && io.write && io.resize && io.rehead && io.submit
  }

  /** There is a header for every length up to that of a full segment. */
  ghost predicate HeadersExist(f: Layout) {
    forall n: nat {:trigger f.header(n)} :: n <= f.segmentFrames * f.frameBytes ==> f.header(n).Ok?
  }

  /** A seal with data to seal succeeds exactly when truncation, header and submission do, and then the segment is the
      one more in the inventory, its file cut to what counts; a seal that fails leaves the inventory as it was. Either
      way no segment is open any more. */
  lemma {:induction false} SealExactly(f: Layout, t: Track, io: Answer)
    requires t.active.Some? && |t.active.value.file| >= HEADER_BYTES + t.active.value.frames * f.frameBytes
    ensures var a, (r, u) := t.active.value, FinishActive(f, t, io);
            var data := a.frames * f.frameBytes;
            && (r.Ok? <==> data == 0 || (io.resize && f.header(data).Ok? && io.rehead && io.submit))
            && u.active.None? && u.nextIndex == t.nextIndex
            && if r.Ok? && data > 0 then
                 && u.records == t.records + [Segment(a.index, a.start, a.start + a.frames)]
                 && u.files == t.files + [f.header(data).value + a.file[HEADER_BYTES..HEADER_BYTES + data]]
               else u.records == t.records && u.files == t.files && u.completed == t.completed
  {
  }

  /** `snapshot`: the completed segments and what of the open one is written. */
  function ProgressOf(f: Layout, t: Track): Progress {
    if t.active.None? || t.active.value.frames * f.frameBytes == 0 then t.completed
    else
      var a, c := t.active.value, t.completed;
      Progress(Max(c.samples, a.start + a.frames), c.bytes + HEADER_BYTES + a.frames * f.frameBytes, c.segments + 1)
  }

  /** The open segment has room, and its file holds the frames it counts. */
  predicate Roomy(f: Layout, t: Track) {
    t.active.Some? ==>
      t.active.value.frames < f.segmentFrames
      && |t.active.value.file| >= HEADER_BYTES + t.active.value.frames * f.frameBytes
  }

  lemma {:induction false} SplitBytes(a: nat, b: nat, size: nat)
    requires a <= b
    ensures a * size <= b * size && (b - a) * size == b * size - a * size && (a + b) * size == a * size + b * size
  {
  }

  /** One round of the loop of `write_frames` up to the seal of a full segment: result, state and the frames it took. */
  function Filled(f: Layout, t: Track, data: seq<Byte>, remaining: nat, total: nat, io: Answer)
    : (r: (Result<()>, Track, nat))
    requires LayoutOk(f) && Roomy(f, t) && remaining > 0 && |data| == remaining * f.frameBytes
    ensures r.2 <= remaining && (r.0.Ok? ==> r.2 > 0 && r.1.active.Some? && r.1.active.value.frames <= f.segmentFrames)
    ensures r.1.active.Some? ==> |r.1.active.value.file| >= HEADER_BYTES + r.1.active.value.frames * f.frameBytes
    ensures r.0.Err? ==> r.2 == 0 && Roomy(f, r.1)
  {
    var (ready, t1) := if t.active.None? then OpenSegment(f, t, total, io) else (Ok(()), t);
    if ready.Err? then (ready, t1, 0)
    else
      var a := t1.active.value;
      var selected := Min(remaining, f.segmentFrames - a.frames);
      SplitBytes(selected, remaining, f.frameBytes);
      SplitBytes(a.frames, a.frames + selected, f.frameBytes);
      var (written, t2) := Put(t1, data[..selected * f.frameBytes], selected, io);
      (written, t2, if written.Ok? then selected else 0)
  }

  /** One round of the loop of `write_frames`. */
  function Round(f: Layout, t: Track, data: seq<Byte>, remaining: nat, total: nat, io: Answer)
    : (r: (Result<()>, Track, nat))
    requires LayoutOk(f) && Roomy(f, t) && remaining > 0 && |data| == remaining * f.frameBytes
    ensures Roomy(f, r.1)
    ensures r.2 <= remaining && (r.0.Ok? ==> r.2 > 0)
  {
    var (r, u, taken) := Filled(f, t, data, remaining, total, io);
    if r.Err? || u.active.value.frames < f.segmentFrames then (r, u, taken)
    else
      var (finished, v) := FinishActive(f, u, io);
      (finished, v, taken)
  }

  lemma {:induction false} FilledSucceeds(f: Layout, t: Track, data: seq<Byte>, remaining: nat, total: nat, io: Answer)
    requires LayoutOk(f) && HeadersExist(f) && Sound(io)
    requires Roomy(f, t) && remaining > 0 && |data| == remaining * f.frameBytes
    ensures Filled(f, t, data, remaining, total, io).0.Ok?
  {
    assert f.header(0).Ok?;
  }

  /** Without an I/O error a round succeeds. */
  lemma {:induction false} RoundSucceeds(f: Layout, t: Track, data: seq<Byte>, remaining: nat, total: nat, io: Answer)
    requires LayoutOk(f) && HeadersExist(f) && Sound(io)
    requires Roomy(f, t) && remaining > 0 && |data| == remaining * f.frameBytes
    ensures Round(f, t, data, remaining, total, io).0.Ok?
  {
    FilledSucceeds(f, t, data, remaining, total, io);
    var (r, u, taken) := Filled(f, t, data, remaining, total, io);
    if u.active.value.frames == f.segmentFrames {
      SealExactly(f, u, io);
    }
  }

  /** What is left of the buffer after some of its frames. */
  function Rest(f: Layout, data: seq<Byte>, frames: nat, taken: nat): (r: seq<Byte>)
    requires taken <= frames && |data| == frames * f.frameBytes
    ensures |r| == (frames - taken) * f.frameBytes
  {
    SplitBytes(taken, frames, f.frameBytes);
    data[taken * f.frameBytes..]
  }

  /** The loop of `write_frames` between two rounds: what is left of the buffer, and the first error. */
  datatype Feeding = Feeding(track: Track, rest: seq<Byte>, remaining: nat, total: nat, result: Result<()>)

  predicate Fits(f: Layout, g: Feeding) {
    Roomy(f, g.track) && |g.rest| == g.remaining * f.frameBytes
  }

  function Pass(f: Layout, g: Feeding, io: Answer): (next: Feeding)
    requires LayoutOk(f) && Fits(f, g) && g.remaining > 0
    ensures Fits(f, next) && (next.result.Ok? ==> next.remaining < g.remaining)
  {
    var (result, track, taken) := Round(f, g.track, g.rest, g.remaining, g.total, io);
    Feeding(track, Rest(f, g.rest, g.remaining, taken), g.remaining - taken, g.total + taken, result)
  }

  /** The loop of `write_frames`, with how each round will be answered. */
  function Fed(f: Layout, g: Feeding, io: nat -> Answer, round: nat): Feeding
    requires LayoutOk(f) && Fits(f, g)
    decreases g.result.Ok?, g.remaining
  {
    if g.result.Err? || g.remaining == 0 then g else Fed(f, Pass(f, g, io(round)), io, round + 1)
  }

  lemma {:induction false} FedSucceeds(f: Layout, g: Feeding, io: nat -> Answer, round: nat)
    requires LayoutOk(f) && HeadersExist(f) && Fits(f, g) && g.result.Ok?
    requires forall i: nat {:trigger io(i)} :: i >= round ==> Sound(io(i))
    ensures Fed(f, g, io, round).result.Ok?
    decreases g.remaining
  {
    if g.remaining > 0 {
      RoundSucceeds(f, g.track, g.rest, g.remaining, g.total, io(round));
      FedSucceeds(f, Pass(f, g, io(round)), io, round + 1);
    }
  }

  // Layout. `stream` is the PCM whose frames count, the concatenation of all buffers.

  /** The byte position of a frame. */
  function At(f: Layout, frame: nat): nat { frame * f.frameBytes }

  /** The first frame of segment i. */
  function StartOf(f: Layout, i: nat): nat { i * f.segmentFrames }

  /** Segment i is sealed, full, and holds its own stretch of the stream. */
  predicate SegmentAt(f: Layout, t: Track, stream: seq<Byte>, i: nat) {
    var low, high := StartOf(f, i), StartOf(f, i + 1);
    && i < |t.records| && i < |t.files| && low <= high && At(f, low) <= At(f, high) <= |stream|
    && t.records[i] == Segment(i, low, high)
    && f.header(At(f, f.segmentFrames)).Ok?
    && t.files[i] == f.header(At(f, f.segmentFrames)).value + stream[At(f, low)..At(f, high)]
  }

  ghost predicate SegmentsAt(f: Layout, t: Track, stream: seq<Byte>) {
    |t.files| == |t.records|
    && forall i: nat {:trigger SegmentAt(f, t, stream, i)} :: i < |t.records| ==> SegmentAt(f, t, stream, i)
  }

  function ActiveFrames(t: Track): nat { if t.active.Some? then t.active.value.frames else 0 }

  /** Frames sealed or in the open segment. */
  function Frames(f: Layout, t: Track): nat { StartOf(f, |t.records|) + ActiveFrames(t) }

  /** The open segment continues the sealed ones; its file may carry a torn write at the end. */
  predicate ActiveAt(f: Layout, a: Active, stream: seq<Byte>, n: nat) {
    && a.index == n && a.start == StartOf(f, n) && a.frames <= f.segmentFrames
    && f.header(0).Ok? && At(f, StartOf(f, n)) <= |stream|
    && f.header(0).value + stream[At(f, StartOf(f, n))..] <= a.file
  }

  /** What holds even after a failure. */
  ghost predicate Kept(f: Layout, t: Track, stream: seq<Byte>) {
    var n := |t.records|;
    && SegmentsAt(f, t, stream)
    && t.completed == Progress(StartOf(f, n), n * HEADER_BYTES + At(f, StartOf(f, n)), n)
    && |stream| == At(f, Frames(f, t))
    && (t.active.Some? ==> ActiveAt(f, t.active.value, stream, n))
  }

  /** What holds of an open segment while nothing has failed. */
  ghost predicate Current(f: Layout, t: Track, stream: seq<Byte>) {
    && Kept(f, t, stream) && t.active.Some? && t.nextIndex == |t.records| + 1
    && t.active.value.file == f.header(0).value + stream[At(f, StartOf(f, |t.records|))..]
  }

  /** What holds between calls while nothing has failed. */
  ghost predicate Laid(f: Layout, t: Track, stream: seq<Byte>) {
    if t.active.None? then Kept(f, t, stream) && t.nextIndex == |t.records|
    else Current(f, t, stream) && 0 < t.active.value.frames < f.segmentFrames
  }

  lemma {:induction false} StartStep(f: Layout, i: nat)
    ensures StartOf(f, i + 1) == StartOf(f, i) + f.segmentFrames
    ensures StartOf(f, i) <= StartOf(f, i + 1)
  {
  }

  lemma {:induction false} AtPlus(f: Layout, a: nat, b: nat)
    ensures At(f, a + b) == At(f, a) + At(f, b)
  {
  }

  lemma {:induction false} StartMonotone(f: Layout, i: nat, j: nat)
    requires i <= j
    ensures StartOf(f, i) <= StartOf(f, j) && At(f, StartOf(f, i)) <= At(f, StartOf(f, j))
  {
    MulGrows(f.segmentFrames, i, j);
    MulGrows(f.frameBytes, StartOf(f, i), StartOf(f, j));
  }

  /** The bytes of the open segment are its frames. */
  lemma {:induction false} ActiveBytes(f: Layout, t: Track, stream: seq<Byte>)
    requires HeadersFit(f) && Kept(f, t, stream) && t.active.Some?
    ensures |stream| - At(f, StartOf(f, |t.records|)) == At(f, t.active.value.frames)
    ensures |t.active.value.file| >= HEADER_BYTES + At(f, t.active.value.frames)
  {
    AtPlus(f, StartOf(f, |t.records|), t.active.value.frames);
  }

  lemma {:induction false} LaidIsRoomy(f: Layout, t: Track, stream: seq<Byte>)
    requires HeadersFit(f) && Laid(f, t, stream)
    ensures Roomy(f, t)
  {
    if t.active.Some? {
      ActiveBytes(f, t, stream);
    }
  }

  /** Sealed segments do not depend on what follows them in the stream. */
  lemma {:induction false} SegmentStays(f: Layout, t: Track, u: Track, stream: seq<Byte>, other: seq<Byte>, i: nat)
    requires SegmentAt(f, t, stream, i)
    requires i < |u.records| && i < |u.files| && u.records[i] == t.records[i] && u.files[i] == t.files[i]
    requires At(f, StartOf(f, i + 1)) <= |other|
    requires other <= stream || stream <= other
    ensures SegmentAt(f, u, other, i)
  {
    var low, high := At(f, StartOf(f, i)), At(f, StartOf(f, i + 1));
    assert other[low..high] == stream[low..high];
  }

  lemma {:induction false} SegmentsStay(f: Layout, t: Track, u: Track, stream: seq<Byte>, other: seq<Byte>)
    requires SegmentsAt(f, t, stream) && u.records == t.records && u.files == t.files
    requires At(f, StartOf(f, |t.records|)) <= |other|
    requires other <= stream || stream <= other
    ensures SegmentsAt(f, u, other)
  {
    forall i: nat | i < |u.records| ensures SegmentAt(f, u, other, i) {
      assert SegmentAt(f, t, stream, i);
      StartMonotone(f, i + 1, |t.records|);
      SegmentStays(f, t, u, stream, other, i);
    }
  }

  /** A writer that has not written yet. */
  lemma {:induction false} NewTrackIsLaid(f: Layout)
    ensures Laid(f, NewTrack(), []) && Frames(f, NewTrack()) == 0
  {
    assert At(f, 0) == 0;
  }

  // Every operation keeps the layout

  lemma {:induction false} OpenKeeps(f: Layout, t: Track, stream: seq<Byte>, io: Answer)
    requires Laid(f, t, stream) && t.active.None?
    ensures var (r, u) := OpenSegment(f, t, StartOf(f, |t.records|), io);
            if r.Ok? then Current(f, u, stream) && u.active.value.frames == 0 else u == t
  {
    var (r, u) := OpenSegment(f, t, StartOf(f, |t.records|), io);
    if r.Ok? {
      SegmentsStay(f, t, u, stream, stream);
      assert stream[At(f, StartOf(f, |t.records|))..] == [];
    }
  }

  lemma {:induction false} PutKeeps(f: Layout, t: Track, stream: seq<Byte>, bytes: seq<Byte>, frames: nat, io: Answer)
    requires Current(f, t, stream) && |bytes| == At(f, frames)
    requires t.active.value.frames + frames <= f.segmentFrames
    ensures var (r, u) := Put(t, bytes, frames, io);
            if r.Ok? then Current(f, u, stream + bytes) && u.active.value.frames == t.active.value.frames + frames
            else Kept(f, u, stream)
  {
    var (r, u) := Put(t, bytes, frames, io);
    var from := At(f, StartOf(f, |t.records|));
    if r.Ok? {
      SegmentsStay(f, t, u, stream, stream + bytes);
      AtPlus(f, Frames(f, t), frames);
      assert Frames(f, u) == Frames(f, t) + frames;
      assert (stream + bytes)[from..] == stream[from..] + bytes;
    } else {
      SegmentsStay(f, t, u, stream, stream);
    }
  }

  /** The open segment, full, is cut and sealed as segment n. */
  lemma {:induction false} SealedIsNext(f: Layout, t: Track, stream: seq<Byte>, u: Track)
    requires HeadersFit(f) && Kept(f, t, stream) && t.active.Some? && t.active.value.frames == f.segmentFrames
    requires |t.active.value.file| >= HEADER_BYTES + At(f, f.segmentFrames)
    requires f.header(At(f, f.segmentFrames)).Ok?
    requires u.records == t.records + [Segment(|t.records|, StartOf(f, |t.records|), StartOf(f, |t.records| + 1))]
    requires u.files == t.files + [Sealed(t.active.value.file, f.header(At(f, f.segmentFrames)).value,
                                          At(f, f.segmentFrames))]
    ensures SegmentAt(f, u, stream, |t.records|)
  {
    var n, a := |t.records|, t.active.value;
    StartStep(f, n);
    AtPlus(f, StartOf(f, n), f.segmentFrames);
    SealedData(f, a.file, stream[At(f, StartOf(f, n))..], At(f, f.segmentFrames));
    assert stream[At(f, StartOf(f, n))..][..At(f, f.segmentFrames)]
        == stream[At(f, StartOf(f, n))..At(f, StartOf(f, n + 1))];
  }

  /** Cutting a file behind its header leaves the data that counts. */
  lemma {:induction false} SealedData(f: Layout, file: seq<Byte>, data: seq<Byte>, dataBytes: nat)
    requires HeadersFit(f) && f.header(0).Ok? && f.header(0).value + data <= file && dataBytes <= |data|
    ensures |file| >= HEADER_BYTES + dataBytes
    ensures file[HEADER_BYTES..HEADER_BYTES + dataBytes] == data[..dataBytes]
  {
    var all := f.header(0).value + data;
    assert all[HEADER_BYTES..HEADER_BYTES + dataBytes] == data[..dataBytes];
    assert file[..|all|] == all;
    assert file[HEADER_BYTES..HEADER_BYTES + dataBytes] == file[..|all|][HEADER_BYTES..HEADER_BYTES + dataBytes];
  }

  /** A refused or failed seal drops the open segment and keeps the sealed ones. */
  lemma {:induction false} DropKeeps(f: Layout, t: Track, stream: seq<Byte>)
    requires Kept(f, t, stream) && t.active.Some?
    ensures At(f, StartOf(f, |t.records|)) <= |stream|
    ensures Kept(f, t.(active := None), stream[..At(f, StartOf(f, |t.records|))])
  {
    SegmentsStay(f, t, t.(active := None), stream, stream[..At(f, StartOf(f, |t.records|))]);
  }

  lemma {:induction false} FinishFullKeeps(f: Layout, t: Track, stream: seq<Byte>, io: Answer)
    requires LayoutOk(f) && Current(f, t, stream) && t.active.value.frames == f.segmentFrames
    requires |t.active.value.file| >= HEADER_BYTES + At(f, f.segmentFrames)
    ensures var (r, u) := FinishActive(f, t, io);
            if r.Ok? then Laid(f, u, stream)
            else u == t.(active := None) && At(f, StartOf(f, |t.records|)) <= |stream|
                 && Kept(f, u, stream[..At(f, StartOf(f, |t.records|))])
  {
    var (r, u) := FinishActive(f, t, io);
    var n := |t.records|;
    assert At(f, f.segmentFrames) > 0;
    if r.Ok? {
      StartStep(f, n);
      AtPlus(f, StartOf(f, n), f.segmentFrames);
      SealedIsNext(f, t, stream, u);
      forall i: nat | i < |u.records| ensures SegmentAt(f, u, stream, i) {
        if i < n {
          assert SegmentAt(f, t, stream, i);
          SegmentStays(f, t, u, stream, stream, i);
        }
      }
      HeadersAdd(n);
    } else {
      DropKeeps(f, t, stream);
    }
  }

  lemma {:induction false} HeadersAdd(n: nat)
    ensures (n + 1) * HEADER_BYTES == n * HEADER_BYTES + HEADER_BYTES
  {
  }

  /** After a failure: what is kept is laid out over a prefix of everything that was offered. */
  ghost predicate PrefixKept(f: Layout, t: Track, offered: seq<Byte>) {
    At(f, Frames(f, t)) <= |offered| && Kept(f, t, offered[..At(f, Frames(f, t))])
  }

  lemma {:induction false} KeptIsPrefixKept(f: Layout, t: Track, stream: seq<Byte>, offered: seq<Byte>)
    requires Kept(f, t, stream) && stream <= offered
    ensures PrefixKept(f, t, offered)
  {
    assert offered[..|stream|] == stream;
  }

  /** What is written goes to the open segment; nothing of a failed write counts. */
  lemma {:induction false} FilledKeeps(f: Layout, t: Track, stream: seq<Byte>, data: seq<Byte>, remaining: nat,
                                       io: Answer)
    requires LayoutOk(f) && Laid(f, t, stream) && Roomy(f, t) && remaining > 0 && |data| == At(f, remaining)
    ensures var (r, u, taken) := Filled(f, t, data, remaining, Frames(f, t), io);
            && At(f, taken) <= |data|
            && (r.Ok? ==> Current(f, u, stream + data[..At(f, taken)]) && u.active.value.frames > 0)
            && (r.Err? ==> Kept(f, u, stream))
  {
    var (r, u, taken) := Filled(f, t, data, remaining, Frames(f, t), io);
    MulGrows(f.frameBytes, taken, remaining);
    var (ready, t1) := if t.active.None? then OpenSegment(f, t, Frames(f, t), io) else (Ok(()), t);
    if t.active.None? {
      OpenKeeps(f, t, stream, io);
    }
    if ready.Ok? {
      var selected := Min(remaining, f.segmentFrames - t1.active.value.frames);
      MulGrows(f.frameBytes, selected, remaining);
      PutKeeps(f, t1, stream, data[..At(f, selected)], selected, io);
    }
  }

  lemma {:induction false} RoundKeeps(f: Layout, t: Track, stream: seq<Byte>, data: seq<Byte>, remaining: nat,
                                      io: Answer)
    requires LayoutOk(f) && Laid(f, t, stream) && Roomy(f, t) && remaining > 0 && |data| == At(f, remaining)
    ensures var (r, u, taken) := Round(f, t, data, remaining, Frames(f, t), io);
            && At(f, taken) <= |data|
            && (r.Ok? ==> Laid(f, u, stream + data[..At(f, taken)]))
            && (r.Err? ==> PrefixKept(f, u, stream + data))
  {
    var (r, u, taken) := Filled(f, t, data, remaining, Frames(f, t), io);
    FilledKeeps(f, t, stream, data, remaining, io);
    var bytes := data[..At(f, taken)];
    if r.Err? {
      KeptIsPrefixKept(f, u, stream, stream + data);
    } else if u.active.value.frames == f.segmentFrames {
      FinishFullKeeps(f, u, stream + bytes, io);
      if FinishActive(f, u, io).0.Err? {
        KeptIsPrefixKept(f, u.(active := None), (stream + bytes)[..At(f, StartOf(f, |u.records|))], stream + data);
      }
    }
  }

  lemma {:induction false} RoundAdvances(f: Layout, t: Track, stream: seq<Byte>, data: seq<Byte>, remaining: nat,
                                         io: Answer)
    requires LayoutOk(f) && Laid(f, t, stream) && Roomy(f, t) && remaining > 0 && |data| == At(f, remaining)
    ensures var (r, u, taken) := Round(f, t, data, remaining, Frames(f, t), io);
            && At(f, taken) <= |data|
            && (r.Ok? ==> Laid(f, u, stream + data[..At(f, taken)]) && Frames(f, u) == Frames(f, t) + taken)
            && (r.Err? ==> PrefixKept(f, u, stream + data))
  {
    var (r, u, taken) := Round(f, t, data, remaining, Frames(f, t), io);
    RoundKeeps(f, t, stream, data, remaining, io);
    if r.Ok? {
      LaidAdvances(f, t, stream, u, data[..At(f, taken)], taken);
    }
  }

  /** The loop between two rounds: the stream is what was there before and what of the buffer is written; after an error
      what is kept is a prefix of everything offered. */
  ghost predicate FeedingKept(f: Layout, g: Feeding, offered: seq<Byte>) {
    if g.result.Err? then PrefixKept(f, g.track, offered)
    else
      && |g.rest| <= |offered| && g.rest == offered[|offered| - |g.rest|..]
      && Laid(f, g.track, offered[..|offered| - |g.rest|]) && g.total == Frames(f, g.track)
  }

  lemma {:induction false} PassKeeps(f: Layout, g: Feeding, io: Answer, offered: seq<Byte>)
    requires LayoutOk(f) && Fits(f, g) && g.remaining > 0 && g.result.Ok? && FeedingKept(f, g, offered)
    ensures FeedingKept(f, Pass(f, g, io), offered)
  {
    var done := offered[..|offered| - |g.rest|];
    var (r, u, taken) := Round(f, g.track, g.rest, g.remaining, g.total, io);
    RoundAdvances(f, g.track, done, g.rest, g.remaining, io);
    assert done + g.rest == offered;
    Joined(f, done, g.rest, taken);
    var rest := Rest(f, g.rest, g.remaining, taken);
    assert offered[..|offered| - |rest|] == done + g.rest[..At(f, taken)];
  }

  /** `write_frames` without an error appends its buffer to the stream; with one, it keeps a prefix of it. */
  lemma {:induction false} FedKeeps(f: Layout, g: Feeding, io: nat -> Answer, round: nat, offered: seq<Byte>)
    requires LayoutOk(f) && Fits(f, g) && FeedingKept(f, g, offered)
    ensures FeedingKept(f, Fed(f, g, io, round), offered)
    ensures Fed(f, g, io, round).result.Ok? ==> Fed(f, g, io, round).rest == []
    decreases g.result.Ok?, g.remaining
  {
    if g.result.Ok? && g.remaining > 0 {
      PassKeeps(f, g, io(round), offered);
      FedKeeps(f, Pass(f, g, io(round)), io, round + 1, offered);
    }
  }

  lemma {:induction false} LaidAdvances(f: Layout, t: Track, stream: seq<Byte>, u: Track, bytes: seq<Byte>, frames: nat)
    requires LayoutOk(f) && Laid(f, t, stream) && Laid(f, u, stream + bytes) && |bytes| == At(f, frames)
    ensures Frames(f, u) == Frames(f, t) + frames
  {
    AtInjective(f, Frames(f, u), Frames(f, t), frames);
  }

  lemma {:induction false} Joined(f: Layout, stream: seq<Byte>, data: seq<Byte>, taken: nat)
    requires At(f, taken) <= |data|
    ensures stream + data[..At(f, taken)] + data[At(f, taken)..] == stream + data
  {
  }

  lemma {:induction false} AtInjective(f: Layout, c: nat, a: nat, b: nat)
    requires LayoutOk(f) && At(f, c) == At(f, a) + At(f, b)
    ensures c == a + b
  {
    AtPlus(f, a, b);
    if c < a + b {
      MulGrows(f.frameBytes, c + 1, a + b);
    } else if c > a + b {
      MulGrows(f.frameBytes, a + b + 1, c);
    }
  }

  // Progress

  /** After every call without failure the published progress is that of N frames cut into segments of S: N samples,
      ceil(N / S) segments, and as many bytes as their headers and data take. */
  lemma {:induction false} ProgressIsExact(f: Layout, t: Track, stream: seq<Byte>)
    requires LayoutOk(f) && Laid(f, t, stream)
    ensures var n, segments := Frames(f, t), CeilDiv(Frames(f, t), f.segmentFrames);
            |stream| == At(f, n)
            && ProgressOf(f, t) == Progress(n, segments * HEADER_BYTES + At(f, n), segments)
  {
    var n := |t.records|;
    if t.active.Some? {
      var frames := t.active.value.frames;
      DivModUnique(Frames(f, t), f.segmentFrames, n, frames);
      AtPlus(f, StartOf(f, n), frames);
      AtPositive(f, frames);
      HeadersAdd(n);
    } else {
      DivModUnique(Frames(f, t), f.segmentFrames, n, 0);
    }
  }

  lemma {:induction false} AtPositive(f: Layout, frames: nat)
    requires LayoutOk(f) && frames > 0
    ensures At(f, frames) > 0
  {
  }

  // The end of a recording

  /** `finish`, before the commit worker is joined. */
  function Finish(f: Layout, t: Track, io: Answer): (Result<()>, Track)
    requires t.active.Some? ==> |t.active.value.file| >= HEADER_BYTES + t.active.value.frames * f.frameBytes
  {
    if t.active.Some? then FinishActive(f, t, io) else (Ok(()), t)
  }

  /** Segment i of a finished recording of n frames: its record names frames i*S up to the next multiple of S or the
      end, and its file is a header for exactly those bytes of the stream, followed by them. */
  predicate PieceAt(f: Layout, t: Track, stream: seq<Byte>, n: nat, i: nat) {
    var low, end := StartOf(f, i), Min(StartOf(f, i + 1), n);
    && i < |t.records| && i < |t.files| && low < end && At(f, low) <= At(f, end) <= |stream|
    && t.records[i] == Segment(i, low, end)
    && f.header(At(f, end - low)).Ok?
    && t.files[i] == f.header(At(f, end - low)).value + stream[At(f, low)..At(f, end)]
  }

  /** The segments are the stream of n frames cut every S frames: in order, gapless, full except the last. */
  ghost predicate Tiled(f: Layout, t: Track, stream: seq<Byte>, n: nat) {
    && |stream| == At(f, n) && |t.files| == |t.records|
    && n <= StartOf(f, |t.records|) < n + f.segmentFrames
    && forall i: nat {:trigger PieceAt(f, t, stream, n, i)} :: i < |t.records| ==> PieceAt(f, t, stream, n, i)
  }

  lemma {:induction false} SegmentIsPiece(f: Layout, t: Track, u: Track, stream: seq<Byte>, n: nat, i: nat)
    requires LayoutOk(f) && SegmentAt(f, t, stream, i) && StartOf(f, i + 1) <= n
    requires i < |u.records| && i < |u.files| && u.records[i] == t.records[i] && u.files[i] == t.files[i]
    ensures PieceAt(f, u, stream, n, i)
  {
    StartStep(f, i);
  }

  lemma {:induction false} FullSegmentsTile(f: Layout, t: Track, stream: seq<Byte>)
    requires LayoutOk(f) && SegmentsAt(f, t, stream) && |stream| == At(f, StartOf(f, |t.records|))
    ensures Tiled(f, t, stream, StartOf(f, |t.records|))
  {
    var n := StartOf(f, |t.records|);
    forall i: nat | i < |t.records| ensures PieceAt(f, t, stream, n, i) {
      assert SegmentAt(f, t, stream, i);
      StartMonotone(f, i + 1, |t.records|);
      SegmentIsPiece(f, t, t, stream, n, i);
    }
  }

  /** The open segment, cut to its frames, is the last piece. */
  lemma {:induction false} LastPiece(f: Layout, t: Track, stream: seq<Byte>, u: Track)
    requires LayoutOk(f) && Kept(f, t, stream) && t.active.Some? && t.active.value.frames > 0
    requires |t.active.value.file| >= HEADER_BYTES + At(f, t.active.value.frames)
    requires f.header(At(f, t.active.value.frames)).Ok?
    requires u.records == t.records + [Segment(|t.records|, StartOf(f, |t.records|), Frames(f, t))]
    requires u.files == t.files + [Sealed(t.active.value.file, f.header(At(f, t.active.value.frames)).value,
                                          At(f, t.active.value.frames))]
    ensures PieceAt(f, u, stream, Frames(f, t), |t.records|)
  {
    var n, a := |t.records|, t.active.value;
    StartStep(f, n);
    AtPlus(f, StartOf(f, n), a.frames);
    var rest := stream[At(f, StartOf(f, n))..];
    SealedData(f, a.file, rest, At(f, a.frames));
    assert rest[..At(f, a.frames)] == stream[At(f, StartOf(f, n))..At(f, Frames(f, t))];
  }

  lemma {:induction false} FinishSeals(f: Layout, t: Track, stream: seq<Byte>, u: Track)
    requires LayoutOk(f) && Kept(f, t, stream) && t.active.Some? && t.active.value.frames > 0
    requires |t.active.value.file| >= HEADER_BYTES + At(f, t.active.value.frames)
    requires f.header(At(f, t.active.value.frames)).Ok?
    requires u.records == t.records + [Segment(|t.records|, StartOf(f, |t.records|), Frames(f, t))]
    requires u.files == t.files + [Sealed(t.active.value.file, f.header(At(f, t.active.value.frames)).value,
                                          At(f, t.active.value.frames))]
    ensures Tiled(f, u, stream, Frames(f, t))
  {
    var n := |t.records|;
    LastPiece(f, t, stream, u);
    StartStep(f, n);
    forall i: nat | i < |u.records| ensures PieceAt(f, u, stream, Frames(f, t), i) {
      if i < n {
        assert SegmentAt(f, t, stream, i);
        StartMonotone(f, i + 1, n);
        SegmentIsPiece(f, t, u, stream, Frames(f, t), i);
      }
    }
  }

  /** `finish` seals exactly what is kept, torn tails cut off; if that fails, the segments sealed before stand. */
  lemma {:induction false} FinishTiles(f: Layout, t: Track, stream: seq<Byte>, io: Answer)
    requires LayoutOk(f) && Kept(f, t, stream)
    requires t.active.Some? ==> |t.active.value.file| >= HEADER_BYTES + At(f, t.active.value.frames)
    ensures var (r, u), full := Finish(f, t, io), StartOf(f, |t.records|);
            if r.Ok? then Tiled(f, u, stream, Frames(f, t))
            else At(f, full) <= |stream| && Tiled(f, u, stream[..At(f, full)], full)
  {
    var (r, u) := Finish(f, t, io);
    if t.active.None? {
      FullSegmentsTile(f, t, stream);
    } else {
      DropKeeps(f, t, stream);
      FullSegmentsTile(f, t.(active := None), stream[..At(f, StartOf(f, |t.records|))]);
      if t.active.value.frames > 0 {
        AtPositive(f, t.active.value.frames);
        if r.Ok? {
          FinishSeals(f, t, stream, u);
        }
      } else {
        assert stream[..At(f, StartOf(f, |t.records|))] == stream;
      }
    }
  }

  /** Without an I/O error the last seal succeeds too. */
  lemma {:induction false} FinishSucceeds(f: Layout, t: Track, io: Answer)
    requires LayoutOk(f) && HeadersExist(f) && Sound(io)
    requires t.active.Some? ==> t.active.value.frames <= f.segmentFrames
                                && |t.active.value.file| >= HEADER_BYTES + t.active.value.frames * f.frameBytes
    ensures Finish(f, t, io).0.Ok?
  {
    if t.active.Some? {
      SplitBytes(t.active.value.frames, f.segmentFrames, f.frameBytes);
      SealExactly(f, t, io);
    }
  }
}
