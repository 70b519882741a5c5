/** Whole recordings: however the PCM stream is split into `write_frames` calls, the sealed segments are its plain
    chunks. */
module SegmentRuns {
  import opened Prelude
  import opened Arithmetic
  import opened Wav
  import opened CheckpointFormat
  import opened Segments

  // Plain chunking

  /** A stream cut every `size` bytes. */
  function Chunks(stream: seq<Byte>, size: nat): seq<seq<Byte>>
    requires size > 0
    decreases |stream|
  {
    if |stream| == 0 then []
    else if |stream| <= size then [stream]
    else [stream[..size]] + Chunks(stream[size..], size)
  }

  lemma {:induction false} StepBack(i: nat, size: nat)
    requires i > 0
    ensures (i - 1) * size == i * size - size && i * size >= size
  {
  }

  lemma {:induction false} ChunkCount(stream: seq<Byte>, size: nat)
    requires size > 0
    ensures |stream| <= |Chunks(stream, size)| * size < |stream| + size
    decreases |stream|
  {
    if |stream| > size {
      ChunkCount(stream[size..], size);
      StepBack(|Chunks(stream, size)|, size);
    }
  }

  lemma {:induction false} ChunkAt(stream: seq<Byte>, size: nat, i: nat)
    requires size > 0 && i < |Chunks(stream, size)|
    ensures i * size <= Min((i + 1) * size, |stream|)
    ensures Chunks(stream, size)[i] == stream[i * size..Min((i + 1) * size, |stream|)]
    decreases |stream|
  {
    if |stream| > size && i > 0 {
      StepBack(i, size);
      StepBack(i + 1, size);
      ChunkAt(stream[size..], size, i - 1);
      var rest, low, end := stream[size..], i * size, Min((i + 1) * size, |stream|);
      assert rest[low - size..end - size] == stream[low..end];
    }
  }

  lemma {:induction false} CeilUnique(m: nat, k: nat, n: nat, size: nat)
    requires n <= m * size < n + size && n <= k * size < n + size
    ensures m == k
  {
    if m < k {
      MulGrows(size, m + 1, k);
    } else if k < m {
      MulGrows(size, k + 1, m);
    }
  }

  lemma {:induction false} MulAssoc(a: nat, b: nat, c: nat)
    ensures (a * b) * c == a * (b * c)
  {
  }

  lemma {:induction false} StartBytes(f: Layout, i: nat)
    ensures At(f, StartOf(f, i)) == i * At(f, f.segmentFrames)
  {
    MulAssoc(i, f.segmentFrames, f.frameBytes);
  }

  lemma {:induction false} AtMin(f: Layout, a: nat, b: nat)
    ensures At(f, Min(a, b)) == Min(At(f, a), At(f, b))
  {
    if a <= b {
      MulGrows(f.frameBytes, a, b);
    } else {
      MulGrows(f.frameBytes, b, a);
    }
  }

  /** The file of a chunk: a header for its length, then its bytes. */
  predicate FileOf(f: Layout, file: seq<Byte>, chunk: seq<Byte>) {
    f.header(|chunk|).Ok? && file == f.header(|chunk|).value + chunk
  }

  lemma {:induction false} CeilBytes(m: nat, s: nat, n: nat, b: nat)
    requires b > 0 && n <= m * s < n + s
    ensures n * b <= m * (s * b) < n * b + s * b
  {
    MulAssoc(m, s, b);
    var k := m * s;
    assert n * b <= k * b && (k + 1) * b <= (n + s) * b;
  }

  lemma {:induction false} TileCount(f: Layout, t: Track, stream: seq<Byte>, n: nat)
    requires LayoutOk(f) && Tiled(f, t, stream, n)
    ensures At(f, f.segmentFrames) > 0 && |t.files| == |Chunks(stream, At(f, f.segmentFrames))|
  {
    var size := At(f, f.segmentFrames);
    AtPositive(f, f.segmentFrames);
    ChunkCount(stream, size);
    CeilBytes(|t.files|, f.segmentFrames, n, f.frameBytes);
    CeilUnique(|t.files|, |Chunks(stream, size)|, |stream|, size);
  }

  lemma {:induction false} TileIsChunk(f: Layout, t: Track, stream: seq<Byte>, n: nat, i: nat)
    requires LayoutOk(f) && Tiled(f, t, stream, n) && i < |t.files|
    requires At(f, f.segmentFrames) > 0 && |t.files| == |Chunks(stream, At(f, f.segmentFrames))|
    ensures FileOf(f, t.files[i], Chunks(stream, At(f, f.segmentFrames))[i])
  {
    var size := At(f, f.segmentFrames);
    assert PieceAt(f, t, stream, n, i);
    ChunkAt(stream, size, i);
    StartBytes(f, i);
    StartBytes(f, i + 1);
    AtMin(f, StartOf(f, i + 1), n);
    PieceLength(f, StartOf(f, i), Min(StartOf(f, i + 1), n));
  }

  lemma {:induction false} PieceLength(f: Layout, low: nat, end: nat)
    requires low <= end
    ensures At(f, end - low) == At(f, end) - At(f, low)
  {
    AtPlus(f, low, end - low);
  }

  /** The files are the chunks of the stream, each under its header, in order. */
  ghost predicate AreChunks(f: Layout, files: seq<seq<Byte>>, stream: seq<Byte>) {
    At(f, f.segmentFrames) > 0
    && var chunks := Chunks(stream, At(f, f.segmentFrames));
       |files| == |chunks| && forall i :: 0 <= i < |chunks| ==> FileOf(f, files[i], chunks[i])
  }

  lemma {:induction false} TilesAreChunks(f: Layout, t: Track, stream: seq<Byte>, n: nat)
    requires LayoutOk(f) && Tiled(f, t, stream, n)
    ensures AreChunks(f, t.files, stream)
  {
    TileCount(f, t, stream, n);
    forall i | 0 <= i < |t.files| ensures FileOf(f, t.files[i], Chunks(stream, At(f, f.segmentFrames))[i]) {
      TileIsChunk(f, t, stream, n, i);
    }
  }

  // The WAV layout

  function WavLayout(format: Format): Layout {
    Layout(FrameBytes(format), format.segmentFrames, (n: nat) => WavHeader(format, n))
  }

  lemma {:induction false} WavLayoutOk(format: Format)
    requires FormatOk(format)
    ensures LayoutOk(WavLayout(format))
  {
    var f := WavLayout(format);
    forall n: nat | f.header(n).Ok? ensures |f.header(n).value| == HEADER_BYTES {
      HeaderReadsBack(format, n);
    }
  }

  /** A segment file reads back as a WAV file of exactly its chunk. */
  lemma {:induction false} SegmentFileReadsBack(format: Format, file: seq<Byte>, chunk: seq<Byte>)
    requires FileOf(WavLayout(format), file, chunk)
    ensures |file| == HEADER_BYTES + |chunk| && IsWavOf(format, file, |chunk|) && file[HEADER_BYTES..] == chunk
  {
    HeaderReadsBack(format, |chunk|);
    FileOfHeader(format, WavHeader(format, |chunk|).value, file, |chunk|);
  }

  // Recordings

  /** One buffer handed to `write_frames`, with how the disk will answer. */
  datatype Call = Call(data: seq<Byte>, frames: nat, io: nat -> Answer)

  predicate CallsOk(f: Layout, calls: seq<Call>) {
    forall i :: 0 <= i < |calls| ==> |calls[i].data| == calls[i].frames * f.frameBytes
  }

  function Offered(calls: seq<Call>): seq<Byte> {
    if |calls| == 0 then [] else Offered(calls[..|calls| - 1]) + calls[|calls| - 1].data
  }

  /** One call of `write_frames`. */
  function Written(f: Layout, t: Track, call: Call): Feeding
    requires LayoutOk(f) && Roomy(f, t) && |call.data| == call.frames * f.frameBytes
  {
    Fed(f, Feeding(t, call.data, call.frames, Frames(f, t), Ok(())), call.io, 0)
  }

  lemma {:induction false} WriteKeeps(f: Layout, t: Track, stream: seq<Byte>, call: Call)
    requires LayoutOk(f) && Laid(f, t, stream) && |call.data| == call.frames * f.frameBytes
    ensures Roomy(f, t)
    ensures var g := Written(f, t, call);
            if g.result.Ok? then Laid(f, g.track, stream + call.data) && g.total == Frames(f, g.track)
            else PrefixKept(f, g.track, stream + call.data)
  {
    var g := Feeding(t, call.data, call.frames, Frames(f, t), Ok(()));
    LaidIsRoomy(f, t, stream);
    assert (stream + call.data)[..|stream|] == stream && (stream + call.data)[|stream|..] == call.data;
    FedKeeps(f, g, call.io, 0, stream + call.data);
    assert (stream + call.data)[..|stream + call.data|] == stream + call.data;
  }

  /** The calls of the disk thread in order, until one fails. */
  ghost function Recorded(f: Layout, t: Track, calls: seq<Call>): (r: (Result<()>, Track))
    requires LayoutOk(f) && CallsOk(f, calls) && Laid(f, t, []) && Frames(f, t) == 0
    ensures if r.0.Ok? then Laid(f, r.1, Offered(calls)) else PrefixKept(f, r.1, Offered(calls))
    decreases |calls|
  {
    if |calls| == 0 then (Ok(()), t)
    else
      var last := calls[|calls| - 1];
      var (r, u) := Recorded(f, t, calls[..|calls| - 1]);
      if r.Err? then
        PrefixGrowsBy(f, u, Offered(calls[..|calls| - 1]), last.data);
        (r, u)
      else
        WriteKeeps(f, u, Offered(calls[..|calls| - 1]), last);
        var g := Written(f, u, last);
        (g.result, g.track)
  }

  /** What is kept of everything offered. */
  function KeptOf(f: Layout, t: Track, offered: seq<Byte>): seq<Byte> {
    if At(f, Frames(f, t)) <= |offered| then offered[..At(f, Frames(f, t))] else offered
  }

  lemma {:induction false} WriteKeepsStream(f: Layout, t: Track, stream: seq<Byte>, call: Call)
    requires LayoutOk(f) && Laid(f, t, stream) && |call.data| == call.frames * f.frameBytes
    ensures Roomy(f, t)
    ensures var g := Written(f, t, call);
            var kept := KeptOf(f, g.track, stream + call.data);
            if g.result.Ok? then kept == stream + call.data && Laid(f, g.track, kept) && g.total == Frames(f, g.track)
            else Kept(f, g.track, kept)
  {
    WriteKeeps(f, t, stream, call);
    var g, offered := Written(f, t, call), stream + call.data;
    if g.result.Ok? {
      assert offered[..|offered|] == offered;
    }
  }

  lemma {:induction false} PrefixGrowsBy(f: Layout, t: Track, offered: seq<Byte>, more: seq<Byte>)
    requires PrefixKept(f, t, offered)
    ensures PrefixKept(f, t, offered + more)
  {
    var k := At(f, Frames(f, t));
    assert (offered + more)[..k] == offered[..k];
  }

  /** No I/O action of any call fails. */
  ghost predicate CallsSound(calls: seq<Call>) {
    forall i, round: nat {:trigger calls[i].io(round)} :: 0 <= i < |calls| ==> Sound(calls[i].io(round))
  }

  lemma {:induction false} RecordedSucceeds(f: Layout, t: Track, calls: seq<Call>)
    requires LayoutOk(f) && HeadersExist(f) && CallsOk(f, calls) && Laid(f, t, []) && Frames(f, t) == 0
    requires CallsSound(calls)
    ensures Recorded(f, t, calls).0.Ok?
    decreases |calls|
  {
    if |calls| > 0 {
      var before, last := calls[..|calls| - 1], calls[|calls| - 1];
      forall i, round: nat | 0 <= i < |before| ensures Sound(before[i].io(round)) {
        assert Sound(calls[i].io(round));
      }
      RecordedSucceeds(f, t, before);
      var u := Recorded(f, t, before).1;
      WriteKeeps(f, u, Offered(before), last);
      forall round: nat ensures Sound(last.io(round)) {
        assert Sound(calls[|calls| - 1].io(round));
      }
      FedSucceeds(f, Feeding(u, last.data, last.frames, Frames(f, u), Ok(())), last.io, 0);
    }
  }

  /** A recording in which no I/O action fails succeeds, and one that succeeds seals exactly the chunks of what was
      offered; after an error, `finish` still seals the chunks of the prefix that was completed. */
  lemma {:induction false} RecordingSealsTheChunks(f: Layout, start: Track, calls: seq<Call>, io: Answer)
    requires LayoutOk(f) && CallsOk(f, calls) && Laid(f, start, []) && Frames(f, start) == 0
    ensures var (r, t) := Recorded(f, start, calls);
            var n := Frames(f, t);
            && (t.active.Some? ==> |t.active.value.file| >= HEADER_BYTES + At(f, t.active.value.frames))
            && At(f, n) <= |Offered(calls)|
            && (r.Ok? ==> At(f, n) == |Offered(calls)|)
            && var (s, u) := Finish(f, t, io);
               && (s.Ok? ==> Tiled(f, u, Offered(calls)[..At(f, n)], n)
                             && AreChunks(f, u.files, Offered(calls)[..At(f, n)]))
               && (HeadersExist(f) && CallsSound(calls) && Sound(io) ==>
                     r.Ok? && s.Ok? && AreChunks(f, u.files, Offered(calls)))
  {
    var (r, t) := Recorded(f, start, calls);
    var kept := Offered(calls)[..At(f, Frames(f, t))];
    if r.Ok? {
      assert kept == Offered(calls);
    }
    if t.active.Some? {
      ActiveBytes(f, t, kept);
    }
    if HeadersExist(f) && CallsSound(calls) && Sound(io) {
      RecordedSucceeds(f, start, calls);
      LaidIsRoomy(f, t, Offered(calls));
      FinishSucceeds(f, t, io);
    }
    FinishTiles(f, t, kept, io);
    if Finish(f, t, io).0.Ok? {
      TilesAreChunks(f, Finish(f, t, io).1, kept, Frames(f, t));
    }
  }

  // The WAV files of a recording

  function Bodies(files: seq<seq<Byte>>): seq<Byte> {
    if |files| == 0 then []
    else (if |files[0]| >= HEADER_BYTES then files[0][HEADER_BYTES..] else []) + Bodies(files[1..])
  }

  /** The bodies of the files, put together again, are the stream they were cut from. */
  lemma {:induction false} BodiesAreTheStream(f: Layout, files: seq<seq<Byte>>, stream: seq<Byte>)
    requires LayoutOk(f) && AreChunks(f, files, stream)
    ensures Bodies(files) == stream
    decreases |stream|
  {
    var size := At(f, f.segmentFrames);
    var chunks := Chunks(stream, size);
    if |stream| == 0 {
      assert |files| == 0;
    } else {
      assert FileOf(f, files[0], chunks[0]);
      assert files[0][HEADER_BYTES..] == chunks[0];
      if |stream| <= size {
        assert |files[1..]| == 0;
      } else {
        assert chunks[1..] == Chunks(stream[size..], size);
        forall i | 0 <= i < |files[1..]| ensures FileOf(f, files[1..][i], chunks[1..][i]) {
          assert FileOf(f, files[i + 1], chunks[i + 1]);
        }
        BodiesAreTheStream(f, files[1..], stream[size..]);
        assert stream == stream[..size] + stream[size..];
      }
    }
  }

  /** Each file is a WAV file as long as its header says. */
  predicate AreWavFiles(format: Format, files: seq<seq<Byte>>) {
    forall i :: 0 <= i < |files| ==> |files[i]| >= HEADER_BYTES && IsWavOf(format, files[i], |files[i]| - HEADER_BYTES)
  }

  lemma {:induction false} ChunksAreWavFiles(format: Format, files: seq<seq<Byte>>, stream: seq<Byte>)
    requires AreChunks(WavLayout(format), files, stream)
    ensures AreWavFiles(format, files)
  {
    var f := WavLayout(format);
    var chunks := Chunks(stream, At(f, f.segmentFrames));
    forall i | 0 <= i < |files|
      ensures |files[i]| >= HEADER_BYTES && IsWavOf(format, files[i], |files[i]| - HEADER_BYTES)
    {
      assert FileOf(f, files[i], chunks[i]);
      SegmentFileReadsBack(format, files[i], chunks[i]);
    }
  }

  lemma {:induction false} WavHeadersExist(format: Format)
    requires WavHeader(format, At(WavLayout(format), format.segmentFrames)).Ok?
    ensures HeadersExist(WavLayout(format))
  {
  }

  /** A recording in any admissible format leaves 16-bit PCM WAV files, each as long as its header says, whose bodies
      put together are everything that was offered, or after an error the completed frames of it. */
  lemma {:induction false} RecordingReadsBack(format: Format, calls: seq<Call>, io: Answer)
    requires FormatOk(format) && CallsOk(WavLayout(format), calls)
    ensures var f := WavLayout(format);
            && LayoutOk(f) && Laid(f, NewTrack(), []) && Frames(f, NewTrack()) == 0
            && var (r, t) := Recorded(f, NewTrack(), calls);
               && (t.active.Some? ==> |t.active.value.file| >= HEADER_BYTES + At(f, t.active.value.frames))
               && At(f, Frames(f, t)) <= |Offered(calls)|
               && var (s, u) := Finish(f, t, io);
                  s.Ok? ==> AreWavFiles(format, u.files)
                            && Bodies(u.files) == Offered(calls)[..At(f, Frames(f, t))]
                            && (r.Ok? ==> Bodies(u.files) == Offered(calls))
    ensures WavHeader(format, At(WavLayout(format), format.segmentFrames)).Ok? && CallsSound(calls) && Sound(io) ==>
              var (r, t) := Recorded(WavLayout(format), NewTrack(), calls);
              r.Ok? && Finish(WavLayout(format), t, io).0.Ok?
  {
    var f := WavLayout(format);
    WavLayoutOk(format);
    if WavHeader(format, At(f, format.segmentFrames)).Ok? {
      WavHeadersExist(format);
    }
    NewTrackIsLaid(f);
    RecordingSealsTheChunks(f, NewTrack(), calls, io);
    var (r, t) := Recorded(f, NewTrack(), calls);
    var kept := Offered(calls)[..At(f, Frames(f, t))];
    var (s, u) := Finish(f, t, io);
    if s.Ok? {
      ChunksAreWavFiles(format, u.files, kept);
      BodiesAreTheStream(f, u.files, kept);
    }
  }
}
