/** The writer that cuts the stream, as it updates its fields: `SegmentWriter` of `native/src/audio.rs`. */
module SegmentFiles {
  import opened Prelude
  import opened Arithmetic
  import opened Wav
  import opened CheckpointFormat
  import opened Segments
  import opened SegmentRuns

  class SegmentWriter {
    const layout: Layout
    var nextIndex: nat
    var active: Option<Active>
    var records: seq<Segment>
    var completed: Progress
    /** What `publish_snapshot` has last stored. */
    var published: Progress
    /** The sealed files on disk. */
    var files: seq<seq<Byte>>
    /** The PCM whose frames count. */
    ghost var stream: seq<Byte>

    ghost function View(): Track
      reads this
    {
      Track(nextIndex, active, records, files, completed)
    }

    ghost predicate Valid()
      reads this
    {
      LayoutOk(layout) && Kept(layout, View(), stream)
    }

    /** Nothing has failed yet. */
    ghost predicate Clean()
      reads this
    {
      LayoutOk(layout) && Laid(layout, View(), stream)
    }

    constructor (layout: Layout)
      requires LayoutOk(layout)
      ensures Clean() && this.layout == layout && stream == [] && View() == NewTrack()
    {
      this.layout := layout;
      nextIndex, active, records, files := 0, None, [], [];
      completed, published := Progress(0, 0, 0), Progress(0, 0, 0);
      stream := [];
      new;
      NewTrackIsLaid(layout);
    }

    method CurrentSnapshot() returns (p: Progress)
      ensures p == ProgressOf(layout, View())
      ensures active.None? || active.value.frames == 0 ==> p == completed
    {
      p := completed;
      if active.Some? && active.value.frames * layout.frameBytes > 0 {
        p := Progress(Max(p.samples, active.value.start + active.value.frames),
                      p.bytes + HEADER_BYTES + active.value.frames * layout.frameBytes, p.segments + 1);
      }
    }

    method Open(start: nat, io: Answer) returns (r: Result<()>)
      modifies this`active, this`nextIndex
      ensures (r, View()) == OpenSegment(layout, old(View()), start, io)
      ensures r.Ok? <==> io.create && layout.header(0).Ok? && io.head
      ensures if r.Ok? then active == Some(Active(old(nextIndex), start, 0, layout.header(0).value))
              else active == old(active) && nextIndex == old(nextIndex)
    {
      if !io.create {
        return Err(WriteFailed);
      }
      var header := layout.header(0);
      if header.Err? {
        return Err(header.code);
      }
      if !io.head {
        return Err(WriteFailed);
      }
      active := Some(Active(nextIndex, start, 0, header.value));
      nextIndex := nextIndex + 1;
      return Ok(());
    }

    /** `finish_active`: whatever happens, no segment is open afterwards. */
    method FinishSegment(io: Answer) returns (r: Result<()>)
      requires active.Some? && |active.value.file| >= HEADER_BYTES + active.value.frames * layout.frameBytes
      modifies this`active, this`files, this`completed, this`records, this`published
      ensures (r, View()) == FinishActive(layout, old(View()), io)
      ensures active.None?
      ensures var data := old(active).value.frames * layout.frameBytes;
              && (r.Ok? <==> data == 0 || (io.resize && layout.header(data).Ok? && io.rehead && io.submit))
              && (r.Err? || data == 0 ==> records == old(records) && files == old(files) && completed == old(completed))
      ensures r.Ok? && records != old(records) ==> published == completed
    {
      var segment := active.value;
      active := None;
      var dataBytes := segment.frames * layout.frameBytes;
      if dataBytes == 0 {
        return Ok(());
      }
      if !io.resize {
        return Err(WriteFailed);
      }
      var header := layout.header(dataBytes);
      if header.Err? {
        return Err(header.code);
      }
      if !io.rehead {
        return Err(WriteFailed);
      }
      var end := segment.start + segment.frames;
      if !io.submit {
        return Err(AudioFailed);
      }
      files := files + [Sealed(segment.file, header.value, dataBytes)];
      completed := Progress(Max(completed.samples, end), completed.bytes + HEADER_BYTES + dataBytes,
                            completed.segments + 1);
      records := records + [Segment(segment.index, segment.start, end)];
      published := CurrentSnapshot();
      return Ok(());
    }

    method Append(bytes: seq<Byte>, frames: nat, io: Answer) returns (r: Result<()>)
      requires active.Some?
      modifies this`active
      ensures (r, View()) == Put(old(View()), bytes, frames, io)
    {
      var a := active.value;
      if !io.write {
        active := Some(a.(file := a.file + (if io.part < |bytes| then bytes[..io.part] else bytes)));
        return Err(WriteFailed);
      }
      active := Some(a.(file := a.file + bytes, frames := a.frames + frames));
      return Ok(());
    }

    /** One pass of the loop of `write_frames` over what is left of the buffer. */
    method WriteRound(data: seq<Byte>, remaining: nat, total: nat, io: Answer) returns (r: Result<()>, taken: nat)
      requires LayoutOk(layout) && Roomy(layout, View()) && remaining > 0 && |data| == remaining * layout.frameBytes
      modifies this`active, this`nextIndex, this`files, this`completed, this`records, this`published
      ensures (r, View(), taken) == Round(layout, old(View()), data, remaining, total, io)
    {
      if active.None? {
        r := Open(total, io);
        if r.Err? {
          return r, 0;
        }
      }
      var selected := Min(remaining, layout.segmentFrames - active.value.frames);
      SplitBytes(selected, remaining, layout.frameBytes);
      SplitBytes(active.value.frames, active.value.frames + selected, layout.frameBytes);
      r := Append(data[..selected * layout.frameBytes], selected, io);
      if r.Err? {
        return r, 0;
      }
      if active.value.frames == layout.segmentFrames {
        r := FinishSegment(io);
      }
      return r, selected;
    }

    /** The loop of `write_frames`. */
    method Feed(data: seq<Byte>, frames: nat, totalBefore: nat, io: nat -> Answer) returns (r: Result<()>, total: nat)
      requires LayoutOk(layout) && Roomy(layout, View()) && |data| == frames * layout.frameBytes
      modifies this`active, this`nextIndex, this`files, this`completed, this`records, this`published
      ensures var g := Fed(layout, Feeding(old(View()), data, frames, totalBefore, Ok(())), io, 0);
              (View(), total, r) == (g.track, g.total, g.result)
    {
      total := totalBefore;
      var remaining, rest, round := frames, data, 0;
      ghost var goal := Fed(layout, Feeding(View(), data, frames, totalBefore, Ok(())), io, 0);
      while remaining > 0
        invariant Roomy(layout, View()) && |rest| == remaining * layout.frameBytes
        invariant goal == Fed(layout, Feeding(View(), rest, remaining, total, Ok(())), io, round)
      {
        ghost var g := Feeding(View(), rest, remaining, total, Ok(()));
        var taken;
        r, taken := WriteRound(rest, remaining, total, io(round));
        total := total + taken;
        rest := Rest(layout, rest, remaining, taken);
        remaining := remaining - taken;
        assert Pass(layout, g, io(round)) == Feeding(View(), rest, remaining, total, r);
        if r.Err? {
          return;
        }
        round := round + 1;
      }
      return Ok(()), total;
    }

    /** `write_frames`: without an error the whole buffer is appended to the stream and the progress published; after
        one, what is kept is a prefix of everything offered. A commit that failed before stops it at once. */
    method WriteFrames(data: seq<Byte>, frames: nat, totalBefore: nat, healthy: bool, io: nat -> Answer)
      returns (r: Result<()>, total: nat)
      requires Clean() && |data| == At(layout, frames) && totalBefore == Frames(layout, View())
      modifies this
      ensures r.Err? ==> Valid()
      ensures r.Ok? ==> Clean() && stream == old(stream) + data && total == Frames(layout, View())
      ensures r.Ok? ==> published == ProgressOf(layout, View())
      ensures r.Err? ==> stream <= old(stream) + data
      ensures !healthy ==> r.Err? && View() == old(View())
      ensures healthy && HeadersExist(layout) && (forall round {:trigger io(round)} :: Sound(io(round))) ==> r.Ok?
    {
      if !healthy {
        return Err(AudioFailed), totalBefore;
      }
      WriteKeepsStream(layout, View(), stream, Call(data, frames, io));
      if HeadersExist(layout) && (forall round {:trigger io(round)} :: Sound(io(round))) {
        FedSucceeds(layout, Feeding(View(), data, frames, totalBefore, Ok(())), io, 0);
      }
      r, total := Feed(data, frames, totalBefore, io);
      stream := KeptOf(layout, View(), stream + data);
      if r.Ok? {
        published := CurrentSnapshot();
      }
    }

    /** `finish`, up to the join of the commit worker: the files are the chunks of the stream, also when writing had
        failed before. */
    method FinishRecording(io: Answer) returns (r: Result<seq<Segment>>)
      requires Valid()
      modifies this`active, this`files, this`completed, this`records, this`published
      ensures r.Ok? ==> r.value == records && CutIntoChunks(layout, View(), stream)
      ensures HeadersExist(layout) && Sound(io) ==> r.Ok?
      ensures r.Err? ==> records == old(records) && files == old(files)
    {
      if active.Some? {
        ActiveBytes(layout, View(), stream);
      }
      FinishedChunks(layout, View(), stream, io);
      if HeadersExist(layout) && Sound(io) {
        FinishSucceeds(layout, View(), io);
      }
      if active.Some? {
        var finished := FinishSegment(io);
        if finished.Err? {
          return Err(finished.code);
        }
      }
      return Ok(records);
    }
  }

  lemma {:induction false} FramesOfBytes(f: Layout, frames: nat)
    requires LayoutOk(f)
    ensures At(f, frames) / f.frameBytes == frames
  {
    DivModUnique(At(f, frames), f.frameBytes, frames, 0);
  }

  /** Records and files are the stream cut every S frames. */
  ghost predicate CutIntoChunks(f: Layout, t: Track, stream: seq<Byte>) {
    LayoutOk(f) && Tiled(f, t, stream, |stream| / f.frameBytes) && AreChunks(f, t.files, stream)
  }

  lemma {:induction false} FinishedChunks(f: Layout, t: Track, stream: seq<Byte>, io: Answer)
    requires LayoutOk(f) && Kept(f, t, stream)
    requires t.active.Some? ==> |t.active.value.file| >= HEADER_BYTES + t.active.value.frames * f.frameBytes
    ensures Finish(f, t, io).0.Ok? ==> CutIntoChunks(f, Finish(f, t, io).1, stream)
  {
    var n := Frames(f, t);
    FramesOfBytes(f, n);
    FinishTiles(f, t, stream, io);
    var (r, u) := Finish(f, t, io);
    if r.Ok? {
      TilesAreChunks(f, u, stream, n);
    }
  }
}
