/** The two threads of `start_and_capture` in `native/src/audio.rs` as they update their queue, pool and counters. Every
    call is a run of the machine in `BlockPool`. */
module PcmThreads {
  import opened Prelude
  import opened BlockPool
  import opened Paths

  function StepOf(): (Pool, Action) -> Pool {
    (s: Pool, a: Action) => Step(s, a)
  }

  lemma {:induction false} FoldedIsRun(s: Pool, actions: seq<Action>)
    ensures Folded(StepOf(), s, actions) == Run(s, actions)
    decreases actions
  {
    if actions != [] {
      FoldedIsRun(Step(s, actions[0]), actions[1..]);
    }
  }

  /** A path of the two threads is a run of the pool machine, so what holds of all runs holds after every call. */
  lemma {:induction false} CallIsARun(s: Pool, q: Pool) returns (actions: seq<Action>)
    requires Leads(StepOf(), s, q)
    ensures Run(s, actions) == q
  {
    actions := LeadsIsARun(StepOf(), s, q);
    FoldedIsRun(s, actions);
  }

  /** The identities of the buffers. */
  function AllBuffers(): seq<nat> {
    seq(QUEUE_BLOCKS + 1, (i: nat) => i)
  }

  /** What one turn of the capture loop meets: whether the recorder is still healthy, what the device offers or that
      reading it failed, and whether the clock is anchored behind the read. */
  datatype Turn = Turn(healthy: bool, offered: Result<seq<int>>, anchored: bool)

  // What the capture loop does with what the device offers

  /** The frames of the first n turns: a turn takes no more than the block in work has room for. */
  function Taken(device: nat -> Turn, n: nat): seq<int> {
    if n == 0 then []
    else
      var before, offered := Taken(device, n - 1), device(n - 1).offered;
      var room := PERIOD_FRAMES - |before| % PERIOD_FRAMES;
      if offered.Err? then before else before + offered.value[..Min(|offered.value|, room)]
  }

  /** Nothing fails in the turn: the clock need be anchored only behind a read with frames in it. */
  predicate Sound(turn: Turn) {
    turn.healthy && turn.offered.Ok? && (turn.offered.value != [] ==> turn.anchored)
  }

  ghost predicate AllSound(device: nat -> Turn, n: nat) {
    forall i: nat {:trigger device(i)} :: i < n ==> Sound(device(i))
  }

  /** Block i behind those that were queued before carries the i-th piece of PERIOD_FRAMES frames in the i-th buffer,
      first the one in hand and then those of the pool. */
  predicate PieceAt(before: nat, queue: seq<Block>, buffers: seq<nat>, frames: seq<int>, i: nat) {
    && before + i < |queue| && i < |buffers| && i * PERIOD_FRAMES <= |frames|
    && queue[before + i]
       == Block(buffers[i], frames[i * PERIOD_FRAMES..Min((i + 1) * PERIOD_FRAMES, |frames|)])
  }

  /** n blocks more in the queue: the frames cut every PERIOD_FRAMES. */
  ghost predicate CutInto(before: seq<Block>, queue: seq<Block>, buffers: seq<nat>, frames: seq<int>, n: nat) {
    && |queue| == |before| + n && queue[..|before|] == before
    && forall i: nat {:trigger PieceAt(|before|, queue, buffers, frames, i)} :: i < n ==>
         PieceAt(|before|, queue, buffers, frames, i)
  }

  /** Every full block found room in the queue, and the pool had a buffer to replace it. */
  predicate FullBlocksFit(queue: nat, pool: nat, broken: bool, frames: nat) {
    var n := frames / PERIOD_FRAMES;
    n <= pool && (n > 0 ==> queue + n <= QUEUE_BLOCKS && !broken)
  }

  /** The queue has room for all blocks and the pool a buffer for each full one. */
  predicate RoomFor(queue: nat, pool: nat, broken: bool, frames: nat) {
    && frames / PERIOD_FRAMES <= pool
    && (frames > 0 ==> queue + Blocks(frames) <= QUEUE_BLOCKS && !broken)
  }

  /** The blocks for so many frames, the last one perhaps not full. */
  function Blocks(frames: nat): nat { (frames + PERIOD_FRAMES - 1) / PERIOD_FRAMES }

  /** What the capture thread has done with these frames: full blocks are queued, the rest is in the buffer in hand. */
  ghost predicate Captured(start: Pool, s: Pool, buffers: seq<nat>, frames: seq<int>, block: Block) {
    var n := |frames| / PERIOD_FRAMES;
    && n <= |start.pool| && |buffers| == |start.pool| + 1 && s.pool == start.pool[n..]
    && CutInto(start.queue, s.queue, buffers, frames, n)
    && s.queuedFrames == start.queuedFrames + n * PERIOD_FRAMES
    && s.read == start.read + frames && s.sampleCount == start.sampleCount + |frames|
    && block == Block(buffers[n], frames[n * PERIOD_FRAMES..])
    && (n > 0 ==> |s.queue| <= QUEUE_BLOCKS && !s.disk.Broken?)
  }

  lemma {:induction false} CutGrows(before: seq<Block>, queue: seq<Block>, buffers: seq<nat>, frames: seq<int>,
                                    more: seq<int>, n: nat)
    requires CutInto(before, queue, buffers, frames, n) && n * PERIOD_FRAMES <= |frames|
    ensures CutInto(before, queue, buffers, frames + more, n)
  {
    forall i: nat | i < n
      ensures PieceAt(|before|, queue, buffers, frames + more, i)
    {
      assert PieceAt(|before|, queue, buffers, frames, i);
      assert (frames + more)[i * PERIOD_FRAMES..(i + 1) * PERIOD_FRAMES]
          == frames[i * PERIOD_FRAMES..(i + 1) * PERIOD_FRAMES];
    }
  }

  lemma {:induction false} CutAdds(before: seq<Block>, queue: seq<Block>, buffers: seq<nat>, frames: seq<int>, n: nat,
                                   block: Block)
    requires CutInto(before, queue, buffers, frames, n) && PieceAt(|before|, queue + [block], buffers, frames, n)
    ensures CutInto(before, queue + [block], buffers, frames, n + 1)
  {
    var next := queue + [block];
    forall i: nat | i < n + 1
      ensures PieceAt(|before|, next, buffers, frames, i)
    {
      if i < n {
        assert PieceAt(|before|, queue, buffers, frames, i);
      }
    }
  }

  /** Frames that do not fill the buffer in hand. */
  lemma {:induction false} PartCaptured(start: Pool, s: Pool, buffers: seq<nat>, frames: seq<int>, block: Block,
                                        more: seq<int>, q: Pool, next: Block)
    requires Captured(start, s, buffers, frames, block) && |block.frames| + |more| < PERIOD_FRAMES
    requires q == s.(read := s.read + more, sampleCount := s.sampleCount + |more|, capture := q.capture)
    requires next == Block(block.buffer, block.frames + more)
    ensures Captured(start, q, buffers, frames + more, next)
  {
    var n := |frames| / PERIOD_FRAMES;
    CutGrows(start.queue, s.queue, buffers, frames, more, n);
    assert (frames + more)[n * PERIOD_FRAMES..] == frames[n * PERIOD_FRAMES..] + more;
  }

  /** Frames that fill it: it is queued, and the next buffer of the pool is in hand. */
  lemma {:induction false} BlockCaptured(start: Pool, s: Pool, buffers: seq<nat>, frames: seq<int>, block: Block,
                                         more: seq<int>, q: Pool, next: Block)
    requires Captured(start, s, buffers, frames, block) && |block.frames| + |more| == PERIOD_FRAMES
    requires buffers[1..] == start.pool && s.pool != []
    requires |s.queue| < QUEUE_BLOCKS && !s.disk.Broken?
    requires q == s.(read := s.read + more, sampleCount := s.sampleCount + |more|, capture := q.capture,
                     pool := s.pool[1..], queue := s.queue + [Block(block.buffer, block.frames + more)],
                     queuedFrames := s.queuedFrames + PERIOD_FRAMES)
    requires next == Block(s.pool[0], [])
    ensures Captured(start, q, buffers, frames + more, next)
  {
    var n, all := |frames| / PERIOD_FRAMES, frames + more;
    var filled := Block(block.buffer, block.frames + more);
    assert |all| == (n + 1) * PERIOD_FRAMES;
    CutGrows(start.queue, s.queue, buffers, frames, more, n);
    assert all[n * PERIOD_FRAMES..] == frames[n * PERIOD_FRAMES..] + more;
    assert PieceAt(|start.queue|, s.queue + [filled], buffers, all, n);
    CutAdds(start.queue, s.queue, buffers, all, n, filled);
    assert buffers[n + 1] == start.pool[n] && all[(n + 1) * PERIOD_FRAMES..] == [];
  }

  /** What a turn takes with this much in the buffer in hand. */
  function TakenIn(turn: Turn, filled: nat): seq<int> {
    if turn.offered.Err? || filled > PERIOD_FRAMES then []
    else turn.offered.value[..Min(|turn.offered.value|, PERIOD_FRAMES - filled)]
  }

  lemma {:induction false} TakenMore(device: nat -> Turn, i: nat)
    ensures Taken(device, i + 1)
         == Taken(device, i) + TakenIn(device(i), |Taken(device, i)| % PERIOD_FRAMES)
    ensures AllSound(device, i) && Sound(device(i)) ==> AllSound(device, i + 1)
  {
  }

  /** The turn fails, or fills a buffer that cannot be queued or replaced: then all turns together do not succeed. */
  lemma {:induction false} TurnFails(start: Pool, s: Pool, buffers: seq<nat>, device: nat -> Turn, i: nat, turns: nat,
                                     block: Block)
    requires Captured(start, s, buffers, Taken(device, i), block) && i < turns
    requires var more := |TakenIn(device(i), |block.frames|)|;
             !Sound(device(i)) || (|block.frames| + more == PERIOD_FRAMES
                                   && (|s.queue| >= QUEUE_BLOCKS || s.disk.Broken? || s.pool == []))
    ensures !(AllSound(device, turns)
              && FullBlocksFit(|start.queue|, |start.pool|, s.disk.Broken?, |Taken(device, turns)|))
  {
    if Sound(device(i)) {
      var n := |Taken(device, i)| / PERIOD_FRAMES;
      TakenMore(device, i);
      TakenGrows(device, i + 1, turns);
      assert |Taken(device, i + 1)| == (n + 1) * PERIOD_FRAMES;
      assert n + 1 <= |Taken(device, turns)| / PERIOD_FRAMES;
    }
  }

  lemma {:induction false} FullBlocksFitted(start: Pool, s: Pool, buffers: seq<nat>, frames: seq<int>, block: Block)
    requires Captured(start, s, buffers, frames, block)
    ensures FullBlocksFit(|start.queue|, |start.pool|, s.disk.Broken?, |frames|)
    ensures |block.frames| == |frames| % PERIOD_FRAMES
  {
  }

  /** The last block, which need not be full. */
  lemma {:induction false} TailCaptured(start: Pool, s: Pool, buffers: seq<nat>, frames: seq<int>, block: Block)
    requires Captured(start, s, buffers, frames, block)
    ensures block.frames != [] ==> Blocks(|frames|) == |frames| / PERIOD_FRAMES + 1
                                   && CutInto(start.queue, s.queue + [block], buffers, frames, Blocks(|frames|))
    ensures block.frames == [] ==> Blocks(|frames|) == |frames| / PERIOD_FRAMES
  {
    var n := |frames| / PERIOD_FRAMES;
    if block.frames != [] {
      assert PieceAt(|start.queue|, s.queue + [block], buffers, frames, n);
      CutAdds(start.queue, s.queue, buffers, frames, n, block);
    }
  }

  lemma {:induction false} TakenGrows(device: nat -> Turn, i: nat, n: nat)
    requires i <= n
    ensures |Taken(device, i)| <= |Taken(device, n)|
    decreases n
  {
    if i < n {
      TakenGrows(device, i, n - 1);
    }
  }

  class PcmPipeline {
    var pool: seq<nat>
    var queue: seq<Block>
    var queuedFrames: nat
    var sampleCount: nat
    var written: nat
    ghost var capture: Capture
    /** Where the disk thread stands; `Broken` also means that its end of the queue is gone. */
    var disk: Disk
    ghost var read: seq<int>
    ghost var stream: seq<int>

    ghost function View(): Pool
      reads this
    {
      Pool(pool, queue, capture, disk, queuedFrames, sampleCount, written, read, stream)
    }

    constructor ()
      ensures IsNew(View(), multiset(AllBuffers()))
    {
      var all := AllBuffers();
      assert all == [all[0]] + all[1..];
      pool, queue := all[1..], [];
      queuedFrames, sampleCount, written := 0, 0, 0;
      capture, disk, read, stream := Filling(Block(all[0], [])), Waiting, [], [];
    }

    /** A block is counted and handed to the disk thread; a full queue, or none to read it, ends the capture. */
    method Enqueue(block: Block, last: bool) returns (r: Result<()>)
      requires capture == Counting(block, last)
      modifies this`queue, this`queuedFrames, this`capture
      ensures Leads(StepOf(), old(View()), View())
      ensures r.Ok? <==> |old(queue)| < QUEUE_BLOCKS && !disk.Broken?
      ensures queue == (if r.Ok? then old(queue) + [block] else old(queue))
      ensures queuedFrames == old(queuedFrames) + |block.frames|
      ensures capture == if r.Err? then Refused(block) else if last then Drained else Refilling
    {
      ghost var start := View();
      Stay(StepOf(), start);
      StepOn(StepOf(), start, start, Count);
      queuedFrames := queuedFrames + |block.frames|;
      capture := Sending(block, last);
      StepOn(StepOf(), start, View(), Send);
      if |queue| >= QUEUE_BLOCKS || disk.Broken? {
        capture := Refused(block);
        return Err(AudioFailed);
      }
      queue := queue + [block];
      capture := if last then Drained else Refilling;
      return Ok(());
    }

    /** A buffer from the pool to fill next; an empty pool ends the capture. */
    method NextBuffer() returns (r: Result<Block>)
      requires capture.Refilling?
      modifies this`pool, this`capture
      ensures Leads(StepOf(), old(View()), View())
      ensures r.Ok? <==> old(pool) != []
      ensures capture == if r.Ok? then Filling(r.value) else Exhausted
      ensures r.Ok? ==> r.value == Block(old(pool)[0], []) && pool == old(pool)[1..]
    {
      Stay(StepOf(), View());
      StepOn(StepOf(), View(), View(), Refill);
      if pool == [] {
        capture := Exhausted;
        return Err(AudioFailed);
      }
      var block := Block(pool[0], []);
      pool := pool[1..];
      capture := Filling(block);
      return Ok(block);
    }

    /** The capture thread stops for an error of its own, with the buffer in hand. */
    method GiveUp(block: Block)
      requires capture == Filling(block) || capture == Counting(block, false)
      modifies this`capture
      ensures Leads(StepOf(), old(View()), View())
      ensures capture == Failed(block)
    {
      Stay(StepOf(), View());
      StepOn(StepOf(), View(), View(), Fail);
      capture := Failed(block);
    }

    /** A read with frames in it: they go to the buffer in hand, and once the clock is anchored a full buffer is
        exchanged for an empty one. */
    method TakeFrames(block: Block, frames: seq<int>, anchored: bool) returns (r: Result<Block>)
      requires capture == Filling(block) && frames != [] && |block.frames| + |frames| <= PERIOD_FRAMES
      modifies this`pool, this`queue, this`queuedFrames, this`sampleCount, this`capture, this`read
      ensures Leads(StepOf(), old(View()), View())
      ensures r.Ok? ==> capture == Filling(r.value) && |r.value.frames| < PERIOD_FRAMES
      ensures r.Err? ==> capture.Refused? || capture.Exhausted? || capture.Failed?
      ensures r.Err? && capture.Failed? <==> !anchored
      ensures read == old(read) + frames && sampleCount == old(sampleCount) + |frames|
      ensures var filled := Block(block.buffer, block.frames + frames);
              if |filled.frames| < PERIOD_FRAMES then
                && (r.Ok? <==> anchored) && (r.Ok? ==> r.value == filled)
                && queue == old(queue) && pool == old(pool) && queuedFrames == old(queuedFrames)
              else
                && (r.Ok? <==> anchored && |old(queue)| < QUEUE_BLOCKS && !disk.Broken? && old(pool) != [])
                && (r.Ok? ==> r.value == Block(old(pool)[0], []) && pool == old(pool)[1..]
                              && queue == old(queue) + [filled]
                              && queuedFrames == old(queuedFrames) + PERIOD_FRAMES)
    {
      ghost var start := View();
      Stay(StepOf(), start);
      StepOn(StepOf(), start, start, Read(frames));
      var filled := block.(frames := block.frames + frames);
      sampleCount := sampleCount + |frames|;
      read := read + frames;
      capture := if |filled.frames| == PERIOD_FRAMES then Counting(filled, false) else Filling(filled);
      ghost var taken := View();
      if !anchored {
        GiveUp(filled);
        Through(StepOf(), start, taken, View());
        return Err(AudioFailed);
      }
      if |filled.frames| < PERIOD_FRAMES {
        return Ok(filled);
      }
      var queued := Enqueue(filled, false);
      Through(StepOf(), start, taken, View());
      if queued.Err? {
        return Err(queued.code);
      }
      ghost var sent := View();
      r := NextBuffer();
      Through(StepOf(), start, sent, View());
    }

    /** One turn of the capture loop; `start` is where the loop began, and `frames` is what it has taken since. */
    method TakeTurn(block: Block, turn: Turn, ghost start: Pool, ghost buffers: seq<nat>, ghost frames: seq<int>)
      returns (r: Result<Block>, ghost more: seq<int>)
      requires capture == Filling(block) && |block.frames| < PERIOD_FRAMES
      requires Captured(start, View(), buffers, frames, block) && buffers[1..] == start.pool
      modifies this`pool, this`queue, this`queuedFrames, this`sampleCount, this`capture, this`read
      ensures Leads(StepOf(), old(View()), View())
      ensures more == TakenIn(turn, |block.frames|)
      ensures r.Ok? <==> Sound(turn) && (|block.frames| + |more| == PERIOD_FRAMES ==>
                                           |old(queue)| < QUEUE_BLOCKS && !disk.Broken? && old(pool) != [])
      ensures r.Ok? ==> capture == Filling(r.value) && |r.value.frames| < PERIOD_FRAMES
                        && Captured(start, View(), buffers, frames + more, r.value)
      ensures r.Err? ==> capture.Refused? || capture.Exhausted? || capture.Failed?
    {
      ghost var before := View();
      Stay(StepOf(), before);
      more := TakenIn(turn, |block.frames|);
      if !turn.healthy || turn.offered.Err? {
        GiveUp(block);
        return Err(AudioFailed), more;
      }
      var room := PERIOD_FRAMES - |block.frames|;
      var taken := if |turn.offered.value| <= room then turn.offered.value else turn.offered.value[..room];
      assert taken == more;
      if taken == [] {
        assert frames + more == frames;
        return Ok(block), more;
      }
      r := TakeFrames(block, taken, turn.anchored);
      if r.Ok? && |block.frames| + |taken| < PERIOD_FRAMES {
        PartCaptured(start, before, buffers, frames, block, taken, View(), r.value);
      } else if r.Ok? {
        BlockCaptured(start, before, buffers, frames, block, taken, View(), r.value);
      }
    }

    /** The loop up to the stop: as long as nothing has failed, reads fill the buffer in hand and full buffers are
        queued. */
    method FillBlocks(first: Block, turns: nat, device: nat -> Turn) returns (r: Result<Block>)
      requires capture == Filling(first) && first.frames == []
      modifies this`pool, this`queue, this`queuedFrames, this`sampleCount, this`capture, this`read
      ensures Leads(StepOf(), old(View()), View())
      ensures r.Ok? <==> AllSound(device, turns)
                         && FullBlocksFit(|old(queue)|, |old(pool)|, disk.Broken?, |Taken(device, turns)|)
      ensures r.Ok? ==> capture == Filling(r.value) && |r.value.frames| < PERIOD_FRAMES
                        && Captured(old(View()), View(), [first.buffer] + old(pool), Taken(device, turns), r.value)
      ensures r.Err? ==> capture.Refused? || capture.Exhausted? || capture.Failed?
    {
      ghost var start, buffers := View(), [first.buffer] + pool;
      Stay(StepOf(), start);
      var block, i := first, 0;
      assert Captured(start, View(), buffers, Taken(device, 0), block);
      while i < turns
        invariant i <= turns && capture == Filling(block) && |block.frames| < PERIOD_FRAMES
        invariant Leads(StepOf(), start, View())
        invariant AllSound(device, i) && Captured(start, View(), buffers, Taken(device, i), block)
      {
        ghost var before, held := View(), block;
        FullBlocksFitted(start, before, buffers, Taken(device, i), block);
        TakenMore(device, i);
        var taken, more := TakeTurn(block, device(i), start, buffers, Taken(device, i));
        Through(StepOf(), start, before, View());
        if taken.Err? {
          TurnFails(start, before, buffers, device, i, turns, held);
          return Err(taken.code);
        }
        block := taken.value;
        i := i + 1;
      }
      FullBlocksFitted(start, View(), buffers, Taken(device, turns), block);
      return Ok(block);
    }

    /** The capture loop, and what is left at the stop is queued last. `device(i)` is what the i-th turn meets. It
        succeeds exactly when no turn fails and queue and pool suffice, and then the queue has all frames read, cut
        every PERIOD_FRAMES. */
    method CaptureLoop(first: Block, turns: nat, device: nat -> Turn) returns (r: Result<()>)
      requires capture == Filling(first) && first.frames == []
      modifies this`pool, this`queue, this`queuedFrames, this`sampleCount, this`capture, this`read
      ensures Leads(StepOf(), old(View()), View())
      ensures r.Ok? <==> AllSound(device, turns)
                         && RoomFor(|old(queue)|, |old(pool)|, disk.Broken?, |Taken(device, turns)|)
      ensures r.Ok? ==>
                var frames := Taken(device, turns);
                && read == old(read) + frames && sampleCount == old(sampleCount) + |frames|
                && queuedFrames == old(queuedFrames) + |frames|
                && pool == old(pool)[|frames| / PERIOD_FRAMES..]
                && CutInto(old(queue), queue, [first.buffer] + old(pool), frames, Blocks(|frames|))
                && (if |frames| % PERIOD_FRAMES == 0 then capture.Stopped? else capture.Drained?)
      ensures r.Err? ==> capture.Refused? || capture.Exhausted? || capture.Failed?
    {
      ghost var start := View();
      var filled := FillBlocks(first, turns, device);
      if filled.Err? {
        return Err(filled.code);
      }
      var block := filled.value;
      StepOn(StepOf(), start, View(), Stop);
      TailCaptured(start, View(), [first.buffer] + start.pool, Taken(device, turns), block);
      if block.frames == [] {
        capture := Stopped(block);
        return Ok(());
      }
      capture := Counting(block, true);
      ghost var counting := View();
      r := Enqueue(block, true);
      Through(StepOf(), start, counting, View());
    }

    /** One turn of the disk thread: a block leaves the queue and the count, is written, and its buffer goes back to the
        pool; after a failed write the thread is gone, with its buffer. */
    method WriteNext(ok: bool, part: nat)
      requires disk.Waiting? && queue != [] && queuedFrames >= |queue[0].frames|
      modifies this`pool, this`queue, this`queuedFrames, this`written, this`disk, this`stream
      ensures Leads(StepOf(), old(View()), View())
      ensures queue == old(queue)[1..] && queuedFrames == old(queuedFrames) - |old(queue)[0].frames|
      ensures stream == (if ok then old(stream) + old(queue)[0].frames else old(stream))
      ensures written == old(written) + (if ok then |old(queue)[0].frames| else Min(part, |old(queue)[0].frames|))
      ensures if ok then disk.Waiting? && pool == old(pool) + [old(queue)[0].buffer]
              else disk == Broken(old(queue)[0], Min(part, |old(queue)[0].frames|))
    {
      ghost var start := View();
      Stay(StepOf(), start);
      StepOn(StepOf(), start, start, Receive);
      var block := queue[0];
      queue := queue[1..];
      disk := Received(block);
      StepOn(StepOf(), start, View(), Uncount);
      queuedFrames := queuedFrames - |block.frames|;
      disk := Writing(block);
      StepOn(StepOf(), start, View(), Write(ok, part));
      if !ok {
        written := written + Min(part, |block.frames|);
        disk := Broken(block, Min(part, |block.frames|));
        return;
      }
      written := written + |block.frames|;
      stream := stream + block.frames;
      disk := Returning(block);
      StepOn(StepOf(), start, View(), Return);
      pool := pool + [block.buffer];
      disk := Waiting;
    }
  }
}
