/** The block pool between capture and disk: `start_and_capture` of `native/src/audio.rs`. The capture thread fills
    buffers from a pool and queues them, the disk thread writes them and gives them back; they interleave at their
    atomic steps. */
module BlockPool {
  import opened Prelude

  const QUEUE_BLOCKS: nat := 768
  const PERIOD_FRAMES: nat := 1024

  /** A buffer, by its identity, with the PCM frames in it. */
  datatype Block = Block(buffer: nat, frames: seq<int>)

  /** The capture thread: filling a buffer, about to count, to send or to replace it, or at its end. A buffer it could
      not send stays with it. */
  datatype Capture =
    | Filling(block: Block)
    | Counting(block: Block, last: bool)
    | Sending(block: Block, last: bool)
    | Refilling
    | Refused(block: Block)
    | Failed(block: Block)
    | Exhausted
    | Drained
    | Stopped(spare: Block)

  /** The disk thread; `part` is what it has written of the block it broke at. */
  datatype Disk =
    | Waiting
    | Received(block: Block)
    | Writing(block: Block)
    | Returning(block: Block)
    | Broken(block: Block, part: nat)
    | Finished

  /** `read` is everything read from the device, `stream` everything written in full blocks; `written` is the counter
      the disk thread reports, which also counts a part of the block it breaks at. */
  datatype Pool = Pool(
    pool: seq<nat>,
    queue: seq<Block>,
    capture: Capture,
    disk: Disk,
    queuedFrames: nat,
    sampleCount: nat,
    written: nat,
    read: seq<int>,
    stream: seq<int>)

  datatype Action =
    | Read(frames: seq<int>)
    | Fail
    | Stop
    | Count
    | Send
    | Refill
    | Receive
    | Uncount
    | Write(ok: bool, part: nat)
    | Return

  /** The capture thread holds the sending end of the queue. */
  predicate Connected(c: Capture) {
    c.Filling? || c.Counting? || c.Sending? || c.Refilling?
  }

  function Step(s: Pool, a: Action): Pool {
    if a.Receive? || a.Uncount? || a.Write? || a.Return? then DiskStep(s, a) else CaptureStep(s, a)
  }

  function CaptureStep(s: Pool, a: Action): Pool {
    match a
    case Read(frames) =>
      if !s.capture.Filling? || frames == [] || |s.capture.block.frames| + |frames| > PERIOD_FRAMES then s
      else
        var block := s.capture.block.(frames := s.capture.block.frames + frames);
        s.(sampleCount := s.sampleCount + |frames|, read := s.read + frames,
           capture := if |block.frames| == PERIOD_FRAMES then Counting(block, false) else Filling(block))
    case Fail =>
      if s.capture.Filling? || (s.capture.Counting? && !s.capture.last) then s.(capture := Failed(s.capture.block))
      else s
    case Stop =>
      if !s.capture.Filling? then s
      else if s.capture.block.frames != [] then s.(capture := Counting(s.capture.block, true))
      else s.(capture := Stopped(s.capture.block))
    case Count =>
      if !s.capture.Counting? then s
      else s.(queuedFrames := s.queuedFrames + |s.capture.block.frames|,
              capture := Sending(s.capture.block, s.capture.last))
    case Send =>
      if !s.capture.Sending? then s
      else if |s.queue| >= QUEUE_BLOCKS || s.disk.Broken? then s.(capture := Refused(s.capture.block))
      else s.(queue := s.queue + [s.capture.block], capture := if s.capture.last then Drained else Refilling)
    case Refill =>
      if !s.capture.Refilling? then s
      else if s.pool == [] then s.(capture := Exhausted)
      else s.(pool := s.pool[1..], capture := Filling(Block(s.pool[0], [])))
    case _ => s
  }

  function DiskStep(s: Pool, a: Action): Pool {
    match a
    case Receive =>
      if !s.disk.Waiting? then s
      else if s.queue != [] then s.(queue := s.queue[1..], disk := Received(s.queue[0]))
      else if !Connected(s.capture) then s.(disk := Finished)
      else s
    case Uncount =>
      if !s.disk.Received? || s.queuedFrames < |s.disk.block.frames| then s
      else s.(queuedFrames := s.queuedFrames - |s.disk.block.frames|, disk := Writing(s.disk.block))
    case Write(ok, part) =>
      if !s.disk.Writing? then s
      else if ok then
        s.(written := s.written + |s.disk.block.frames|, stream := s.stream + s.disk.block.frames,
           disk := Returning(s.disk.block))
      else
        var done := Min(part, |s.disk.block.frames|);
        s.(written := s.written + done, disk := Broken(s.disk.block, done))
    case Return => if s.disk.Returning? then s.(pool := s.pool + [s.disk.block.buffer], disk := Waiting) else s
    case _ => s
  }

  // Invariant

  function CaptureBlock(c: Capture): seq<Block> {
    if c.Filling? || c.Counting? || c.Sending? || c.Refused? || c.Failed? then [c.block]
    else if c.Stopped? then [c.spare]
    else []
  }

  function DiskBlock(d: Disk): seq<Block> {
    if d.Received? || d.Writing? || d.Returning? || d.Broken? then [d.block] else []
  }

  function Buffers(blocks: seq<Block>): (r: seq<nat>)
    ensures |r| == |blocks|
  {
    seq(|blocks|, i requires 0 <= i < |blocks| => blocks[i].buffer)
  }

  /** Where every buffer is. */
  function Everywhere(s: Pool): multiset<nat> {
    multiset(s.pool) + multiset(Buffers(s.queue)) + multiset(Buffers(CaptureBlock(s.capture)))
    + multiset(Buffers(DiskBlock(s.disk)))
  }

  function Frames(blocks: seq<Block>): seq<int> {
    if |blocks| == 0 then [] else Frames(blocks[..|blocks| - 1]) + blocks[|blocks| - 1].frames
  }

  /** What the capture thread holds of the PCM it has read. */
  function Unsent(c: Capture): seq<int> {
    if c.Filling? || c.Counting? || c.Sending? || c.Refused? || c.Failed? then c.block.frames
    else if c.Stopped? then c.spare.frames
    else []
  }

  /** What the disk thread has taken and not written. */
  function Unwritten(d: Disk): seq<int> {
    if d.Received? || d.Writing? || d.Broken? then d.block.frames else []
  }

  /** What it has written of a block it broke at. */
  function PartOf(d: Disk): seq<int> {
    if d.Broken? && d.part <= |d.block.frames| then d.block.frames[..d.part] else []
  }

  function CountedFrames(c: Capture): nat {
    if c.Sending? || c.Refused? then |c.block.frames| else 0
  }

  function UncountedFrames(d: Disk): nat {
    if d.Received? then |d.block.frames| else 0
  }

  predicate BlocksOk(s: Pool) {
    && |s.queue| <= QUEUE_BLOCKS
    && (forall i :: 0 <= i < |s.queue| ==> |s.queue[i].frames| <= PERIOD_FRAMES)
    && |Unsent(s.capture)| <= PERIOD_FRAMES
    && (DiskBlock(s.disk) != [] ==> |DiskBlock(s.disk)[0].frames| <= PERIOD_FRAMES)
    && (s.capture.Stopped? ==> s.capture.spare.frames == [])
    && (s.disk.Finished? ==> s.queue == [] && !Connected(s.capture))
  }

  /** Every buffer is in exactly one place. */
  ghost predicate Partitioned(s: Pool, all: multiset<nat>) {
    Everywhere(s) == all && |all| == QUEUE_BLOCKS + 1
  }

  /** The queue counter is exact. */
  predicate QueuedExact(s: Pool) {
    s.queuedFrames == |Frames(s.queue)| + CountedFrames(s.capture) + UncountedFrames(s.disk)
  }

  /** No frame is lost, duplicated or reordered on its way. */
  predicate Conserved(s: Pool) {
    && s.read == s.stream + Unwritten(s.disk) + Frames(s.queue) + Unsent(s.capture)
    && s.sampleCount == |s.read|
    && (s.disk.Broken? ==> s.disk.part <= |s.disk.block.frames|)
    && s.written == |s.stream| + |PartOf(s.disk)|
  }

  ghost predicate Inv(s: Pool, all: multiset<nat>) {
    BlocksOk(s) && Partitioned(s, all) && QueuedExact(s) && Conserved(s)
  }

  /** The start: one buffer in hand, the other 768 in the pool. */
  predicate IsNew(s: Pool, all: multiset<nat>) {
    && |s.pool| == QUEUE_BLOCKS && |s.queue| == 0
    && s.capture.Filling? && |s.capture.block.frames| == 0 && s.disk.Waiting?
    && s.queuedFrames == s.sampleCount == s.written == 0 && |s.read| == |s.stream| == 0
    && all == multiset(s.pool) + multiset{s.capture.block.buffer}
  }

  // Every step keeps the invariant

  lemma {:induction false} FramesSnoc(blocks: seq<Block>, b: Block)
    ensures Frames(blocks + [b]) == Frames(blocks) + b.frames
  {
    assert (blocks + [b])[..|blocks|] == blocks;
  }

  lemma {:induction false} FramesHead(blocks: seq<Block>)
    requires |blocks| > 0
    ensures Frames(blocks) == blocks[0].frames + Frames(blocks[1..])
    decreases |blocks|
  {
    var n := |blocks| - 1;
    if n > 0 {
      FramesHead(blocks[..n]);
      assert blocks[1..][..n - 1] == blocks[..n][1..];
      assert blocks[1..][n - 1] == blocks[n];
    } else {
      assert |blocks[..n]| == 0 && |blocks[1..]| == 0;
    }
  }

  lemma {:induction false} BuffersSnoc(blocks: seq<Block>, b: Block)
    ensures Buffers(blocks + [b]) == Buffers(blocks) + [b.buffer]
  {
  }

  lemma {:induction false} BuffersHead(blocks: seq<Block>)
    requires |blocks| > 0
    ensures multiset(Buffers(blocks)) == multiset{blocks[0].buffer} + multiset(Buffers(blocks[1..]))
  {
    assert Buffers(blocks) == [blocks[0].buffer] + Buffers(blocks[1..]);
  }

  lemma {:induction false} OneBuffer(b: Block)
    ensures multiset(Buffers([b])) == multiset{b.buffer}
  {
    assert Buffers([b]) == [b.buffer];
  }

  lemma {:induction false} StepKeepsBlocks(s: Pool, a: Action)
    requires BlocksOk(s)
    ensures BlocksOk(Step(s, a))
  {
  }

  lemma {:induction false} StepKeepsQueued(s: Pool, a: Action)
    requires QueuedExact(s)
    ensures QueuedExact(Step(s, a))
  {
    if a.Send? && s.capture.Sending? {
      FramesSnoc(s.queue, s.capture.block);
    }
    if a.Receive? && s.queue != [] {
      FramesHead(s.queue);
    }
  }

  lemma {:induction false} CaptureKeepsConserved(s: Pool, a: Action)
    requires Conserved(s) && BlocksOk(s)
    ensures Conserved(CaptureStep(s, a))
  {
    if a.Send? && s.capture.Sending? {
      SendKeepsConserved(s);
    } else if a.Read? && s.capture.Filling? {
      ReadKeepsConserved(s, a.frames);
    }
  }

  lemma {:induction false} SendKeepsConserved(s: Pool)
    requires Conserved(s) && s.capture.Sending?
    ensures Conserved(CaptureStep(s, Send))
  {
    FramesSnoc(s.queue, s.capture.block);
    MovedOver(s.stream + Unwritten(s.disk), Frames(s.queue), s.capture.block.frames);
  }

  lemma {:induction false} MovedOver(a: seq<int>, b: seq<int>, moved: seq<int>)
    ensures a + b + moved == a + (b + moved) + []
  {
  }

  lemma {:induction false} ReadKeepsConserved(s: Pool, frames: seq<int>)
    requires Conserved(s) && s.capture.Filling?
    ensures Conserved(CaptureStep(s, Read(frames)))
  {
  }

  lemma {:induction false} ReceiveKeepsConserved(s: Pool)
    requires Conserved(s) && s.disk.Waiting? && s.queue != []
    ensures Conserved(DiskStep(s, Receive))
  {
    FramesHead(s.queue);
    TakenOver(s.stream, s.queue[0].frames, Frames(s.queue[1..]), Unsent(s.capture));
  }

  lemma {:induction false} TakenOver(a: seq<int>, moved: seq<int>, b: seq<int>, d: seq<int>)
    ensures a + [] + (moved + b) + d == a + moved + b + d
  {
  }

  lemma {:induction false} WriteKeepsConserved(s: Pool, ok: bool, part: nat)
    requires Conserved(s) && s.disk.Writing?
    ensures Conserved(DiskStep(s, Write(ok, part)))
  {
    var frames := s.disk.block.frames;
    assert s.stream + frames + [] == s.stream + frames;
  }

  lemma {:induction false} DiskKeepsConserved(s: Pool, a: Action)
    requires Conserved(s)
    ensures Conserved(DiskStep(s, a))
  {
    if a.Receive? && s.disk.Waiting? && s.queue != [] {
      ReceiveKeepsConserved(s);
    } else if a.Write? && s.disk.Writing? {
      WriteKeepsConserved(s, a.ok, a.part);
    } else {
      var q := DiskStep(s, a);
      assert Unwritten(q.disk) == Unwritten(s.disk) && q.queue == s.queue && q.stream == s.stream;
    }
  }

  lemma {:induction false} SendKeepsPartition(s: Pool)
    requires s.capture.Sending?
    ensures Everywhere(CaptureStep(s, Send)) == Everywhere(s)
  {
    BuffersSnoc(s.queue, s.capture.block);
    OneBuffer(s.capture.block);
    assert Buffers([]) == [];
  }

  lemma {:induction false} FirstOut(pool: seq<nat>)
    requires |pool| > 0
    ensures multiset(pool) == multiset{pool[0]} + multiset(pool[1..])
  {
    assert pool == [pool[0]] + pool[1..];
  }

  lemma {:induction false} RefillKeepsPartition(s: Pool)
    requires s.capture.Refilling? && s.pool != []
    ensures Everywhere(CaptureStep(s, Refill)) == Everywhere(s)
  {
    var q := CaptureStep(s, Refill);
    FirstOut(s.pool);
    assert Buffers(CaptureBlock(s.capture)) == [];
    assert Buffers(CaptureBlock(q.capture)) == [s.pool[0]];
  }

  lemma {:induction false} ReadKeepsPartition(s: Pool, frames: seq<int>)
    requires s.capture.Filling?
    ensures Everywhere(CaptureStep(s, Read(frames))) == Everywhere(s)
  {
    SameBuffer(s.capture.block, s.capture.block.(frames := s.capture.block.frames + frames));
  }

  /** The steps that only move the buffer in hand from one stage to the next. */
  lemma {:induction false} HandKeepsBlock(s: Pool, a: Action)
    requires a.Fail? || a.Stop? || a.Count?
    ensures var q := CaptureStep(s, a);
            q.pool == s.pool && q.queue == s.queue && q.disk == s.disk
            && CaptureBlock(q.capture) == CaptureBlock(s.capture)
  {
  }

  lemma {:induction false} CaptureKeepsPartition(s: Pool, a: Action)
    ensures Everywhere(CaptureStep(s, a)) == Everywhere(s)
  {
    if a.Read? && s.capture.Filling? {
      ReadKeepsPartition(s, a.frames);
    } else if a.Send? && s.capture.Sending? {
      SendKeepsPartition(s);
    } else if a.Refill? && s.capture.Refilling? && s.pool != [] {
      RefillKeepsPartition(s);
    } else if a.Fail? || a.Stop? || a.Count? {
      HandKeepsBlock(s, a);
      SameBlocks(s, CaptureStep(s, a));
    } else if a.Refill? && s.capture.Refilling? {
      SameBlocks(s, CaptureStep(s, a));
    }
  }

  lemma {:induction false} SameBlocks(s: Pool, q: Pool)
    requires q.pool == s.pool && q.queue == s.queue && q.disk == s.disk
    requires CaptureBlock(q.capture) == CaptureBlock(s.capture)
    ensures Everywhere(q) == Everywhere(s)
  {
  }

  lemma {:induction false} SameBuffer(a: Block, b: Block)
    requires a.buffer == b.buffer
    ensures Buffers([a]) == Buffers([b])
  {
  }

  lemma {:induction false} ReceiveKeepsPartition(s: Pool)
    requires s.disk.Waiting? && s.queue != []
    ensures Everywhere(DiskStep(s, Receive)) == Everywhere(s)
  {
    BuffersHead(s.queue);
    OneBuffer(s.queue[0]);
    assert Buffers([]) == [];
  }

  lemma {:induction false} ReturnKeepsPartition(s: Pool)
    requires s.disk.Returning?
    ensures Everywhere(DiskStep(s, Return)) == Everywhere(s)
  {
    OneBuffer(s.disk.block);
    assert Buffers([]) == [];
  }

  lemma {:induction false} DiskKeepsPartition(s: Pool, a: Action)
    ensures Everywhere(DiskStep(s, a)) == Everywhere(s)
  {
    if a.Receive? && s.disk.Waiting? && s.queue != [] {
      ReceiveKeepsPartition(s);
    } else if a.Return? && s.disk.Returning? {
      ReturnKeepsPartition(s);
    } else {
      var q := DiskStep(s, a);
      assert DiskBlock(q.disk) == DiskBlock(s.disk) && q.pool == s.pool && q.queue == s.queue;
    }
  }

  lemma {:induction false} StepKeeps(s: Pool, a: Action, all: multiset<nat>)
    requires Inv(s, all)
    ensures Inv(Step(s, a), all)
  {
    StepKeepsBlocks(s, a);
    StepKeepsQueued(s, a);
    CaptureKeepsConserved(s, a);
    DiskKeepsConserved(s, a);
    CaptureKeepsPartition(s, a);
    DiskKeepsPartition(s, a);
  }

  function Run(s: Pool, actions: seq<Action>): Pool
    decreases actions
  {
    if actions == [] then s else Run(Step(s, actions[0]), actions[1..])
  }

  lemma {:induction false} RunKeeps(s: Pool, actions: seq<Action>, all: multiset<nat>)
    requires Inv(s, all)
    ensures Inv(Run(s, actions), all)
    decreases actions
  {
    if actions != [] {
      StepKeeps(s, actions[0], all);
      RunKeeps(Step(s, actions[0]), actions[1..], all);
    }
  }

  lemma {:induction false} NewInv(s: Pool, all: multiset<nat>)
    requires IsNew(s, all)
    ensures Inv(s, all)
  {
    OneBuffer(s.capture.block);
    assert Buffers(s.queue) == [];
    assert Buffers(DiskBlock(s.disk)) == [];
  }

  // What every run guarantees

  /** Every buffer is at every moment in exactly one place: pool, queue, capture or disk thread. */
  lemma {:induction false} BuffersAreConserved(start: Pool, actions: seq<Action>, all: multiset<nat>)
    requires IsNew(start, all)
    ensures var s := Run(start, actions);
            && Everywhere(s) == all
            && |s.pool| + |s.queue| + |CaptureBlock(s.capture)| + |DiskBlock(s.disk)| == QUEUE_BLOCKS + 1
  {
    NewInv(start, all);
    RunKeeps(start, actions, all);
    CountEverywhere(Run(start, actions));
  }

  lemma {:induction false} CountEverywhere(s: Pool)
    ensures |Everywhere(s)| == |s.pool| + |s.queue| + |CaptureBlock(s.capture)| + |DiskBlock(s.disk)|
  {
  }

  /** The pool is exhausted only with all 768 queue slots taken, and the queue refuses a block of a live disk thread
      only then too. */
  lemma {:induction false} ExhaustionMeansFullQueue(start: Pool, actions: seq<Action>, all: multiset<nat>)
    requires IsNew(start, all)
    ensures var s := Run(start, actions);
            && (s.capture.Refilling? && Step(s, Refill).capture.Exhausted? ==> |s.queue| == QUEUE_BLOCKS)
            && (s.capture.Sending? && Step(s, Send).capture.Refused? ==> s.disk.Broken? || |s.queue| == QUEUE_BLOCKS)
  {
    NewInv(start, all);
    RunKeeps(start, actions, all);
    FullWhenRefused(Run(start, actions), all);
  }

  lemma {:induction false} FullWhenRefused(s: Pool, all: multiset<nat>)
    requires BlocksOk(s) && Partitioned(s, all)
    ensures s.capture.Refilling? && s.pool == [] ==> |s.queue| == QUEUE_BLOCKS
    ensures |s.queue| >= QUEUE_BLOCKS ==> |s.queue| == QUEUE_BLOCKS
  {
    CountEverywhere(s);
  }

  lemma {:induction false} FramesBound(blocks: seq<Block>)
    requires forall i :: 0 <= i < |blocks| ==> |blocks[i].frames| <= PERIOD_FRAMES
    ensures |Frames(blocks)| <= |blocks| * PERIOD_FRAMES
    decreases |blocks|
  {
    if |blocks| > 0 {
      FramesBound(blocks[..|blocks| - 1]);
    }
  }

  /** The queue counter is exactly the frames between capture and disk, and never exceeds 769 blocks. */
  lemma {:induction false} QueuedFramesAreBounded(start: Pool, actions: seq<Action>, all: multiset<nat>)
    requires IsNew(start, all)
    ensures var s := Run(start, actions);
            && QueuedExact(s)
            && s.queuedFrames <= (QUEUE_BLOCKS + 1) * PERIOD_FRAMES
  {
    NewInv(start, all);
    RunKeeps(start, actions, all);
    var s := Run(start, actions);
    CountEverywhere(s);
    FramesBound(s.queue);
  }

  /** A run that ends well on both sides has written exactly the samples read, in order, so the final comparison of the
      two counters never fails. */
  lemma {:induction false} DrainedMeansWritten(start: Pool, actions: seq<Action>, all: multiset<nat>)
    requires IsNew(start, all)
    requires var s := Run(start, actions); (s.capture.Drained? || s.capture.Stopped?) && s.disk.Finished?
    ensures var s := Run(start, actions); s.stream == s.read && s.written == s.sampleCount
  {
    NewInv(start, all);
    RunKeeps(start, actions, all);
  }

  /** What has been written, the part of a block at which a write failed included, is at every moment a prefix of what
      was read, and the reported counter is its length. */
  lemma {:induction false} WrittenIsAPrefix(start: Pool, actions: seq<Action>, all: multiset<nat>)
    requires IsNew(start, all)
    ensures var s := Run(start, actions);
            s.stream + PartOf(s.disk) <= s.read && s.written == |s.stream + PartOf(s.disk)|
  {
    NewInv(start, all);
    RunKeeps(start, actions, all);
    PartIsAPrefix(Run(start, actions));
  }

  lemma {:induction false} PartIsAPrefix(s: Pool)
    requires Conserved(s)
    ensures s.stream + PartOf(s.disk) <= s.read
  {
    assert PartOf(s.disk) <= Unwritten(s.disk);
  }
}
