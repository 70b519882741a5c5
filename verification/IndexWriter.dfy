/** The asynchronous index writer: `ArtifactWriter` of `native/src/recording.rs`, one calling thread and one worker over
    a bounded channel, interleaved at their atomic steps. */
module IndexWriter {
  import opened Prelude

  const PENDING_BYTES: nat := 8 * 1024 * 1024
  const PENDING_RECORDS: nat := 16_384

  type Record = seq<Byte>

  /** The calling thread: between calls with the last answer, or inside `write` or `flush_and_close`. */
  datatype Caller =
    | Ready(last: Result<nat>)
    | Checked(payload: Record)
    | Reserved(payload: Record)
    | Refused(payload: Record)
    | Closing
    | Closed(outcome: Result<nat>)

  /** The worker thread. `put` is what of the payload has reached the file. */
  datatype Worker =
    | Waiting
    | Received(payload: Record)
    | Put(payload: Record, put: Record, ok: bool)
    | Released(payload: Record, put: Record, ok: bool)
    | Failed(payload: Record, put: Record)
    | Gone(payload: Record, put: Record)
    | Finished

  /** `sent` are the records handed to the channel and hashed, `told` those the caller was told are written. */
  datatype Writer = Writer(
    caller: Caller,
    worker: Worker,
    channel: seq<Record>,
    senderOpen: bool,
    pending: nat,
    records: nat,
    file: seq<Byte>,
    digestInput: seq<Byte>,
    bytes: nat,
    sent: seq<Record>,
    told: seq<Record>)

  datatype Action =
    | Check(payload: Record)
    | Reserve
    | Send
    | RollBack
    | CloseSender
    | Join(flushed: bool, synced: bool)
    | Receive
    | WriteAll(ok: bool, written: nat)
    | Release
    | Conclude
    | Exit

  /** A writer just created over an empty file. */
  predicate IsNew(w: Writer) {
    && w.caller.Ready? && w.worker.Waiting? && w.senderOpen
    && w.pending == 0 && w.records == 0 && w.bytes == 0
    && |w.channel| == 0 && |w.file| == 0 && |w.digestInput| == 0 && |w.sent| == 0 && |w.told| == 0
  }

  /** The error cell is set and never cleared. */
  predicate HasError(w: Writer) { w.worker.Failed? || w.worker.Gone? }

  /** One atomic step; a step its thread cannot take now changes nothing. */
  function Step(w: Writer, a: Action): Writer {
    if IsCallerAction(a) then CallerStep(w, a) else WorkerStep(w, a)
  }

  predicate IsCallerAction(a: Action) {
    a.Check? || a.Reserve? || a.Send? || a.RollBack? || a.CloseSender? || a.Join?
  }

  function CallerStep(w: Writer, a: Action): Writer {
    match a
    case Check(payload) =>
      if !w.caller.Ready? then w
      else if HasError(w) then w.(caller := Ready(Err(WriteFailed)))
      else if !w.senderOpen then w.(caller := Ready(Err(InvalidState)))
      else w.(caller := Checked(payload))
    case Reserve =>
      if !w.caller.Checked? then w
      else if w.pending + |w.caller.payload| > PENDING_BYTES then w.(caller := Ready(Err(WriteFailed)))
      else w.(pending := w.pending + |w.caller.payload|, caller := Reserved(w.caller.payload))
    case Send =>
      if !w.caller.Reserved? then w
      else if |w.channel| >= PENDING_RECORDS || w.worker.Gone? then w.(caller := Refused(w.caller.payload))
      else Counted(w, w.caller.payload)
    case RollBack =>
      if !w.caller.Refused? || w.pending < |w.caller.payload| then w
      else w.(pending := w.pending - |w.caller.payload|, caller := Ready(Err(WriteFailed)))
    case CloseSender => if w.caller.Ready? then w.(senderOpen := false, caller := Closing) else w
    case Join(flushed, synced) =>
      if !w.caller.Closing? || !(w.worker.Gone? || w.worker.Finished?) then w
      else if w.worker.Finished? && flushed && |w.file| == w.bytes && synced then w.(caller := Closed(Ok(w.bytes)))
      else w.(caller := Closed(Err(WriteFailed)))
    case _ => w
  }

  /** The record is in the channel and in the digest; a byte count that would overflow stays behind. */
  function Counted(w: Writer, payload: Record): Writer {
    var next := w.(channel := w.channel + [payload], digestInput := w.digestInput + payload,
                   sent := w.sent + [payload]);
    if w.bytes + |payload| > U64_MAX then next.(caller := Ready(Err(WriteFailed)))
    else next.(bytes := w.bytes + |payload|, told := w.told + [payload], caller := Ready(Ok(|payload|)))
  }

  function WorkerStep(w: Writer, a: Action): Writer {
    match a
    case Receive =>
      if !w.worker.Waiting? then w
      else if w.channel != [] then w.(worker := Received(w.channel[0]), channel := w.channel[1..])
      else if !w.senderOpen then w.(worker := Finished)
      else w
    case WriteAll(ok, written) =>
      if !w.worker.Received? || (!ok && written > |w.worker.payload|) then w
      else
        var put := if ok then w.worker.payload else w.worker.payload[..written];
        w.(file := w.file + put, worker := Put(w.worker.payload, put, ok))
    case Release =>
      if !w.worker.Put? || w.pending < |w.worker.payload| then w
      else
        w.(pending := w.pending - |w.worker.payload|,
           worker := Released(w.worker.payload, w.worker.put, w.worker.ok))
    case Conclude =>
      if !w.worker.Released? then w
      else if w.worker.ok then w.(records := w.records + 1, worker := Waiting)
      else w.(worker := Failed(w.worker.payload, w.worker.put))
    case Exit => if w.worker.Failed? then w.(worker := Gone(w.worker.payload, w.worker.put)) else w
    case _ => w
  }

  // Invariant

  function Concat(records: seq<Record>): seq<Byte> {
    if records == [] then [] else Concat(records[..|records| - 1]) + records[|records| - 1]
  }

  function Total(records: seq<Record>): nat {
    if records == [] then 0 else |records[0]| + Total(records[1..])
  }

  /** What the caller has reserved and neither sent nor given back. */
  function Reservation(c: Caller): nat {
    if c.Reserved? || c.Refused? then |c.payload| else 0
  }

  /** What the worker holds and has not released. */
  function Unreleased(w: Worker): nat {
    if w.Received? || w.Put? then |w.payload| else 0
  }

  /** The record the worker took from the channel and has not counted. */
  function InHand(w: Worker): seq<Record> {
    if w.Waiting? || w.Finished? then [] else [w.payload]
  }

  function PutBytes(w: Worker): seq<Byte> {
    if w.Waiting? || w.Finished? || w.Received? then [] else w.put
  }

  /** The records the worker has counted as written. */
  function Completed(w: Writer): seq<Record>
    requires w.records <= |w.sent|
  {
    w.sent[..w.records]
  }

  predicate PendingExact(w: Writer) {
    w.pending == Total(w.channel) + Reservation(w.caller) + Unreleased(w.worker) && w.pending <= PENDING_BYTES
  }

  predicate FileExact(w: Writer) {
    && w.records <= |w.sent|
    && w.sent[w.records..] == InHand(w.worker) + w.channel
    && w.file == Concat(Completed(w)) + PutBytes(w.worker)
    && (w.worker.Finished? ==> w.channel == [] && !w.senderOpen)
    && (InHand(w.worker) != [] ==> PutBytes(w.worker) <= w.worker.payload)
    && ((w.worker.Put? || w.worker.Released?) && w.worker.ok ==> w.worker.put == w.worker.payload)
  }

  predicate CountsExact(w: Writer) {
    && w.digestInput == Concat(w.sent)
    && w.bytes <= U64_MAX
    && (if |Concat(w.sent)| <= U64_MAX then w.told == w.sent && w.bytes == |Concat(w.sent)|
        else |w.told| < |w.sent| && w.bytes < |Concat(w.sent)|)
    && (w.senderOpen <==> !w.caller.Closing? && !w.caller.Closed?)
  }

  ghost predicate Inv(w: Writer) {
    && PendingExact(w) && FileExact(w) && CountsExact(w)
    && (w.caller.Closed? ==> w.worker.Gone? || w.worker.Finished?)
    && (w.caller.Closed? && w.caller.outcome.Ok? ==>
          w.worker.Finished? && w.caller.outcome.value == w.bytes == |w.file|)
  }

  lemma {:induction false} TotalSnoc(records: seq<Record>, r: Record)
    ensures Total(records + [r]) == Total(records) + |r|
    decreases records
  {
    if records != [] {
      assert (records + [r])[1..] == records[1..] + [r];
      TotalSnoc(records[1..], r);
    }
  }

  lemma {:induction false} ConcatSnoc(records: seq<Record>, r: Record)
    ensures Concat(records + [r]) == Concat(records) + r
  {
    assert (records + [r])[..|records|] == records;
  }

  lemma {:induction false} SendKeeps(w: Writer)
    requires Inv(w) && w.caller.Reserved?
    ensures Inv(Counted(w, w.caller.payload))
  {
    var payload := w.caller.payload;
    SendPending(w, payload);
    SendFile(w, payload);
    SendCounts(w, payload);
  }

  lemma {:induction false} SendPending(w: Writer, payload: Record)
    requires PendingExact(w) && w.caller == Reserved(payload)
    ensures PendingExact(Counted(w, payload))
  {
    TotalSnoc(w.channel, payload);
  }

  lemma {:induction false} SendFile(w: Writer, payload: Record)
    requires FileExact(w) && w.senderOpen
    ensures FileExact(Counted(w, payload))
  {
    SentSnoc(w.sent, w.records, InHand(w.worker), w.channel, payload);
  }

  lemma {:induction false} SendCounts(w: Writer, payload: Record)
    requires CountsExact(w) && w.senderOpen
    ensures CountsExact(Counted(w, payload))
  {
    ConcatSnoc(w.sent, payload);
  }

  lemma {:induction false} SentSnoc(sent: seq<Record>, n: nat, hand: seq<Record>, channel: seq<Record>, r: Record)
    requires n <= |sent| && sent[n..] == hand + channel
    ensures (sent + [r])[..n] == sent[..n]
    ensures (sent + [r])[n..] == hand + (channel + [r])
  {
    assert (sent + [r])[n..] == sent[n..] + [r];
  }

  lemma {:induction false} ReserveKeepsPending(w: Writer)
    requires PendingExact(w)
    ensures PendingExact(CallerStep(w, Reserve))
  {
  }

  lemma {:induction false} ReserveKeepsFile(w: Writer)
    requires FileExact(w)
    ensures FileExact(CallerStep(w, Reserve))
  {
  }

  lemma {:induction false} ReserveKeepsCounts(w: Writer)
    requires CountsExact(w)
    ensures CountsExact(CallerStep(w, Reserve))
  {
  }

  lemma {:induction false} ReserveKeeps(w: Writer)
    requires Inv(w)
    ensures Inv(CallerStep(w, Reserve))
  {
    if w.caller.Checked? {
      ReserveKeepsPending(w);
      ReserveKeepsFile(w);
      ReserveKeepsCounts(w);
      assert !CallerStep(w, Reserve).caller.Closed?;
    }
  }

  lemma {:induction false} RollBackKeeps(w: Writer)
    requires Inv(w)
    ensures Inv(CallerStep(w, RollBack))
  {
  }

  lemma {:induction false} JoinKeeps(w: Writer, flushed: bool, synced: bool)
    requires Inv(w)
    ensures Inv(CallerStep(w, Join(flushed, synced)))
  {
  }

  lemma {:induction false} CheckKeeps(w: Writer, payload: Record)
    requires Inv(w)
    ensures Inv(CallerStep(w, Check(payload)))
  {
  }

  lemma {:induction false} CloseSenderKeeps(w: Writer)
    requires Inv(w)
    ensures Inv(CallerStep(w, CloseSender))
  {
  }

  lemma {:induction false} CallerKeeps(w: Writer, a: Action)
    requires Inv(w) && IsCallerAction(a)
    ensures Inv(CallerStep(w, a))
  {
    match a
    case Check(payload) => CheckKeeps(w, payload);
    case Reserve => ReserveKeeps(w);
    case Send =>
      if w.caller.Reserved? {
        SendKeeps(w);
      }
    case RollBack => RollBackKeeps(w);
    case CloseSender => CloseSenderKeeps(w);
    case Join(flushed, synced) => JoinKeeps(w, flushed, synced);
  }

  lemma {:induction false} ReceiveKeeps(w: Writer)
    requires Inv(w) && w.worker.Waiting? && w.channel != []
    ensures Inv(WorkerStep(w, Receive))
  {
    assert w.channel == [w.channel[0]] + w.channel[1..];
  }

  lemma {:induction false} WriteAllKeeps(w: Writer, ok: bool, written: nat)
    requires Inv(w)
    ensures Inv(WorkerStep(w, WriteAll(ok, written)))
  {
  }

  lemma {:induction false} ReleaseKeeps(w: Writer)
    requires Inv(w)
    ensures Inv(WorkerStep(w, Release))
  {
  }

  /** The record in hand is the next one after those completed. */
  lemma {:induction false} NextCompleted(w: Writer)
    requires FileExact(w) && InHand(w.worker) != []
    ensures w.records < |w.sent| && w.sent[w.records] == w.worker.payload
    ensures w.sent[w.records + 1..] == w.channel
    ensures Concat(w.sent[..w.records + 1]) == Concat(Completed(w)) + w.worker.payload
  {
    var rest := w.sent[w.records..];
    assert rest[0] == w.worker.payload;
    assert w.sent[w.records + 1..] == rest[1..];
    assert w.sent[..w.records + 1] == Completed(w) + [w.worker.payload];
    ConcatSnoc(Completed(w), w.worker.payload);
  }

  lemma {:induction false} ConcludeKeeps(w: Writer)
    requires Inv(w) && w.worker.Released?
    ensures Inv(WorkerStep(w, Conclude))
  {
    if w.worker.ok {
      ConcludeKeepsFile(w);
    }
  }

  lemma {:induction false} ConcludeKeepsFile(w: Writer)
    requires FileExact(w) && w.worker.Released? && w.worker.ok
    ensures FileExact(WorkerStep(w, Conclude))
  {
    NextCompleted(w);
    var q := WorkerStep(w, Conclude);
    assert q.sent[q.records..] == w.channel;
    assert q.file == Concat(q.sent[..q.records]) + PutBytes(q.worker);
  }

  lemma {:induction false} WorkerKeeps(w: Writer, a: Action)
    requires Inv(w)
    ensures Inv(WorkerStep(w, a))
  {
    match a
    case Receive =>
      if w.worker.Waiting? && w.channel != [] {
        ReceiveKeeps(w);
      }
    case WriteAll(ok, written) => WriteAllKeeps(w, ok, written);
    case Release => ReleaseKeeps(w);
    case Conclude =>
      if w.worker.Released? {
        ConcludeKeeps(w);
      }
    case _ =>
  }

  lemma {:induction false} NewWriterInv(w: Writer)
    requires IsNew(w)
    ensures Inv(w)
  {
  }

  lemma {:induction false} StepKeeps(w: Writer, a: Action)
    requires Inv(w)
    ensures Inv(Step(w, a))
  {
    if IsCallerAction(a) {
      CallerKeeps(w, a);
    } else {
      WorkerKeeps(w, a);
    }
  }

  /** Any interleaving of caller and worker. */
  function Run(w: Writer, actions: seq<Action>): Writer
    decreases actions
  {
    if actions == [] then w else Run(Step(w, actions[0]), actions[1..])
  }

  lemma {:induction false} RunKeeps(w: Writer, actions: seq<Action>)
    requires Inv(w)
    ensures Inv(Run(w, actions))
    decreases actions
  {
    if actions != [] {
      StepKeeps(w, actions[0]);
      RunKeeps(Step(w, actions[0]), actions[1..]);
    }
  }

  // What every run guarantees

  /** The pending counter is exactly the queued and in-flight bytes plus at most one reservation, and stays within
      8 MiB; the records counted as written are a prefix of those accepted, and the file begins with exactly them. */
  lemma {:induction false} BacklogIsBounded(start: Writer, actions: seq<Action>)
    requires IsNew(start)
    ensures var w := Run(start, actions);
            && w.pending == Total(w.channel) + Reservation(w.caller) + Unreleased(w.worker) <= PENDING_BYTES
            && w.records <= |w.sent|
            && Concat(w.sent[..w.records]) <= w.file
  {
    NewWriterInv(start);
    RunKeeps(start, actions);
  }

  lemma {:induction false} ConcatOfPrefix(records: seq<Record>, n: nat)
    requires n <= |records|
    ensures Concat(records[..n]) <= Concat(records)
    decreases |records| - n
  {
    if n < |records| {
      assert records[..n + 1] == records[..n] + [records[n]];
      ConcatSnoc(records[..n], records[n]);
      ConcatOfPrefix(records, n + 1);
    } else {
      assert records[..n] == records;
    }
  }

  /** The file is at every moment a prefix of the accepted records, wherever a write fails. */
  lemma {:induction false} FileIsPrefixOfAccepted(start: Writer, actions: seq<Action>)
    requires IsNew(start)
    ensures var w := Run(start, actions); w.file <= Concat(w.sent)
  {
    NewWriterInv(start);
    RunKeeps(start, actions);
    var w := Run(start, actions);
    ConcatOfPrefix(w.sent, w.records);
    if InHand(w.worker) != [] {
      NextCompleted(w);
      ConcatOfPrefix(w.sent, w.records + 1);
    }
  }

  /** File, byte count and digest input are the accepted records, all counted. */
  predicate Complete(w: Writer) {
    && w.file == Concat(w.told) == w.digestInput
    && w.told == w.sent && w.records == |w.told|
    && w.bytes == |w.file| && w.pending == 0
  }

  /** A successful `flush_and_close`: file, byte count and digest input are the accepted records, all counted. */
  lemma {:induction false} FlushedFileIsComplete(start: Writer, actions: seq<Action>)
    requires IsNew(start)
    requires var w := Run(start, actions); w.caller.Closed? && w.caller.outcome.Ok?
    ensures var w := Run(start, actions); Complete(w) && w.caller.outcome.value == w.bytes
  {
    NewWriterInv(start);
    RunKeeps(start, actions);
    ClosedIsComplete(Run(start, actions));
  }

  lemma {:induction false} ClosedIsComplete(w: Writer)
    requires Inv(w) && w.caller.Closed? && w.caller.outcome.Ok?
    ensures Complete(w) && w.caller.outcome.value == w.bytes
  {
    assert Completed(w) == w.sent;
  }

  // Errors

  /** Once a write has failed, the error stays, the file grows no more and every `flush_and_close` fails, wherever the
      caller is; at most the one record that had passed its check before still reaches the channel. */
  lemma {:induction false} ErrorIsTerminal(w: Writer, actions: seq<Action>)
    requires Inv(w) && HasError(w)
    ensures var q := Run(w, actions);
            && HasError(q) && q.file == w.file && q.records == w.records
            && (q.sent == w.sent || (InWrite(w.caller) && q.sent == w.sent + [w.caller.payload]))
            && (q.caller.Closed? ==> q.caller.outcome.Err?)
    decreases actions
  {
    if actions != [] {
      StepKeeps(w, actions[0]);
      ErrorStays(w, actions[0]);
      ErrorIsTerminal(Step(w, actions[0]), actions[1..]);
    }
  }

  /** Inside `write`, past the check. */
  predicate InWrite(c: Caller) { c.Checked? || c.Reserved? }

  lemma {:induction false} ErrorStays(w: Writer, a: Action)
    requires HasError(w)
    ensures var q := Step(w, a);
            && HasError(q) && q.file == w.file && q.records == w.records
            && if q.sent == w.sent then InWrite(q.caller) ==> InWrite(w.caller) && q.caller.payload == w.caller.payload
               else InWrite(w.caller) && q.sent == w.sent + [w.caller.payload] && q.caller.Ready?
  {
  }

  // Overflow

  /** A `flush_and_close` that meets no I/O error succeeds exactly when the accepted bytes fit a `u64`, and that is
      exactly when every record in the file is one that the caller was told is written. */
  lemma {:induction false} FlushSucceedsExactly(start: Writer, actions: seq<Action>)
    requires IsNew(start)
    requires var w := Run(start, actions); w.caller.Closing? && w.worker.Finished?
    ensures var w := Run(start, actions);
            && (Step(w, Join(true, true)).caller.outcome.Ok? <==> |Concat(w.sent)| <= U64_MAX)
            && (w.told == w.sent <==> |Concat(w.sent)| <= U64_MAX)
  {
    NewWriterInv(start);
    RunKeeps(start, actions);
    var w := Run(start, actions);
    assert Completed(w) == w.sent;
  }

  // The way to the end

  /** No write has failed so far. */
  predicate Fine(w: Writer) {
    && !HasError(w)
    && (w.worker.Put? ==> w.worker.ok) && (w.worker.Released? ==> w.worker.ok)
    && (w.caller.Closing? || w.caller.Closed? ==> !w.senderOpen)
  }

  /** What comes next when the caller finishes its call, if it is in one, and closes, and no write fails. */
  function NextMove(w: Writer): Action {
    match w.caller
    case Checked(_) => Reserve
    case Reserved(_) => Send
    case Refused(_) => RollBack
    case Ready(_) => CloseSender
    case _ =>
      match w.worker
      case Waiting => Receive
      case Received(_) => WriteAll(true, 0)
      case Put(_, _, _) => Release
      case Released(_, _, _) => Conclude
      case Failed(_, _) => Exit
      case _ => Join(true, true)
  }

  function CallerRank(c: Caller): nat {
    match c
    case Checked(_) => 14
    case Reserved(_) => 13
    case Refused(_) => 3
    case Ready(_) => 2
    case Closing => 1
    case Closed(_) => 0
  }

  function WorkerRank(w: Worker): nat {
    match w
    case Received(_) => 5
    case Put(_, _, _) => 4
    case Released(_, _, _) => 3
    case Waiting => 2
    case Failed(_, _) => 1
    case _ => 0
  }

  function ToGo(w: Writer): nat { CallerRank(w.caller) + 5 * |w.channel| + WorkerRank(w.worker) }

  /** What a rollback and a release take back was counted. */
  predicate Counts(w: Writer) {
    && (w.caller.Refused? ==> |w.caller.payload| <= w.pending)
    && (w.worker.Put? ==> |w.worker.payload| <= w.pending)
  }

  lemma {:induction false} PendingCounts(w: Writer)
    requires PendingExact(w)
    ensures Counts(w)
  {
  }

  lemma {:induction false} CallerMove(w: Writer)
    requires Counts(w) && !w.caller.Closed? && !w.caller.Closing?
    ensures var q := Step(w, NextMove(w));
            && ToGo(q) < ToGo(w) && (q.caller.Closing? ==> !q.senderOpen) && !q.caller.Closed?
            && (Fine(w) ==> Fine(q))
            && (w.caller.Ready? ==> q.caller.Closing? && q.sent == w.sent)
  {
  }

  lemma {:induction false} WorkerMove(w: Writer)
    requires Counts(w) && w.caller.Closing? && !w.senderOpen
    ensures var q := Step(w, NextMove(w));
            && ToGo(q) < ToGo(w) && !q.senderOpen && q.sent == w.sent && (q.caller.Closing? || q.caller.Closed?)
            && (Fine(w) ==> Fine(q))
  {
  }

  lemma {:induction false} MoveShrinks(w: Writer)
    requires PendingExact(w) && !w.caller.Closed? && (w.caller.Closing? ==> !w.senderOpen)
    ensures var q := Step(w, NextMove(w));
            && ToGo(q) < ToGo(w) && (q.caller.Closing? ==> !q.senderOpen) && (Fine(w) ==> Fine(q))
            && (w.caller.Ready? || w.caller.Closing? ==>
                  (q.caller.Closing? || q.caller.Closed?) && q.sent == w.sent && !InCall(NextMove(w)))
  {
    PendingCounts(w);
    if w.caller.Closing? {
      WorkerMove(w);
    } else {
      CallerMove(w);
    }
  }

  /** The action is a step inside `write`. */
  predicate InCall(a: Action) { a.Check? || a.Reserve? || a.Send? || a.RollBack? }

  /** The last step of the way: the worker is done. */
  lemma {:induction false} LastMove(w: Writer)
    requires Inv(w) && Fine(w) && !w.caller.Closed? && Step(w, NextMove(w)).caller.Closed?
    ensures Step(w, NextMove(w)).caller.outcome.Ok? <==> |Concat(w.sent)| <= U64_MAX
  {
    assert Completed(w) == w.sent;
  }

  /** The call that closes has its answer: success exactly when the accepted bytes fit. */
  predicate EndsAsItShould(w: Writer, q: Writer) {
    q.caller.Closed? && (Fine(w) ==> (q.caller.outcome.Ok? <==> |Concat(q.sent)| <= U64_MAX))
  }

  predicate NoCall(actions: seq<Action>) {
    forall i {:trigger actions[i]} :: 0 <= i < |actions| ==> !InCall(actions[i])
  }

  lemma {:induction false} NoCallMore(a: Action, rest: seq<Action>)
    requires !InCall(a) && NoCall(rest)
    ensures NoCall([a] + rest)
  {
  }

  lemma {:induction false} WayToTheEnd(w: Writer) returns (more: seq<Action>)
    requires Inv(w) && !w.caller.Closed? && (w.caller.Closing? ==> !w.senderOpen)
    ensures EndsAsItShould(w, Run(w, more))
    ensures w.caller.Ready? || w.caller.Closing? ==> Run(w, more).sent == w.sent && NoCall(more)
    decreases ToGo(w)
  {
    var a := NextMove(w);
    var q := Step(w, a);
    StepKeeps(w, a);
    MoveShrinks(w);
    if q.caller.Closed? {
      more := [a];
      assert more[1..] == [];
      if Fine(w) {
        LastMove(w);
        LastSent(w);
      }
    } else {
      var rest := WayToTheEnd(q);
      more := [a] + rest;
      assert more[1..] == rest;
      if w.caller.Ready? || w.caller.Closing? {
        NoCallMore(a, rest);
      }
    }
  }

  lemma {:induction false} LastSent(w: Writer)
    requires !w.caller.Closed? && Step(w, NextMove(w)).caller.Closed?
    ensures Step(w, NextMove(w)).sent == w.sent
  {
  }

  lemma {:induction false} ClosingIsClosed(w: Writer, actions: seq<Action>)
    requires (w.caller.Closing? || w.caller.Closed? ==> !w.senderOpen)
    ensures var q := Run(w, actions); q.caller.Closing? || q.caller.Closed? ==> !q.senderOpen
    decreases actions
  {
    if actions != [] {
      ClosingIsClosed(Step(w, actions[0]), actions[1..]);
    }
  }

  /** From every state of every run `flush_and_close` can be brought to its answer, in the middle of a `write` too; if
      no write has failed so far, that is success exactly when the accepted bytes fit a u64. */
  lemma {:induction false} FlushCanEnd(start: Writer, actions: seq<Action>) returns (more: seq<Action>)
    requires IsNew(start) && !Run(start, actions).caller.Closed?
    ensures var w := Run(start, actions);
            var q := Run(w, more);
            && q.caller.Closed? && (Fine(w) ==> (q.caller.outcome.Ok? <==> |Concat(q.sent)| <= U64_MAX))
            && (w.caller.Ready? || w.caller.Closing? ==> q.sent == w.sent)
  {
    NewWriterInv(start);
    RunKeeps(start, actions);
    ClosingIsClosed(start, actions);
    more := WayToTheEnd(Run(start, actions));
  }

  // The calling thread

  /** `write`, when no step of the worker falls between its own. */
  function WriteCall(w: Writer, payload: Record): Writer {
    Step(Step(Step(Step(w, Check(payload)), Reserve), Send), RollBack)
  }

  /** One turn of the worker loop, when no step of the caller falls between its own. */
  function WorkerTurn(w: Writer, ok: bool, written: nat): Writer {
    Step(Step(Step(Step(Step(w, Receive), WriteAll(ok, written)), Release), Conclude), Exit)
  }

  /** `write` in one piece. */
  function Offered(w: Writer, payload: Record): (Result<nat>, Writer)
    requires w.caller.Ready?
  {
    var q := if HasError(w) then w.(caller := Ready(Err(WriteFailed)))
             else if !w.senderOpen then w.(caller := Ready(Err(InvalidState)))
             else if w.pending + |payload| > PENDING_BYTES || |w.channel| >= PENDING_RECORDS
             then w.(caller := Ready(Err(WriteFailed)))
             else Counted(w.(pending := w.pending + |payload|), payload);
    (q.caller.last, q)
  }

  lemma {:induction false} WriteCallMeans(w: Writer, payload: Record)
    requires w.caller.Ready?
    ensures WriteCall(w, payload) == Offered(w, payload).1
  {
    var checked := Step(w, Check(payload));
    if checked.caller.Checked? {
      var reserved := Step(checked, Reserve);
      assert reserved == CallerStep(checked, Reserve);
    }
  }

  /** One turn of the worker loop in one piece. */
  function Turned(w: Writer, ok: bool, written: nat): Writer
    requires w.worker.Waiting? && w.channel != [] && written <= |w.channel[0]| <= w.pending
  {
    var payload := w.channel[0];
    var next := w.(channel := w.channel[1..], pending := w.pending - |payload|);
    if ok then next.(file := w.file + payload, records := w.records + 1)
    else next.(file := w.file + payload[..written], worker := Gone(payload, payload[..written]))
  }

  lemma {:induction false} WorkerTurnMeans(w: Writer, ok: bool, written: nat)
    requires w.worker.Waiting? && w.channel != [] && written <= |w.channel[0]| <= w.pending
    ensures WorkerTurn(w, ok, written) == Turned(w, ok, written)
  {
    var put := Step(Step(w, Receive), WriteAll(ok, written));
    assert put.worker == Put(w.channel[0], if ok then w.channel[0] else w.channel[0][..written], ok);
  }

  // A write that is refused and nevertheless sent

  /** A call of `write` answers with an error although its record is in the channel and the digest, exactly when the
      record is admitted and the byte count would overflow. */
  lemma {:induction false} ToldWrongExactly(w: Writer, payload: Record)
    requires w.caller.Ready?
    ensures var (r, q) := Offered(w, payload);
            (r.Err? && q.sent != w.sent) <==>
              (&& !HasError(w) && w.senderOpen
               && w.pending + |payload| <= PENDING_BYTES && |w.channel| < PENDING_RECORDS
               && w.bytes + |payload| > U64_MAX)
  {
    assert |w.sent + [payload]| == |w.sent| + 1;
  }

  lemma {:induction false} RunSnoc(w: Writer, actions: seq<Action>, a: Action)
    ensures Run(w, actions + [a]) == Step(Run(w, actions), a)
    decreases actions
  {
    if actions != [] {
      assert (actions + [a])[1..] == actions[1..] + [a];
      RunSnoc(Step(w, actions[0]), actions[1..], a);
    }
  }

  /** Both threads taking turns over one record is a run. */
  lemma {:induction false} WriteAndTurn(start: Writer, actions: seq<Action>, payload: Record)
    returns (longer: seq<Action>)
    ensures Run(start, longer) == WorkerTurn(WriteCall(Run(start, actions), payload), true, |payload|)
  {
    var a1 := actions + [Check(payload)];
    var a2 := a1 + [Reserve];
    var a3 := a2 + [Send];
    var a4 := a3 + [RollBack];
    var a5 := a4 + [Receive];
    var a6 := a5 + [WriteAll(true, |payload|)];
    var a7 := a6 + [Release];
    var a8 := a7 + [Conclude];
    RunSnoc(start, actions, Check(payload));
    RunSnoc(start, a1, Reserve);
    RunSnoc(start, a2, Send);
    RunSnoc(start, a3, RollBack);
    RunSnoc(start, a4, Receive);
    RunSnoc(start, a5, WriteAll(true, |payload|));
    RunSnoc(start, a6, Release);
    RunSnoc(start, a7, Conclude);
    RunSnoc(start, a8, Exit);
    longer := a8 + [Exit];
  }

  /** Idle, with n bytes written one by one. */
  predicate IdleAt(w: Writer, n: nat) {
    w.caller.Ready? && w.worker.Waiting? && w.senderOpen && |w.channel| == 0 && w.pending == 0 && w.bytes == n
  }

  lemma {:induction false} OneByteMore(w: Writer, n: nat)
    requires IdleAt(w, n) && n < U64_MAX
    ensures IdleAt(WorkerTurn(WriteCall(w, [0]), true, 1), n + 1)
  {
    WriteCallMeans(w, [0]);
    var q := Offered(w, [0]).1;
    assert q.channel == [[0]];
    WorkerTurnMeans(q, true, 1);
  }

  lemma {:induction false} FillTo(start: Writer, n: nat) returns (actions: seq<Action>)
    requires IsNew(start) && n <= U64_MAX
    ensures IdleAt(Run(start, actions), n)
    decreases n
  {
    if n == 0 {
      actions := [];
    } else {
      var before := FillTo(start, n - 1);
      actions := WriteAndTurn(start, before, [0]);
      OneByteMore(Run(start, before), n - 1);
    }
  }

  /** And this happens: behind 2^64 - 1 bytes, one more byte is refused to the caller and sent to the file. */
  lemma {:induction false} OverflowIsReachable(start: Writer) returns (actions: seq<Action>)
    requires IsNew(start)
    ensures var w := Run(start, actions);
            && w.caller.Ready?
            && var (r, q) := Offered(w, [0]);
               q == WriteCall(w, [0]) && r == Err(WriteFailed) && q.sent == w.sent + [[0]] && q.told == w.told
  {
    actions := FillTo(start, U64_MAX);
    WriteCallMeans(Run(start, actions), [0]);
  }

  class ArtifactWriter {
    var channel: seq<Record>
    var senderOpen: bool
    var pending: nat
    var records: nat
    var failed: bool
    var file: seq<Byte>
    var digestInput: seq<Byte>
    var bytes: nat
    ghost var caller: Caller
    ghost var worker: Worker
    ghost var sent: seq<Record>
    ghost var told: seq<Record>

    ghost function View(): Writer
      reads this
    {
      Writer(caller, worker, channel, senderOpen, pending, records, file, digestInput, bytes, sent, told)
    }

    ghost predicate Valid()
      reads this
    {
      (failed <==> worker.Gone?) && (worker.Gone? || worker.Waiting? || worker.Finished?)
    }

    constructor ()
      ensures Valid() && IsNew(View())
    {
      channel, senderOpen, pending, records, failed := [], true, 0, 0, false;
      file, digestInput, bytes := [], [], 0;
      caller, worker, sent, told := Ready(Ok(0)), Waiting, [], [];
    }

    /** A refused record leaves no trace in the backlog, the digest or the channel. */
    method Write(payload: Record) returns (r: Result<nat>)
      requires Valid() && caller.Ready?
      modifies this
      ensures Valid()
      ensures (r, View()) == Offered(old(View()), payload)
      ensures r.Ok? ==> r.value == |payload| && told == old(told) + [payload]
      ensures r.Err? && bytes + |payload| <= U64_MAX ==> View() == old(View()).(caller := Ready(r))
    {
      if failed {
        caller := Ready(Err(WriteFailed));
        return Err(WriteFailed);
      }
      if !senderOpen {
        caller := Ready(Err(InvalidState));
        return Err(InvalidState);
      }
      if pending + |payload| > PENDING_BYTES {
        caller := Ready(Err(WriteFailed));
        return Err(WriteFailed);
      }
      pending := pending + |payload|;
      if |channel| >= PENDING_RECORDS {
        pending := pending - |payload|;
        caller := Ready(Err(WriteFailed));
        return Err(WriteFailed);
      }
      channel := channel + [payload];
      sent := sent + [payload];
      digestInput := digestInput + payload;
      if bytes + |payload| > U64_MAX {
        caller := Ready(Err(WriteFailed));
        return Err(WriteFailed);
      }
      bytes := bytes + |payload|;
      told := told + [payload];
      caller := Ready(Ok(|payload|));
      return Ok(|payload|);
    }

    /** One payload from the channel to the file; a failing write leaves a part of it there and ends the worker. */
    method WriteNext(ok: bool, written: nat)
      requires Valid() && worker.Waiting? && channel != [] && written <= |channel[0]| <= pending
      modifies this
      ensures Valid()
      ensures View() == Turned(old(View()), ok, written)
      ensures failed == !ok
    {
      var payload := channel[0];
      channel := channel[1..];
      file := file + (if ok then payload else payload[..written]);
      pending := pending - |payload|;
      if !ok {
        failed := true;
        worker := Gone(payload, payload[..written]);
        return;
      }
      records := records + 1;
    }
  }
}
