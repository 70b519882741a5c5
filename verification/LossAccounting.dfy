/** Loss accounting between the camera driver and the frame consumer: `run_producer` and `FrameValidator` of
    `native/src/native_camera.rs` over the queue of `native/src/bounded.rs`. */
module LossAccounting {
  import opened Prelude
  import opened BoundedQueue

  const I64_MAX: int := 0x7fff_ffff_ffff_ffff

  // The validator

  datatype FrameValidation = FrameValidation(droppedBefore: nat, queueRejected: nat, sourceGap: nat)

  datatype Validator = Validator(lastSequence: Option<nat>, lastHost: Option<nat>)

  /** `validate`, as a function of the state before the call. */
  function Validated(v: Validator, sequence: int, host: int, valid: bool, hasPayload: bool, dropped: int)
    : (Result<FrameValidation>, Validator)
  {
    if !valid || sequence < 0 || host < 0 || !hasPayload then (Err(BadFrame), v)
    else if dropped < 0 then (Err(InvalidDropAccounting), v)
    else
      var gap := if v.lastSequence.Some? then sequence - v.lastSequence.value - 1 else dropped;
      if v.lastSequence.Some? && sequence <= v.lastSequence.value then (Err(SequenceRegression), v)
      else if dropped > gap then (Err(InvalidDropAccounting), v)
      else if v.lastHost.Some? && host <= v.lastHost.value then (Err(TimestampRegression), v)
      else (Ok(FrameValidation(gap, dropped, gap - dropped)), Validator(Some(sequence), Some(host)))
  }

  class FrameValidator {
    var lastSequence: Option<nat>
    var lastHost: Option<nat>

    ghost function View(): Validator
      reads this
    {
      Validator(lastSequence, lastHost)
    }

    constructor ()
      ensures View() == Validator(None, None)
    {
      lastSequence, lastHost := None, None;
    }

    method Reset()
      modifies this
      ensures View() == Validator(None, None)
    {
      lastSequence := None;
      lastHost := None;
    }

    /** An accepted frame moves both clocks strictly forward and splits the sequence span behind the previous one
        into rejected and missing frames; a refused frame leaves the validator as it was. */
    method Validate(sequence: int, host: int, valid: bool, hasPayload: bool, dropped: int)
      returns (r: Result<FrameValidation>)
      modifies this
      ensures (r, View()) == Validated(old(View()), sequence, host, valid, hasPayload, dropped)
      ensures r.Ok? <==>
                && valid && sequence >= 0 && host >= 0 && hasPayload && dropped >= 0
                && (old(lastSequence).Some? ==> old(lastSequence).value + dropped < sequence)
                && (old(lastHost).Some? ==> old(lastHost).value < host)
      ensures r.Ok? ==> lastSequence == Some(sequence) && lastHost == Some(host)
      ensures r.Err? ==> View() == old(View())
      ensures r.Ok? ==> r.value.queueRejected == dropped
      ensures r.Ok? && old(lastSequence).None? ==> r.value.sourceGap == 0
      ensures r.Ok? ==> r.value.droppedBefore == r.value.queueRejected + r.value.sourceGap
      ensures r.Ok? && old(lastSequence).Some? ==>
                old(lastSequence).value + r.value.droppedBefore + 1 == sequence
    {
      if !valid || sequence < 0 || host < 0 || !hasPayload {
        return Err(BadFrame);
      }
      if dropped < 0 {
        return Err(InvalidDropAccounting);
      }
      var droppedBefore, queueRejected, sourceGap := 0, 0, 0;
      if lastSequence.Some? {
        if sequence <= lastSequence.value {
          return Err(SequenceRegression);
        }
        droppedBefore := sequence - lastSequence.value - 1;
        if dropped > droppedBefore {
          return Err(InvalidDropAccounting);
        }
        queueRejected := dropped;
        sourceGap := droppedBefore - dropped;
      } else if dropped != 0 {
        droppedBefore := dropped;
        queueRejected := dropped;
      }
      if lastHost.Some? && host <= lastHost.value {
        return Err(TimestampRegression);
      }
      lastSequence := Some(sequence);
      lastHost := Some(host);
      return Ok(FrameValidation(droppedBefore, queueRejected, sourceGap));
    }
  }

  // The pipeline from driver to validator

  /** What a queue slot carries: `application_dropped_before` was `pending_rejected` when the frame was built. */
  datatype Frame = Frame(sequence: nat, host: nat, droppedBefore: nat, bytes: nat)

  /** The producer's counter, the queue and the validator, together with what the driver supplied, which pushes were
      refused, which were accepted, and what the consumer was told. */
  datatype Pipeline = Pipeline(
    pendingRejected: nat,
    queue: Queue<Frame>,
    validator: Validator,
    supplied: set<nat>,
    refused: set<nat>,
    accepted: seq<Frame>,
    lastSequence: int,
    lastHost: int,
    delivered: seq<Result<FrameValidation>>)

  datatype Event = Supply(sequence: nat, host: nat, bytes: nat) | Deliver

  function Start(capacity: nat, byteCapacity: nat): Pipeline {
    Pipeline(0, Empty(capacity, byteCapacity), Validator(None, None), {}, {}, [], -1, -1, [])
  }

  /** One iteration of `run_producer`, or one `receive` with the validation of `process_frame` behind it. */
  function Step(p: Pipeline, e: Event): Pipeline
    requires QueueOk(p.queue)
  {
    match e
    case Supply(sequence, host, bytes) =>
      var frame := Frame(sequence, host, p.pendingRejected, bytes);
      var next := p.(supplied := p.supplied + {sequence}, lastSequence := sequence, lastHost := host);
      if Accepts(p.queue, bytes)
      then next.(queue := Pushed(p.queue, frame, bytes), pendingRejected := 0, accepted := p.accepted + [frame])
      else next.(pendingRejected := frame.droppedBefore + 1, refused := p.refused + {sequence})
    case Deliver =>
      var (received, queue) := Popped(p.queue);
      if received.Value? then
        var frame := received.value;
        var (result, validator) := Validated(p.validator, frame.sequence, frame.host, true, true, frame.droppedBefore);
        p.(queue := queue, validator := validator, delivered := p.delivered + [result])
      else p
  }

  /** The driver's promise: sequence numbers and timestamps strictly increase, within the range `process_frame`
      admits. */
  predicate Legal(p: Pipeline, e: Event) {
    e.Supply? ==> p.lastSequence < e.sequence <= I64_MAX && p.lastHost < e.host <= I64_MAX
  }

  // What the steps keep

  function Between(s: set<nat>, low: int, high: int): set<nat> {
    set x | x in s && low < x < high
  }

  function Above(s: set<nat>, low: int): set<nat> {
    set x | x in s && low < x
  }

  /** The sequence number in front of the k-th accepted frame, or -1. */
  function Previous(accepted: seq<Frame>, k: nat): int
    requires k <= |accepted|
  {
    if k == 0 then -1 else accepted[k - 1].sequence
  }

  /** The k-th accepted frame moves both clocks forward, nothing was accepted in front of it since its predecessor,
      and it carries the number of pushes refused in between. */
  ghost predicate FrameAccounted(supplied: set<nat>, refused: set<nat>, accepted: seq<Frame>, k: nat)
    requires k < |accepted|
  {
    var low, high := Previous(accepted, k), accepted[k].sequence;
    && low < high && high in supplied
    && (k > 0 ==> accepted[k - 1].host < accepted[k].host)
    && accepted[k].droppedBefore == |Between(refused, low, high)|
    && Between(supplied, low, high) == Between(refused, low, high)
  }

  /** The producer side: pushes of the driver, split into refused and accepted ones. */
  ghost predicate ProducerOk(p: Pipeline) {
    && p.refused <= p.supplied
    && (forall s :: s in p.supplied ==> s <= p.lastSequence)
    && (forall k {:trigger FrameAccounted(p.supplied, p.refused, p.accepted, k)} :: 0 <= k < |p.accepted| ==>
          FrameAccounted(p.supplied, p.refused, p.accepted, k))
    && var last := Previous(p.accepted, |p.accepted|);
       && last <= p.lastSequence
       && (p.accepted != [] ==> p.accepted[|p.accepted| - 1].host <= p.lastHost)
       && Above(p.supplied, last) == Above(p.refused, last)
       && p.pendingRejected == |Above(p.refused, last)|
  }

  /** The queue holds, in order, the accepted frames that are not delivered yet. */
  ghost predicate QueueHoldsTheRest(p: Pipeline) {
    && QueueOk(p.queue)
    && |p.delivered| + |p.queue.items| == |p.accepted|
    && forall i :: 0 <= i < |p.queue.items| ==> p.queue.items[i].value == p.accepted[|p.delivered| + i]
  }

  /** The answer for the k-th frame, computed from the frame and its predecessor alone. */
  function Expected(accepted: seq<Frame>, k: nat): Result<FrameValidation>
    requires k < |accepted|
  {
    var gap := if k == 0 then accepted[0].droppedBefore
               else Max(accepted[k].sequence - accepted[k - 1].sequence - 1, 0);
    Ok(FrameValidation(gap, accepted[k].droppedBefore, Max(gap - accepted[k].droppedBefore, 0)))
  }

  ghost predicate ConsumerOk(p: Pipeline)
    requires |p.delivered| <= |p.accepted|
  {
    && (forall k :: 0 <= k < |p.delivered| ==> p.delivered[k] == Expected(p.accepted, k))
    && p.validator == (if p.delivered == [] then Validator(None, None)
                       else var last := p.accepted[|p.delivered| - 1];
                            Validator(Some(last.sequence), Some(last.host)))
  }

  ghost predicate Inv(p: Pipeline) {
    ProducerOk(p) && QueueHoldsTheRest(p) && ConsumerOk(p)
  }

  predicate Inside(x: int, low: int, high: int) { low < x < high }

  /** All sequence numbers strictly between low and high. */
  function Range(low: int, high: int): set<nat>
    requires -1 <= low
  {
    set x: nat | low < x < high && Inside(x, low, high)
  }

  lemma {:induction false} RangeSize(low: int, high: int)
    requires -1 <= low < high
    ensures |Range(low, high)| == high - low - 1
    decreases high - low
  {
    if low + 1 < high {
      RangeSize(low, high - 1);
      assert Range(low, high) == Range(low, high - 1) + {high - 1};
    } else {
      assert Range(low, high) == {};
    }
  }

  lemma {:induction false} SubsetSize(a: set<nat>, b: set<nat>)
    requires a <= b
    ensures |a| + |b - a| == |b|
  {
    assert b == a + (b - a);
  }

  /** A frame never carries more refusals than its sequence gap: `invalid_drop_accounting` is out of reach. */
  lemma {:induction false} DropsFitTheGap(supplied: set<nat>, refused: set<nat>, accepted: seq<Frame>, k: nat)
    requires k < |accepted| && FrameAccounted(supplied, refused, accepted, k)
    requires Previous(accepted, k) >= -1
    ensures accepted[k].droppedBefore <= accepted[k].sequence - Previous(accepted, k) - 1
  {
    var low, high := Previous(accepted, k), accepted[k].sequence;
    RangeSize(low, high);
    assert Between(refused, low, high) <= Range(low, high);
    SubsetSize(Between(refused, low, high), Range(low, high));
  }

  lemma {:induction false} FrameStaysAccounted(p: Pipeline, q: Pipeline, k: nat)
    requires k < |p.accepted| <= |q.accepted| && q.accepted[..|p.accepted|] == p.accepted
    requires FrameAccounted(p.supplied, p.refused, p.accepted, k)
    requires forall s :: s in p.supplied ==> s <= p.lastSequence
    requires p.refused <= p.supplied && p.supplied <= q.supplied && p.refused <= q.refused
    requires forall s :: s in q.supplied && s !in p.supplied ==> p.lastSequence < s
    requires forall s :: s in q.refused && s !in p.refused ==> p.lastSequence < s
    ensures FrameAccounted(q.supplied, q.refused, q.accepted, k)
  {
    assert forall i :: 0 <= i < |p.accepted| ==> q.accepted[i] == q.accepted[..|p.accepted|][i] == p.accepted[i];
    var low, high := Previous(p.accepted, k), p.accepted[k].sequence;
    assert Previous(q.accepted, k) == low;
    assert Between(q.refused, low, high) == Between(p.refused, low, high);
    assert Between(q.supplied, low, high) == Between(p.supplied, low, high);
  }

  lemma {:induction false} AcceptedKeepsProducer(p: Pipeline, e: Event)
    requires QueueOk(p.queue) && ProducerOk(p) && Legal(p, e) && e.Supply? && Accepts(p.queue, e.bytes)
    ensures ProducerOk(Step(p, e))
  {
    var q := Step(p, e);
    var last := Previous(p.accepted, |p.accepted|);
    forall k | 0 <= k < |q.accepted| ensures FrameAccounted(q.supplied, q.refused, q.accepted, k) {
      if k < |p.accepted| {
        FrameStaysAccounted(p, q, k);
      } else {
        assert Between(q.refused, last, e.sequence) == Above(p.refused, last);
        assert Between(q.supplied, last, e.sequence) == Above(p.supplied, last);
      }
    }
    assert Above(q.supplied, e.sequence) == {} == Above(q.refused, e.sequence);
  }

  lemma {:induction false} RefusedKeepsProducer(p: Pipeline, e: Event)
    requires QueueOk(p.queue) && ProducerOk(p) && Legal(p, e) && e.Supply? && !Accepts(p.queue, e.bytes)
    ensures ProducerOk(Step(p, e))
  {
    var q := Step(p, e);
    var last := Previous(p.accepted, |p.accepted|);
    forall k | 0 <= k < |q.accepted| ensures FrameAccounted(q.supplied, q.refused, q.accepted, k) {
      FrameStaysAccounted(p, q, k);
    }
    assert Above(q.refused, last) == Above(p.refused, last) + {e.sequence};
    assert Above(q.supplied, last) == Above(p.supplied, last) + {e.sequence};
  }

  lemma {:induction false} SupplyKeepsProducer(p: Pipeline, e: Event)
    requires QueueOk(p.queue) && ProducerOk(p) && Legal(p, e) && e.Supply?
    ensures ProducerOk(Step(p, e))
  {
    if Accepts(p.queue, e.bytes) {
      AcceptedKeepsProducer(p, e);
    } else {
      RefusedKeepsProducer(p, e);
    }
  }

  lemma {:induction false} SupplyKeepsQueue(p: Pipeline, e: Event)
    requires QueueHoldsTheRest(p) && ConsumerOk(p) && e.Supply?
    ensures QueueHoldsTheRest(Step(p, e)) && ConsumerOk(Step(p, e))
  {
    var q := Step(p, e);
    PushKeeps(p.queue, Frame(e.sequence, e.host, p.pendingRejected, e.bytes), e.bytes);
    assert forall k :: 0 <= k < |p.accepted| ==> q.accepted[k] == p.accepted[k];
    forall k | 0 <= k < |q.delivered| ensures q.delivered[k] == Expected(q.accepted, k) {
      assert p.delivered[k] == Expected(p.accepted, k);
    }
  }

  lemma {:induction false} DeliverKeeps(p: Pipeline)
    requires Inv(p)
    ensures Inv(Step(p, Deliver))
  {
    var q := Step(p, Deliver);
    if p.queue.items != [] && !p.queue.closed {
      var k := |p.delivered|;
      assert p.queue.items[0].value == p.accepted[k];
      assert FrameAccounted(p.supplied, p.refused, p.accepted, k);
      DropsFitTheGap(p.supplied, p.refused, p.accepted, k);
      assert q.delivered[k] == Expected(p.accepted, k);
      assert forall i :: 0 <= i < |q.queue.items| ==> q.queue.items[i] == p.queue.items[i + 1];
    }
  }

  /** The state after a run, folded from the left. */
  ghost function Run(p: Pipeline, events: seq<Event>): (q: Pipeline)
    requires Inv(p) && LegalRun(p, events)
    ensures Inv(q)
    decreases events
  {
    if events == [] then p
    else
      StepKeeps(p, events[0]);
      Run(Step(p, events[0]), events[1..])
  }

  ghost predicate LegalRun(p: Pipeline, events: seq<Event>)
    requires Inv(p)
    decreases events
  {
    events == [] ||
    (Legal(p, events[0]) && (StepKeeps(p, events[0]); LegalRun(Step(p, events[0]), events[1..])))
  }

  lemma {:induction false} StepKeeps(p: Pipeline, e: Event)
    requires Inv(p)
    ensures Legal(p, e) ==> Inv(Step(p, e))
  {
    if Legal(p, e) {
      if e.Deliver? {
        DeliverKeeps(p);
      } else {
        SupplyKeepsProducer(p, e);
        SupplyKeepsQueue(p, e);
      }
    }
  }

  /** The sequence numbers between two frames that the driver never supplied. */
  function NeverSupplied(supplied: set<nat>, low: int, high: int): set<nat>
    requires -1 <= low
  {
    Range(low, high) - supplied
  }

  /** What the consumer is told about the k-th delivered frame behind the first is exactly what happened: so many pushes
      refused since the previous delivered frame, so many sequence numbers never supplied, and together with the frame
      itself they make up the span. */
  ghost predicate LossExact(p: Pipeline, k: nat)
    requires 0 < k < |p.delivered| <= |p.accepted|
  {
    var low, high := p.accepted[k - 1].sequence, p.accepted[k].sequence;
    && p.delivered[k].Ok?
    && p.delivered[k].value.queueRejected == |Between(p.refused, low, high)|
    && p.delivered[k].value.sourceGap == |NeverSupplied(p.supplied, low, high)|
    && p.delivered[k].value.droppedBefore == p.delivered[k].value.queueRejected + p.delivered[k].value.sourceGap
    && p.delivered[k].value.droppedBefore + 1 == high - low
  }

  lemma {:induction false} InvMeansExact(p: Pipeline, k: nat)
    requires Inv(p) && 0 < k < |p.delivered|
    ensures LossExact(p, k)
  {
    var low, high := p.accepted[k - 1].sequence, p.accepted[k].sequence;
    assert FrameAccounted(p.supplied, p.refused, p.accepted, k);
    DropsFitTheGap(p.supplied, p.refused, p.accepted, k);
    assert p.delivered[k] == Expected(p.accepted, k);
    RangeSize(low, high);
    assert Between(p.supplied, low, high) <= Range(low, high);
    SubsetSize(Between(p.supplied, low, high), Range(low, high));
    assert NeverSupplied(p.supplied, low, high) == Range(low, high) - Between(p.supplied, low, high);
  }

  /** Loss accounting is exact on every run of a driver whose sequence numbers and timestamps strictly increase:
      no delivery is refused, whatever the queue bounds and however pushes and deliveries interleave. */
  lemma {:induction false} LossAccountingIsExact(capacity: nat, byteCapacity: nat, events: seq<Event>)
    requires (StartOk(capacity, byteCapacity); LegalRun(Start(capacity, byteCapacity), events))
    ensures var p := Run(Start(capacity, byteCapacity), events);
            && (forall k {:trigger p.delivered[k]} :: 0 <= k < |p.delivered| ==> p.delivered[k].Ok?)
            && (forall k {:trigger LossExact(p, k)} :: 0 < k < |p.delivered| ==> LossExact(p, k))
  {
    var p := Run(Start(capacity, byteCapacity), events);
    forall k | 0 <= k < |p.delivered| ensures p.delivered[k].Ok? {
      assert p.delivered[k] == Expected(p.accepted, k);
    }
    forall k | 0 < k < |p.delivered| ensures LossExact(p, k) {
      InvMeansExact(p, k);
    }
  }

  lemma {:induction false} StartOk(capacity: nat, byteCapacity: nat)
    ensures Inv(Start(capacity, byteCapacity))
  {
    assert Above({}, -1) == {};
  }

  /** The two ends of the camera stream around the shared queue. */
  class CameraPipe {
    const channel: Channel<Frame>
    const validator: FrameValidator
    var pendingRejected: nat
    ghost var supplied: set<nat>
    ghost var refused: set<nat>
    ghost var accepted: seq<Frame>
    ghost var lastSequence: int
    ghost var lastHost: int
    ghost var delivered: seq<Result<FrameValidation>>

    ghost function View(): Pipeline
      reads this, channel, validator
    {
      Pipeline(pendingRejected, channel.View(), validator.View(), supplied, refused, accepted, lastSequence, lastHost,
               delivered)
    }

    ghost predicate Valid()
      reads this, channel, validator
    {
      channel.Valid() && Inv(View()) && forall f: Frame :: channel.weight(f) == f.bytes
    }

    constructor (capacity: nat, byteCapacity: nat)
      requires capacity > 0
      ensures Valid() && fresh(channel) && fresh(validator)
      ensures View() == Start(capacity, byteCapacity)
    {
      channel := new Channel<Frame>(capacity, byteCapacity, (f: Frame) => f.bytes);
      validator := new FrameValidator();
      pendingRejected := 0;
      supplied, refused, accepted, lastSequence, lastHost, delivered := {}, {}, [], -1, -1, [];
      new;
      StartOk(capacity, byteCapacity);
    }

    /** One iteration of the loop in `run_producer`. */
    method Produce(sequence: nat, host: nat, bytes: nat)
      requires Valid() && Legal(View(), Supply(sequence, host, bytes))
      modifies this, channel
      ensures Valid()
      ensures View() == Step(old(View()), Supply(sequence, host, bytes))
    {
      StepKeeps(View(), Supply(sequence, host, bytes));
      var frame := Frame(sequence, host, pendingRejected, bytes);
      var pushed := channel.TryPush(frame);
      if pushed {
        pendingRejected := 0;
        accepted := accepted + [frame];
      } else {
        pendingRejected := frame.droppedBefore + 1;
        refused := refused + {sequence};
      }
      supplied, lastSequence, lastHost := supplied + {sequence}, sequence, host;
    }

    /** One frame received and validated; no frame of such a driver is ever refused. */
    method Consume() returns (r: Option<Result<FrameValidation>>)
      requires Valid()
      modifies this, channel, validator
      ensures Valid()
      ensures View() == Step(old(View()), Deliver)
      ensures r.Some? ==> r.value.Ok? && delivered == old(delivered) + [r.value]
      ensures r.None? ==> View() == old(View())
    {
      StepKeeps(View(), Deliver);
      var received := channel.Receive();
      if !received.Value? {
        return None;
      }
      var frame := received.value;
      var validation := validator.Validate(frame.sequence, frame.host, true, true, frame.droppedBefore);
      delivered := delivered + [validation];
      assert validation == Expected(accepted, |delivered| - 1);
      return Some(validation);
    }
  }

  /** Frames, refused pushes and missing sequences of the deliveries 1..n. */
  function Accounted(delivered: seq<Result<FrameValidation>>, n: nat): nat
    requires n <= |delivered| && forall k :: 0 <= k < |delivered| ==> delivered[k].Ok?
  {
    if n <= 1 then n
    else Accounted(delivered, n - 1) + delivered[n - 1].value.queueRejected + delivered[n - 1].value.sourceGap + 1
  }

  /** Conservation: over any run the delivered frames, the refused pushes and the missing sequences behind the first
      delivered frame add up to the span of sequence numbers delivered. */
  lemma {:induction false} LossesFillTheSpan(p: Pipeline, n: nat)
    requires Inv(p) && 0 < n <= |p.delivered| && forall k :: 0 <= k < |p.delivered| ==> p.delivered[k].Ok?
    ensures Accounted(p.delivered, n) == p.accepted[n - 1].sequence - p.accepted[0].sequence + 1
  {
    if n > 1 {
      LossesFillTheSpan(p, n - 1);
      InvMeansExact(p, n - 1);
    }
  }
}
