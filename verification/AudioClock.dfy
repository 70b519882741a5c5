/** Placement of captured samples on the host clock: `native/src/audio_clock.rs`, with f64 taken over exact reals. */
module AudioClock {
  import opened Prelude
  import opened Arithmetic

  /** [sample, alsa_raw, observed_monotonic, raw_before, raw_after] */
  datatype Anchor = Anchor(sample: nat, raw: nat, mono: nat, before: nat, after: nat)

  const MAX_BRACKET_NS: nat := 1_000_000
  const MAX_AGE_NS: nat := 20_000_000
  const MAX_RESIDUAL_NS: real := 20_000_000.0
  const NS_PER_SECOND: real := 1_000_000_000.0

  predicate Bracketed(a: Anchor) {
    a.sample > 0 && a.raw > 0 && a.mono > 0 && a.raw <= a.before <= a.after
  }

  predicate Delayed(a: Anchor)
    requires Bracketed(a)
  {
    a.after - a.before > MAX_BRACKET_NS || a.after - a.raw > MAX_AGE_NS
  }

  /** `mapped_ns`: the hardware instant on the monotonic clock, at most 20 ms before the observation. */
  function MappedNs(a: Anchor): (r: Result<nat>)
    ensures r.Ok? ==> Bracketed(a) && 0 < r.value <= a.mono <= r.value + MAX_AGE_NS
  {
    if !Bracketed(a) || Delayed(a) then Err(AudioFailed)
    else
      var midpoint := a.before + (a.after - a.before) / 2;
      if midpoint - a.raw < a.mono then Ok(a.mono - (midpoint - a.raw)) else Err(AudioFailed)
  }

  /** An anchor is mapped exactly when its bracket is positive, at most 1 ms wide and at most 20 ms behind the hardware
      instant, and that instant lies behind the origin of the monotonic clock. */
  lemma {:induction false} MapsExactly(a: Anchor)
    ensures MappedNs(a).Ok? <==>
              && a.sample > 0 && a.raw > 0 && a.mono > 0 && a.raw <= a.before <= a.after
              && a.after - a.before <= 1_000_000 && a.after - a.raw <= 20_000_000
              && (a.before + a.after) / 2 < a.raw + a.mono
  {
  }

  /** The mapped time is the hardware instant on the monotonic clock: at whatever raw instant t of the bracket that
      clock was read, the two differ by at most half the bracket, and the rounding of a nanosecond. */
  lemma {:induction false} MappedIsTheInstant(a: Anchor, t: nat)
    requires MappedNs(a).Ok? && a.before <= t <= a.after
    ensures var instant := a.mono - (t - a.raw);
            -(a.after - a.before) - 1 <= 2 * (MappedNs(a).value - instant) <= a.after - a.before + 1
  {
  }

  /** `retain_same_point`. */
  function RetainSamePoint(previous: Option<Anchor>, next: Anchor): Anchor {
    if previous.Some? && previous.value.sample == next.sample && previous.value.raw == next.raw
    then previous.value else next
  }

  /** The anchors the capture loop keeps as `last_anchor`, one per read. */
  function Retained(previous: Option<Anchor>, observed: seq<Anchor>): (kept: seq<Anchor>)
    ensures |kept| == |observed|
    decreases observed
  {
    if observed == [] then []
    else
      var first := RetainSamePoint(previous, observed[0]);
      [first] + Retained(Some(first), observed[1..])
  }

  /** Reads that see one hardware point again keep its first row, however often it is seen; a new point keeps its
      own. */
  lemma {:induction false} RetainedRowsNameOnePoint(previous: Option<Anchor>, observed: seq<Anchor>, i: nat)
    requires i < |observed|
    ensures Retained(previous, observed)[i].sample == observed[i].sample
    ensures Retained(previous, observed)[i].raw == observed[i].raw
    ensures i > 0 && observed[i].sample == observed[i - 1].sample && observed[i].raw == observed[i - 1].raw ==>
              Retained(previous, observed)[i] == Retained(previous, observed)[i - 1]
    ensures i > 0 && (observed[i].sample != observed[i - 1].sample || observed[i].raw != observed[i - 1].raw) ==>
              Retained(previous, observed)[i] == observed[i]
    decreases i
  {
    var first := RetainSamePoint(previous, observed[0]);
    if i > 0 {
      RetainedRowsNameOnePoint(Some(first), observed[1..], i - 1);
      if i == 1 {
        assert Retained(previous, observed)[1] == RetainSamePoint(Some(first), observed[1]);
      } else {
        assert observed[1..][i - 1] == observed[i] && observed[1..][i - 2] == observed[i - 1];
      }
    }
  }

  // Sampling one anchor

  /** `observe_anchor`: calls[k] is what the k-th call of `sample` answers. At most three calls; a row is returned with
      its mapped time or reported as rejected, and only a delayed row is worth another call. */
  method ObserveAnchor(calls: seq<Result<Anchor>>) returns (r: Result<(Anchor, nat)>, made: nat, rejected: seq<Anchor>)
    requires |calls| == 3
    ensures 1 <= made <= 3
    ensures forall k :: 0 <= k < made - 1 ==>
              calls[k].Ok? && MappedNs(calls[k].value).Err? && Bracketed(calls[k].value) && Delayed(calls[k].value)
    ensures |rejected| == (if r.Err? && calls[made - 1].Ok? then made else made - 1)
    ensures forall k :: 0 <= k < |rejected| ==> calls[k] == Ok(rejected[k])
    ensures r.Ok? <==> calls[made - 1].Ok? && MappedNs(calls[made - 1].value).Ok?
    ensures r.Ok? ==> calls[made - 1] == Ok(r.value.0) && MappedNs(r.value.0) == Ok(r.value.1)
    ensures r.Err? && made < 3 && calls[made - 1].Ok? ==>
              !Bracketed(calls[made - 1].value) || !Delayed(calls[made - 1].value)
    ensures calls[made - 1].Err? ==> r == Err(calls[made - 1].code)
  {
    made, rejected := 0, [];
    while true
      invariant 0 <= made < 3
      invariant |rejected| == made
      invariant forall k :: 0 <= k < made ==> calls[k] == Ok(rejected[k])
      invariant forall k :: 0 <= k < made ==>
                  calls[k].Ok? && MappedNs(calls[k].value).Err? && Bracketed(calls[k].value) && Delayed(calls[k].value)
      decreases 3 - made
    {
      var sampled := calls[made];
      made := made + 1;
      if sampled.Err? {
        return Err(sampled.code), made, rejected;
      }
      var anchor := sampled.value;
      var mapped := MappedNs(anchor);
      if mapped.Ok? {
        return Ok((anchor, mapped.value)), made, rejected;
      }
      rejected := rejected + [anchor];
      if !(Bracketed(anchor) && Delayed(anchor)) || made == 3 {
        return Err(AudioFailed), made, rejected;
      }
    }
  }

  // The piecewise linear placement

  datatype Point = Point(sample: nat, time: nat)

  ghost predicate Rising(ps: seq<Point>) {
    forall i, j :: 0 <= i < j < |ps| ==> ps[i].sample < ps[j].sample && ps[i].time < ps[j].time
  }

  /** `partition_point(|point| point[0] <= sample)`. */
  function PartitionPoint(ps: seq<Point>, sample: nat): (k: nat)
    ensures k <= |ps|
    ensures forall i :: 0 <= i < k ==> ps[i].sample <= sample
    ensures k < |ps| ==> sample < ps[k].sample
  {
    if ps == [] || sample < ps[0].sample then 0
    else
      assert ps == [ps[0]] + ps[1..];
      1 + PartitionPoint(ps[1..], sample)
  }

  lemma {:induction false} PartitionIs(ps: seq<Point>, sample: nat, k: nat)
    requires Rising(ps) && k <= |ps|
    requires k > 0 ==> ps[k - 1].sample <= sample
    requires k < |ps| ==> sample < ps[k].sample
    ensures PartitionPoint(ps, sample) == k
  {
    if k > 0 {
      assert ps[0].sample <= ps[k - 1].sample;
      PartitionIs(ps[1..], sample, k - 1);
    }
  }

  lemma {:induction false} PartitionMonotone(ps: seq<Point>, a: nat, b: nat)
    requires a <= b
    ensures PartitionPoint(ps, a) <= PartitionPoint(ps, b)
  {
    if ps != [] && ps[0].sample <= a {
      PartitionMonotone(ps[1..], a, b);
    }
  }

  /** The line through two points, at a sample position. */
  function LineAt(first: Point, last: Point, sample: real): real
    requires first.sample < last.sample
  {
    first.time as real
    + (sample - first.sample as real) * (last.time - first.time) as real / (last.sample - first.sample) as real
  }

  /** The upper end of the segment that `sample_time` uses. */
  function SegmentEnd(ps: seq<Point>, sample: nat): (k: nat)
    requires |ps| >= 2
    ensures 1 <= k < |ps|
  {
    Min(Max(PartitionPoint(ps, sample), 1), |ps| - 1)
  }

  function SampleTime(ps: seq<Point>, sample: nat): real
    requires Rising(ps) && |ps| >= 2
  {
    var k := SegmentEnd(ps, sample);
    LineAt(ps[k - 1], ps[k], sample as real)
  }

  lemma {:induction false} QuotientMonotone(a: real, b: real, t: real, n: real)
    requires a < b && t > 0.0 && n > 0.0
    ensures a * t / n < b * t / n
  {
    var p, q := a * t, b * t;
    assert p < q by {
      assert (b - a) * t > 0.0;
    }
    DivideMonotone(p, q, n);
  }

  lemma {:induction false} DivideMonotone(p: real, q: real, n: real)
    requires p < q && n > 0.0
    ensures p / n < q / n
  {
  }

  lemma {:induction false} QuotientCancels(t: real, n: real)
    requires n > 0.0
    ensures n * t / n == t
  {
  }

  lemma {:induction false} LineRises(first: Point, last: Point, a: real, b: real)
    requires first.sample < last.sample && first.time < last.time && a < b
    ensures LineAt(first, last, a) < LineAt(first, last, b)
  {
    QuotientMonotone(a - first.sample as real, b - first.sample as real,
                     (last.time - first.time) as real, (last.sample - first.sample) as real);
  }

  lemma {:induction false} LineMeetsEnds(first: Point, last: Point)
    requires first.sample < last.sample
    ensures LineAt(first, last, first.sample as real) == first.time as real
    ensures LineAt(first, last, last.sample as real) == last.time as real
  {
    QuotientCancels((last.time - first.time) as real, (last.sample - first.sample) as real);
    assert last.sample as real - first.sample as real == (last.sample - first.sample) as real;
  }

  /** The placement meets every point exactly. */
  lemma {:induction false} PlacementMeetsPoints(ps: seq<Point>, i: nat)
    requires Rising(ps) && |ps| >= 2 && i < |ps|
    ensures SampleTime(ps, ps[i].sample) == ps[i].time as real
  {
    PartitionIs(ps, ps[i].sample, i + 1);
    var k := SegmentEnd(ps, ps[i].sample);
    LineMeetsEnds(ps[k - 1], ps[k]);
  }

  /** Sample time rises strictly over every pair of samples, inside the points, between segments and extrapolated. */
  lemma {:induction false} PlacementRises(ps: seq<Point>, a: nat, b: nat)
    requires Rising(ps) && |ps| >= 2 && a < b
    ensures SampleTime(ps, a) < SampleTime(ps, b)
  {
    var i, j := SegmentEnd(ps, a), SegmentEnd(ps, b);
    PartitionMonotone(ps, a, b);
    if i == j {
      LineRises(ps[i - 1], ps[i], a as real, b as real);
    } else {
      // a lies in front of ps[i], b at or behind ps[j - 1].
      assert a < ps[i].sample by {
        var p := PartitionPoint(ps, a);
        assert p < i ==> ps[p].sample < ps[i].sample;
      }
      assert ps[j - 1].sample <= b;
      LineRises(ps[i - 1], ps[i], a as real, ps[i].sample as real);
      LineMeetsEnds(ps[i - 1], ps[i]);
      LineMeetsEnds(ps[j - 1], ps[j]);
      if ps[j - 1].sample < b {
        LineRises(ps[j - 1], ps[j], ps[j - 1].sample as real, b as real);
      }
      assert ps[i].time <= ps[j - 1].time;
    }
  }

  // Acceptance

  datatype Model = Model(start: real, end: real, residual: real)

  /** Each anchor's sample with its mapped time, or the first mapping error. */
  function Points(anchors: seq<Anchor>): (r: Result<seq<Point>>)
    ensures r.Ok? ==> SameSamples(anchors, r.value)
    ensures r.Ok? ==> forall i :: 0 <= i < |anchors| ==> MappedNs(anchors[i]) == Ok(r.value[i].time)
  {
    if anchors == [] then Ok([])
    else
      match MappedNs(anchors[0])
      case Err(code) => Err(code)
      case Ok(mono) =>
        match Points(anchors[1..])
        case Err(code) => Err(code)
        case Ok(rest) => Ok([Point(anchors[0].sample, mono)] + rest)
  }

  predicate SameSamples(anchors: seq<Anchor>, ps: seq<Point>) {
    |ps| == |anchors| && forall i :: 0 <= i < |ps| ==> ps[i].sample == anchors[i].sample
  }

  /** The checks on two neighbouring anchors and their mapped times. */
  predicate StepAccepted(first: Anchor, last: Anchor, mappedFirst: nat, mappedLast: nat, rate: nat, buffer: nat) {
    && first.sample < last.sample && first.raw < last.raw && first.mono < last.mono
    && first.after < last.before && mappedFirst < mappedLast
    && last.sample - first.sample <= Min(rate + buffer, U64_MAX)
    && BridgeRateAccepted(first, last)
  }

  /** The observed host span agrees with the raw span to 1% and half the sum of the brackets. */
  predicate BridgeRateAccepted(first: Anchor, last: Anchor) {
    var span := (last.before - first.before) as real
              + ((last.after - last.before) as real - (first.after - first.before) as real) / 2.0;
    var uncertainty := ((last.after - last.before) as real + (first.after - first.before) as real) / 2.0;
    AbsReal((last.mono - first.mono) as real - span) <= span * 0.01 + uncertainty
  }

  predicate StepAt(anchors: seq<Anchor>, ps: seq<Point>, rate: nat, buffer: nat, i: nat)
    requires |ps| == |anchors| && 1 <= i < |anchors|
  {
    StepAccepted(anchors[i - 1], anchors[i], ps[i - 1].time, ps[i].time, rate, buffer)
  }

  predicate StepsAccepted(anchors: seq<Anchor>, ps: seq<Point>, rate: nat, buffer: nat)
    requires |ps| == |anchors|
  {
    forall i {:trigger StepAt(anchors, ps, rate, buffer, i)} :: 1 <= i < |anchors| ==>
      StepAt(anchors, ps, rate, buffer, i)
  }

  function Slope(first: Anchor, last: Anchor): real
    requires first.sample < last.sample
  {
    (last.raw - first.raw) as real / (last.sample - first.sample) as real
  }

  /** How far an anchor lies from the line of the given slope through the first one. */
  function Deviation(first: Anchor, row: Anchor, slope: real): real {
    AbsReal((row.raw as real - first.raw as real) - (row.sample as real - first.sample as real) * slope)
  }

  function MaxDeviation(first: Anchor, rows: seq<Anchor>, slope: real): real {
    if rows == [] then 0.0
    else
      var rest := MaxDeviation(first, rows[1..], slope);
      if Deviation(first, rows[0], slope) > rest then Deviation(first, rows[0], slope) else rest
  }

  lemma {:induction false} MaxDeviationBounds(first: Anchor, rows: seq<Anchor>, slope: real, i: nat)
    requires i < |rows|
    ensures Deviation(first, rows[i], slope) <= MaxDeviation(first, rows, slope)
  {
    if i > 0 {
      MaxDeviationBounds(first, rows[1..], slope, i - 1);
    }
  }

  lemma {:induction false} StepsMeanRising(anchors: seq<Anchor>, ps: seq<Point>, rate: nat, buffer: nat, i: nat, j: nat)
    requires |ps| == |anchors| && StepsAccepted(anchors, ps, rate, buffer) && i < j < |anchors|
    ensures anchors[i].sample < anchors[j].sample && anchors[i].raw < anchors[j].raw && ps[i].time < ps[j].time
  {
    assert StepAt(anchors, ps, rate, buffer, j);
    if i < j - 1 {
      StepsMeanRising(anchors, ps, rate, buffer, i, j - 1);
    }
  }

  lemma {:induction false} PointsRise(anchors: seq<Anchor>, ps: seq<Point>, rate: nat, buffer: nat)
    requires SameSamples(anchors, ps) && StepsAccepted(anchors, ps, rate, buffer)
    ensures Rising(ps)
  {
    forall i, j | 0 <= i < j < |ps| ensures ps[i].sample < ps[j].sample && ps[i].time < ps[j].time {
      StepsMeanRising(anchors, ps, rate, buffer, i, j);
    }
  }

  predicate CoversCapture(first: Anchor, last: Anchor, samples: nat, period: nat, buffer: nat) {
    && first.sample <= Min(buffer + period, U64_MAX)
    && samples <= last.sample <= Min(samples + buffer, U64_MAX)
  }

  /** Within 1% of nominal, with every anchor within 20 ms of the line. */
  predicate RateAccepted(slope: real, rate: nat, residual: real)
    requires slope > 0.0 && rate > 0
  {
    AbsReal(NS_PER_SECOND / slope / rate as real - 1.0) <= 0.01 && residual <= MAX_RESIDUAL_NS
  }

  lemma {:induction false} SlopePositive(anchors: seq<Anchor>, ps: seq<Point>, rate: nat, buffer: nat)
    requires |ps| == |anchors| >= 2 && StepsAccepted(anchors, ps, rate, buffer)
    ensures anchors[0].sample < anchors[|anchors| - 1].sample
    ensures Slope(anchors[0], anchors[|anchors| - 1]) > 0.0
  {
    var first, last := anchors[0], anchors[|anchors| - 1];
    StepsMeanRising(anchors, ps, rate, buffer, 0, |anchors| - 1);
    QuotientPositive((last.raw - first.raw) as real, (last.sample - first.sample) as real);
  }

  /** The checks of `evaluate` once every anchor is mapped. */
  predicate Accepted(anchors: seq<Anchor>, ps: seq<Point>, rate: nat, samples: nat, period: nat, buffer: nat)
    requires |ps| == |anchors| >= 2 && rate > 0
  {
    && StepsAccepted(anchors, ps, rate, buffer)
    && var first, last := anchors[0], anchors[|anchors| - 1];
       SlopePositive(anchors, ps, rate, buffer);
       && CoversCapture(first, last, samples, period, buffer)
       && RateAccepted(Slope(first, last), rate, MaxDeviation(first, anchors, Slope(first, last)))
  }

  /** `evaluate`. */
  function Evaluate(anchors: seq<Anchor>, rate: nat, samples: nat, period: nat, buffer: nat): Result<Model> {
    if |anchors| < 2 || rate == 0 || samples == 0 || period == 0 || period > buffer then Err(AudioFailed)
    else
      match Points(anchors)
      case Err(code) => Err(code)
      case Ok(ps) =>
        if !Accepted(anchors, ps, rate, samples, period, buffer) then Err(AudioFailed)
        else
          PointsRise(anchors, ps, rate, buffer);
          var first, last := anchors[0], anchors[|anchors| - 1];
          SlopePositive(anchors, ps, rate, buffer);
          Ok(Model(SampleTime(ps, 0), SampleTime(ps, samples), MaxDeviation(first, anchors, Slope(first, last))))
  }

  /** The placement meets every point and rises over all samples. */
  ghost predicate PlacesSamples(ps: seq<Point>) {
    && |ps| >= 2 && Rising(ps)
    && (forall i {:trigger ps[i]} :: 0 <= i < |ps| ==> SampleTime(ps, ps[i].sample) == ps[i].time as real)
    && (forall a: nat, b: nat :: a < b ==> SampleTime(ps, a) < SampleTime(ps, b))
  }

  lemma {:induction false} RisingPointsPlaceSamples(ps: seq<Point>)
    requires |ps| >= 2 && Rising(ps)
    ensures PlacesSamples(ps)
  {
    forall i | 0 <= i < |ps| ensures SampleTime(ps, ps[i].sample) == ps[i].time as real {
      PlacementMeetsPoints(ps, i);
    }
    forall a: nat, b: nat | a < b ensures SampleTime(ps, a) < SampleTime(ps, b) {
      PlacementRises(ps, a, b);
    }
  }

  lemma {:induction false} AcceptedModel(anchors: seq<Anchor>, ps: seq<Point>, rate: nat, samples: nat, period: nat,
                                         buffer: nat)
    requires Points(anchors) == Ok(ps) && Evaluate(anchors, rate, samples, period, buffer).Ok?
    ensures |ps| >= 2 && Rising(ps) && samples > 0
    ensures Evaluate(anchors, rate, samples, period, buffer).value.start == SampleTime(ps, 0)
    ensures Evaluate(anchors, rate, samples, period, buffer).value.end == SampleTime(ps, samples)
  {
    PointsRise(anchors, ps, rate, buffer);
  }

  /** What acceptance means for the clock: the mapped points place samples monotonically through every anchor,
      the model's bounds are the places of sample 0 and of the sample count, and start precedes end. */
  lemma {:induction false} AcceptedClockIsMonotone(anchors: seq<Anchor>, ps: seq<Point>, rate: nat, samples: nat,
                                                   period: nat, buffer: nat, model: Model)
    requires Points(anchors) == Ok(ps) && Evaluate(anchors, rate, samples, period, buffer) == Ok(model)
    ensures PlacesSamples(ps)
    ensures model.start == SampleTime(ps, 0) < SampleTime(ps, samples) == model.end
  {
    AcceptedModel(anchors, ps, rate, samples, period, buffer);
    PlacementRises(ps, 0, samples);
    RisingPointsPlaceSamples(ps);
  }

  lemma {:induction false} DeviationsAdd(a: real, b: real, x: real, y: real, slope: real, bound: real)
    requires AbsReal(a - x * slope) <= bound && AbsReal(b - y * slope) <= bound
    ensures AbsReal((b - a) - (y - x) * slope) <= 2.0 * bound
  {
    assert (y - x) * slope == y * slope - x * slope;
  }

  lemma {:induction false} AnchorsStayTogether(anchors: seq<Anchor>, slope: real, bound: real, i: nat, j: nat)
    requires i < |anchors| && j < |anchors| && MaxDeviation(anchors[0], anchors, slope) <= bound
    ensures AbsReal((anchors[j].raw as real - anchors[i].raw as real)
                    - (anchors[j].sample as real - anchors[i].sample as real) * slope) <= 2.0 * bound
  {
    MaxDeviationBounds(anchors[0], anchors, slope, i);
    MaxDeviationBounds(anchors[0], anchors, slope, j);
    DeviationsCombine(anchors[0], anchors[i], anchors[j], slope, bound);
  }

  lemma {:induction false} DeviationsCombine(first: Anchor, p: Anchor, q: Anchor, slope: real, bound: real)
    requires Deviation(first, p, slope) <= bound && Deviation(first, q, slope) <= bound
    ensures AbsReal((q.raw as real - p.raw as real) - (q.sample as real - p.sample as real) * slope) <= 2.0 * bound
  {
    var x, y := p.sample as real - first.sample as real, q.sample as real - first.sample as real;
    var a, b := p.raw as real - first.raw as real, q.raw as real - first.raw as real;
    DeviationsAdd(a, b, x, y, slope, bound);
    assert y - x == q.sample as real - p.sample as real && b - a == q.raw as real - p.raw as real;
  }

  /** One common rate, within 1% of nominal, and any two anchors within 40 ms of it: no gap hides between them. */
  lemma {:induction false} AcceptedAnchorsShareOneRate(anchors: seq<Anchor>, rate: nat, samples: nat, period: nat,
                                                       buffer: nat, i: nat, j: nat) returns (slope: real)
    requires Evaluate(anchors, rate, samples, period, buffer).Ok? && i < |anchors| && j < |anchors|
    ensures slope > 0.0 && rate > 0
    ensures AbsReal(NS_PER_SECOND / slope / rate as real - 1.0) <= 0.01
    ensures AbsReal((anchors[j].raw as real - anchors[i].raw as real)
                    - (anchors[j].sample as real - anchors[i].sample as real) * slope) <= 40_000_000.0
  {
    var ps := Points(anchors).value;
    SlopePositive(anchors, ps, rate, buffer);
    slope := Slope(anchors[0], anchors[|anchors| - 1]);
    assert RateAccepted(slope, rate, MaxDeviation(anchors[0], anchors, slope));
    AnchorsStayTogether(anchors, slope, MAX_RESIDUAL_NS, i, j);
  }

  /** Acceptance also covers the captured samples: every sample has an anchor at or behind it, within one second,
      a buffer and a period. */
  lemma {:induction false} AcceptedAnchorsCoverTheCapture(anchors: seq<Anchor>, rate: nat, samples: nat, period: nat,
                                                          buffer: nat, at: nat) returns (i: nat)
    requires Evaluate(anchors, rate, samples, period, buffer).Ok? && at <= samples
    ensures i < |anchors| && at <= anchors[i].sample <= at + rate + buffer + period
  {
    var ps := Points(anchors).value;
    i := FirstAnchorAt(anchors, at);
    if i > 0 {
      assert StepAt(anchors, ps, rate, buffer, i);
    }
  }

  lemma {:induction false} FirstAnchorAt(anchors: seq<Anchor>, at: nat) returns (i: nat)
    requires anchors != [] && at <= anchors[|anchors| - 1].sample
    ensures i < |anchors| && at <= anchors[i].sample
    ensures i > 0 ==> anchors[i - 1].sample < at
  {
    i := 0;
    while anchors[i].sample < at
      invariant 0 <= i < |anchors|
      invariant i > 0 ==> anchors[i - 1].sample < at
      decreases |anchors| - i
    {
      i := i + 1;
    }
  }

  // A regular clock

  const SECOND_NS: nat := 1_000_000_000

  /** The anchor i seconds behind `start` on a clock that runs at its nominal rate. */
  function RegularAnchor(start: Anchor, rate: nat, i: nat): Anchor {
    var ns := i * SECOND_NS;
    Anchor(start.sample + i * rate, start.raw + ns, start.mono + ns, start.before + ns, start.after + ns)
  }

  /** One anchor every second. */
  function RegularAnchors(start: Anchor, rate: nat, n: nat): (r: seq<Anchor>)
    ensures |r| == n && forall i :: 0 <= i < n ==> r[i] == RegularAnchor(start, rate, i)
  {
    if n == 0 then [] else RegularAnchors(start, rate, n - 1) + [RegularAnchor(start, rate, n - 1)]
  }

  lemma {:induction false} RegularMaps(start: Anchor, rate: nat, i: nat)
    requires MappedNs(start).Ok?
    ensures MappedNs(RegularAnchor(start, rate, i)) == Ok(MappedNs(start).value + i * SECOND_NS)
  {
  }

  lemma {:induction false} PointsOfMapped(anchors: seq<Anchor>)
    requires forall i :: 0 <= i < |anchors| ==> MappedNs(anchors[i]).Ok?
    ensures Points(anchors).Ok?
    decreases |anchors|
  {
    if anchors != [] {
      PointsOfMapped(anchors[1..]);
    }
  }

  lemma {:induction false} RegularStep(start: Anchor, rate: nat, buffer: nat, i: nat)
    requires MappedNs(start).Ok? && 0 < rate <= U32_MAX && i > 0
    ensures var first, last := RegularAnchor(start, rate, i - 1), RegularAnchor(start, rate, i);
            StepAccepted(first, last, MappedNs(start).value + (i - 1) * SECOND_NS,
                         MappedNs(start).value + i * SECOND_NS, rate, buffer)
  {
    assert i * rate == (i - 1) * rate + rate;
  }

  lemma {:induction false} QuotientReduces(k: nat, a: nat, b: nat)
    requires k > 0 && b > 0
    ensures k * b > 0 && (k * a) as real / (k * b) as real == a as real / b as real
  {
    var q := a as real / b as real;
    assert b as real * q == a as real;
    assert (k * a) as real == k as real * a as real && (k * b) as real == k as real * b as real;
    assert k as real * (b as real * q) == (k as real * b as real) * q;
  }

  lemma {:induction false} RegularSlope(start: Anchor, rate: nat, n: nat)
    requires rate > 0 && n >= 2
    ensures var first, last := RegularAnchor(start, rate, 0), RegularAnchor(start, rate, n - 1);
            first.sample < last.sample && Slope(first, last) == NS_PER_SECOND / rate as real
  {
    var first, last := RegularAnchor(start, rate, 0), RegularAnchor(start, rate, n - 1);
    QuotientReduces(n - 1, SECOND_NS, rate);
    assert last.sample - first.sample == (n - 1) * rate && last.raw - first.raw == (n - 1) * SECOND_NS;
  }

  lemma {:induction false} NominalRate(rate: nat, slope: real)
    requires rate > 0 && slope == NS_PER_SECOND / rate as real
    ensures slope > 0.0 && rate as real * slope == NS_PER_SECOND && NS_PER_SECOND / slope / rate as real == 1.0
  {
    assert NS_PER_SECOND / slope == rate as real;
  }

  lemma {:induction false} RegularDeviation(start: Anchor, rate: nat, slope: real, i: nat)
    requires rate as real * slope == NS_PER_SECOND
    ensures Deviation(RegularAnchor(start, rate, 0), RegularAnchor(start, rate, i), slope) == 0.0
  {
    var first, row := RegularAnchor(start, rate, 0), RegularAnchor(start, rate, i);
    assert row.sample as real - first.sample as real == i as real * rate as real;
    assert row.raw as real - first.raw as real == i as real * NS_PER_SECOND;
    assert (i as real * rate as real) * slope == i as real * (rate as real * slope);
  }

  lemma {:induction false} NoDeviation(first: Anchor, rows: seq<Anchor>, slope: real)
    requires forall i :: 0 <= i < |rows| ==> Deviation(first, rows[i], slope) == 0.0
    ensures MaxDeviation(first, rows, slope) == 0.0
    decreases |rows|
  {
    if rows != [] {
      NoDeviation(first, rows[1..], slope);
    }
  }

  lemma {:induction false} RegularStepsAccepted(start: Anchor, rate: nat, buffer: nat, n: nat, ps: seq<Point>)
    requires MappedNs(start).Ok? && 0 < rate <= U32_MAX && Points(RegularAnchors(start, rate, n)) == Ok(ps)
    ensures StepsAccepted(RegularAnchors(start, rate, n), ps, rate, buffer)
  {
    var anchors := RegularAnchors(start, rate, n);
    forall i | 1 <= i < n ensures StepAt(anchors, ps, rate, buffer, i) {
      RegularMaps(start, rate, i - 1);
      RegularMaps(start, rate, i);
      RegularStep(start, rate, buffer, i);
    }
  }

  lemma {:induction false} Distributes(x: real, j: real, r: real, n: real)
    ensures (x - j * r) * n == x * n - (j * n) * r
  {
  }

  lemma {:induction false} QuotientSplits(a: real, b: real, r: real)
    requires r > 0.0
    ensures (a - b * r) / r == a / r - b
  {
  }

  /** The time of a sample on a clock that runs at its nominal rate through `time` at sample `origin`. */
  function NominalTime(time: nat, origin: nat, rate: nat, sample: nat): real
    requires rate > 0
  {
    time as real + (sample as real - origin as real) * NS_PER_SECOND / rate as real
  }

  lemma {:induction false} LineArithmetic(x: real, r: real, k: real, m: real)
    requires r > 0.0
    ensures (m + k * NS_PER_SECOND) + (x - k * r) * NS_PER_SECOND / r == m + x * NS_PER_SECOND / r
  {
    Distributes(x, k, r, NS_PER_SECOND);
    QuotientSplits(x * NS_PER_SECOND, k * NS_PER_SECOND, r);
  }

  /** The line through one second of a regular clock is the line through all of them. */
  lemma {:induction false} SegmentOnLine(p: Point, q: Point, time: nat, origin: nat, rate: nat, j: nat, sample: nat)
    requires rate > 0 && p.sample == origin + j * rate && p.time == time + j * SECOND_NS
    requires q.sample == p.sample + rate && q.time == p.time + SECOND_NS
    ensures LineAt(p, q, sample as real) == NominalTime(time, origin, rate, sample)
  {
    var x, r, k := sample as real - origin as real, rate as real, j as real;
    assert p.sample as real == origin as real + k * r;
    assert p.time as real == time as real + k * NS_PER_SECOND;
    assert sample as real - p.sample as real == x - k * r;
    assert (q.time - p.time) as real == NS_PER_SECOND && (q.sample - p.sample) as real == r;
    LineArithmetic(x, r, k, time as real);
  }

  predicate RegularPoint(ps: seq<Point>, time: nat, origin: nat, rate: nat, i: nat) {
    i < |ps| && ps[i].sample == origin + i * rate && ps[i].time == time + i * SECOND_NS
  }

  lemma {:induction false} OneMore(j: nat, rate: nat)
    ensures (j + 1) * rate == j * rate + rate
  {
  }

  lemma {:induction false} RegularStretch(ps: seq<Point>, time: nat, origin: nat, rate: nat, k: nat, sample: nat)
    requires rate > 0 && k > 0
    requires RegularPoint(ps, time, origin, rate, k - 1) && RegularPoint(ps, time, origin, rate, k)
    ensures ps[k - 1].sample < ps[k].sample
    ensures LineAt(ps[k - 1], ps[k], sample as real) == NominalTime(time, origin, rate, sample)
  {
    OneMore(k - 1, rate);
    SegmentOnLine(ps[k - 1], ps[k], time, origin, rate, k - 1, sample);
  }

  /** So every sample of a regular clock is placed on one line. */
  lemma {:induction false} RegularTime(ps: seq<Point>, time: nat, origin: nat, rate: nat, sample: nat)
    requires rate > 0 && |ps| >= 2 && Rising(ps)
    requires forall i: nat {:trigger RegularPoint(ps, time, origin, rate, i)} :: i < |ps| ==>
               RegularPoint(ps, time, origin, rate, i)
    ensures SampleTime(ps, sample) == NominalTime(time, origin, rate, sample)
  {
    var k := SegmentEnd(ps, sample);
    assert RegularPoint(ps, time, origin, rate, k - 1) && RegularPoint(ps, time, origin, rate, k);
    RegularStretch(ps, time, origin, rate, k, sample);
  }

  lemma {:induction false} RegularPointsAre(start: Anchor, rate: nat, n: nat, ps: seq<Point>, i: nat)
    requires MappedNs(start).Ok? && Points(RegularAnchors(start, rate, n)) == Ok(ps) && i < n
    ensures RegularPoint(ps, MappedNs(start).value, start.sample, rate, i)
  {
    RegularMaps(start, rate, i);
  }

  lemma {:induction false} RegularIsAccepted(start: Anchor, rate: nat, n: nat, samples: nat, period: nat,
                                             buffer: nat)
    requires MappedNs(start).Ok? && 0 < rate <= U32_MAX && n >= 2
    requires samples > 0 && 0 < period <= buffer
    requires CoversCapture(start, RegularAnchor(start, rate, n - 1), samples, period, buffer)
    ensures var r := Evaluate(RegularAnchors(start, rate, n), rate, samples, period, buffer);
            r.Ok? && r.value.residual == 0.0
  {
    var anchors := RegularAnchors(start, rate, n);
    forall i | 0 <= i < n ensures MappedNs(anchors[i]).Ok? {
      RegularMaps(start, rate, i);
    }
    PointsOfMapped(anchors);
    var ps := Points(anchors).value;
    RegularStepsAccepted(start, rate, buffer, n, ps);
    RegularSlope(start, rate, n);
    var slope := Slope(anchors[0], anchors[n - 1]);
    NominalRate(rate, slope);
    forall i | 0 <= i < n ensures Deviation(anchors[0], anchors[i], slope) == 0.0 {
      RegularDeviation(start, rate, slope, i);
    }
    NoDeviation(anchors[0], anchors, slope);
  }

  /** Acceptance is within reach: any clock that runs at its nominal rate, anchored every second from an anchor that
      maps, is accepted as soon as its anchors cover the capture. Nothing deviates from its line, and sample 0 and the
      last one are placed on that line. */
  lemma {:induction false} RegularClockIsAccepted(start: Anchor, rate: nat, n: nat, samples: nat, period: nat,
                                                  buffer: nat)
    requires MappedNs(start).Ok? && 0 < rate <= U32_MAX && n >= 2
    requires samples > 0 && 0 < period <= buffer
    requires CoversCapture(start, RegularAnchor(start, rate, n - 1), samples, period, buffer)
    ensures var r := Evaluate(RegularAnchors(start, rate, n), rate, samples, period, buffer);
            && r.Ok? && r.value.residual == 0.0
            && r.value.start == NominalTime(MappedNs(start).value, start.sample, rate, 0)
            && r.value.end == NominalTime(MappedNs(start).value, start.sample, rate, samples)
  {
    RegularIsAccepted(start, rate, n, samples, period, buffer);
    RegularPlacement(start, rate, n, samples, period, buffer);
  }

  lemma {:induction false} RegularPlacement(start: Anchor, rate: nat, n: nat, samples: nat, period: nat, buffer: nat)
    requires MappedNs(start).Ok? && rate > 0
    requires Evaluate(RegularAnchors(start, rate, n), rate, samples, period, buffer).Ok?
    ensures var model := Evaluate(RegularAnchors(start, rate, n), rate, samples, period, buffer).value;
            && model.start == NominalTime(MappedNs(start).value, start.sample, rate, 0)
            && model.end == NominalTime(MappedNs(start).value, start.sample, rate, samples)
  {
    var ps := Points(RegularAnchors(start, rate, n)).value;
    AcceptedModel(RegularAnchors(start, rate, n), ps, rate, samples, period, buffer);
    forall i: nat | i < |ps| ensures RegularPoint(ps, MappedNs(start).value, start.sample, rate, i) {
      RegularPointsAre(start, rate, n, ps, i);
    }
    RegularTime(ps, MappedNs(start).value, start.sample, rate, 0);
    RegularTime(ps, MappedNs(start).value, start.sample, rate, samples);
  }
}
