/** IMU packet timing: `TimestampUnwrapper`, `TimeSynchronizer` and `observe_packet` of `native/src/imu.rs`.
    f64 arithmetic is taken over exact reals. */
module Imu {
  import opened Prelude
  import opened Arithmetic
  import opened LeastSquares

  // Counter unwrapping

  datatype Unwrapper = Unwrapper(modulus: nat, raw: Option<nat>, unwrapped: Option<nat>)

  ghost predicate UnwrapperOk(u: Unwrapper) {
    && u.modulus > 0
    && (u.raw.Some? <==> u.unwrapped.Some?)
    && (u.raw.Some? ==> u.raw.value < u.modulus)
  }

  function SaturatingAdd(a: nat, b: nat): nat { Min(a + b, U64_MAX) }

  /** `update`, as a function of the state before the call. */
  function Unwrap(u: Unwrapper, raw: nat): (r: (Result<nat>, Unwrapper))
    requires u.modulus > 0 && (u.raw.Some? ==> u.unwrapped.Some? && u.raw.value < u.modulus)
  {
    if raw >= u.modulus then (Err(InvalidTimestamp), u)
    else if u.raw.None? then (Ok(raw), u.(raw := Some(raw), unwrapped := Some(raw)))
    else
      var delta := (raw + u.modulus - u.raw.value) % u.modulus;
      if delta == 0 then (Ok(u.unwrapped.value), u)
      else if delta > u.modulus / 2 then (Err(TimestampRegression), u)
      else
        var current := SaturatingAdd(u.unwrapped.value, delta);
        (Ok(current), u.(raw := Some(raw), unwrapped := Some(current)))
  }

  class TimestampUnwrapper {
    const modulus: nat
    var raw: Option<nat>
    var unwrapped: Option<nat>

    ghost function View(): Unwrapper
      reads this
    {
      Unwrapper(modulus, raw, unwrapped)
    }

    ghost predicate Valid()
      reads this
    {
      UnwrapperOk(View())
    }

    constructor (modulus: nat)
      requires modulus > 0
      ensures Valid() && View() == Unwrapper(modulus, None, None)
    {
      this.modulus := modulus;
      raw, unwrapped := None, None;
    }

    method Update(raw: nat) returns (r: Result<nat>)
      requires Valid()
      modifies this
      ensures Valid()
      ensures (r, View()) == Unwrap(old(View()), raw)
      ensures r.Err? ==> View() == old(View())
    {
      if raw >= modulus {
        return Err(InvalidTimestamp);
      }
      if this.raw.None? {
        this.raw := Some(raw);
        unwrapped := Some(raw);
        return Ok(raw);
      }
      var delta := (raw + modulus - this.raw.value) % modulus;
      if delta == 0 {
        return Ok(unwrapped.value);
      }
      if delta > modulus / 2 {
        return Err(TimestampRegression);
      }
      var current := SaturatingAdd(unwrapped.value, delta);
      this.raw := Some(raw);
      unwrapped := Some(current);
      return Ok(current);
    }
  }

  /** The reduced difference of two counter values is the reduced advance. */
  lemma {:induction false} ReducedAdvance(t: nat, d: nat, m: nat)
    requires m > 0
    ensures ((t + d) % m + m - t % m) % m == d % m
  {
    var raw := (t + d) % m;
    var x := raw + m - t % m;
    // Both x and d leave t + d (mod m) when t is added, so they agree modulo m.
    var q := t / m;
    var p := (t + d) / m;
    assert t == m * q + t % m && t + d == m * p + raw;
    DivMonotone(t, t + d, m);
    assert x + m * (p - q) == d + m by {
      assert m * (p - q) == m * p - m * q;
    }
    ModPlusMultiple(x, p - q, m);
    ModPlusModulus(d, m);
  }

  /** u has followed a device counter that now stands at `truth`, `base` below it. */
  ghost predicate Follows(u: Unwrapper, truth: nat, base: nat) {
    && UnwrapperOk(u)
    && base <= truth
    && u.raw == Some(truth % u.modulus)
    && u.unwrapped == Some(truth - base)
  }

  /** One packet: the unwrapped count follows the device counter exactly when that advanced by at most half the
      modulus. */
  lemma {:induction false} UnwrapIsExactIff(u: Unwrapper, truth: nat, base: nat, advance: nat)
    requires Follows(u, truth, base) && truth + advance - base <= U64_MAX
    ensures Unwrap(u, (truth + advance) % u.modulus).0 == Ok(truth + advance - base) <==> advance <= u.modulus / 2
    ensures advance <= u.modulus / 2 ==>
              Follows(Unwrap(u, (truth + advance) % u.modulus).1, truth + advance, base)
  {
    var m := u.modulus;
    var delta := advance % m;
    ReducedAdvance(truth, advance, m);
    if advance < m {
      DivModUnique(advance, m, 0, advance);
    } else {
      assert delta < m <= advance;
    }
    if delta == 0 && advance < m {
      ModPlusModulus(truth, m);
    }
  }

  /** The limit is met: a counter that wraps once between two packets and one tick more is read as one tick. */
  lemma {:induction false} WrapIsMissed(u: Unwrapper, truth: nat, base: nat)
    requires Follows(u, truth, base) && u.modulus >= 2 && truth + 1 - base <= U64_MAX
    ensures Unwrap(u, (truth + u.modulus + 1) % u.modulus).0 == Ok(truth + 1 - base)
  {
    ModPlusModulus(truth + 1, u.modulus);
    UnwrapIsExactIff(u, truth, base, 1);
  }

  /** The unwrapped counts of a run of raw readings. */
  function UnwrapRun(u: Unwrapper, raws: seq<nat>): (r: seq<Result<nat>>)
    requires UnwrapperOk(u)
    ensures |r| == |raws|
    decreases raws
  {
    if raws == [] then []
    else
      var (first, next) := Unwrap(u, raws[0]);
      [first] + UnwrapRun(next, raws[1..])
  }

  function Reduced(truth: seq<nat>, modulus: nat): seq<nat>
    requires modulus > 0
  {
    if truth == [] then [] else [truth[0] % modulus] + Reduced(truth[1..], modulus)
  }

  /** The counter values of truth, shifted down by base: what the unwrapper should answer. */
  function Shifted(truth: seq<nat>, base: nat): seq<Result<int>> {
    if truth == [] then [] else [Ok(truth[0] - base)] + Shifted(truth[1..], base)
  }

  /** From `last` on, truth never falls, advances by at most `step` at a time, and stays below `limit`. */
  ghost predicate Advances(last: nat, truth: seq<nat>, step: nat, limit: nat)
    decreases truth
  {
    truth == [] || (last <= truth[0] <= last + step && truth[0] <= limit && Advances(truth[0], truth[1..], step, limit))
  }

  lemma {:induction false} UnwrapRunFollows(u: Unwrapper, last: nat, base: nat, truth: seq<nat>)
    requires Follows(u, last, base) && Advances(last, truth, u.modulus / 2, U64_MAX + base)
    ensures UnwrapRun(u, Reduced(truth, u.modulus)) == Shifted(truth, base)
    decreases truth
  {
    if truth != [] {
      var raws := Reduced(truth, u.modulus);
      assert raws[0] == truth[0] % u.modulus && raws[1..] == Reduced(truth[1..], u.modulus);
      UnwrapIsExactIff(u, last, base, truth[0] - last);
      UnwrapRunFollows(Unwrap(u, raws[0]).1, truth[0], base, truth[1..]);
    }
  }

  function WrapsBefore(first: nat, modulus: nat): (base: nat)
    requires modulus > 0
    ensures base <= first && first - base == first % modulus
  {
    first / modulus * modulus
  }

  /** Counter unwrapping over a whole run: a device counter that advances by at most half the modulus per packet
      comes back up to one constant, the multiple of the modulus below its first value. */
  lemma {:induction false} UnwrappingRestoresTheCounter(modulus: nat, first: nat, rest: seq<nat>)
    requires modulus > 0 && first % modulus <= U64_MAX
    requires Advances(first, rest, modulus / 2, U64_MAX + WrapsBefore(first, modulus))
    ensures UnwrapRun(Unwrapper(modulus, None, None), Reduced([first] + rest, modulus))
         == Shifted([first] + rest, WrapsBefore(first, modulus))
  {
    var base := WrapsBefore(first, modulus);
    var raws := Reduced([first] + rest, modulus);
    assert ([first] + rest)[1..] == rest;
    assert raws[0] == first % modulus && raws[1..] == Reduced(rest, modulus);
    UnwrapRunFollows(Unwrap(Unwrapper(modulus, None, None), raws[0]).1, first, base, rest);
  }

  // Clock synchronisation

  datatype Quality = Insufficient | Degraded | Good

  datatype SyncEstimate = SyncEstimate(offset: Option<int>, residual: Option<nat>, quality: Quality)

  const MINIMUM_POINTS: nat := 3
  const WINDOW_POINTS: nat := 64
  const GOOD_RESIDUAL_NS: nat := 1_000_000

  datatype Synchronizer = Synchronizer(points: seq<SyncPoint>, lastHost: Option<nat>)

  /** What every run of `add` keeps. */
  ghost predicate SynchronizerOk(s: Synchronizer) {
    && |s.points| <= WINDOW_POINTS
    && Increasing(s.points)
    && (s.points != [] ==> s.lastHost.Some? && s.points[|s.points| - 1].host <= s.lastHost.value)
  }

  const NO_FIT := SyncEstimate(None, None, Insufficient)

  function Midpoint(start: nat, end: nat): nat
    requires start <= end
  {
    start + (end - start) / 2
  }

  function MaxUncertainty(ps: seq<SyncPoint>): nat {
    if ps == [] then 0 else Max(ps[0].uncertainty, MaxUncertainty(ps[1..]))
  }

  function MaxAbs(v: seq<real>): real {
    if v == [] then 0.0
    else
      var rest := MaxAbs(v[1..]);
      if AbsReal(v[0]) > rest then AbsReal(v[0]) else rest
  }

  /** `f64::round`: half away from zero. */
  function Round(x: real): int {
    if x >= 0.0 then (x + 0.5).Floor else -((0.5 - x).Floor)
  }

  /** `fit_residual.ceil() as u64 + uncertainty`. */
  function FitResidual(ps: seq<SyncPoint>, l: Line): int {
    Ceil(MaxAbs(Residuals(ps, l))) + MaxUncertainty(ps)
  }

  /** `estimate`. */
  function Estimate(ps: seq<SyncPoint>): Result<SyncEstimate> {
    if |ps| < MINIMUM_POINTS then Ok(NO_FIT)
    else if Spread(ps) == 0.0 then Ok(NO_FIT)
    else
      var l := Fit(ps);
      if l.scale <= 0.0 then Err(InvalidClockFit)
      else
        MaxAbsNonNegative(Residuals(ps, l));
        var residual := FitResidual(ps, l);
        Ok(SyncEstimate(Some(Round(l.offset)), Some(residual),
                        if residual > GOOD_RESIDUAL_NS then Degraded else Good))
  }

  lemma {:induction false} MaxAbsNonNegative(v: seq<real>)
    ensures MaxAbs(v) >= 0.0 && Ceil(MaxAbs(v)) >= 0
    ensures forall i :: 0 <= i < |v| ==> AbsReal(v[i]) <= MaxAbs(v)
  {
    if v != [] {
      MaxAbsNonNegative(v[1..]);
      assert v == [v[0]] + v[1..];
    }
  }

  lemma {:induction false} MaxUncertaintyBounds(ps: seq<SyncPoint>)
    ensures forall i :: 0 <= i < |ps| ==> ps[i].uncertainty <= MaxUncertainty(ps)
  {
    if ps != [] {
      MaxUncertaintyBounds(ps[1..]);
      assert ps == [ps[0]] + ps[1..];
    }
  }

  /** `add`, as a function of the state before the call. */
  function Added(s: Synchronizer, ticks: nat, start: nat, end: nat): (Result<SyncEstimate>, Synchronizer)
    requires s.points != [] ==> s.lastHost.Some?
  {
    if end < start then (Err(InvalidTimeEvidence), s)
    else
      var host := Midpoint(start, end);
      if s.points != [] && (ticks < s.points[|s.points| - 1].ticks || host <= s.lastHost.value) then
        (Err(NonMonotonicTime), s)
      else if s.points != [] && ticks == s.points[|s.points| - 1].ticks then
        (Ok(NO_FIT), s.(lastHost := Some(host)))
      else
        var kept := if |s.points| == WINDOW_POINTS then s.points[1..] else s.points;
        var next := Synchronizer(kept + [SyncPoint(ticks, host, (end - start) / 2)], Some(host));
        (Estimate(next.points), next)
  }

  // The readings behind the window

  /** One timed reading of the device counter. */
  datatype Reading = Reading(ticks: nat, start: nat, end: nat)

  /** The point carries the ticks, the middle and half the width of the interval that was read, both rounded down. */
  predicate TimedBy(p: SyncPoint, r: Reading) {
    && r.start <= r.end && p.ticks == r.ticks
    && 2 * p.host <= r.start + r.end <= 2 * p.host + 1
    && 2 * p.uncertainty <= r.end - r.start <= 2 * p.uncertainty + 1
  }

  /** Every instant at which the counter may have been read lies within the uncertainty, and the rounding. */
  lemma {:induction false} IntervalIsCovered(p: SyncPoint, r: Reading, h: int)
    requires TimedBy(p, r) && r.start <= h <= r.end
    ensures p.host as int - p.uncertainty - 1 <= h <= p.host + p.uncertainty + 1
  {
  }

  /** The window holds exactly these readings. */
  ghost predicate WindowOf(s: Synchronizer, readings: seq<Reading>) {
    |readings| == |s.points| && forall i :: 0 <= i < |readings| ==> TimedBy(s.points[i], readings[i])
  }

  /** The window behind one more reading: the oldest of 64 makes room. */
  function Pushed(readings: seq<Reading>, r: Reading): seq<Reading> {
    (if |readings| == WINDOW_POINTS then readings[1..] else readings) + [r]
  }

  /** Every answer of `add`: a reversed interval and time that does not move forward are refused, a repeated tick only
      moves the host time, and any other reading enters the window. */
  lemma {:induction false} AddedExactly(s: Synchronizer, readings: seq<Reading>, r: Reading)
    requires SynchronizerOk(s) && WindowOf(s, readings)
    ensures var (answer, q) := Added(s, r.ticks, r.start, r.end);
            var middle := (r.start + r.end) / 2;
            if r.end < r.start then answer == Err(InvalidTimeEvidence) && q == s
            else if readings != [] && (r.ticks < readings[|readings| - 1].ticks || middle <= s.lastHost.value) then
              answer == Err(NonMonotonicTime) && q == s
            else if readings != [] && r.ticks == readings[|readings| - 1].ticks then
              answer == Ok(NO_FIT) && q == s.(lastHost := Some(middle))
            else WindowOf(q, Pushed(readings, r)) && q.lastHost == Some(middle) && answer == Estimate(q.points)
  {
    if r.start <= r.end {
      MiddleOf(r.start, r.end);
    }
  }

  lemma {:induction false} MiddleOf(start: nat, end: nat)
    requires start <= end
    ensures Midpoint(start, end) == (start + end) / 2
    ensures TimedBy(SyncPoint(0, Midpoint(start, end), (end - start) / 2), Reading(0, start, end))
  {
  }

  class TimeSynchronizer {
    var points: seq<SyncPoint>
    var lastHost: Option<nat>
    /** The readings behind the points. */
    ghost var readings: seq<Reading>

    ghost function View(): Synchronizer
      reads this
    {
      Synchronizer(points, lastHost)
    }

    ghost predicate Valid()
      reads this
    {
      SynchronizerOk(View()) && WindowOf(View(), readings)
    }

    constructor ()
      ensures Valid() && View() == Synchronizer([], None) && readings == []
    {
      points, lastHost, readings := [], None, [];
    }

    /** A call never reports `invalid_clock_fit`, and with three or more points in the window it always has a line; the
        residual of that line covers every instant of every interval the window was read in. */
    method Add(ticks: nat, hostReadStart: nat, hostReadEnd: nat) returns (r: Result<SyncEstimate>)
      requires Valid()
      modifies this
      ensures Valid()
      ensures (r, View()) == Added(old(View()), ticks, hostReadStart, hostReadEnd)
      ensures readings == old(readings)
           || readings == Pushed(old(readings), Reading(ticks, hostReadStart, hostReadEnd))
      ensures r != Err(InvalidClockFit)
      ensures points != old(points) && |points| >= MINIMUM_POINTS ==> r.Ok? && r.value.offset.Some?
      ensures r.Ok? && r.value.offset.Some? ==> ReadingsCovered(points, readings, r.value)
    {
      ghost var start, before := View(), readings;
      if hostReadEnd < hostReadStart {
        return Err(InvalidTimeEvidence);
      }
      var host := Midpoint(hostReadStart, hostReadEnd);
      if points != [] {
        var previous := points[|points| - 1];
        if ticks < previous.ticks || host <= lastHost.value {
          return Err(NonMonotonicTime);
        }
        lastHost := Some(host);
        if ticks == previous.ticks {
          return Ok(NO_FIT);
        }
      }
      lastHost := Some(host);
      if |points| == WINDOW_POINTS {
        points := points[1..];
      }
      points := points + [SyncPoint(ticks, host, (hostReadEnd - hostReadStart) / 2)];
      readings := Pushed(before, Reading(ticks, hostReadStart, hostReadEnd));
      PushedIsSound(start, before, Reading(ticks, hostReadStart, hostReadEnd));
      r := Estimate(points);
    }
  }

  /** The line through the window lies within the residual, and the rounding of a nanosecond, of every instant at which
      the counter may have stood at its ticks. */
  ghost predicate ReadingsCovered(ps: seq<SyncPoint>, readings: seq<Reading>, estimate: SyncEstimate) {
    && ps != [] && Spread(ps) != 0.0 && estimate.residual.Some?
    && forall i: nat, h: int {:trigger CoveredAt(ps, readings, estimate, i, h)} :: i < |readings| ==>
         CoveredAt(ps, readings, estimate, i, h)
  }

  predicate CoveredAt(ps: seq<SyncPoint>, readings: seq<Reading>, estimate: SyncEstimate, i: nat, h: int)
    requires ps != [] && Spread(ps) != 0.0 && estimate.residual.Some? && i < |readings|
  {
    readings[i].start <= h <= readings[i].end ==>
      AbsReal(h as real - Fit(ps).At(readings[i].ticks as real)) <= estimate.residual.value as real + 1.0
  }

  /** A later point behind a rising window. */
  lemma {:induction false} AppendedIncreases(kept: seq<SyncPoint>, p: SyncPoint)
    requires Increasing(kept)
    requires kept != [] ==> kept[|kept| - 1].ticks < p.ticks && kept[|kept| - 1].host < p.host
    ensures Increasing(kept + [p])
  {
    var next := kept + [p];
    forall i, j | 0 <= i < j < |next| ensures next[i].ticks < next[j].ticks && next[i].host < next[j].host {
      if j == |kept| && i < |kept| - 1 {
        assert kept[i].ticks < kept[|kept| - 1].ticks && kept[i].host < kept[|kept| - 1].host;
      }
    }
  }

  /** What `add` takes into the window. */
  predicate Admits(s: Synchronizer, ticks: nat, start: nat, end: nat)
    requires s.points != [] ==> s.lastHost.Some?
  {
    start <= end
    && (s.points != [] ==> s.points[|s.points| - 1].ticks < ticks && s.lastHost.value < Midpoint(start, end))
  }

  /** A refused reading changes nothing; one that repeats the last tick only moves the host time. */
  lemma {:induction false} RefusedKeepsTheWindow(s: Synchronizer, ticks: nat, start: nat, end: nat)
    requires SynchronizerOk(s) && !Admits(s, ticks, start, end)
    ensures SynchronizerOk(Added(s, ticks, start, end).1) && Added(s, ticks, start, end).1.points == s.points
    ensures Added(s, ticks, start, end).0.Err? ==> Added(s, ticks, start, end).1 == s
  {
  }

  /** A window with room takes the point at its end. */
  lemma {:induction false} AppendedKeepsTheWindow(s: Synchronizer, ticks: nat, start: nat, end: nat)
    requires SynchronizerOk(s) && Admits(s, ticks, start, end) && |s.points| < WINDOW_POINTS
    ensures SynchronizerOk(Added(s, ticks, start, end).1) && Added(s, ticks, start, end).0.Ok?
  {
    var p := SyncPoint(ticks, Midpoint(start, end), (end - start) / 2);
    AppendedIncreases(s.points, p);
    FitIsSound(s.points + [p]);
  }

  /** A full one drops its oldest point first. */
  lemma {:induction false} EvictedKeepsTheWindow(s: Synchronizer, ticks: nat, start: nat, end: nat)
    requires SynchronizerOk(s) && Admits(s, ticks, start, end) && |s.points| == WINDOW_POINTS
    ensures SynchronizerOk(Added(s, ticks, start, end).1) && Added(s, ticks, start, end).0.Ok?
  {
    var p := SyncPoint(ticks, Midpoint(start, end), (end - start) / 2);
    AppendedIncreases(s.points[1..], p);
    FitIsSound(s.points[1..] + [p]);
  }

  /** Every `add` keeps at most 64 points, strictly increasing in both clocks. */
  lemma {:induction false} AddedKeepsTheWindow(s: Synchronizer, ticks: nat, start: nat, end: nat)
    requires SynchronizerOk(s)
    ensures SynchronizerOk(Added(s, ticks, start, end).1)
    ensures Added(s, ticks, start, end).0.Err? ==> Added(s, ticks, start, end).1 == s
  {
    if !Admits(s, ticks, start, end) {
      RefusedKeepsTheWindow(s, ticks, start, end);
    } else if |s.points| < WINDOW_POINTS {
      AppendedKeepsTheWindow(s, ticks, start, end);
    } else {
      EvictedKeepsTheWindow(s, ticks, start, end);
    }
  }

  /** On a window of three or more points the zero guard and `invalid_clock_fit` are unreachable. */
  lemma {:induction false} FitIsSound(ps: seq<SyncPoint>)
    requires Increasing(ps)
    ensures Estimate(ps).Ok?
    ensures |ps| >= MINIMUM_POINTS <==> Estimate(ps).value.offset.Some?
    ensures |ps| >= MINIMUM_POINTS ==> Spread(ps) > 0.0 && Fit(ps).scale > 0.0
  {
    if |ps| >= MINIMUM_POINTS {
      FitRises(ps);
    }
  }

  /** The published line is the least-squares line of the window, and its residual bounds the distance of the line
      from every host time each read interval of the window admits. */
  lemma {:induction false} EstimateIsBestAndBounded(ps: seq<SyncPoint>, other: Line, i: nat, host: real)
    requires Increasing(ps) && |ps| >= MINIMUM_POINTS && i < |ps|
    requires AbsReal(host - ps[i].host as real) <= ps[i].uncertainty as real
    ensures Spread(ps) != 0.0 && Estimate(ps).Ok? && Estimate(ps).value.residual.Some?
    ensures Estimate(ps).value.offset == Some(Round(Fit(ps).offset))
    ensures SquaredError(ps, Fit(ps)) <= SquaredError(ps, other)
    ensures AbsReal(host - Fit(ps).At(ps[i].ticks as real)) <= Estimate(ps).value.residual.value as real
  {
    FitIsSound(ps);
    FitMinimises(ps, other);
    var r := Residuals(ps, Fit(ps));
    MaxAbsNonNegative(r);
    MaxUncertaintyBounds(ps);
    assert r[i] == ps[i].host as real - Fit(ps).At(ps[i].ticks as real);
    assert AbsReal(r[i]) <= MaxAbs(r) <= Ceil(MaxAbs(r)) as real;
  }

  lemma {:induction false} ResidualCoversReadings(ps: seq<SyncPoint>, readings: seq<Reading>)
    requires Increasing(ps) && |ps| >= MINIMUM_POINTS && |readings| == |ps|
    requires forall i :: 0 <= i < |readings| ==> TimedBy(ps[i], readings[i])
    ensures Estimate(ps).Ok? && ReadingsCovered(ps, readings, Estimate(ps).value)
  {
    FitIsSound(ps);
    var estimate := Estimate(ps).value;
    forall i: nat, h: int | i < |readings| ensures CoveredAt(ps, readings, estimate, i, h) {
      if readings[i].start <= h <= readings[i].end {
        IntervalIsCovered(ps[i], readings[i], h);
        ResidualCovers(ps, i, h);
      }
    }
  }

  /** What a reading that enters the window leaves behind. */
  lemma {:induction false} PushedIsSound(s: Synchronizer, readings: seq<Reading>, r: Reading)
    requires SynchronizerOk(s) && WindowOf(s, readings) && Admits(s, r.ticks, r.start, r.end)
    ensures var (answer, q) := Added(s, r.ticks, r.start, r.end);
            && SynchronizerOk(q) && WindowOf(q, Pushed(readings, r))
            && answer.Ok? && answer == Estimate(q.points)
            && (|q.points| >= MINIMUM_POINTS <==> answer.value.offset.Some?)
            && (|q.points| >= MINIMUM_POINTS ==> ReadingsCovered(q.points, Pushed(readings, r), answer.value))
  {
    var q := Added(s, r.ticks, r.start, r.end).1;
    AddedExactly(s, readings, r);
    AddedKeepsTheWindow(s, r.ticks, r.start, r.end);
    FitIsSound(q.points);
    if |q.points| >= MINIMUM_POINTS {
      ResidualCoversReadings(q.points, Pushed(readings, r));
    }
  }

  /** A host time one nanosecond outside the uncertainty is one nanosecond outside the residual. */
  lemma {:induction false} ResidualCovers(ps: seq<SyncPoint>, i: nat, h: int)
    requires Increasing(ps) && |ps| >= MINIMUM_POINTS && i < |ps|
    requires ps[i].host as int - ps[i].uncertainty - 1 <= h <= ps[i].host + ps[i].uncertainty + 1
    ensures Spread(ps) != 0.0 && Estimate(ps).Ok? && Estimate(ps).value.residual.Some?
    ensures AbsReal(h as real - Fit(ps).At(ps[i].ticks as real)) <= Estimate(ps).value.residual.value as real + 1.0
  {
    FitIsSound(ps);
    var near: real := if h > ps[i].host + ps[i].uncertainty then (h - 1) as real
                      else if h < ps[i].host - ps[i].uncertainty then (h + 1) as real
                      else h as real;
    EstimateIsBestAndBounded(ps, Fit(ps), i, near);
  }

  /** n is a nearest integer of x, and of two of them the one away from zero. */
  predicate IsRounded(x: real, n: int) {
    AbsReal(n as real - x) <= 0.5 && (AbsReal(n as real - x) == 0.5 ==> AbsReal(n as real) >= AbsReal(x))
  }

  /** The published numbers are exactly determined by the line: the offset is its nearest integer, the residual the
      least one that bounds every distance and every uncertainty together, and the quality says whether that is within
      1 ms. */
  lemma {:induction false} EstimateIsTight(ps: seq<SyncPoint>)
    requires Increasing(ps)
    ensures Estimate(ps).Ok?
    ensures |ps| < MINIMUM_POINTS ==> Estimate(ps).value == SyncEstimate(None, None, Insufficient)
    ensures |ps| >= MINIMUM_POINTS ==>
              && Spread(ps) != 0.0
              && var SyncEstimate(offset, residual, quality) := Estimate(ps).value;
                 && offset.Some? && residual.Some?
                 && IsRounded(Fit(ps).offset, offset.value)
                 && quality == (if residual.value <= 1_000_000 then Good else Degraded)
                 && (forall i, j :: 0 <= i < |ps| && 0 <= j < |ps| ==>
                       Distance(ps, i) + ps[j].uncertainty as real <= residual.value as real)
                 && (exists i, j :: 0 <= i < |ps| && 0 <= j < |ps|
                       && residual.value as real < Distance(ps, i) + ps[j].uncertainty as real + 1.0)
  {
    if |ps| >= MINIMUM_POINTS {
      FitIsSound(ps);
      var r := Residuals(ps, Fit(ps));
      MaxAbsNonNegative(r);
      MaxUncertaintyBounds(ps);
      var i := MaxAbsIsReached(r);
      var j := MaxUncertaintyIsReached(ps);
      assert Distance(ps, i) == AbsReal(r[i]) && MaxAbs(r) <= Ceil(MaxAbs(r)) as real < MaxAbs(r) + 1.0;
      forall i, j | 0 <= i < |ps| && 0 <= j < |ps|
        ensures Distance(ps, i) + ps[j].uncertainty as real <= Estimate(ps).value.residual.value as real
      {
        assert Distance(ps, i) == AbsReal(r[i]);
      }
    }
  }

  /** How far a point lies from the line of its window. */
  function Distance(ps: seq<SyncPoint>, i: nat): real
    requires i < |ps| && Spread(ps) != 0.0
  {
    AbsReal(ps[i].host as real - Fit(ps).At(ps[i].ticks as real))
  }

  lemma {:induction false} MaxAbsIsReached(v: seq<real>) returns (i: nat)
    requires v != []
    ensures i < |v| && AbsReal(v[i]) == MaxAbs(v)
    decreases |v|
  {
    i := 0;
    if |v| == 1 {
      assert v[1..] == [];
    } else if AbsReal(v[0]) <= MaxAbs(v[1..]) {
      i := MaxAbsIsReached(v[1..]);
      i := i + 1;
    }
  }

  lemma {:induction false} MaxUncertaintyIsReached(ps: seq<SyncPoint>) returns (i: nat)
    requires ps != []
    ensures i < |ps| && ps[i].uncertainty == MaxUncertainty(ps)
    decreases |ps|
  {
    i := 0;
    if |ps| == 1 {
      assert ps[1..] == [];
    } else if ps[0].uncertainty < MaxUncertainty(ps[1..]) {
      i := MaxUncertaintyIsReached(ps[1..]);
      i := i + 1;
    }
  }

  // Packets

  const PACKET_BYTES: nat := 27
  const DEVICE_TIMESTAMP_MODULUS: nat := 0x100_0000
  const SAMPLES_PER_PACKET: nat := 2

  type Packet = p: seq<Byte> | |p| == PACKET_BYTES witness seq(PACKET_BYTES, _ => 0)

  /** `device_timestamp`: 24 bits, big endian. */
  function DeviceTimestamp(p: Packet): (t: nat)
    ensures t < DEVICE_TIMESTAMP_MODULUS
  {
    p[0] as int * 0x1_0000 + p[1] as int * 0x100 + p[2] as int
  }

  /** A 24-bit count at the head of a packet, big end first, is read back. */
  lemma {:induction false} TimestampReadsBack(t: nat, p: Packet)
    requires t < 0x100_0000 && p[..3] == [t / 0x1_0000, t / 0x100 % 0x100, t % 0x100]
    ensures DeviceTimestamp(p) == t
  {
    assert p[0] == p[..3][0] && p[1] == p[..3][1] && p[2] == p[..3][2];
  }

  datatype Sample = Sample(sequence: nat, packetSequence: nat, sampleIndex: nat, ticks: nat, host: nat,
                           estimate: SyncEstimate)

  /** The sample at position i of the whole stream. */
  predicate NumberedAs(s: Sample, i: nat) {
    s.sequence == i && s.packetSequence == i / SAMPLES_PER_PACKET && s.sampleIndex == i % SAMPLES_PER_PACKET
  }

  /** The two samples of a packet carry the same ticks, estimate and host time, the middle of the interval in which the
      packet was read, rounded down. */
  predicate AtOneReading(samples: seq<Sample>, start: nat, end: nat) {
    && |samples| == SAMPLES_PER_PACKET
    && samples[1].ticks == samples[0].ticks && samples[1].estimate == samples[0].estimate
    && samples[1].host == samples[0].host && 2 * samples[0].host <= start + end <= 2 * samples[0].host + 1
  }

  function SamplesOf(first: nat, packet: nat, ticks: nat, start: nat, end: nat, estimate: SyncEstimate)
    : (r: seq<Sample>)
    requires start <= end && first == SAMPLES_PER_PACKET * packet
    ensures AtOneReading(r, start, end) && r[0].ticks == ticks && r[0].estimate == estimate
    ensures NumberedAs(r[0], first) && NumberedAs(r[1], first + 1)
  {
    var host := Midpoint(start, end);
    [Sample(first + 0, packet, 0, ticks, host, estimate), Sample(first + 1, packet, 1, ticks, host, estimate)]
  }

  /** The collector state behind `observe_packet`. */
  class Collector {
    const unwrapper: TimestampUnwrapper
    const synchronizer: TimeSynchronizer
    var lastPayload: Option<Packet>
    var packetSequence: nat
    var sampleSequence: nat
    /** Every sample handed out so far, in order. */
    ghost var emitted: seq<Sample>

    ghost predicate Valid()
      reads this, unwrapper, synchronizer
    {
      && unwrapper.Valid() && unwrapper.modulus == DEVICE_TIMESTAMP_MODULUS
      && synchronizer.Valid()
      && sampleSequence == |emitted| == SAMPLES_PER_PACKET * packetSequence
      && forall i :: 0 <= i < |emitted| ==> NumberedAs(emitted[i], i)
    }

    constructor ()
      ensures Valid() && fresh(unwrapper) && fresh(synchronizer) && emitted == []
    {
      unwrapper := new TimestampUnwrapper(DEVICE_TIMESTAMP_MODULUS);
      synchronizer := new TimeSynchronizer();
      lastPayload := None;
      packetSequence, sampleSequence := 0, 0;
      emitted := [];
    }

    /** `accept_payload`: a payload that repeats the last accepted one is stale. */
    method AcceptPayload(payload: Packet) returns (accepted: bool)
      requires Valid()
      modifies this`lastPayload
      ensures Valid()
      ensures accepted <==> old(lastPayload) != Some(payload)
      ensures lastPayload == Some(payload)
    {
      if lastPayload == Some(payload) {
        return false;
      }
      lastPayload := Some(payload);
      return true;
    }

    /** Successful packets are numbered 0, 1, 2, … and their samples 0, 1, 2, … without gaps; a rejected packet
        consumes no number. */
    method ObservePacket(payload: Packet, hostReadStart: nat, hostReadEnd: nat) returns (r: Result<seq<Sample>>)
      requires Valid()
      modifies this, unwrapper, synchronizer
      ensures Valid()
      ensures unwrapper.View() == Unwrap(old(unwrapper.View()), DeviceTimestamp(payload)).1
      ensures r.Err? ==> emitted == old(emitted) && packetSequence == old(packetSequence)
      ensures r.Ok? ==> emitted == old(emitted) + r.value && |r.value| == SAMPLES_PER_PACKET
      ensures r.Ok? ==> packetSequence == old(packetSequence) + 1
      ensures r.Ok? ==> Unwrap(old(unwrapper.View()), DeviceTimestamp(payload)).0 == Ok(r.value[0].ticks)
      ensures r.Ok? ==> (
        var (estimate, window) := Added(old(synchronizer.View()), r.value[0].ticks, hostReadStart, hostReadEnd);
        estimate == Ok(r.value[0].estimate) && synchronizer.View() == window)
      ensures r.Ok? ==> AtOneReading(r.value, hostReadStart, hostReadEnd)
      ensures r.Err? ==> r.code in {TimestampRegression, InvalidTimeEvidence, NonMonotonicTime}
    {
      var unwrapped := unwrapper.Update(DeviceTimestamp(payload));
      if unwrapped.Err? {
        return Err(unwrapped.code);
      }
      var ticks := unwrapped.value;
      var estimate := synchronizer.Add(ticks, hostReadStart, hostReadEnd);
      if estimate.Err? {
        return Err(estimate.code);
      }
      var samples := SamplesOf(sampleSequence, packetSequence, ticks, hostReadStart, hostReadEnd, estimate.value);
      packetSequence := packetSequence + 1;
      sampleSequence := sampleSequence + SAMPLES_PER_PACKET;
      emitted := emitted + samples;
      return Ok(samples);
    }
  }
}
