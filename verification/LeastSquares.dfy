/** The line fitted by `TimeSynchronizer::estimate` (`native/src/imu.rs`), over exact reals. */
module LeastSquares {
  import opened Prelude
  import opened Arithmetic

  // Vectors of reals

  function Dot(a: seq<real>, b: seq<real>): real
    requires |a| == |b|
  {
    if a == [] then 0.0 else a[0] * b[0] + Dot(a[1..], b[1..])
  }

  /** k*a + b. */
  function Axpy(k: real, a: seq<real>, b: seq<real>): (c: seq<real>)
    requires |a| == |b|
    ensures |c| == |a|
  {
    seq(|a|, i requires 0 <= i < |a| => k * a[i] + b[i])
  }

  lemma {:induction false} Distribute(k: real, a: real, b: real, c: real)
    ensures (k * a + b) * c == k * (a * c) + b * c
  {
  }

  lemma {:induction false} Factor(k: real, a: real, b: real)
    ensures k * (a + b) == k * a + k * b
  {
  }

  lemma {:induction false} AxpyTail(k: real, a: seq<real>, b: seq<real>)
    requires |a| == |b| && a != []
    ensures Axpy(k, a, b)[1..] == Axpy(k, a[1..], b[1..])
  {
    var left, right := Axpy(k, a, b)[1..], Axpy(k, a[1..], b[1..]);
    forall i | 0 <= i < |left| ensures left[i] == right[i] {
      assert a[1..][i] == a[i + 1] && b[1..][i] == b[i + 1];
    }
  }

  lemma {:induction false} DotLinear(k: real, a: seq<real>, b: seq<real>, c: seq<real>)
    requires |a| == |b| == |c|
    ensures Dot(Axpy(k, a, b), c) == k * Dot(a, c) + Dot(b, c)
  {
    if a != [] {
      DotLinear(k, a[1..], b[1..], c[1..]);
      AxpyTail(k, a, b);
      Distribute(k, a[0], b[0], c[0]);
      Factor(k, a[0] * c[0], Dot(a[1..], c[1..]));
    }
  }

  lemma {:induction false} DotSymmetric(a: seq<real>, b: seq<real>)
    requires |a| == |b|
    ensures Dot(a, b) == Dot(b, a)
  {
    if a != [] {
      DotSymmetric(a[1..], b[1..]);
    }
  }

  lemma {:induction false} ProductSign(a: real, b: real)
    ensures (a >= 0.0 && b >= 0.0) || (a <= 0.0 && b <= 0.0) ==> a * b >= 0.0
    ensures a < 0.0 && b < 0.0 ==> a * b > 0.0
  {
  }

  ghost predicate SameSign(a: real, b: real) {
    (a >= 0.0 && b >= 0.0) || (a <= 0.0 && b <= 0.0)
  }

  lemma {:induction false} DotNonNegative(a: seq<real>, b: seq<real>)
    requires |a| == |b| && forall i :: 0 <= i < |a| ==> SameSign(a[i], b[i])
    ensures Dot(a, b) >= 0.0
    ensures a != [] && a[0] < 0.0 && b[0] < 0.0 ==> Dot(a, b) > 0.0
  {
    if a != [] {
      assert SameSign(a[0], b[0]);
      ProductSign(a[0], b[0]);
      DotNonNegative(a[1..], b[1..]);
    }
  }

  /** |a + b|^2 with b = p*e + q*f, when a is orthogonal to both e and f. */
  lemma {:induction false} Pythagoras(a: seq<real>, e: seq<real>, f: seq<real>, p: real, q: real)
    requires |a| == |e| == |f| && Dot(a, e) == 0.0 && Dot(a, f) == 0.0
    ensures var c := Axpy(p, e, Axpy(q, f, a)); Dot(c, c) >= Dot(a, a)
  {
    var zero := seq(|a|, _ => 0.0);
    var d := Axpy(p, e, Axpy(q, f, zero));
    var c := Axpy(1.0, d, a);
    assert c == Axpy(p, e, Axpy(q, f, a));
    DotZero(zero, a);
    DotSymmetric(a, e);
    DotSymmetric(a, f);
    DotLinear(q, f, zero, a);
    DotLinear(p, e, Axpy(q, f, zero), a);
    assert Dot(d, a) == 0.0;
    DotLinear(1.0, d, a, c);
    DotSymmetric(d, c);
    DotSymmetric(a, c);
    DotLinear(1.0, d, a, d);
    DotLinear(1.0, d, a, a);
    DotSymmetric(d, a);
    DotNonNegative(d, d);
  }

  lemma {:induction false} DotZero(zero: seq<real>, a: seq<real>)
    requires |zero| == |a| && forall i :: 0 <= i < |zero| ==> zero[i] == 0.0
    ensures Dot(zero, a) == 0.0
  {
    if a != [] {
      DotZero(zero[1..], a[1..]);
    }
  }

  // The window

  /** A window entry: device tick count, host midpoint time, and half the host read interval. */
  datatype SyncPoint = SyncPoint(ticks: nat, host: nat, uncertainty: nat)

  /** Both clocks move strictly forward along the window. */
  ghost predicate Increasing(ps: seq<SyncPoint>) {
    forall i, j :: 0 <= i < j < |ps| ==> ps[i].ticks < ps[j].ticks && ps[i].host < ps[j].host
  }

  function Ones(n: nat): (o: seq<real>)
    ensures |o| == n
  {
    seq(n, _ => 1.0)
  }

  function Xs(ps: seq<SyncPoint>): (x: seq<real>)
    ensures |x| == |ps|
  {
    seq(|ps|, i requires 0 <= i < |ps| => ps[i].ticks as real)
  }

  function Ys(ps: seq<SyncPoint>): (y: seq<real>)
    ensures |y| == |ps|
  {
    seq(|ps|, i requires 0 <= i < |ps| => ps[i].host as real)
  }

  function Total(v: seq<real>): real {
    Dot(v, Ones(|v|))
  }

  function Mean(v: seq<real>): real
    requires v != []
  {
    Total(v) / |v| as real
  }

  /** v with c subtracted from every component. */
  function Centred(v: seq<real>, c: real): (d: seq<real>)
    ensures |d| == |v|
  {
    Axpy(-c, Ones(|v|), v)
  }

  lemma {:induction false} TotalOfOnes(n: nat)
    ensures Total(Ones(n)) == n as real
  {
    if n > 0 {
      TotalOfOnes(n - 1);
      assert Ones(n)[1..] == Ones(n - 1);
    }
  }

  lemma {:induction false} CentredTotal(v: seq<real>, c: real)
    ensures Dot(Centred(v, c), Ones(|v|)) == Total(v) - c * |v| as real
  {
    DotLinear(-c, Ones(|v|), v, Ones(|v|));
    TotalOfOnes(|v|);
  }

  lemma {:induction false} MeanTimesCount(v: seq<real>)
    requires v != []
    ensures Mean(v) * |v| as real == Total(v)
  {
  }

  lemma {:induction false} CentredAtMeanVanishes(v: seq<real>)
    requires v != []
    ensures Dot(Centred(v, Mean(v)), Ones(|v|)) == 0.0
  {
    CentredTotal(v, Mean(v));
    MeanTimesCount(v);
  }

  /** The mean cannot lie at or outside every component: some component is on or above it, some on or below it,
      and an increasing vector of two or more starts strictly below its mean. */
  lemma {:induction false} MeanIsInside(v: seq<real>, ones: seq<real>)
    requires |v| >= 2 && (forall i, j :: 0 <= i < j < |v| ==> v[i] < v[j]) && ones == Ones(|v|)
    ensures v[0] < Mean(v) < v[|v| - 1]
  {
    CentredAtMeanVanishes(v);
    var d, m := Centred(v, Mean(v)), Mean(v);
    assert forall i :: 0 <= i < |v| ==> d[i] == v[i] - m;
    if m <= v[0] {
      assert forall i :: 0 <= i < |d| ==> d[i] >= 0.0 && (i > 0 ==> d[i] > 0.0);
      TotalPositive(d);
    } else if v[|v| - 1] <= m {
      var e := Axpy(-1.0, d, Axpy(0.0, d, seq(|d|, _ => 0.0)));
      assert forall i :: 0 <= i < |e| ==> e[i] == m - v[i];
      assert forall i :: 0 <= i < |e| - 1 ==> e[i] > 0.0;
      DotZero(seq(|d|, _ => 0.0), ones);
      DotLinear(0.0, d, seq(|d|, _ => 0.0), ones);
      DotLinear(-1.0, d, Axpy(0.0, d, seq(|d|, _ => 0.0)), ones);
      TotalPositive(e);
    }
  }

  lemma {:induction false} TotalPositive(v: seq<real>)
    requires forall i :: 0 <= i < |v| ==> v[i] >= 0.0
    ensures Total(v) >= 0.0
    ensures |v| >= 2 && (v[0] > 0.0 || v[1] > 0.0) ==> Total(v) > 0.0
  {
    if v != [] {
      assert Ones(|v|)[1..] == Ones(|v[1..]|);
      TotalPositive(v[1..]);
      if |v| >= 2 {
        assert v[1..][0] == v[1];
        TotalHead(v[1..]);
      }
    }
  }

  lemma {:induction false} TotalHead(v: seq<real>)
    requires v != [] && forall i :: 0 <= i < |v| ==> v[i] >= 0.0
    ensures Total(v) >= v[0]
  {
    assert Ones(|v|)[1..] == Ones(|v[1..]|);
    TotalNonNegative(v[1..]);
  }

  lemma {:induction false} TotalNonNegative(v: seq<real>)
    requires forall i :: 0 <= i < |v| ==> v[i] >= 0.0
    ensures Total(v) >= 0.0
  {
    if v != [] {
      assert Ones(|v|)[1..] == Ones(|v[1..]|);
      TotalNonNegative(v[1..]);
    }
  }

  // Positivity of the two sums behind the slope

  /** `denominator`. */
  function Spread(ps: seq<SyncPoint>): real
    requires ps != []
  {
    var dx := Centred(Xs(ps), Mean(Xs(ps)));
    Dot(dx, dx)
  }

  function Comoment(ps: seq<SyncPoint>): real
    requires ps != []
  {
    Dot(Centred(Xs(ps), Mean(Xs(ps))), Centred(Ys(ps), Mean(Ys(ps))))
  }

  lemma {:induction false} SpreadPositive(ps: seq<SyncPoint>)
    requires Increasing(ps) && |ps| >= 2
    ensures Spread(ps) > 0.0
  {
    var x := Xs(ps);
    MeanIsInside(x, Ones(|x|));
    var dx := Centred(x, Mean(x));
    assert dx[0] == x[0] - Mean(x);
    DotNonNegative(dx, dx);
  }

  /** Recentring the second vector does not change its product with a vector centred at its own mean. */
  lemma {:induction false} Recentre(x: seq<real>, y: seq<real>, a: real, b: real)
    requires |x| == |y| && x != []
    ensures Dot(Centred(x, Mean(x)), Centred(y, a)) == Dot(Centred(x, Mean(x)), Centred(y, b))
  {
    var dx, ones := Centred(x, Mean(x)), Ones(|x|);
    CentredAtMeanVanishes(x);
    DotSymmetric(dx, ones);
    DotLinear(-a, ones, y, dx);
    DotLinear(-b, ones, y, dx);
    DotSymmetric(dx, Centred(y, a));
    DotSymmetric(dx, Centred(y, b));
  }

  /** The first component on or above the mean. */
  lemma {:induction false} FirstAtMean(x: seq<real>) returns (k: nat)
    requires |x| >= 2 && forall i, j :: 0 <= i < j < |x| ==> x[i] < x[j]
    ensures 0 < k < |x| && Mean(x) <= x[k]
    ensures forall i :: 0 <= i < k ==> x[i] < Mean(x)
  {
    MeanIsInside(x, Ones(|x|));
    k := 1;
    while x[k] < Mean(x)
      invariant 0 < k < |x|
      invariant forall i :: 0 <= i < k ==> x[i] < Mean(x)
      decreases |x| - k
    {
      k := k + 1;
    }
  }

  /** Two clocks that both move forward have a positive comoment about their means. */
  lemma {:induction false} ComomentPositive(ps: seq<SyncPoint>)
    requires Increasing(ps) && |ps| >= 2
    ensures Comoment(ps) > 0.0
  {
    var x, y := Xs(ps), Ys(ps);
    var k := FirstAtMean(x);
    Recentre(x, y, Mean(y), y[k]);
    var dx, dy := Centred(x, Mean(x)), Centred(y, y[k]);
    forall i | 0 <= i < |ps| ensures SameSign(dx[i], dy[i]) {
      assert dx[i] == x[i] - Mean(x) && dy[i] == y[i] - y[k];
      assert i < k ==> y[i] < y[k];
      assert k < i ==> x[k] < x[i] && y[k] < y[i];
    }
    assert dx[0] == x[0] - Mean(x) && dy[0] == y[0] - y[k];
    DotNonNegative(dx, dy);
  }

  // The fit

  datatype Line = Line(offset: real, scale: real) {
    function At(x: real): real { offset + scale * x }
  }

  function Fit(ps: seq<SyncPoint>): Line
    requires ps != [] && Spread(ps) != 0.0
  {
    LineThrough(Mean(Xs(ps)), Mean(Ys(ps)), Comoment(ps) / Spread(ps))
  }

  function LineThrough(x: real, y: real, scale: real): Line {
    Line(y - scale * x, scale)
  }

  function Residuals(ps: seq<SyncPoint>, l: Line): (r: seq<real>)
    ensures |r| == |ps|
  {
    seq(|ps|, i requires 0 <= i < |ps| => ps[i].host as real - l.At(ps[i].ticks as real))
  }

  /** What a least-squares fit minimises. */
  function SquaredError(ps: seq<SyncPoint>, l: Line): real {
    Dot(Residuals(ps, l), Residuals(ps, l))
  }

  /** Residuals of a line through the means: dy - scale*dx. */
  lemma {:induction false} ResidualsCentred(ps: seq<SyncPoint>, scale: real, mx: real, my: real)
    ensures Residuals(ps, LineThrough(mx, my, scale)) == Axpy(-scale, Centred(Xs(ps), mx), Centred(Ys(ps), my))
  {
    var left, dx, dy := Residuals(ps, LineThrough(mx, my, scale)), Centred(Xs(ps), mx), Centred(Ys(ps), my);
    var right := Axpy(-scale, dx, dy);
    forall i | 0 <= i < |ps| ensures left[i] == right[i] {
      var x := ps[i].ticks as real;
      assert dx[i] == x - mx && dy[i] == ps[i].host as real - my;
      Factor(scale, x, -mx);
    }
  }

  lemma {:induction false} SlopeTimesSpread(a: real, b: real, q: real)
    requires b != 0.0 && q == a / b
    ensures q * b == a
  {
  }

  lemma {:induction false} FitResiduals(ps: seq<SyncPoint>)
    requires ps != [] && Spread(ps) != 0.0
    ensures Residuals(ps, Fit(ps))
         == Axpy(-Fit(ps).scale, Centred(Xs(ps), Mean(Xs(ps))), Centred(Ys(ps), Mean(Ys(ps))))
  {
    ResidualsCentred(ps, Fit(ps).scale, Mean(Xs(ps)), Mean(Ys(ps)));
  }

  lemma {:induction false} SlopeEquation(dx: seq<real>, dy: seq<real>, scale: real)
    requires |dx| == |dy| && scale * Dot(dx, dx) == Dot(dx, dy)
    ensures Dot(Axpy(-scale, dx, dy), dx) == 0.0
  {
    DotLinear(-scale, dx, dy, dx);
    DotSymmetric(dx, dy);
    Vanish(scale, Dot(dx, dx), Dot(dx, dy), Dot(Axpy(-scale, dx, dy), dx));
  }

  lemma {:induction false} Vanish(scale: real, d: real, e: real, v: real)
    requires scale * d == e && v == -scale * d + e
    ensures v == 0.0
  {
    assert -scale * d == -(scale * d);
  }

  lemma {:induction false} OffsetEquation(dx: seq<real>, dy: seq<real>, scale: real, ones: seq<real>)
    requires |dx| == |dy| == |ones| && Dot(dx, ones) == 0.0 && Dot(dy, ones) == 0.0
    ensures Dot(Axpy(-scale, dx, dy), ones) == 0.0
  {
    DotLinear(-scale, dx, dy, ones);
  }

  /** The normal equations: the residuals of the fit are orthogonal to the constants and to dx. */
  lemma {:induction false} NormalEquations(ps: seq<SyncPoint>)
    requires ps != [] && Spread(ps) != 0.0
    ensures Dot(Residuals(ps, Fit(ps)), Ones(|ps|)) == 0.0
    ensures Dot(Residuals(ps, Fit(ps)), Centred(Xs(ps), Mean(Xs(ps)))) == 0.0
  {
    var dx, dy := Centred(Xs(ps), Mean(Xs(ps))), Centred(Ys(ps), Mean(Ys(ps)));
    FitResiduals(ps);
    SlopeTimesSpread(Comoment(ps), Spread(ps), Fit(ps).scale);
    SlopeEquation(dx, dy, Fit(ps).scale);
    CentredAtMeanVanishes(Xs(ps));
    CentredAtMeanVanishes(Ys(ps));
    OffsetEquation(dx, dy, Fit(ps).scale, Ones(|ps|));
  }

  lemma {:induction false} LineDifference(l: Line, m: Line, x: real, mx: real)
    ensures l.At(x) - m.At(x) == (l.offset - m.offset) + (l.scale - m.scale) * mx + (l.scale - m.scale) * (x - mx)
  {
    Factor(l.scale - m.scale, mx, x - mx);
  }

  /** Any other line differs from l by p + q*(x - mx). */
  lemma {:induction false} ResidualsShift(ps: seq<SyncPoint>, l: Line, m: Line, mx: real)
    ensures Residuals(ps, m) == Axpy((l.offset - m.offset) + (l.scale - m.scale) * mx, Ones(|ps|),
                                     Axpy(l.scale - m.scale, Centred(Xs(ps), mx), Residuals(ps, l)))
  {
    var p, q := (l.offset - m.offset) + (l.scale - m.scale) * mx, l.scale - m.scale;
    var left, dx := Residuals(ps, m), Centred(Xs(ps), mx);
    var inner := Axpy(q, dx, Residuals(ps, l));
    var right := Axpy(p, Ones(|ps|), inner);
    forall i | 0 <= i < |ps| ensures left[i] == right[i] {
      assert dx[i] == ps[i].ticks as real - mx;
      assert inner[i] == q * dx[i] + Residuals(ps, l)[i];
      LineDifference(l, m, ps[i].ticks as real, mx);
    }
  }

  /** Least squares: no line has a smaller sum of squared errors than the fitted one. */
  lemma {:induction false} FitMinimises(ps: seq<SyncPoint>, other: Line)
    requires ps != [] && Spread(ps) != 0.0
    ensures SquaredError(ps, Fit(ps)) <= SquaredError(ps, other)
  {
    var l, mx := Fit(ps), Mean(Xs(ps));
    NormalEquations(ps);
    ResidualsShift(ps, l, other, mx);
    Pythagoras(Residuals(ps, l), Ones(|ps|), Centred(Xs(ps), mx),
               (l.offset - other.offset) + (l.scale - other.scale) * mx, l.scale - other.scale);
  }

  /** A window of two or more points that moves forward on both clocks has a line, and the line rises. */
  lemma {:induction false} FitRises(ps: seq<SyncPoint>)
    requires Increasing(ps) && |ps| >= 2
    ensures Spread(ps) > 0.0 && Fit(ps).scale > 0.0
  {
    SpreadPositive(ps);
    ComomentPositive(ps);
    QuotientPositive(Comoment(ps), Spread(ps));
  }
}
