/**
 The control skeleton of the iterative least-squares sphere fit
 (`sphere_fit_least_squares`): one pass that accumulates the moments of the
 point cloud, fixed coefficients derived from them, and a Newton-style
 refinement of the centre that runs a bounded number of times, guards every
 divisor against zero and stops early when a step is small enough.

 The arithmetic is exact (over `real`); the binary32 rounding of the firmware
 is not modelled, so nothing here speaks about numerical accuracy.
 */
module SphereFit {
  import opened Geometry

  /** FLT_EPSILON of IEEE 754 binary32, 2^-23, written exactly. */
  const FLT_EPSILON: real := 0.00000011920928955078125

  /**
   The moments of the point cloud. The same record holds the raw sums of the
   single pass and, once divided by the number of samples, the means.
   */
  datatype Moments = Moments(
    x: real, xx: real, xxx: real,
    y: real, yy: real, yyy: real,
    z: real, zz: real, zzz: real,
    xy: real, xz: real, yz: real,
    xxy: real, xxz: real,
    yyx: real, yyz: real,
    zzx: real, zzy: real)
  {
    /** Sum (or mean) of one coordinate. */
    function Plain(a: Axis): (r: real) {
      match a
      case X => x
      case Y => y
      case Z => z
    }

    /** Sum (or mean) of the square of one coordinate. */
    function Square(a: Axis): (r: real) {
      match a
      case X => xx
      case Y => yy
      case Z => zz
    }

    /** F0: the summed second moments. */
    function F0(): (r: real) { xx + yy + zz }

    function F1(): (r: real) { 0.5 * F0() }

    function F2(): (r: real) { -8.0 * (xxx + yyx + zzx) }

    function F3(): (r: real) { -8.0 * (xxy + yyy + zzy) }

    function F4(): (r: real) { -8.0 * (xxz + yyz + zzz) }
  }

  const NoMoments: Moments :=
    Moments(0.0, 0.0, 0.0, 0.0, 0.0, 0.0, 0.0, 0.0, 0.0,
            0.0, 0.0, 0.0, 0.0, 0.0, 0.0, 0.0, 0.0, 0.0)

  /** Adds one sample (px, py, pz) to the running sums. */
  function AddSample(s: Moments, px: real, py: real, pz: real): (r: Moments) {
    var x2 := px * px;
    var y2 := py * py;
    var z2 := pz * pz;
    Moments(
      s.x + px, s.xx + x2, s.xxx + x2 * px,
      s.y + py, s.yy + y2, s.yyy + y2 * py,
      s.z + pz, s.zz + z2, s.zzz + z2 * pz,
      s.xy + px * py, s.xz + px * pz, s.yz + py * pz,
      s.xxy + x2 * py, s.xxz + x2 * pz,
      s.yyx + y2 * px, s.yyz + y2 * pz,
      s.zzx + z2 * px, s.zzy + z2 * py)
  }

  /**
   Adding a sample adds, on every axis, its coordinate to the plain sum and
   the coordinate's square to the sum of squares.
   */
  lemma AddSampleAxis(s: Moments, p: Vec3, a: Axis)
    ensures AddSample(s, p.x, p.y, p.z).Plain(a) == s.Plain(a) + p.Get(a)
    ensures AddSample(s, p.x, p.y, p.z).Square(a) == s.Square(a) + p.Get(a) * p.Get(a)
  {
    match a
    case X =>
    case Y =>
    case Z =>
  }

  /** The sums do not depend on the order in which two samples are added. */
  lemma AddSampleCommutes(s: Moments, p: Vec3, q: Vec3)
    ensures AddSample(AddSample(s, p.x, p.y, p.z), q.x, q.y, q.z)
            == AddSample(AddSample(s, q.x, q.y, q.z), p.x, p.y, p.z)
  {
  }

  /** The raw sums over the first n samples of three parallel coordinate streams. */
  function SumsOf(xs: seq<real>, ys: seq<real>, zs: seq<real>, n: nat): (r: Moments)
    requires n <= |xs| && n <= |ys| && n <= |zs|
  {
    if n == 0 then NoMoments
    else AddSample(SumsOf(xs, ys, zs, n - 1), xs[n - 1], ys[n - 1], zs[n - 1])
  }

  /** Every sum divided by the number of samples. */
  function Mean(s: Moments, size: nat): (r: Moments)
    requires size > 0
  {
    var d := size as real;
    Moments(
      s.x / d, s.xx / d, s.xxx / d,
      s.y / d, s.yy / d, s.yyy / d,
      s.z / d, s.zz / d, s.zzz / d,
      s.xy / d, s.xz / d, s.yz / d,
      s.xxy / d, s.xxz / d,
      s.yyx / d, s.yyz / d,
      s.zzx / d, s.zzy / d)
  }

  /** The means of the first `size` samples. */
  function MomentsOf(xs: seq<real>, ys: seq<real>, zs: seq<real>, size: nat): (r: Moments)
    requires 0 < size <= |xs| && size <= |ys| && size <= |zs|
  {
    Mean(SumsOf(xs, ys, zs, size), size)
  }

  /** The starting centre: the per-axis sample mean. */
  function Start(m: Moments): (c: Vec3) {
    Vec3(m.x, m.y, m.z)
  }

  /**
   The auxiliary scalars the loop keeps alongside a centre estimate; the
   firmware computes them from (A, B, C) both before the loop and after each
   committed step.
   */
  datatype Aux = Aux(a2: real, b2: real, c2: real, qs: real, qb: real,
                     rsq: real, q0: real, q1: real, q2: real)

  function AuxAt(m: Moments, c: Vec3): (q: Aux)
    ensures q.q2 == 0.0
    ensures q.rsq == Expanded(m.xx, m.x, 1.0, c.x) + Expanded(m.yy, m.y, 1.0, c.y) + Expanded(m.zz, m.z, 1.0, c.z)
  {
    var a2 := c.x * c.x;
    var b2 := c.y * c.y;
    var c2 := c.z * c.z;
    var qs := a2 + b2 + c2;
    var qb := -2.0 * (c.x * m.x + c.y * m.y + c.z * m.z);
    var rsq := m.F0() + qb + qs;
    var q0 := 0.5 * (qs - rsq);
    Aux(a2, b2, c2, qs, qb, rsq, q0, m.F1() + q0, 8.0 * (qs - rsq + qb + m.F0()))
  }

  /** The epsilon guard: a divisor too close to zero is replaced by 1. */
  function Guard(d: real): (g: real)
    ensures Abs(g) >= FLT_EPSILON
    ensures g != 0.0
    ensures Abs(d) >= FLT_EPSILON ==> g == d
    ensures Abs(d) < FLT_EPSILON ==> g == 1.0
  {
    if Abs(d) < FLT_EPSILON then 1.0 else d
  }

  /** The per-axis denominators before the guard, from the auxiliaries q carried for centre c. */
  function RawDenominatorsWith(m: Moments, c: Vec3, q: Aux): (raw: Vec3) {
    Vec3(q.q2 + 16.0 * (q.a2 - 2.0 * c.x * m.x + m.xx),
         q.q2 + 16.0 * (q.b2 - 2.0 * c.y * m.y + m.yy),
         q.q2 + 16.0 * (q.c2 - 2.0 * c.z * m.z + m.zz))
  }

  /** The per-axis denominators before the guard. */
  function RawDenominators(m: Moments, c: Vec3): (raw: Vec3) {
    RawDenominatorsWith(m, c, AuxAt(m, c))
  }

  /** The guard applied to each of three divisors. */
  function Guarded(raw: Vec3): (d: Vec3)
    ensures Abs(d.x) >= FLT_EPSILON && Abs(d.y) >= FLT_EPSILON && Abs(d.z) >= FLT_EPSILON
    ensures forall a: Axis :: d.Get(a) == Guard(raw.Get(a))
  {
    Vec3(Guard(raw.x), Guard(raw.y), Guard(raw.z))
  }

  /** The per-axis divisors after the guard; none of them is zero. */
  function Denominators(m: Moments, c: Vec3): (d: Vec3)
    ensures Abs(d.x) >= FLT_EPSILON && Abs(d.y) >= FLT_EPSILON && Abs(d.z) >= FLT_EPSILON
  {
    Guarded(RawDenominators(m, c))
  }

  /** The numerators of the update: the gradient terms each axis divides by its denominator. */
  function Numerators(m: Moments, c: Vec3, q: Aux): (n: Vec3) {
    var a, b, cc := c.x, c.y, c.z;
    Vec3(
      m.F2() + 16.0 * (b * m.xy + cc * m.xz + m.x * (-q.a2 - q.q0) + a * (m.xx + q.q1 - cc * m.z - b * m.y)),
      m.F3() + 16.0 * (a * m.xy + cc * m.yz + m.y * (-q.b2 - q.q0) + b * (m.yy + q.q1 - a * m.x - cc * m.z)),
      m.F4() + 16.0 * (a * m.xz + b * m.yz + m.z * (-q.c2 - q.q0) + cc * (m.zz + q.q1 - a * m.x - b * m.y)))
  }

  /** Subtracting n/d with d non-zero leaves v in place exactly when n is zero. */
  lemma QuotientStep(v: real, n: real, d: real)
    requires d != 0.0
    ensures v - n / d == v <==> n == 0.0
  {
    if n / d == 0.0 {
      assert n == (n / d) * d;
    }
  }

  /**
   One Newton-style update of the centre c, using the auxiliaries q the loop
   carries for it: the candidate (nA, nB, nC). Since no divisor is zero, an
   axis stays where it is exactly when its numerator vanishes.
   */
  function StepWith(m: Moments, c: Vec3, q: Aux): (r: Vec3)
    ensures var n := Numerators(m, c, q);
            && (r.x == c.x <==> n.x == 0.0)
            && (r.y == c.y <==> n.y == 0.0)
            && (r.z == c.z <==> n.z == 0.0)
  {
    var n := Numerators(m, c, q);
    var d := Guarded(RawDenominatorsWith(m, c, q));
    QuotientStep(c.x, n.x, d.x);
    QuotientStep(c.y, n.y, d.y);
    QuotientStep(c.z, n.z, d.z);
    Vec3(c.x - n.x / d.x, c.y - n.y / d.y, c.z - n.z / d.z)
  }

  /**
   The update from a centre, with its auxiliaries computed afresh. A centre
   is a fixed point of the update exactly when all three numerators vanish.
   */
  function Step(m: Moments, c: Vec3): (r: Vec3)
    ensures r == c <==> Numerators(m, c, AuxAt(m, c)) == Vec3(0.0, 0.0, 0.0)
  {
    StepWith(m, c, AuxAt(m, c))
  }

  /** The squared length of the step from c to next. */
  function SquaredStep(c: Vec3, next: Vec3): (r: real) {
    var dA := next.x - c.x;
    var dB := next.y - c.y;
    var dC := next.z - c.z;
    dA * dA + dB * dB + dC * dC
  }

  /** Where the refinement loop left off. */
  datatype Stop = Stop(centre: Vec3, iterations: nat, converged: bool)

  /**
   The refinement loop from iteration n on, with centre c. The loop counts
   at most maxIterations passes; when it stops on a small step it returns the
   centre the step was computed FROM, not the stepped one.
   */
  function Iterate(m: Moments, c: Vec3, n: nat, maxIterations: nat, delta: real): (r: Stop)
    requires n <= maxIterations
    ensures n <= r.iterations <= maxIterations
    ensures r.converged ==> 1 <= r.iterations && SquaredStep(r.centre, Step(m, r.centre)) <= delta
    ensures !r.converged ==> r.iterations == maxIterations
    ensures r.iterations == n ==> r.centre == c
    decreases maxIterations - n
  {
    if n == maxIterations then Stop(c, n, false)
    else
      var next := Step(m, c);
      if SquaredStep(c, next) <= delta then Stop(c, n + 1, true)
      else Iterate(m, next, n + 1, maxIterations, delta)
  }

  /**
   A step that is small enough ends the loop at once, and the centre returned
   is the one the step started from.
   */
  lemma SmallStepStopsAtPreStepCentre(m: Moments, c: Vec3, n: nat, maxIterations: nat, delta: real)
    requires n < maxIterations
    ensures SquaredStep(c, Step(m, c)) <= delta ==> Iterate(m, c, n, maxIterations, delta) == Stop(c, n + 1, true)
  {
  }

  /** A squared step is a sum of squares, so it is never negative. */
  lemma SquaredStepNonNegative(c: Vec3, next: Vec3)
    ensures SquaredStep(c, next) >= 0.0
  {
    SquareNonNegative(next.x - c.x);
    SquareNonNegative(next.y - c.y);
    SquareNonNegative(next.z - c.z);
  }

  /**
   With the threshold 0 the firmware uses, the loop stops before its cap only
   on a step of length exactly zero: the update leads from the returned centre
   back to itself.
   */
  lemma ZeroDeltaStopsOnlyOnZeroStep(m: Moments, c: Vec3, n: nat, maxIterations: nat)
    requires n <= maxIterations
    ensures var r := Iterate(m, c, n, maxIterations, 0.0);
            r.converged ==> SquaredStep(r.centre, Step(m, r.centre)) == 0.0
  {
    var r := Iterate(m, c, n, maxIterations, 0.0);
    SquaredStepNonNegative(r.centre, Step(m, r.centre));
  }

  /** The fitted sphere: centre and squared radius. */
  datatype Sphere = Sphere(centre: Vec3, radiusSq: real)

  /** The square of a real is never negative. */
  lemma SquareNonNegative(t: real)
    ensures t * t >= 0.0
  {
    if t < 0.0 {
      assert t * t == (-t) * (-t);
    }
  }

  /** The sum over the first n values of (v - a)^2: the spread of one axis about a. */
  function Spread(vs: seq<real>, n: nat, a: real): (r: real)
    requires n <= |vs|
  {
    if n == 0 then 0.0 else Spread(vs, n - 1, a) + (vs[n - 1] - a) * (vs[n - 1] - a)
  }

  /** A spread is a sum of squares, so it is never negative. */
  lemma {:induction false} SpreadNonNegative(vs: seq<real>, n: nat, a: real)
    requires n <= |vs|
    ensures Spread(vs, n, a) >= 0.0
  {
    if n > 0 {
      SpreadNonNegative(vs, n - 1, a);
      SquareNonNegative(vs[n - 1] - a);
    }
  }

  /** The summed squared distance of the first n samples from the centre c. */
  function SquaredDistanceSum(xs: seq<real>, ys: seq<real>, zs: seq<real>, n: nat, c: Vec3): (r: real)
    requires n <= |xs| && n <= |ys| && n <= |zs|
  {
    Spread(xs, n, c.x) + Spread(ys, n, c.y) + Spread(zs, n, c.z)
  }

  /** One coordinate stream of the three. */
  function Coordinate(xs: seq<real>, ys: seq<real>, zs: seq<real>, a: Axis): (vs: seq<real>) {
    match a
    case X => xs
    case Y => ys
    case Z => zs
  }

  /** The sum of the first n values. */
  function Total(vs: seq<real>, n: nat): (r: real)
    requires n <= |vs|
  {
    if n == 0 then 0.0 else Total(vs, n - 1) + vs[n - 1]
  }

  /** The sum of the squares of the first n values. */
  function TotalSq(vs: seq<real>, n: nat): (r: real)
    requires n <= |vs|
  {
    if n == 0 then 0.0 else TotalSq(vs, n - 1) + vs[n - 1] * vs[n - 1]
  }

  /** The single pass's per-axis sums are the sums of that axis's stream. */
  lemma {:induction false} SumsOfAxis(xs: seq<real>, ys: seq<real>, zs: seq<real>, n: nat, a: Axis)
    requires n <= |xs| && n <= |ys| && n <= |zs|
    ensures SumsOf(xs, ys, zs, n).Plain(a) == Total(Coordinate(xs, ys, zs, a), n)
    ensures SumsOf(xs, ys, zs, n).Square(a) == TotalSq(Coordinate(xs, ys, zs, a), n)
  {
    if n > 0 {
      SumsOfAxis(xs, ys, zs, n - 1, a);
      match a
      case X =>
      case Y =>
      case Z =>
    }
  }

  /** The expansion q - 2cp + kc^2 of a spread about c, given its sum p, sum of squares q and count k. */
  function Expanded(q: real, p: real, k: real, c: real): (r: real) {
    q - 2.0 * c * p + k * c * c
  }

  /** One step of the expansion, as an identity between reals. */
  lemma ExpansionStep(spread: real, p: real, q: real, k: real, v: real, c: real)
    requires spread == Expanded(q, p, k, c)
    ensures spread + (v - c) * (v - c) == Expanded(q + v * v, p + v, k + 1.0, c)
  {
  }

  /** The spread of one stream, expanded into its sum and its sum of squares. */
  lemma {:induction false} SpreadExpansion(vs: seq<real>, n: nat, c: real)
    requires n <= |vs|
    ensures Spread(vs, n, c) == Expanded(TotalSq(vs, n), Total(vs, n), n as real, c)
  {
    if n > 0 {
      SpreadExpansion(vs, n - 1, c);
      ExpansionStep(Spread(vs, n - 1, c), Total(vs, n - 1), TotalSq(vs, n - 1), (n - 1) as real, vs[n - 1], c);
      assert ((n - 1) as real) + 1.0 == n as real;
    }
  }

  /** Dividing an expansion by its count d gives the expansion of the means. */
  lemma MeanOfExpanded(q: real, p: real, d: real, c: real)
    requires d > 0.0
    ensures Expanded(q, p, d, c) / d == Expanded(q / d, p / d, 1.0, c)
  {
    var lhs := Expanded(q, p, d, c) / d;
    assert lhs * d == q - 2.0 * c * p + d * c * c;
    assert Expanded(q / d, p / d, 1.0, c) * d == q - 2.0 * c * p + d * c * c;
  }

  /** Dividing a sum of three by d divides each term. */
  lemma DivideSum(a: real, b: real, c: real, d: real)
    requires d != 0.0
    ensures (a + b + c) / d == a / d + b / d + c / d
  {
  }

  /** The mean spread of one axis, in terms of the means the fit works with. */
  lemma MeanSpread(xs: seq<real>, ys: seq<real>, zs: seq<real>, size: nat, a: Axis, c: real)
    requires 0 < size <= |xs| && size <= |ys| && size <= |zs|
    ensures var m := MomentsOf(xs, ys, zs, size);
            Spread(Coordinate(xs, ys, zs, a), size, c) / (size as real)
            == Expanded(m.Square(a), m.Plain(a), 1.0, c)
  {
    var vs := Coordinate(xs, ys, zs, a);
    SpreadExpansion(vs, size, c);
    SumsOfAxis(xs, ys, zs, size, a);
    var s := SumsOf(xs, ys, zs, size);
    var m := MomentsOf(xs, ys, zs, size);
    var d := size as real;
    assert m.Plain(a) == s.Plain(a) / d && m.Square(a) == s.Square(a) / d by {
      match a
      case X =>
      case Y =>
      case Z =>
    }
    MeanOfExpanded(s.Square(a), s.Plain(a), d, c);
  }

  /**
   In exact arithmetic the squared radius kept for a centre c is the mean
   squared distance of the samples from c; in particular it is never negative,
   so the final square root always receives a non-negative argument.
   */
  lemma RadiusSqIsMeanSquaredDistance(xs: seq<real>, ys: seq<real>, zs: seq<real>, size: nat, c: Vec3)
    requires 0 < size <= |xs| && size <= |ys| && size <= |zs|
    ensures AuxAt(MomentsOf(xs, ys, zs, size), c).rsq
            == SquaredDistanceSum(xs, ys, zs, size, c) / (size as real)
    ensures AuxAt(MomentsOf(xs, ys, zs, size), c).rsq >= 0.0
  {
    var d := size as real;
    MeanSpread(xs, ys, zs, size, X, c.x);
    MeanSpread(xs, ys, zs, size, Y, c.y);
    MeanSpread(xs, ys, zs, size, Z, c.z);
    var sx, sy, sz := Spread(xs, size, c.x), Spread(ys, size, c.y), Spread(zs, size, c.z);
    DivideSum(sx, sy, sz, d);
    SpreadNonNegative(xs, size, c.x);
    SpreadNonNegative(ys, size, c.y);
    SpreadNonNegative(zs, size, c.z);
  }

  /** The raw denominator of one axis is Q2 plus sixteen times that axis's mean expansion. */
  lemma RawDenominatorsExpanded(m: Moments, c: Vec3)
    ensures var raw := RawDenominators(m, c);
            && raw.x == 16.0 * Expanded(m.xx, m.x, 1.0, c.x)
            && raw.y == 16.0 * Expanded(m.yy, m.y, 1.0, c.y)
            && raw.z == 16.0 * Expanded(m.zz, m.z, 1.0, c.z)
  {
    var q := AuxAt(m, c);
    var raw := RawDenominators(m, c);
    assert raw.x == 16.0 * (q.a2 - 2.0 * c.x * m.x + m.xx);
    assert raw.y == 16.0 * (q.b2 - 2.0 * c.y * m.y + m.yy);
    assert raw.z == 16.0 * (q.c2 - 2.0 * c.z * m.z + m.zz);
    ExpandedOfMean(m.xx, m.x, c.x);
    ExpandedOfMean(m.yy, m.y, c.y);
    ExpandedOfMean(m.zz, m.z, c.z);
  }

  /** The expansion with count 1, in the order the firmware writes it. */
  lemma ExpandedOfMean(q: real, p: real, c: real)
    ensures Expanded(q, p, 1.0, c) == c * c - 2.0 * c * p + q
  {
  }

  /**
   In exact arithmetic the auxiliary Q2 vanishes, and each raw denominator is
   16 times the mean squared deviation of its axis from the current centre:
   the epsilon guard fires only when the samples (nearly) share one coordinate.
   */
  lemma DenominatorIsAxisSpread(xs: seq<real>, ys: seq<real>, zs: seq<real>, size: nat, c: Vec3)
    requires 0 < size <= |xs| && size <= |ys| && size <= |zs|
    ensures AuxAt(MomentsOf(xs, ys, zs, size), c).q2 == 0.0
    ensures var raw := RawDenominators(MomentsOf(xs, ys, zs, size), c);
            && raw.x == 16.0 * (Spread(xs, size, c.x) / (size as real))
            && raw.y == 16.0 * (Spread(ys, size, c.y) / (size as real))
            && raw.z == 16.0 * (Spread(zs, size, c.z) / (size as real))
  {
    MeanSpread(xs, ys, zs, size, X, c.x);
    MeanSpread(xs, ys, zs, size, Y, c.y);
    MeanSpread(xs, ys, zs, size, Z, c.z);
    RawDenominatorsExpanded(MomentsOf(xs, ys, zs, size), c);
  }

  /** The starting centre is the per-axis average of the samples. */
  lemma StartIsSampleMean(xs: seq<real>, ys: seq<real>, zs: seq<real>, size: nat)
    requires 0 < size <= |xs| && size <= |ys| && size <= |zs|
    ensures Start(MomentsOf(xs, ys, zs, size))
            == Vec3(Total(xs, size) / (size as real), Total(ys, size) / (size as real),
                    Total(zs, size) / (size as real))
  {
    SumsOfAxis(xs, ys, zs, size, X);
    SumsOfAxis(xs, ys, zs, size, Y);
    SumsOfAxis(xs, ys, zs, size, Z);
  }

  /**
   The whole fit over the first `size` samples: the moment pass, then the
   refinement from the sample mean. The squared radius returned belongs to the
   returned centre.
   */
  function Fit(xs: seq<real>, ys: seq<real>, zs: seq<real>, size: nat,
               maxIterations: nat, delta: real): (r: Sphere)
    requires 0 < size <= |xs| && size <= |ys| && size <= |zs|
    ensures r.radiusSq == SquaredDistanceSum(xs, ys, zs, size, r.centre) / (size as real)
    ensures r.radiusSq >= 0.0
    ensures maxIterations == 0 ==>
              r.centre == Vec3(Total(xs, size) / (size as real), Total(ys, size) / (size as real),
                               Total(zs, size) / (size as real))
  {
    var m := MomentsOf(xs, ys, zs, size);
    StartIsSampleMean(xs, ys, zs, size);
    var stop := Iterate(m, Start(m), 0, maxIterations, delta);
    RadiusSqIsMeanSquaredDistance(xs, ys, zs, size, stop.centre);
    Sphere(stop.centre, AuxAt(m, stop.centre).rsq)
  }

  /** The single pass over the samples (the first loop of the firmware), then the division by size. */
  method AccumulateMoments(xs: seq<real>, ys: seq<real>, zs: seq<real>, size: nat) returns (m: Moments)
    requires 0 < size <= |xs| && size <= |ys| && size <= |zs|
    ensures m == MomentsOf(xs, ys, zs, size)
  {
    var sums := NoMoments;
    var i := 0;
    while i < size
      invariant i <= size
      invariant sums == SumsOf(xs, ys, zs, i)
    {
      sums := AddSample(sums, xs[i], ys[i], zs[i]);
      i := i + 1;
    }
    m := Mean(sums, size);
  }

  /**
   The refinement loop as the firmware writes it: a counter incremented at the
   top of each pass, a step computed from the carried auxiliaries, a break on
   a small step, and otherwise a commit of the new centre and a recomputation
   of its auxiliaries. It ends where the reference
   `Iterate` ends, and the squared radius it holds belongs to that centre.
   */
  method Refine(m: Moments, maxIterations: nat, delta: real) returns (centre: Vec3, rsq: real, passes: nat)
    ensures centre == Iterate(m, Start(m), 0, maxIterations, delta).centre
    ensures rsq == AuxAt(m, centre).rsq
    ensures passes == Iterate(m, Start(m), 0, maxIterations, delta).iterations
  {
    ghost var goal := Iterate(m, Start(m), 0, maxIterations, delta);
    var a, b, c := m.x, m.y, m.z;
    var aux := AuxAt(m, Vec3(a, b, c));
    var n := 0;
    while n < maxIterations
      invariant n <= maxIterations
      invariant aux == AuxAt(m, Vec3(a, b, c))
      invariant Iterate(m, Vec3(a, b, c), n, maxIterations, delta) == goal
      decreases maxIterations - n
    {
      n := n + 1;
      var next := StepWith(m, Vec3(a, b, c), aux);
      if SquaredStep(Vec3(a, b, c), next) <= delta {
        break;
      }
      a, b, c := next.x, next.y, next.z;
      aux := AuxAt(m, Vec3(a, b, c));
    }
    centre := Vec3(a, b, c);
    rsq := aux.rsq;
    passes := n;
  }

  /**
   The whole of `sphere_fit_least_squares`: the moment pass, the refinement,
   and the square root of the final squared radius. It computes exactly the
   reference `Fit` and runs at most maxIterations refinement passes.
   */
  method SphereFitLeastSquares(xs: seq<real>, ys: seq<real>, zs: seq<real>, size: nat,
                               maxIterations: nat, delta: real, sqrtf: real -> real)
    returns (sphereX: real, sphereY: real, sphereZ: real, sphereRadius: real, passes: nat)
    requires 0 < size <= |xs| && size <= |ys| && size <= |zs|
    ensures Vec3(sphereX, sphereY, sphereZ) == Fit(xs, ys, zs, size, maxIterations, delta).centre
    ensures sphereRadius == sqrtf(Fit(xs, ys, zs, size, maxIterations, delta).radiusSq)
    ensures passes <= maxIterations
  {
    var m := AccumulateMoments(xs, ys, zs, size);
    var centre, rsq;
    centre, rsq, passes := Refine(m, maxIterations, delta);
    sphereX, sphereY, sphereZ := centre.x, centre.y, centre.z;
    sphereRadius := sqrtf(rsq);
  }
}
