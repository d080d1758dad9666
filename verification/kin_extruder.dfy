/**
  Pressure-advance smoothing of the extruder, kin_extruder.c.

  `SmoothPosition` is the formula in the comment of the source: the pressure-advanced
  position, averaged with a triangular weight of half-width h, as a sum of exact
  integrals over the moves of the queue.  The two walking loops of pa_range_integrate
  compute it, and it does not depend on how the motion is cut into moves.
*/
module ExtruderSmoothing {
  import opened Common

  /** The fields of a queue entry that the extruder code reads; `advance` stands for axes_r.y != 0. */
  datatype EMove = EMove(moveT: real, startX: real, startV: real, halfAccel: real, advance: bool)
  {
    function Pa(pa: real): real {
      if advance then pa else 0.0
    }

    /** move_get_distance */
    function Distance(t: real): real {
      (startV + halfAccel * t) * t
    }

    function Velocity(t: real): real {
      startV + 2.0 * halfAccel * t
    }

    /** pa_position of the comment, t time units into the move, for positions that begin at base. */
    function PaPosition(pa: real, base: real, t: real): real {
      base + Distance(t) + Pa(pa) * Velocity(t)
    }
  }

  // ----- Formulas of the source -----

  function Integrate(base: real, startV: real, halfAccel: real, start: real, end: real): real {
    var halfV, sixthA := 0.5 * startV, (1.0 / 3.0) * halfAccel;
    var si := start * (base + start * (halfV + start * sixthA));
    var ei := end * (base + end * (halfV + end * sixthA));
    ei - si
  }

  function IntegrateTime(base: real, startV: real, halfAccel: real, start: real, end: real): real {
    var halfB, thirdV := 0.5 * base, (1.0 / 3.0) * startV;
    var eighthA := 0.25 * halfAccel;
    var si := start * start * (halfB + start * (thirdV + start * eighthA));
    var ei := end * end * (halfB + end * (thirdV + end * eighthA));
    ei - si
  }

  // ----- The reference: an integral over the whole queue -----

  /** Antiderivatives of (u - off), (u - off) * u and (u - off) * u * u. */
  function W2(off: real, u: real): real { 0.5 * u * u - off * u }

  function W3(off: real, u: real): real { (1.0 / 3.0) * u * u * u - 0.5 * off * u * u }

  function W4(off: real, u: real): real { 0.25 * u * u * u * u - (1.0 / 3.0) * off * u * u * u }

  /** The antiderivative of (u - off) times the pressure-advanced position, u time units into
      a move.  The defining equation sits behind a quantifier so that proofs about sums of
      integrals do not see the polynomial; WeightedValue brings it in. */
  ghost function Weighted(m: EMove, pa: real, base: real, off: real, u: real): real {
    assert IsWeighted(Polynomial(m, pa, base, off, u), m, pa, base, off, u);
    var y :| IsWeighted(y, m, pa, base, off, u);
    y
  }

  ghost predicate IsWeighted(y: real, m: EMove, pa: real, base: real, off: real, u: real) {
    forall seal :: WeightedIs(seal, y, m, pa, base, off, u)
  }

  ghost predicate WeightedIs(seal: Seal, y: real, m: EMove, pa: real, base: real, off: real, u: real) {
    y == Polynomial(m, pa, base, off, u)
  }

  function Polynomial(m: EMove, pa: real, base: real, off: real, u: real): real {
    Spelled(base, m.Pa(pa), m.startV, m.halfAccel, off, u)
  }

  function Spelled(base: real, k: real, v: real, a: real, off: real, u: real): real {
    (base + k * v) * W2(off, u) + (v + k * 2.0 * a) * W3(off, u) + a * W4(off, u)
  }

  lemma {:induction false} WeightedValue(m: EMove, pa: real, base: real, off: real, u: real)
    ensures Weighted(m, pa, base, off, u) == Polynomial(m, pa, base, off, u)
  {
    assert WeightedIs(Whole, Weighted(m, pa, base, off, u), m, pa, base, off, u);
  }

  // The formula of the comment is under the integral: Weighted has the slope
  // (u - off) * pa_position(u) everywhere.

  lemma {:induction false} VelocityIsSlope(m: EMove, t: real, d: real)
    ensures m.Distance(t + d) - m.Distance(t) == d * m.Velocity(t) + d * d * m.halfAccel
  {
  }

  function SlopePart(base: real, k: real, v: real, a: real, off: real, u: real, d: real): real {
    d * ((u - off) * (base + (v + a * u) * u + k * (v + 2.0 * a * u)))
  }

  function RestPart(base: real, k: real, v: real, a: real, off: real, u: real, d: real): real {
    RestOf(base + k * v, v + k * 2.0 * a, a, off, u, d)
  }

  function RestOf(p: real, q: real, a: real, off: real, u: real, d: real): real {
    d * d * ((p * 0.5 + q * (u - 0.5 * off) + a * (1.5 * u * u - off * u))
             + (q * (1.0 / 3.0) + a * (u - (1.0 / 3.0) * off)) * d + (a * 0.25) * (d * d))
  }

  lemma {:induction false} SlopeSpelled(base: real, k: real, v: real, a: real, off: real, u: real, d: real)
    ensures Spelled(base, k, v, a, off, u + d) - Spelled(base, k, v, a, off, u) ==
            SlopePart(base, k, v, a, off, u, d) + RestPart(base, k, v, a, off, u, d)
  {
    hide W2, W3, W4, RestOf, Step2, Step3, Step4, Slope;
    WeightSteps(off, u, d);
    var p, q := base + k * v, v + k * 2.0 * a;
    ThreeSteps(p, q, a, W2(off, u + d), W2(off, u), W3(off, u + d), W3(off, u), W4(off, u + d), W4(off, u));
    StepsSum(p, q, a, off, u, d);
    SlopeIs(base, k, v, a, off, u, d);
  }

  function Slope(p: real, q: real, a: real, off: real, u: real, d: real): real {
    d * ((u - off) * (p + q * u + a * (u * u)))
  }

  lemma {:induction false} SlopeIs(base: real, k: real, v: real, a: real, off: real, u: real, d: real)
    ensures Slope(base + k * v, v + k * 2.0 * a, a, off, u, d) == SlopePart(base, k, v, a, off, u, d)
  {
    var x, y := base + k * v + (v + k * 2.0 * a) * u + a * (u * u), base + (v + a * u) * u + k * (v + 2.0 * a * u);
    assert x == y;
    SameProduct(u - off, x, y);
  }

  function Step2(off: real, u: real, d: real): real { d * (u - off) + d * d * 0.5 }

  function Step3(off: real, u: real, d: real): real { d * (u - off) * u + d * d * (u - 0.5 * off + 1.0 / 3.0 * d) }

  function Step4(off: real, u: real, d: real): real {
    d * (u - off) * (u * u) + d * d * (1.5 * u * u - off * u + (u - 1.0 / 3.0 * off) * d + 0.25 * (d * d))
  }

  /** The three integrals of (x - off), (x - off) * x and (x - off) * x * x, a step on. */
  lemma {:induction false} WeightSteps(off: real, u: real, d: real)
    ensures W2(off, u + d) - W2(off, u) == Step2(off, u, d)
    ensures W3(off, u + d) - W3(off, u) == Step3(off, u, d)
    ensures W4(off, u + d) - W4(off, u) == Step4(off, u, d)
  {
  }

  lemma {:induction false} ThreeSteps(p: real, q: real, a: real, x2: real, y2: real, x3: real, y3: real, x4: real,
                                      y4: real)
    ensures (p * x2 + q * x3 + a * x4) - (p * y2 + q * y3 + a * y4) == p * (x2 - y2) + q * (x3 - y3) + a * (x4 - y4)
  {
  }

  lemma {:induction false} StepsSum(p: real, q: real, a: real, off: real, u: real, d: real)
    ensures p * Step2(off, u, d) + q * Step3(off, u, d) + a * Step4(off, u, d) ==
            Slope(p, q, a, off, u, d) + RestOf(p, q, a, off, u, d)
  {
  }

  lemma {:induction false} SlopePartIs(m: EMove, pa: real, base: real, off: real, u: real, d: real)
    ensures SlopePart(base, m.Pa(pa), m.startV, m.halfAccel, off, u, d) == d * ((u - off) * m.PaPosition(pa, base, u))
  {
    SameProduct(u - off, base + (m.startV + m.halfAccel * u) * u + m.Pa(pa) * (m.startV + 2.0 * m.halfAccel * u),
                m.PaPosition(pa, base, u));
  }

  lemma {:induction false} SameProduct(f: real, x: real, y: real)
    requires x == y
    ensures f * x == f * y
  {
  }

  /** What the slope leaves over, divided by the square of the step: a polynomial in the step. */
  function Remainder(base: real, k: real, v: real, a: real, off: real, u: real, d: real): real {
    Coeff0(base, k, v, a, off, u) + Coeff1(k, v, a, off, u) * d + Coeff2(a) * (d * d)
  }

  function Coeff0(base: real, k: real, v: real, a: real, off: real, u: real): real {
    (base + k * v) * 0.5 + (v + k * 2.0 * a) * (u - 0.5 * off) + a * (1.5 * u * u - off * u)
  }

  function Coeff1(k: real, v: real, a: real, off: real, u: real): real {
    (v + k * 2.0 * a) * (1.0 / 3.0) + a * (u - (1.0 / 3.0) * off)
  }

  function Coeff2(a: real): real {
    a * 0.25
  }

  lemma {:induction false} RestPartIs(base: real, k: real, v: real, a: real, off: real, u: real, d: real)
    ensures RestPart(base, k, v, a, off, u, d) == d * d * Remainder(base, k, v, a, off, u, d)
  {
    SameProduct(d * d,
                ((base + k * v) * 0.5 + (v + k * 2.0 * a) * (u - 0.5 * off) + a * (1.5 * u * u - off * u))
                + ((v + k * 2.0 * a) * (1.0 / 3.0) + a * (u - (1.0 / 3.0) * off)) * d + (a * 0.25) * (d * d),
                Remainder(base, k, v, a, off, u, d));
  }

  /** The slope of Weighted, exactly. */
  lemma {:induction false} SlopeOfWeighted(m: EMove, pa: real, base: real, off: real, u: real, d: real)
    ensures Weighted(m, pa, base, off, u + d) - Weighted(m, pa, base, off, u) ==
            d * ((u - off) * m.PaPosition(pa, base, u)) + d * d * Remainder(base, m.Pa(pa), m.startV, m.halfAccel, off, u, d)
  {
    hide Weighted, Spelled, SlopePart, RestPart, Remainder, EMove.PaPosition;
    WeightedValue(m, pa, base, off, u + d);
    WeightedValue(m, pa, base, off, u);
    SlopeSpelled(base, m.Pa(pa), m.startV, m.halfAccel, off, u, d);
    SlopePartIs(m, pa, base, off, u, d);
    RestPartIs(base, m.Pa(pa), m.startV, m.halfAccel, off, u, d);
  }

  /** A step small enough for difference quotients to come within eps of the integrand. */
  function StepFor(m: EMove, pa: real, base: real, off: real, u: real, eps: real): (delta: real)
    requires 0.0 < eps
    ensures 0.0 < delta <= 1.0 && delta * RemainderBound(base, m.Pa(pa), m.startV, m.halfAccel, off, u) <= eps
  {
    var bound := RemainderBound(base, m.Pa(pa), m.startV, m.halfAccel, off, u);
    if eps < bound then
      StepFits(eps, bound);
      eps / bound
    else 1.0
  }

  lemma {:induction false} StepFits(eps: real, bound: real)
    requires 0.0 < eps < bound
    ensures 0.0 < eps / bound <= 1.0 && eps / bound * bound == eps
  {
  }

  /** The derivative of Weighted is the integrand: for every eps, difference quotients over steps
      up to StepFor come within eps of it. */
  lemma {:induction false} WeightedIsAntiderivative(m: EMove, pa: real, base: real, off: real, u: real, eps: real,
                                                    d: real)
    requires 0.0 < eps && d != 0.0 && Abs(d) <= StepFor(m, pa, base, off, u, eps)
    ensures Abs((Weighted(m, pa, base, off, u + d) - Weighted(m, pa, base, off, u)) / d
                - (u - off) * m.PaPosition(pa, base, u)) <= eps
  {
    hide Weighted, Remainder, RemainderBound, Abs, EMove.PaPosition;
    var k, v, a := m.Pa(pa), m.startV, m.halfAccel;
    SlopeOfWeighted(m, pa, base, off, u, d);
    RemainderBounded(base, k, v, a, off, u, d);
    Near(Weighted(m, pa, base, off, u + d) - Weighted(m, pa, base, off, u), (u - off) * m.PaPosition(pa, base, u), d,
         Remainder(base, k, v, a, off, u, d), StepFor(m, pa, base, off, u, eps), RemainderBound(base, k, v, a, off, u), eps);
  }

  lemma {:induction false} Near(x: real, slope: real, d: real, r: real, delta: real, bound: real, eps: real)
    requires d != 0.0 && x == d * slope + d * d * r
    requires Abs(d) <= delta && Abs(r) <= bound && delta * bound <= eps
    ensures Abs(x / d - slope) <= eps
  {
    Quotient(x, slope, d, r);
    ProductBounded(d, r, delta, bound);
  }

  lemma {:induction false} Quotient(x: real, slope: real, d: real, r: real)
    requires d != 0.0 && x == d * slope + d * d * r
    ensures x / d - slope == d * r
  {
    assert x == d * (slope + d * r);
  }

  lemma {:induction false} ProductBounded(d: real, r: real, delta: real, bound: real)
    requires Abs(d) <= delta && Abs(r) <= bound
    ensures Abs(d * r) <= delta * bound
  {
    assert Abs(d * r) == Abs(d) * Abs(r);
    Larger(Abs(d), Abs(r), delta, bound);
  }

  lemma {:induction false} Larger(x: real, y: real, x': real, y': real)
    requires 0.0 <= x <= x' && 0.0 <= y <= y'
    ensures x * y <= x' * y'
  {
    Scale(x, y, y');
    Scale(y', x, x');
  }

  lemma {:induction false} Scale(f: real, x: real, y: real)
    requires 0.0 <= f && x <= y
    ensures f * x <= f * y
  {
  }

  /** How large the remainder gets for steps of at most 1. */
  function RemainderBound(base: real, k: real, v: real, a: real, off: real, u: real): (b: real)
    ensures 0.0 < b
  {
    1.0 + Abs(Coeff0(base, k, v, a, off, u)) + Abs(Coeff1(k, v, a, off, u)) + Abs(Coeff2(a))
  }

  lemma {:induction false} RemainderBounded(base: real, k: real, v: real, a: real, off: real, u: real, d: real)
    requires Abs(d) <= 1.0
    ensures Abs(Remainder(base, k, v, a, off, u, d)) <= RemainderBound(base, k, v, a, off, u)
  {
    hide Coeff0, Coeff1, Coeff2, Abs;
    QuadraticBounded(Coeff0(base, k, v, a, off, u), Coeff1(k, v, a, off, u), Coeff2(a), d,
                     Remainder(base, k, v, a, off, u, d));
  }

  lemma {:induction false} QuadraticBounded(r0: real, r1: real, r2: real, d: real, r: real)
    requires Abs(d) <= 1.0 && r == r0 + r1 * d + r2 * (d * d)
    ensures Abs(r) <= Abs(r0) + Abs(r1) + Abs(r2)
  {
    ProductBounded(r1, d, Abs(r1), 1.0);
    ProductBounded(d, d, 1.0, 1.0);
    ProductBounded(r2, d * d, Abs(r2), 1.0);
    SumBounded(r0, r1 * d, r2 * (d * d), Abs(r1), Abs(r2));
  }

  lemma {:induction false} SumBounded(x: real, y: real, z: real, b: real, c: real)
    requires Abs(y) <= b && Abs(z) <= c
    ensures Abs(x + y + z) <= Abs(x) + b + c
  {
  }

  /** The weight of both halves is that of the comment: half the smoothing time less the distance
      from the middle. */
  lemma {:induction false} TriangleWeight(t: real, h: real, x: real, u: real)
    ensures x + u <= t ==> u - (t - h - x) == h - Abs(t - (x + u))
    ensures t <= x + u ==> -(u - (t + h - x)) == h - Abs(t - (x + u))
  {
  }

  /** Integral of (u - off) * position over the part of [s, e] inside the move. */
  ghost function Part(m: EMove, pa: real, base: real, off: real, s: real, e: real): real {
    var s', e' := Max(s, 0.0), Min(e, m.moveT);
    if s' < e' then Weighted(m, pa, base, off, e') - Weighted(m, pa, base, off, s') else 0.0
  }

  function StartTime(q: seq<EMove>, i: nat): real
    requires i <= |q|
  {
    if i == 0 then 0.0 else StartTime(q, i - 1) + q[i - 1].moveT
  }

  /** Rising half of the triangle around t, over the first n moves; positions relative to b. */
  ghost function Rising(q: seq<EMove>, n: nat, t: real, h: real, pa: real, b: real): real
    requires n <= |q|
  {
    if n == 0 then 0.0
    else var x := StartTime(q, n - 1);
      Rising(q, n - 1, t, h, pa, b) + Part(q[n - 1], pa, q[n - 1].startX - b, t - h - x, t - h - x, t - x)
  }

  /** Falling half of the triangle. */
  ghost function Falling(q: seq<EMove>, n: nat, t: real, h: real, pa: real, b: real): real
    requires n <= |q|
  {
    if n == 0 then 0.0
    else var x := StartTime(q, n - 1);
      Falling(q, n - 1, t, h, pa, b) - Part(q[n - 1], pa, q[n - 1].startX - b, t + h - x, t - x, t + h - x)
  }

  ghost function Area(q: seq<EMove>, t: real, h: real, pa: real, b: real): real {
    Rising(q, |q|, t, h, pa, b) + Falling(q, |q|, t, h, pa, b)
  }

  /** The weighted average of the comment, at time t after the start of the queue. */
  ghost function SmoothPosition(q: seq<EMove>, t: real, h: real, pa: real): real
    requires h != 0.0
  {
    Area(q, t, h, pa, 0.0) / (h * h)
  }

  ghost predicate Timed(q: seq<EMove>) {
    forall i :: 0 <= i < |q| ==> 0.0 <= q[i].moveT
  }

  // ----- The source formulas are exact integrals -----

  /** pa_move_integrate: exactly the integral, on every range the loops ask for. */
  method MoveIntegrate(m: EMove, pa: real, base: real, start: real, end: real, timeOffset: real) returns (res: real)
    requires Max(start, 0.0) <= Min(end, m.moveT)
    ensures res == Part(m, pa, base, timeOffset, start, end)
  {
    var s, e := Max(start, 0.0), Min(end, m.moveT);
    var pressureAdvance := m.Pa(pa);
    var b := base + pressureAdvance * m.startV;
    var startV := m.startV + pressureAdvance * 2.0 * m.halfAccel;
    var iext := Integrate(b, startV, m.halfAccel, s, e);
    var wgtExt := IntegrateTime(b, startV, m.halfAccel, s, e);
    res := wgtExt - timeOffset * iext;
    IntegralIsWeighted(m, pa, base, timeOffset, s, e);
  }

  lemma {:induction false} IntegralIsWeighted(m: EMove, pa: real, base: real, off: real, s: real, e: real)
    ensures var b := base + m.Pa(pa) * m.startV;
            var v := m.startV + m.Pa(pa) * 2.0 * m.halfAccel;
            IntegrateTime(b, v, m.halfAccel, s, e) - off * Integrate(b, v, m.halfAccel, s, e)
            == Weighted(m, pa, base, off, e) - Weighted(m, pa, base, off, s)
  {
    WeightedValue(m, pa, base, off, s);
    WeightedValue(m, pa, base, off, e);
    IntegralValue(base + m.Pa(pa) * m.startV, m.startV + m.Pa(pa) * 2.0 * m.halfAccel, m.halfAccel, off, s, e);
  }

  lemma {:induction false} IntegralValue(b: real, v: real, a: real, off: real, s: real, e: real)
    ensures IntegrateTime(b, v, a, s, e) - off * Integrate(b, v, a, s, e)
            == (b * W2(off, e) + v * W3(off, e) + a * W4(off, e)) - (b * W2(off, s) + v * W3(off, s) + a * W4(off, s))
  {
    var ts, si := TimePart(b, v, a, s), PlainPart(b, v, a, s);
    var te, ei := TimePart(b, v, a, e), PlainPart(b, v, a, e);
    Antiderivative(b, v, a, off, s);
    Antiderivative(b, v, a, off, e);
    assert IntegrateTime(b, v, a, s, e) == te - ts && Integrate(b, v, a, s, e) == ei - si;
    Difference(off, ei, si);
  }

  lemma {:induction false} Difference(off: real, x: real, y: real)
    ensures off * (x - y) == off * x - off * y
  {
  }

  function TimePart(b: real, v: real, a: real, u: real): real {
    u * u * (0.5 * b + u * ((1.0 / 3.0) * v + u * (0.25 * a)))
  }

  function PlainPart(b: real, v: real, a: real, u: real): real {
    u * (b + u * (0.5 * v + u * ((1.0 / 3.0) * a)))
  }

  lemma {:induction false} Antiderivative(b: real, v: real, a: real, off: real, u: real)
    ensures TimePart(b, v, a, u) - off * PlainPart(b, v, a, u)
            == b * W2(off, u) + v * W3(off, u) + a * W4(off, u)
  {
    var k := 1.0 / 3.0;
    ExpandTime(b, v, a, k, u);
    Expand(b, v, a, k, u);
    assert off * (b * u + v * (0.5 * u * u) + a * (k * u * u * u))
        == b * (off * u) + v * (0.5 * off * u * u) + a * (k * off * u * u * u);
    assert b * W2(off, u) == b * (0.5 * u * u) - b * (off * u);
    assert v * W3(off, u) == v * (k * u * u * u) - v * (0.5 * off * u * u);
    assert a * W4(off, u) == a * (0.25 * u * u * u * u) - a * (k * off * u * u * u);
  }

  lemma {:induction false} ExpandTime(b: real, v: real, a: real, k: real, u: real)
    ensures u * u * (0.5 * b + u * (k * v + u * (0.25 * a)))
            == b * (0.5 * u * u) + v * (k * u * u * u) + a * (0.25 * u * u * u * u)
  {
    var x := u * (0.25 * a);
    var y := u * (k * v + x);
    assert y == u * (k * v) + u * x;
    assert u * u * (0.5 * b + y) == u * u * (0.5 * b) + u * u * y;
    assert u * u * y == u * u * (u * (k * v)) + u * u * (u * x);
    assert u * u * (u * (k * v)) == v * (k * u * u * u);
    assert u * u * (u * x) == a * (0.25 * u * u * u * u);
  }

  lemma {:induction false} Expand(b: real, v: real, a: real, k: real, u: real)
    ensures u * (b + u * (0.5 * v + u * (k * a))) == b * u + v * (0.5 * u * u) + a * (k * u * u * u)
  {
    var x := u * (k * a);
    var y := u * (0.5 * v + x);
    assert y == u * (0.5 * v) + u * x;
    assert u * (b + y) == u * b + u * y;
    assert u * y == u * (u * (0.5 * v)) + u * (u * x);
    assert u * (u * (0.5 * v)) == v * (0.5 * u * u);
    assert u * (u * x) == a * (k * u * u * u);
  }

  // ----- Which moves matter -----

  lemma {:induction false} StartTimeGrows(q: seq<EMove>, i: nat, j: nat)
    requires Timed(q) && i <= j <= |q|
    ensures StartTime(q, i) <= StartTime(q, j)
  {
    if i < j {
      StartTimeGrows(q, i, j - 1);
    }
  }

  lemma {:induction false} RisingStartsLate(q: seq<EMove>, n: nat, t: real, h: real, pa: real, b: real)
    requires Timed(q) && n <= |q| && StartTime(q, n) <= t - h
    ensures Rising(q, n, t, h, pa, b) == 0.0
  {
    if n > 0 {
      StartTimeGrows(q, n - 1, n);
      RisingStartsLate(q, n - 1, t, h, pa, b);
    }
  }

  lemma {:induction false} RisingEnds(q: seq<EMove>, i: nat, n: nat, t: real, h: real, pa: real, b: real)
    requires Timed(q) && i <= n <= |q| && t <= StartTime(q, i)
    ensures Rising(q, n, t, h, pa, b) == Rising(q, i, t, h, pa, b)
  {
    if i < n {
      RisingEnds(q, i, n - 1, t, h, pa, b);
      StartTimeGrows(q, i, n - 1);
    }
  }

  lemma {:induction false} FallingStartsLate(q: seq<EMove>, n: nat, t: real, h: real, pa: real, b: real)
    requires Timed(q) && n <= |q| && StartTime(q, n) <= t
    ensures Falling(q, n, t, h, pa, b) == 0.0
  {
    if n > 0 {
      StartTimeGrows(q, n - 1, n);
      FallingStartsLate(q, n - 1, t, h, pa, b);
    }
  }

  lemma {:induction false} FallingEnds(q: seq<EMove>, i: nat, n: nat, t: real, h: real, pa: real, b: real)
    requires Timed(q) && i <= n <= |q| && t + h <= StartTime(q, i)
    ensures Falling(q, n, t, h, pa, b) == Falling(q, i, t, h, pa, b)
  {
    if i < n {
      FallingEnds(q, i, n - 1, t, h, pa, b);
      StartTimeGrows(q, i, n - 1);
    }
  }

  // ----- The walking loops -----

  /** The queue holds all moves that the smoothing window around time t touches. */
  ghost predicate Covers(q: seq<EMove>, t: real, h: real) {
    0.0 <= t - h && t + h <= StartTime(q, |q|)
  }

  method PaRangeIntegrate(q: seq<EMove>, k: nat, moveTime: real, pa: real, hst: real) returns (res: real)
    requires Timed(q) && k < |q| && 0.0 <= moveTime <= q[k].moveT && 0.0 < hst
    requires Covers(q, StartTime(q, k) + moveTime, hst)
    ensures res == Area(q, StartTime(q, k) + moveTime, hst, pa, q[k].startX)
  {
    ghost var t := StartTime(q, k) + moveTime;
    var start, end := moveTime - hst, moveTime + hst;
    var startBase := q[k].startX;
    res := MoveIntegrate(q[k], pa, 0.0, start, moveTime, start);
    var right := MoveIntegrate(q[k], pa, 0.0, moveTime, end, end);
    res := res - right;
    FallingStartsLate(q, k, t, hst, pa, startBase);
    ghost var later := Falling(q, k + 1, t, hst, pa, startBase);
    var prev := k;
    while start < 0.0
      invariant prev <= k && start == t - hst - StartTime(q, prev) && end == moveTime + hst
      invariant res == Rising(q, k + 1, t, hst, pa, startBase) - Rising(q, prev, t, hst, pa, startBase) + later
      decreases prev
    {
      StartTimeGrows(q, prev, k);
      prev := prev - 1;
      start := start + q[prev].moveT;
      var base := q[prev].startX - startBase;
      var left := MoveIntegrate(q[prev], pa, base, start, q[prev].moveT, start);
      res := res + left;
    }
    RisingStartsLate(q, prev, t, hst, pa, startBase);
    RisingEnds(q, k + 1, |q|, t, hst, pa, startBase);
    var i := k;
    while end > q[i].moveT
      invariant k <= i < |q| && end == t + hst - StartTime(q, i) && 0.0 < end
      invariant res == Rising(q, |q|, t, hst, pa, startBase) + Falling(q, i + 1, t, hst, pa, startBase)
      decreases |q| - i
    {
      end := end - q[i].moveT;
      i := i + 1;
      StartTimeGrows(q, k + 1, i);
      var base := q[i].startX - startBase;
      right := MoveIntegrate(q[i], pa, base, 0.0, end, end);
      res := res - right;
    }
    FallingEnds(q, i + 1, |q|, t, hst, pa, startBase);
  }

  // ----- The weights add up, so the base position does not matter -----

  /** Integral of the weight alone: that of a motion standing still at position 1. */
  ghost function WeightPart(m: EMove, off: real, s: real, e: real): real {
    Part(EMove(m.moveT, 1.0, 0.0, 0.0, false), 0.0, 1.0, off, s, e)
  }

  lemma {:induction false} UnitWeight(t: real, off: real, u: real)
    ensures Weighted(EMove(t, 1.0, 0.0, 0.0, false), 0.0, 1.0, off, u) == W2(off, u)
  {
    WeightedValue(EMove(t, 1.0, 0.0, 0.0, false), 0.0, 1.0, off, u);
  }

  ghost function RisingWeight(q: seq<EMove>, n: nat, t: real, h: real): real
    requires n <= |q|
  {
    if n == 0 then 0.0
    else var x := StartTime(q, n - 1);
      RisingWeight(q, n - 1, t, h) + WeightPart(q[n - 1], t - h - x, t - h - x, t - x)
  }

  ghost function FallingWeight(q: seq<EMove>, n: nat, t: real, h: real): real
    requires n <= |q|
  {
    if n == 0 then 0.0
    else var x := StartTime(q, n - 1);
      FallingWeight(q, n - 1, t, h) - WeightPart(q[n - 1], t + h - x, t - x, t + h - x)
  }

  lemma {:induction false} PartBase(m: EMove, pa: real, base: real, b: real, off: real, s: real, e: real)
    ensures Part(m, pa, base - b, off, s, e) == Part(m, pa, base, off, s, e) - b * WeightPart(m, off, s, e)
  {
    var s', e' := Max(s, 0.0), Min(e, m.moveT);
    if s' < e' {
      WeightedBase(m, pa, base, b, off, s');
      WeightedBase(m, pa, base, b, off, e');
      UnitWeight(m.moveT, off, s');
      UnitWeight(m.moveT, off, e');
      assert b * (W2(off, e') - W2(off, s')) == b * W2(off, e') - b * W2(off, s');
    }
  }

  lemma {:induction false} WeightedBase(m: EMove, pa: real, base: real, b: real, off: real, u: real)
    ensures Weighted(m, pa, base - b, off, u) == Weighted(m, pa, base, off, u) - b * W2(off, u)
  {
    WeightedValue(m, pa, base - b, off, u);
    WeightedValue(m, pa, base, off, u);
    var p := base + m.Pa(pa) * m.startV;
    assert (p - b) * W2(off, u) == p * W2(off, u) - b * W2(off, u);
  }

  lemma {:induction false} ScaledSum(b: real, x: real, y: real)
    ensures b * (x + y) == b * x + b * y && b * (x - y) == b * x - b * y
  {
  }

  lemma {:induction false} RisingBase(q: seq<EMove>, n: nat, t: real, h: real, pa: real, b: real)
    requires n <= |q|
    ensures Rising(q, n, t, h, pa, b) == Rising(q, n, t, h, pa, 0.0) - b * RisingWeight(q, n, t, h)
  {
    if n > 0 {
      hide Part, WeightPart;
      RisingBase(q, n - 1, t, h, pa, b);
      var x, m := StartTime(q, n - 1), q[n - 1];
      PartBase(m, pa, m.startX - 0.0, b, t - h - x, t - h - x, t - x);
      ScaledSum(b, RisingWeight(q, n - 1, t, h), WeightPart(m, t - h - x, t - h - x, t - x));
    }
  }

  lemma {:induction false} FallingBase(q: seq<EMove>, n: nat, t: real, h: real, pa: real, b: real)
    requires n <= |q|
    ensures Falling(q, n, t, h, pa, b) == Falling(q, n, t, h, pa, 0.0) - b * FallingWeight(q, n, t, h)
  {
    if n > 0 {
      hide Part, WeightPart;
      FallingBase(q, n - 1, t, h, pa, b);
      var x, m := StartTime(q, n - 1), q[n - 1];
      PartBase(m, pa, m.startX - 0.0, b, t + h - x, t - x, t + h - x);
      ScaledSum(b, FallingWeight(q, n - 1, t, h), WeightPart(m, t + h - x, t - x, t + h - x));
    }
  }

  /** The part of the triangle's area that lies before time x. */
  function RisingArea(x: real, t: real, h: real): real {
    if x <= t - h then 0.0 else if x <= t then HalfSquare(x - (t - h)) else HalfSquare(h)
  }

  function FallingArea(x: real, t: real, h: real): real {
    if x <= t then 0.0 else if x <= t + h then HalfSquare(h) - HalfSquare(t + h - x) else HalfSquare(h)
  }

  function HalfSquare(x: real): real { 0.5 * x * x }

  lemma {:induction false} SquareW2(off: real, u: real)
    ensures W2(off, u) == HalfSquare(u - off) - HalfSquare(off) == HalfSquare(off - u) - HalfSquare(off)
  {
  }

  lemma {:induction false} RisingTriangle(q: seq<EMove>, n: nat, t: real, h: real)
    requires Timed(q) && n <= |q| && 0.0 < h && h <= t
    ensures RisingWeight(q, n, t, h) == RisingArea(StartTime(q, n), t, h)
  {
    if n > 0 {
      RisingTriangle(q, n - 1, t, h);
      var x, m := StartTime(q, n - 1), q[n - 1].moveT;
      UnitWeight(m, t - h - x, Max(t - h - x, 0.0));
      UnitWeight(m, t - h - x, Min(t - x, m));
      SquareW2(t - h - x, Max(t - h - x, 0.0));
      SquareW2(t - h - x, Min(t - x, m));
    }
  }

  lemma {:induction false} FallingTriangle(q: seq<EMove>, n: nat, t: real, h: real)
    requires Timed(q) && n <= |q| && 0.0 < h && 0.0 <= t
    ensures FallingWeight(q, n, t, h) == FallingArea(StartTime(q, n), t, h)
  {
    if n > 0 {
      FallingTriangle(q, n - 1, t, h);
      var x, m := StartTime(q, n - 1), q[n - 1].moveT;
      UnitWeight(m, t + h - x, Max(t - x, 0.0));
      UnitWeight(m, t + h - x, Min(t + h - x, m));
      SquareW2(t + h - x, Max(t - x, 0.0));
      SquareW2(t + h - x, Min(t + h - x, m));
    }
  }

  /** The triangle has area h * h: shifting all positions shifts the average. */
  lemma {:induction false} AreaBase(q: seq<EMove>, t: real, h: real, pa: real, b: real)
    requires Timed(q) && 0.0 < h && Covers(q, t, h)
    ensures Area(q, t, h, pa, b) == Area(q, t, h, pa, 0.0) - b * (h * h)
  {
    RisingBase(q, |q|, t, h, pa, b);
    FallingBase(q, |q|, t, h, pa, b);
    WholeTriangle(q, t, h);
    ScaledSum(b, RisingWeight(q, |q|, t, h), FallingWeight(q, |q|, t, h));
  }

  lemma {:induction false} WholeTriangle(q: seq<EMove>, t: real, h: real)
    requires Timed(q) && 0.0 < h && Covers(q, t, h)
    ensures RisingWeight(q, |q|, t, h) + FallingWeight(q, |q|, t, h) == h * h
  {
    RisingTriangle(q, |q|, t, h);
    FallingTriangle(q, |q|, t, h);
    assert HalfSquare(0.0) == 0.0;
  }

  // ----- The extruder stepper -----

  class ExtruderStepper {
    var pressureAdvance: real
    var halfSmoothTime: real
    var invHalfSmoothTime2: real

    ghost predicate Valid()
      reads this
    {
      0.0 <= halfSmoothTime && (halfSmoothTime != 0.0 ==> invHalfSmoothTime2 * (halfSmoothTime * halfSmoothTime) == 1.0)
    }

    constructor ()
      ensures Valid() && halfSmoothTime == 0.0
    {
      pressureAdvance, halfSmoothTime, invHalfSmoothTime2 := 0.0, 0.0, 0.0;
    }

    method SetPressureAdvance(pressureAdvance: real, smoothTime: real)
      requires 0.0 <= smoothTime
      modifies this
      ensures Valid() && halfSmoothTime == smoothTime * 0.5
      ensures this.pressureAdvance == if smoothTime == 0.0 then old(this.pressureAdvance) else pressureAdvance
    {
      var hst := smoothTime * 0.5;
      halfSmoothTime := hst;
      if hst == 0.0 {
        return;
      }
      assert hst * hst != 0.0;
      invHalfSmoothTime2 := 1.0 / (hst * hst);
      this.pressureAdvance := pressureAdvance;
    }

    /** extruder_calc_position: the nominal position, or the smoothed one. */
    method CalcPosition(q: seq<EMove>, k: nat, moveTime: real) returns (pos: real)
      requires Valid() && Timed(q) && k < |q| && 0.0 <= moveTime <= q[k].moveT
      requires halfSmoothTime != 0.0 ==> Covers(q, StartTime(q, k) + moveTime, halfSmoothTime)
      ensures halfSmoothTime == 0.0 ==> pos == q[k].startX + q[k].Distance(moveTime)
      ensures halfSmoothTime != 0.0 ==>
                pos == SmoothPosition(q, StartTime(q, k) + moveTime, halfSmoothTime, pressureAdvance)
    {
      var hst := halfSmoothTime;
      if hst == 0.0 {
        return q[k].startX + q[k].Distance(moveTime);
      }
      var area := PaRangeIntegrate(q, k, moveTime, pressureAdvance, hst);
      AreaBase(q, StartTime(q, k) + moveTime, hst, pressureAdvance, q[k].startX);
      AverageFromBase(q[k].startX, Area(q, StartTime(q, k) + moveTime, hst, pressureAdvance, 0.0), hst, invHalfSmoothTime2);
      return q[k].startX + area * invHalfSmoothTime2;
    }
  }

  lemma {:induction false} AverageFromBase(b: real, area: real, h: real, inv: real)
    requires h != 0.0 && inv * (h * h) == 1.0
    ensures h * h != 0.0 && b + (area - b * (h * h)) * inv == area / (h * h)
  {
    var s := h * h;
    assert (area - b * s) * inv == area * inv - b * (inv * s);
    assert area / s == area * inv by {
      assert (area * inv) * s == area * (inv * s);
    }
  }

  // ----- Cutting a move -----

  function Head(m: EMove, c: real): EMove {
    m.(moveT := c)
  }

  /** The rest of a move after time c. */
  function Rest(m: EMove, c: real): EMove {
    EMove(m.moveT - c, m.startX + m.Distance(c), m.startV + 2.0 * m.halfAccel * c, m.halfAccel, m.advance)
  }

  function Cut(q: seq<EMove>, j: nat, c: real): seq<EMove>
    requires j < |q|
  {
    q[..j] + [Head(q[j], c), Rest(q[j], c)] + q[j + 1..]
  }

  lemma {:induction false} CutW2(off: real, c: real, w: real)
    ensures W2(off, w + c) == W2(off, c) + W2(off - c, w)
  {
  }

  lemma {:induction false} CutW3(off: real, c: real, w: real)
    ensures W3(off, w + c) == W3(off, c) + c * W2(off - c, w) + W3(off - c, w)
  {
  }

  lemma {:induction false} CutW4(off: real, c: real, w: real)
    ensures W4(off, w + c) == W4(off, c) + c * c * W2(off - c, w) + 2.0 * c * W3(off - c, w) + W4(off - c, w)
  {
  }

  lemma {:induction false} CutPolynomial(b: real, v: real, a: real, off: real, c: real, w: real)
    ensures b * W2(off, w + c) + v * W3(off, w + c) + a * W4(off, w + c)
            == b * W2(off, c) + v * W3(off, c) + a * W4(off, c)
               + (b + c * v + c * c * a) * W2(off - c, w) + (v + 2.0 * c * a) * W3(off - c, w) + a * W4(off - c, w)
  {
    CutW2(off, c, w);
    CutW3(off, c, w);
    CutW4(off, c, w);
    var x, y, z := W2(off - c, w), W3(off - c, w), W4(off - c, w);
    assert b * (W2(off, c) + x) == b * W2(off, c) + b * x;
    assert v * (W3(off, c) + c * x + y) == v * W3(off, c) + c * v * x + v * y;
    assert a * (W4(off, c) + c * c * x + 2.0 * c * y + z) == a * W4(off, c) + c * c * a * x + 2.0 * c * a * y + a * z;
    assert (b + c * v + c * c * a) * x == b * x + c * v * x + c * c * a * x;
    assert (v + 2.0 * c * a) * y == v * y + 2.0 * c * a * y;
  }

  lemma {:induction false} WeightedCut(m: EMove, pa: real, base: real, off: real, c: real, w: real)
    ensures Weighted(m, pa, base, off, w + c) ==
            Weighted(m, pa, base, off, c) + Weighted(Rest(m, c), pa, base + m.Distance(c), off - c, w)
  {
    WeightedValue(m, pa, base, off, w + c);
    WeightedValue(m, pa, base, off, c);
    WeightedValue(Rest(m, c), pa, base + m.Distance(c), off - c, w);
    var p, a := m.Pa(pa), m.halfAccel;
    CutPolynomial(base + p * m.startV, m.startV + p * 2.0 * a, a, off, c, w);
    CutStart(base, p, m.startV, a, c);
  }

  lemma {:induction false} CutStart(base: real, p: real, v: real, a: real, c: real)
    ensures base + (v + a * c) * c + p * (v + 2.0 * a * c) == (base + p * v) + c * (v + p * 2.0 * a) + c * c * a
    ensures v + 2.0 * a * c + p * 2.0 * a == (v + p * 2.0 * a) + 2.0 * c * a
  {
    assert p * (v + 2.0 * a * c) == p * v + p * (2.0 * a * c);
    assert c * (v + p * 2.0 * a) == c * v + p * (2.0 * a * c);
    assert (v + a * c) * c == v * c + a * c * c;
  }

  lemma {:induction false} WeightedZero(m: EMove, pa: real, base: real, off: real)
    ensures Weighted(m, pa, base, off, 0.0) == 0.0
  {
    WeightedValue(m, pa, base, off, 0.0);
  }

  /** The length of a move does not enter its antiderivative. */
  lemma {:induction false} HeadWeighted(m: EMove, pa: real, base: real, off: real, c: real, u: real)
    ensures Weighted(Head(m, c), pa, base, off, u) == Weighted(m, pa, base, off, u)
  {
    WeightedValue(m, pa, base, off, u);
    WeightedValue(Head(m, c), pa, base, off, u);
  }

  lemma {:induction false} PartCut(m: EMove, pa: real, base: real, off: real, s: real, e: real, c: real)
    requires 0.0 < c < m.moveT
    ensures Part(m, pa, base, off, s, e) ==
            Part(Head(m, c), pa, base, off, s, e)
            + Part(Rest(m, c), pa, base + m.Distance(c), off - c, s - c, e - c)
  {
    var lo, hi := Max(s, 0.0), Min(e, m.moveT);
    HeadWeighted(m, pa, base, off, c, lo);
    HeadWeighted(m, pa, base, off, c, Min(e, c));
    if lo < hi && c < hi {
      WeightedCut(m, pa, base, off, c, hi - c);
      if c <= lo {
        WeightedCut(m, pa, base, off, c, lo - c);
      } else {
        WeightedZero(Rest(m, c), pa, base + m.Distance(c), off - c);
      }
    }
  }

  lemma {:induction false} StartTimeCut(q: seq<EMove>, j: nat, c: real, n: nat)
    requires j < |q| && n <= |q|
    ensures n <= j ==> StartTime(Cut(q, j, c), n) == StartTime(q, n)
    ensures j < n ==> StartTime(Cut(q, j, c), n + 1) == StartTime(q, n)
    ensures n == j ==> StartTime(Cut(q, j, c), n + 1) == StartTime(q, n) + c
  {
    if n > 0 {
      StartTimeCut(q, j, c, n - 1);
    }
  }

  lemma {:induction false} RisingBeforeCut(q: seq<EMove>, j: nat, c: real, n: nat, t: real, h: real, pa: real, b: real)
    requires n <= j < |q|
    ensures Rising(Cut(q, j, c), n, t, h, pa, b) == Rising(q, n, t, h, pa, b)
  {
    if n > 0 {
      RisingBeforeCut(q, j, c, n - 1, t, h, pa, b);
      StartTimeCut(q, j, c, n - 1);
      assert Cut(q, j, c)[n - 1] == q[n - 1];
    }
  }

  lemma {:induction false} RisingAtCut(q: seq<EMove>, r: seq<EMove>, j: nat, c: real, t: real, h: real, pa: real,
                                       b: real)
    requires j < |q| && 0.0 < c < q[j].moveT && r == Cut(q, j, c)
    ensures Rising(r, j + 2, t, h, pa, b) == Rising(q, j + 1, t, h, pa, b)
  {
    RisingBeforeCut(q, j, c, j, t, h, pa, b);
    StartTimeCut(q, j, c, j);
    var x, y := StartTime(q, j), StartTime(r, j + 1);
    PartCut(q[j], pa, q[j].startX - b, t - h - x, t - h - x, t - x, c);
    assert Rising(r, j + 1, t, h, pa, b) == Rising(r, j, t, h, pa, b)
      + Part(Head(q[j], c), pa, q[j].startX - b, t - h - x, t - h - x, t - x);
    assert Rising(r, j + 2, t, h, pa, b) == Rising(r, j + 1, t, h, pa, b)
      + Part(Rest(q[j], c), pa, Rest(q[j], c).startX - b, t - h - y, t - h - y, t - y);
  }

  lemma {:induction false} RisingCut(q: seq<EMove>, j: nat, c: real, n: nat, t: real, h: real, pa: real, b: real)
    requires j < n <= |q| && 0.0 < c < q[j].moveT
    ensures Rising(Cut(q, j, c), n + 1, t, h, pa, b) == Rising(q, n, t, h, pa, b)
  {
    if n == j + 1 {
      RisingAtCut(q, Cut(q, j, c), j, c, t, h, pa, b);
    } else {
      RisingCut(q, j, c, n - 1, t, h, pa, b);
      StartTimeCut(q, j, c, n - 1);
      assert Cut(q, j, c)[n] == q[n - 1];
    }
  }

  lemma {:induction false} FallingBeforeCut(q: seq<EMove>, j: nat, c: real, n: nat, t: real, h: real, pa: real, b: real)
    requires n <= j < |q|
    ensures Falling(Cut(q, j, c), n, t, h, pa, b) == Falling(q, n, t, h, pa, b)
  {
    if n > 0 {
      FallingBeforeCut(q, j, c, n - 1, t, h, pa, b);
      StartTimeCut(q, j, c, n - 1);
      assert Cut(q, j, c)[n - 1] == q[n - 1];
    }
  }

  lemma {:induction false} FallingAtCut(q: seq<EMove>, r: seq<EMove>, j: nat, c: real, t: real, h: real, pa: real,
                                        b: real)
    requires j < |q| && 0.0 < c < q[j].moveT && r == Cut(q, j, c)
    ensures Falling(r, j + 2, t, h, pa, b) == Falling(q, j + 1, t, h, pa, b)
  {
    FallingBeforeCut(q, j, c, j, t, h, pa, b);
    StartTimeCut(q, j, c, j);
    var x, y := StartTime(q, j), StartTime(r, j + 1);
    PartCut(q[j], pa, q[j].startX - b, t + h - x, t - x, t + h - x, c);
    assert Falling(r, j + 1, t, h, pa, b) == Falling(r, j, t, h, pa, b)
      - Part(Head(q[j], c), pa, q[j].startX - b, t + h - x, t - x, t + h - x);
    assert Falling(r, j + 2, t, h, pa, b) == Falling(r, j + 1, t, h, pa, b)
      - Part(Rest(q[j], c), pa, Rest(q[j], c).startX - b, t + h - y, t - y, t + h - y);
  }

  lemma {:induction false} FallingCut(q: seq<EMove>, j: nat, c: real, n: nat, t: real, h: real, pa: real, b: real)
    requires j < n <= |q| && 0.0 < c < q[j].moveT
    ensures Falling(Cut(q, j, c), n + 1, t, h, pa, b) == Falling(q, n, t, h, pa, b)
  {
    if n == j + 1 {
      FallingAtCut(q, Cut(q, j, c), j, c, t, h, pa, b);
    } else {
      FallingCut(q, j, c, n - 1, t, h, pa, b);
      StartTimeCut(q, j, c, n - 1);
      assert Cut(q, j, c)[n] == q[n - 1];
    }
  }

  /** The smoothed position does not depend on how the motion is cut into moves. */
  lemma {:induction false} CutIndependent(q: seq<EMove>, j: nat, c: real, t: real, h: real, pa: real)
    requires j < |q| && 0.0 < c < q[j].moveT && h != 0.0
    ensures SmoothPosition(Cut(q, j, c), t, h, pa) == SmoothPosition(q, t, h, pa)
  {
    RisingCut(q, j, c, |q|, t, h, pa, 0.0);
    FallingCut(q, j, c, |q|, t, h, pa, 0.0);
  }

  /** Nor does the nominal position that is used without pressure advance. */
  lemma {:induction false} NominalCut(m: EMove, c: real, t: real)
    ensures m.startX + m.Distance(t) == Rest(m, c).startX + Rest(m, c).Distance(t - c)
  {
    var a, v := m.halfAccel, m.startV;
    assert (v + 2.0 * a * c + a * (t - c)) * (t - c) == v * (t - c) + a * (t + c) * (t - c);
    assert (t + c) * (t - c) == t * t - c * c;
    assert a * ((t + c) * (t - c)) == a * (t * t) - a * (c * c);
  }
}
