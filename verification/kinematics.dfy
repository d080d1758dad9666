/**
  Real-number facts behind Move.set_junction: an exact square root, and the three
  times of a trapezoid move.
*/
module Kinematics {

  /** math.sqrt, taken as exact. */
  ghost predicate IsSqrt(f: real -> real) {
    forall x :: IsRootAt(f, x)
  }

  ghost predicate IsRootAt(f: real -> real, x: real) {
    0.0 <= x ==> 0.0 <= f(x) && f(x) * f(x) == x
  }

  lemma {:induction false} Cancel(k: real, x: real, y: real)
    requires k != 0.0 && k * x == k * y
    ensures x == y
  {
    assert k * (x - y) == 0.0;
  }

  lemma {:induction false} QuotientSign(k: real, x: real)
    requires 0.0 < k && 0.0 <= k * x
    ensures 0.0 <= x
  {
  }

  lemma {:induction false} SquaresOrdered(x: real, y: real)
    requires 0.0 <= x && 0.0 <= y && x * x <= y * y
    ensures x <= y
  {
    assert (x + y) * (y - x) == y * y - x * x;
    if 0.0 < x + y {
      QuotientSign(x + y, y - x);
    }
  }

  /** Changing speed from v0 to v1 at constant acceleration `accel`, over the distance
      (v1*v1 - v0*v0) / (2*accel), takes `t` = distance / average speed. */
  lemma {:induction false} RampTime(v0: real, v1: real, accel: real, d: real, t: real)
    requires 0.0 <= v0 && 0.0 < v1 && 0.0 < accel
    requires v0 * v0 <= v1 * v1
    requires d == (v1 * v1 - v0 * v0) * (0.5 / accel)
    requires t == d / ((v0 + v1) * 0.5)
    ensures 0.0 <= t
    ensures (v0 + v1) * 0.5 * t == d
    ensures accel * t == v1 - v0
    ensures t == 0.0 <==> v0 == v1
    ensures (v0 + 0.5 * accel * t) * t == d
    ensures (v1 - 0.5 * accel * t) * t == d
  {
    SquaresOrdered(v0, v1);
    var avg := (v0 + v1) * 0.5;
    assert avg * t == d;
    assert 0.0 <= v1 * v1 - v0 * v0;
    assert d * accel == (v1 * v1 - v0 * v0) * 0.5 by {
      assert (0.5 / accel) * accel == 0.5;
      assert d * accel == (v1 * v1 - v0 * v0) * ((0.5 / accel) * accel);
    }
    assert (v1 * v1 - v0 * v0) * 0.5 == avg * (v1 - v0);
    assert avg * (accel * t) == avg * (v1 - v0) by {
      assert avg * (accel * t) == (avg * t) * accel;
    }
    Cancel(avg, accel * t, v1 - v0);
    QuotientSign(accel, t);
    if v0 == v1 {
      Cancel(accel, t, 0.0);
    }
    assert v0 + 0.5 * accel * t == avg by {
      assert 0.5 * accel * t == 0.5 * (accel * t);
    }
    assert v1 - 0.5 * accel * t == avg by {
      assert 0.5 * accel * t == 0.5 * (accel * t);
    }
  }

  /** Times that take a move from its start speed over its cruise speed to its end speed
      at its acceleration, and cover exactly its distance. */
  ghost predicate IsTrapezoid(moveD: real, accel: real, startV: real, cruiseV: real, endV: real,
                              accelT: real, cruiseT: real, decelT: real)
  {
    && 0.0 < moveD && 0.0 < accel
    && 0.0 <= startV && 0.0 < cruiseV && 0.0 <= endV
    && 0.0 <= accelT && accel * accelT == cruiseV - startV
    && 0.0 <= cruiseT
    && 0.0 <= decelT && accel * decelT == cruiseV - endV
    && (startV + 0.5 * accel * accelT) * accelT + cruiseV * cruiseT
       + (cruiseV - 0.5 * accel * decelT) * decelT == moveD
  }

  lemma {:induction false} SqrtOf(sqrt: real -> real, x: real)
    requires IsSqrt(sqrt) && 0.0 <= x
    ensures 0.0 <= sqrt(x) && sqrt(x) * sqrt(x) == x
    ensures 0.0 < x ==> 0.0 < sqrt(x)
  {
    assert IsRootAt(sqrt, x);
    assert sqrt(x) == 0.0 ==> sqrt(x) * sqrt(x) == 0.0;
  }

  /** The speed budget leaves a non-negative cruise distance. */
  lemma {:induction false} CruiseFits(moveD: real, accel: real, startV2: real, cruiseV2: real, endV2: real,
                                      accelD: real, decelD: real, cruiseD: real)
    requires 0.0 < accel
    requires (cruiseV2 - startV2) + (cruiseV2 - endV2) <= 2.0 * moveD * accel
    requires accelD == (cruiseV2 - startV2) * (0.5 / accel)
    requires decelD == (cruiseV2 - endV2) * (0.5 / accel)
    requires cruiseD == moveD - accelD - decelD
    ensures 0.0 <= cruiseD
  {
    var h := 0.5 / accel;
    assert accel * h == 0.5;
    assert accel * accelD == (cruiseV2 - startV2) * (accel * h);
    assert accel * decelD == (cruiseV2 - endV2) * (accel * h);
    assert accel * cruiseD == accel * moveD - accel * accelD - accel * decelD;
    QuotientSign(accel, cruiseD);
  }
}
