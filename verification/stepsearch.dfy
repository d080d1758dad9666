/**
  The step compressor's search (the first half of stepcompress.c): a run of step times is
  packed into one (interval, count, add) command.

  Step times are given as clock differences from the last step already sent.
  Machine overflow inside the search is not modelled: its numbers are unbounded.
*/
module StepSearch {
  import opened Common

  /** struct step_move */
  datatype StepMove = StepMove(interval: int, count: int, add: int)

  const MAX_COUNT := 65535
  const QUADRATIC_DEV := 11
  const CLOCK_DIFF_MAX := 0x3000_0000   // 3<<28

  // ----- Division -----

  /** Division as C defines it, for a positive divisor. */
  function CDiv(n: int, d: int): int
    requires d > 0
  {
    if n >= 0 then n / d else -(-n / d)
  }

  function IdivUp(n: int, d: int): int
    requires d > 0
  {
    if n >= 0 then CDiv(n + d - 1, d) else CDiv(n, d)
  }

  function IdivDown(n: int, d: int): int
    requires d > 0
  {
    if n >= 0 then CDiv(n, d) else CDiv(n - d + 1, d)
  }

  lemma {:induction false} Quotient(n: int, d: int)
    requires d > 0
    ensures n / d * d <= n < (n / d + 1) * d
  {
    assert n == n / d * d + n % d;
  }

  /** idiv_up is the least integer whose product with d reaches n. */
  lemma {:induction false} UpIsCeiling(n: int, d: int, v: int)
    requires d > 0
    ensures v * d >= n <==> v >= IdivUp(n, d)
  {
    var q := IdivUp(n, d);
    assert (q - 1) * d < n <= q * d by {
      if n >= 0 {
        Quotient(n + d - 1, d);
      } else {
        Quotient(-n, d);
      }
    }
    Ordered(v, q, d);
    Ordered(q - 1, v, d);
  }

  /** idiv_down is the greatest integer whose product with d does not pass n. */
  lemma {:induction false} DownIsFloor(n: int, d: int, v: int)
    requires d > 0
    ensures v * d <= n <==> v <= IdivDown(n, d)
  {
    var q := IdivDown(n, d);
    assert q * d <= n < (q + 1) * d by {
      if n >= 0 {
        Quotient(n, d);
      } else {
        Quotient(-n + d - 1, d);
      }
    }
    Ordered(v, q, d);
    Ordered(q + 1, v, d);
  }

  lemma {:induction false} Ordered(x: int, y: int, d: int)
    requires d > 0
    ensures x <= y ==> x * d <= y * d
  {
  }

  // ----- Step times and their windows -----

  /** Steps come in order, not before the last step sent; some may come at the same clock. */
  ghost predicate Rising(points: seq<int>) {
    && (forall i :: 0 <= i < |points| ==> 0 <= points[i])
    && (forall i, j :: 0 <= i < j < |points| ==> points[i] <= points[j])
  }

  datatype Points = Points(minp: int, maxp: int)

  function Prev(points: seq<int>, i: nat): int
    requires i < |points|
  {
    if i > 0 then points[i - 1] else 0
  }

  /** minmax_point */
  function MinmaxPoint(points: seq<int>, maxError: nat, i: nat): Points
    requires i < |points|
  {
    var half := (points[i] - Prev(points, i)) / 2;
    Points(points[i] - if half > maxError then maxError else half, points[i])
  }

  lemma {:induction false} WindowFacts(points: seq<int>, maxError: nat, i: nat)
    requires Rising(points) && i < |points|
    ensures var w := MinmaxPoint(points, maxError, i);
            && Prev(points, i) <= w.minp <= w.maxp == points[i]
            && (Prev(points, i) < points[i] ==> Prev(points, i) < w.minp)
            && w.maxp - w.minp <= maxError
            && 2 * (w.maxp - w.minp) <= points[i] - Prev(points, i)
  {
  }

  /** 0 + 1 + ... + (k - 1) */
  function Triangle(k: nat): nat {
    if k == 0 then 0 else Triangle(k - 1) + (k - 1)
  }

  lemma {:induction false} TriangleFormula(k: nat)
    ensures Triangle(k) == k * (k - 1) / 2
  {
    if k > 0 {
      TriangleFormula(k - 1);
      assert k * (k - 1) == (k - 1) * (k - 2) + 2 * (k - 1);
    }
  }

  /** The time of the k-th pulse of a command, by the rule
      next_wake_time = last_wake_time + interval; interval += add. */
  function Pulse(interval: int, add: int, k: nat): int {
    if k == 0 then 0 else Pulse(interval, add, k - 1) + interval + add * (k - 1)
  }

  lemma {:induction false} PulseFormula(interval: int, add: int, k: nat)
    ensures Pulse(interval, add, k) == interval * k + add * Triangle(k)
  {
    if k > 0 {
      PulseFormula(interval, add, k - 1);
      Distribute(add, Triangle(k - 1), k - 1);
      Distribute(interval, k - 1, 1);
    }
  }

  lemma {:induction false} Distribute(a: int, x: int, y: int)
    ensures a * (x + y) == a * x + a * y
  {
  }

  ghost predicate Inside(points: seq<int>, maxError: nat, interval: int, add: int, k: nat)
    requires 1 <= k <= |points|
  {
    var w := MinmaxPoint(points, maxError, k - 1);
    w.minp <= Pulse(interval, add, k) <= w.maxp
  }

  /** The first `count` pulses hit the windows of the first `count` points. */
  ghost predicate Fits(points: seq<int>, maxError: nat, interval: int, count: nat, add: int) {
    && count <= |points|
    && forall k: nat :: 1 <= k <= count ==> Inside(points, maxError, interval, add, k)
  }

  lemma {:induction false} FitsShorter(points: seq<int>, maxError: nat, interval: int, n: nat, m: nat, add: int)
    requires Fits(points, maxError, interval, n, add) && m <= n
    ensures Fits(points, maxError, interval, m, add)
  {
  }

  lemma {:induction false} EndsLater(points: seq<int>, maxError: nat, interval: int, n: nat, m: nat, add: int)
    requires !Fits(points, maxError, interval, n, add) && n <= m
    ensures !Fits(points, maxError, interval, m, add)
  {
  }

  // ----- The search -----

  /** How the k-th point narrows the intervals that are still possible. */
  lemma {:induction false} Narrow(points: seq<int>, maxError: nat, add: int, k: nat, v: int)
    requires 1 <= k <= |points|
    ensures var w, c := MinmaxPoint(points, maxError, k - 1), add * Triangle(k);
            && (v * k >= w.minp - c <==> v >= IdivUp(w.minp - c, k))
            && (v * k <= w.maxp - c <==> v <= IdivDown(w.maxp - c, k))
            && (Inside(points, maxError, v, add, k) <==> w.minp - c <= v * k <= w.maxp - c)
  {
    var w, c := MinmaxPoint(points, maxError, k - 1), add * Triangle(k);
    UpIsCeiling(w.minp - c, k, v);
    DownIsFloor(w.maxp - c, k, v);
    PulseFormula(v, add, k);
  }

  /** The intervals from lo to hi are those of [outerMin, outerMax] that fit `count` points. */
  ghost predicate Feasible(points: seq<int>, maxError: nat, add: int, outerMin: int, outerMax: int,
                           count: nat, lo: int, hi: int)
  {
    forall v :: outerMin <= v <= outerMax && Fits(points, maxError, v, count, add) <==> lo <= v <= hi
  }

  function Last(points: seq<int>): nat {
    if |points| > MAX_COUNT then MAX_COUNT else |points|
  }

  function Raised(points: seq<int>, maxError: nat, add: int, k: nat, lo: int): int
    requires 1 <= k <= |points|
  {
    var need := MinmaxPoint(points, maxError, k - 1).minp - add * Triangle(k);
    if lo * k < need then IdivUp(need, k) else lo
  }

  function Lowered(points: seq<int>, maxError: nat, add: int, k: nat, hi: int): int
    requires 1 <= k <= |points|
  {
    var room := MinmaxPoint(points, maxError, k - 1).maxp - add * Triangle(k);
    if hi * k > room then IdivDown(room, k) else hi
  }

  lemma {:induction false} NarrowOne(points: seq<int>, maxError: nat, add: int, k: nat, lo: int, hi: int, v: int)
    requires 1 <= k <= |points|
    ensures Raised(points, maxError, add, k, lo) <= v <= Lowered(points, maxError, add, k, hi) <==>
            lo <= v <= hi && Inside(points, maxError, v, add, k)
  {
    Narrow(points, maxError, add, k, v);
    Narrow(points, maxError, add, k, lo);
    Narrow(points, maxError, add, k, hi);
  }

  lemma {:induction false} FitsNext(points: seq<int>, maxError: nat, interval: int, k: nat, add: int)
    requires 1 <= k < |points|
    ensures Fits(points, maxError, interval, k + 1, add) <==>
            Fits(points, maxError, interval, k, add) && Inside(points, maxError, interval, add, k + 1)
  {
  }

  lemma {:induction false} NarrowAll(points: seq<int>, maxError: nat, add: int, outerMin: int, outerMax: int, n: nat,
                                     lo: int, hi: int)
    requires 1 < n <= |points| && Feasible(points, maxError, add, outerMin, outerMax, n - 1, lo, hi)
    ensures Feasible(points, maxError, add, outerMin, outerMax, n,
                     Raised(points, maxError, add, n, lo), Lowered(points, maxError, add, n, hi))
  {
    forall v: int
      ensures outerMin <= v <= outerMax && Fits(points, maxError, v, n, add) <==>
              Raised(points, maxError, add, n, lo) <= v <= Lowered(points, maxError, add, n, hi)
    {
      NarrowOne(points, maxError, add, n, lo, hi, v);
      FitsNext(points, maxError, v, n - 1, add);
    }
  }

  /** Where the next pulse of an interval lands tells which bound it broke. */
  lemma {:induction false} BrokenBound(points: seq<int>, maxError: nat, add: int, k: nat, lo: int, hi: int)
    requires 1 <= k <= |points| && lo <= hi && Rising(points)
    ensures Pulse(hi, add, k) < MinmaxPoint(points, maxError, k - 1).minp ==>
              Lowered(points, maxError, add, k, hi) == hi
    ensures Pulse(hi, add, k) >= MinmaxPoint(points, maxError, k - 1).minp ==>
              Raised(points, maxError, add, k, lo) <= hi
  {
    WindowFacts(points, maxError, k - 1);
    PulseFormula(hi, add, k);
    Narrow(points, maxError, add, k, hi);
  }

  ghost predicate FirstWindow(points: seq<int>, maxError: nat, lo: int, hi: int)
    requires points != []
  {
    var w := MinmaxPoint(points, maxError, 0);
    w.minp <= lo <= hi <= w.maxp
  }

  lemma {:induction false} FirstFeasible(points: seq<int>, maxError: nat, add: int, lo: int, hi: int)
    requires points != [] && FirstWindow(points, maxError, lo, hi)
    ensures Feasible(points, maxError, add, lo, hi, 1, lo, hi)
  {
    forall v: int ensures lo <= v <= hi && Fits(points, maxError, v, 1, add) <==> lo <= v <= hi {
      assert Pulse(v, add, 1) == v;
      if lo <= v <= hi {
        assert Inside(points, maxError, v, add, 1);
      }
    }
  }

  lemma {:induction false} NoneFitsAt(points: seq<int>, maxError: nat, add: int, lo: int, hi: int, n: nat, v: int)
    requires NoneFits(points, maxError, add, lo, hi, n) && lo <= v <= hi
    ensures !Fits(points, maxError, v, n, add)
  {
  }

  ghost predicate NoneFits(points: seq<int>, maxError: nat, add: int, lo: int, hi: int, n: nat) {
    forall v :: lo <= v <= hi ==> !Fits(points, maxError, v, n, add)
  }

  /** The inner loop: the longest run that one `add` can cover with an interval from
      [outerMin, outerMax].  `done` says that it covers all there is to cover. */
  method LongestRun(points: seq<int>, maxError: nat, add: int, outerMin: int, outerMax: int)
    returns (interval: int, count: nat, nextMin: int, nextMax: int, done: bool)
    requires points != [] && Rising(points) && FirstWindow(points, maxError, outerMin, outerMax)
    ensures outerMin <= interval <= outerMax && 1 <= count <= Last(points)
    ensures Fits(points, maxError, interval, count, add)
    ensures done ==> count == Last(points)
    ensures !done ==> count < Last(points)
    ensures !done ==> NoneFits(points, maxError, add, outerMin, outerMax, count + 1)
    ensures !done ==> outerMin <= nextMin && nextMax <= outerMax
    ensures !done ==>
              if Pulse(interval, add, count + 1) < MinmaxPoint(points, maxError, count).minp
              then outerMin <= nextMax else nextMin <= outerMax
  {
    count, nextMin, nextMax, interval := 1, outerMin, outerMax, outerMax;
    FirstFeasible(points, maxError, add, outerMin, outerMax);
    while true
      invariant 1 <= count <= Last(points) && outerMin <= nextMin <= nextMax == interval <= outerMax
      invariant Feasible(points, maxError, add, outerMin, outerMax, count, nextMin, nextMax)
      decreases Last(points) - count
    {
      if count >= Last(points) {
        return interval, count, nextMin, nextMax, true;
      }
      var nextCount := count + 1;
      var nextPoint := MinmaxPoint(points, maxError, count);
      var c := add * (nextCount * (nextCount - 1) / 2);
      TriangleFormula(nextCount);
      NarrowAll(points, maxError, add, outerMin, outerMax, nextCount, nextMin, nextMax);
      BrokenBound(points, maxError, add, nextCount, nextMin, nextMax);
      NarrowsOnly(points, maxError, add, nextCount, nextMin, nextMax);
      if nextMin * nextCount < nextPoint.minp - c {
        nextMin := IdivUp(nextPoint.minp - c, nextCount);
      }
      if nextMax * nextCount > nextPoint.maxp - c {
        nextMax := IdivDown(nextPoint.maxp - c, nextCount);
      }
      if nextMin > nextMax {
        return interval, count, nextMin, nextMax, false;
      }
      interval := nextMax;
      count := nextCount;
    }
  }

  lemma {:induction false} NarrowsOnly(points: seq<int>, maxError: nat, add: int, k: nat, lo: int, hi: int)
    requires 1 <= k <= |points|
    ensures Raised(points, maxError, add, k, lo) >= lo && Lowered(points, maxError, add, k, hi) <= hi
  {
    Narrow(points, maxError, add, k, lo);
    Narrow(points, maxError, add, k, hi);
  }

  /** A command for the first `count` points that the search may return. */
  ghost predicate Sound(points: seq<int>, maxError: nat, move: StepMove) {
    && 1 <= move.count <= Last(points)
    && -0x8000 <= move.add <= 0x7fff
    && Fits(points, maxError, move.interval, move.count, move.add)
  }

  /** No interval without `add` covers n points. */
  ghost predicate SteadyEnds(points: seq<int>, maxError: nat, n: nat) {
    forall v :: !Fits(points, maxError, v, n, 0)
  }

  lemma {:induction false} SteadyRun(points: seq<int>, maxError: nat, n: nat, lo: int, hi: int)
    requires points != [] && n >= 1 && NoneFits(points, maxError, 0, lo, hi, n)
    requires MinmaxPoint(points, maxError, 0) == Points(lo, hi)
    ensures SteadyEnds(points, maxError, n)
  {
    forall v: int ensures !Fits(points, maxError, v, n, 0) {
      if Fits(points, maxError, v, n, 0) {
        assert Inside(points, maxError, v, 0, 1);
        assert Pulse(v, 0, 1) == v;
        assert false;
      }
    }
  }

  lemma {:induction false} SteadyEndsLater(points: seq<int>, maxError: nat, n: nat, m: nat)
    requires SteadyEnds(points, maxError, n) && n <= m
    ensures SteadyEnds(points, maxError, m)
  {
    forall v: int ensures !Fits(points, maxError, v, m, 0) {
      if Fits(points, maxError, v, m, 0) {
        FitsShorter(points, maxError, v, m, n, 0);
        assert false;
      }
    }
  }

  /** An `add` that is not far from the last one tried, and with which some interval of the range
      could reach the next point, and some other not pass it. */
  ghost predicate MayReach(a: int, add: int, errDelta: int, count: nat, next: Points, outerMin: int, outerMax: int) {
    && (count > 1 ==> add - errDelta <= a <= add + errDelta)
    && next.minp <= a * Triangle(count + 1) + outerMax * (count + 1)
    && a * Triangle(count + 1) + outerMin * (count + 1) <= next.maxp
  }

  /** How the range of `add` is cut after a run: exactly to what may still reach the next point. */
  method LimitAdd(maxError: nat, add: int, minAdd: int, maxAdd: int, count: nat, next: Points, outerMin: int,
                  outerMax: int)
    returns (newMin: int, newMax: int)
    requires count >= 1
    ensures newMin >= minAdd && newMax <= maxAdd
    ensures forall a :: newMin <= a <= newMax <==>
                        minAdd <= a <= maxAdd && MayReach(a, add, ErrDelta(maxError, count), count, next, outerMin, outerMax)
  {
    newMin, newMax := minAdd, maxAdd;
    var nextCount := count + 1;
    var nextAddFactor := nextCount * (nextCount - 1) / 2;
    TriangleFormula(nextCount);
    TriangleGrows(1, count);
    if count > 1 {
      var errDelta := maxError * QUADRATIC_DEV / (count * count);
      if newMin < add - errDelta {
        newMin := add - errDelta;
      }
      if newMax > add + errDelta {
        newMax := add + errDelta;
      }
    }
    ghost var lo, hi := newMin, newMax;
    var c := outerMax * nextCount;
    UpIsCeiling(next.minp - c, nextAddFactor, newMin);
    if newMin * nextAddFactor < next.minp - c {
      newMin := IdivUp(next.minp - c, nextAddFactor);
    }
    c := outerMin * nextCount;
    DownIsFloor(next.maxp - c, nextAddFactor, newMax);
    if newMax * nextAddFactor > next.maxp - c {
      newMax := IdivDown(next.maxp - c, nextAddFactor);
    }
    forall a: int
      ensures newMin <= a <= newMax <==>
              minAdd <= a <= maxAdd && MayReach(a, add, ErrDelta(maxError, count), count, next, outerMin, outerMax)
    {
      UpIsCeiling(next.minp - outerMax * nextCount, nextAddFactor, a);
      DownIsFloor(next.maxp - c, nextAddFactor, a);
    }
  }

  function ErrDelta(maxError: nat, count: nat): int
    requires count >= 1
  {
    maxError * QUADRATIC_DEV / (count * count)
  }

  lemma {:induction false} TriangleGrows(j: nat, k: nat)
    requires j <= k
    ensures Triangle(j) <= Triangle(k) && Triangle(k + 1) == Triangle(k) + k
  {
    if j < k {
      TriangleGrows(j, k - 1);
    }
  }

  /** A command of n steps covers at least as many as any single interval without `add`. */
  ghost predicate BeatsSteady(points: seq<int>, maxError: nat, n: nat) {
    forall v, m: nat :: m <= MAX_COUNT && Fits(points, maxError, v, m, 0) ==> m <= n
  }

  /** What the search holds after its first round, in which `add` is zero. */
  ghost predicate Found(points: seq<int>, maxError: nat, best: StepMove, zero: StepMove) {
    && Sound(points, maxError, best)
    && Sound(points, maxError, zero) && zero.add == 0
    && SteadyEnds(points, maxError, zero.count + 1)
  }

  lemma {:induction false} FoundBeats(points: seq<int>, maxError: nat, best: StepMove, zero: StepMove, n: nat)
    requires Found(points, maxError, best, zero) && zero.count <= n
    ensures BeatsSteady(points, maxError, n)
  {
    forall v, m: nat | m <= MAX_COUNT && Fits(points, maxError, v, m, 0) ensures m <= n {
      if m > n {
        SteadyEndsLater(points, maxError, zero.count + 1, m);
        assert false;
      }
    }
  }

  lemma {:induction false} FirstRound(points: seq<int>, maxError: nat, interval: int, count: nat, outerMin: int,
                                      outerMax: int)
    requires points != [] && Sound(points, maxError, StepMove(interval, count, 0))
    requires NoneFits(points, maxError, 0, outerMin, outerMax, count + 1)
    requires MinmaxPoint(points, maxError, 0) == Points(outerMin, outerMax)
    ensures Found(points, maxError, StepMove(interval, count, 0), StepMove(interval, count, 0))
  {
    SteadyRun(points, maxError, count + 1, outerMin, outerMax);
  }

  lemma {:induction false} AllCovered(points: seq<int>, maxError: nat, n: nat)
    requires n == Last(points)
    ensures BeatsSteady(points, maxError, n)
  {
  }

  /** No run reaches back behind the last step sent. */
  lemma {:induction false} ReachIsForward(points: seq<int>, maxError: nat, interval: int, count: nat, add: int)
    requires Rising(points) && count >= 1 && Fits(points, maxError, interval, count, add)
    ensures Pulse(interval, add, count) >= 0
  {
    WindowFacts(points, maxError, count - 1);
    assert Inside(points, maxError, interval, add, count);
  }

  // ----- The search without tolerance -----

  /** No command that add_move could take covers more steps. */
  ghost predicate Longest(points: seq<int>, maxError: nat, n: int) {
    forall v, a, m: nat :: m <= MAX_COUNT && -0x8000 <= a <= 0x7fff && Fits(points, maxError, v, m, a) ==> m <= n
  }

  /** The first two of several steps are at one clock, after that of the last step sent. */
  ghost predicate Doubled(points: seq<int>) {
    Last(points) > 2 && 0 < points[0] == points[1] <= 0x8000
  }

  /** Without tolerance the first two points determine the command, and it hits every point. */
  lemma {:induction false} ExactFits(points: seq<int>, v: int, m: nat, a: int)
    requires Rising(points) && Fits(points, 0, v, m, a)
    ensures m >= 1 ==> v == points[0] && Pulse(v, a, m) == points[m - 1]
    ensures m >= 2 ==> a == points[1] - 2 * points[0]
    ensures m >= 3 && points[0] == points[1] ==> points[0] == 0
  {
    forall k: nat | 1 <= k <= m ensures Pulse(v, a, k) == points[k - 1] {
      assert Inside(points, 0, v, a, k);
      WindowFacts(points, 0, k - 1);
    }
    if m >= 1 {
      assert Pulse(v, a, 1) == v;
    }
    if m >= 2 {
      assert Pulse(v, a, 2) == 2 * v + a;
    }
    if m >= 3 {
      assert Pulse(v, a, 3) == 3 * v + 3 * a;
    }
  }

  lemma {:induction false} ExactTwo(points: seq<int>)
    requires Rising(points) && |points| >= 2
    ensures Fits(points, 0, points[0], 2, points[1] - 2 * points[0])
  {
    var v, a := points[0], points[1] - 2 * points[0];
    WindowFacts(points, 0, 0);
    WindowFacts(points, 0, 1);
    assert Pulse(v, a, 1) == v;
    assert Pulse(v, a, 2) == Pulse(v, a, 1) + v + a;
    forall k: nat | 1 <= k <= 2 ensures Inside(points, 0, v, a, k) {
    }
  }

  /** The longest run of the one `add` that covers two points is the longest of all. */
  lemma {:induction false} ExactLongest(points: seq<int>, add: int, n: nat)
    requires Rising(points) && 2 <= n < |points| && Fits(points, 0, points[0], n, add)
    requires !Fits(points, 0, points[0], n + 1, add)
    ensures Longest(points, 0, n)
  {
    ExactFits(points, points[0], n, add);
    forall v, a, m: nat | m <= MAX_COUNT && -0x8000 <= a <= 0x7fff && Fits(points, 0, v, m, a) ensures m <= n {
      ExactFits(points, v, m, a);
      EndsLater(points, 0, points[0], n + 1, if m > n then m else n + 1, add);
    }
  }

  /** The first round, with `add` zero: either it is that run, or it covers one point. */
  lemma {:induction false} ExactFirst(points: seq<int>, n: nat)
    requires Rising(points) && 1 <= n < Last(points) && Fits(points, 0, points[0], n, 0)
    requires !Fits(points, 0, points[0], n + 1, 0)
    ensures var add := points[1] - 2 * points[0];
            && (n >= 2 ==> Longest(points, 0, n) && !Doubled(points))
            && (n == 1 ==> add != 0)
            && (n == 1 && !(-0x8000 <= add <= 0x7fff) ==> Longest(points, 0, 1) && !Doubled(points))
  {
    ExactFits(points, points[0], n, 0);
    if n >= 2 {
      ExactLongest(points, 0, n);
    } else {
      ExactTwo(points);
      if !(-0x8000 <= points[1] - 2 * points[0] <= 0x7fff) {
        forall v, a, m: nat | m <= MAX_COUNT && -0x8000 <= a <= 0x7fff && Fits(points, 0, v, m, a) ensures m <= 1 {
          ExactFits(points, v, m, a);
        }
      }
    }
  }

  /** The second round: it is that run, and reaches further than the first round except when the
      first two points are at one clock. */
  lemma {:induction false} ExactSecond(points: seq<int>, n: nat, add: int)
    requires Rising(points) && 1 <= n < Last(points) && add == points[1] - 2 * points[0] != 0
    requires -0x8000 <= add <= 0x7fff
    requires Fits(points, 0, points[0], n, add) && !Fits(points, 0, points[0], n + 1, add)
    ensures n >= 2 && Longest(points, 0, n) && !Longest(points, 0, 1)
    ensures Pulse(points[0], add, n) >= points[0]
    ensures Pulse(points[0], add, n) == points[0] <==> Doubled(points)
  {
    ExactTwo(points);
    ExactFits(points, points[0], n, add);
    ExactLongest(points, add, n);
  }

  /** What LimitAdd leaves without tolerance: after two points nothing. */
  lemma {:induction false} ExactLimit(add: int, minAdd: int, maxAdd: int, count: nat, next: Points, first: int,
                                      newMin: int, newMax: int)
    requires 2 <= count && (add < minAdd || maxAdd < add)
    requires forall a :: newMin <= a <= newMax <==>
               minAdd <= a <= maxAdd && MayReach(a, add, ErrDelta(0, count), count, next, first, first)
    ensures newMin > newMax
  {
    NoErrDelta(count);
    assert !MayReach(newMin, add, ErrDelta(0, count), count, next, first, first) || newMin == add;
  }

  lemma {:induction false} NoErrDelta(count: nat)
    requires count >= 1
    ensures ErrDelta(0, count) == 0
  {
    assert count * count >= 1;
  }

  /** After one point, the one `add` to try. */
  lemma {:induction false} ExactLimitOne(add: int, minAdd: int, maxAdd: int, next: int, first: int, newMin: int,
                                         newMax: int)
    requires forall a :: newMin <= a <= newMax <==>
               minAdd <= a <= maxAdd && MayReach(a, add, ErrDelta(0, 1), 1, Points(next, next), first, first)
    ensures newMin <= newMax <==> minAdd <= next - 2 * first <= maxAdd
    ensures newMin <= newMax ==> newMin == newMax == next - 2 * first
  {
    var only := next - 2 * first;
    assert Triangle(2) == Triangle(1) + 1 == 1;
    assert MayReach(only, add, ErrDelta(0, 1), 1, Points(next, next), first, first);
    if newMin <= newMax {
      assert MayReach(newMin, add, ErrDelta(0, 1), 1, Points(next, next), first, first);
      assert MayReach(newMax, add, ErrDelta(0, 1), 1, Points(next, next), first, first);
    }
  }

  lemma {:induction false} PulseTwo(interval: int, add: int)
    ensures Pulse(interval, add, 2) == 2 * interval + add
  {
    assert Pulse(interval, add, 1) == interval;
  }

  /** Everything is covered. */
  lemma {:induction false} ExactWhole(points: seq<int>, v: int, n: nat, a: int)
    requires Rising(points) && n == Last(points) >= 1 && Fits(points, 0, v, n, a)
    ensures Longest(points, 0, n) && !Doubled(points)
  {
    ExactFits(points, v, n, a);
  }

  /** Whether a greater or a lesser `add` could extend the run: what is left to try. */
  method NarrowSearch(points: seq<int>, maxError: nat, add: int, minAdd: int, maxAdd: int, interval: int, count: nat,
                      nextMin: int, nextMax: int, outerMin: int, outerMax: int)
    returns (newMin: int, newMax: int, newOuterMin: int, newOuterMax: int)
    requires 1 <= count < |points| && Rising(points) && FirstWindow(points, maxError, outerMin, outerMax)
    requires outerMin <= interval <= outerMax && outerMin <= nextMin && nextMax <= outerMax
    requires minAdd <= add <= maxAdd
    requires if Pulse(interval, add, count + 1) < MinmaxPoint(points, maxError, count).minp
             then outerMin <= nextMax else nextMin <= outerMax
    ensures FirstWindow(points, maxError, newOuterMin, newOuterMax)
    ensures outerMin <= newOuterMin && newOuterMax <= outerMax
    ensures newMin >= minAdd && newMax <= maxAdd && (newMin > add || newMax < add)
    ensures maxError == 0 && count >= 2 ==> newMin > newMax
    ensures maxError == 0 && count == 1 && newMin <= newMax ==> newMin == newMax == points[1] - 2 * points[0]
    ensures maxError == 0 && count == 1 && minAdd <= points[1] - 2 * points[0] <= maxAdd ==>
              newMin <= newMax || points[1] - 2 * points[0] == add
  {
    hide Rising, MayReach, ErrDelta;
    newMin, newMax, newOuterMin, newOuterMax := minAdd, maxAdd, outerMin, outerMax;
    var nextCount := count + 1;
    var nextPoint := MinmaxPoint(points, maxError, count);
    TriangleFormula(nextCount);
    PulseFormula(interval, add, nextCount);
    var nextReach := add * (nextCount * (nextCount - 1) / 2) + interval * nextCount;
    if nextReach < nextPoint.minp {
      newMin := add + 1;
      newOuterMax := nextMax;
    } else {
      newMax := add - 1;
      newOuterMin := nextMin;
    }
    PulseTwo(interval, add);
    WindowFacts(points, maxError, 0);
    WindowFacts(points, maxError, count);
    ghost var low, high := newMin, newMax;
    newMin, newMax := LimitAdd(maxError, add, newMin, newMax, count, nextPoint, newOuterMin, newOuterMax);
    if maxError == 0 {
      assert newOuterMin == newOuterMax == points[0];
      assert nextPoint == Points(points[count], points[count]);
      if count >= 2 {
        ExactLimit(add, low, high, count, nextPoint, points[0], newMin, newMax);
      } else {
        ExactLimitOne(add, low, high, points[1], points[0], newMin, newMax);
      }
    }
  }

  /** What the search knows without tolerance before its second round, which is its last: the one
      `add` to try. */
  ghost predicate SecondRound(points: seq<int>, best: StepMove, zero: StepMove, bestReach: int, add: int,
                              minAdd: int, maxAdd: int, outerMin: int, outerMax: int)
  {
    && Last(points) >= 2
    && best == zero == StepMove(points[0], 1, 0) && bestReach == points[0]
    && minAdd == add == maxAdd == points[1] - 2 * points[0] != 0
    && outerMin == outerMax == points[0]
  }

  /** The choice at the end is the longest command, but for one case. */
  ghost predicate ExactChoice(points: seq<int>, best: StepMove, zero: StepMove) {
    var n := if zero.count + zero.count / 16 >= best.count then zero.count else best.count;
    Longest(points, 0, n) <==> !Doubled(points)
  }

  lemma {:induction false} ChoiceMeans(points: seq<int>, best: StepMove, zero: StepMove)
    ensures ExactChoice(points, best, zero) ==>
            (Longest(points, 0, if zero.count + zero.count / 16 >= best.count then zero.count else best.count)
             <==> !Doubled(points))
  {
  }

  /** The bookkeeping of a round: the choice is right after it, unless the first round covered
      only one point and the second is still to come. */
  lemma {:induction false} ExactUpdate(points: seq<int>, add: int, interval: int, n: nat, reach: int, best0: StepMove,
                                       zero0: StepMove, reach0: int, best: StepMove, zero: StepMove)
    requires Rising(points) && 1 <= n < Last(points) && interval == points[0] && reach == Pulse(points[0], add, n)
    requires Fits(points, 0, points[0], n, add) && !Fits(points, 0, points[0], n + 1, add)
    requires if zero0.count == 0 then add == 0 && reach0 < 0
             else SecondRound(points, best0, zero0, reach0, add, add, add, points[0], points[0])
                  && -0x8000 <= add <= 0x7fff
    requires if reach > reach0 || (reach == reach0 && interval > best0.interval)
             then best == StepMove(interval, n, add) && zero == if add == 0 then StepMove(interval, n, 0) else zero0
             else best == best0 && zero == zero0
    ensures if zero0.count == 0 && n == 1
            then best == zero == StepMove(points[0], 1, 0) && reach == points[0] && points[1] - 2 * points[0] != 0
                 && (!(-0x8000 <= points[1] - 2 * points[0] <= 0x7fff) ==> ExactChoice(points, best, zero))
            else ExactChoice(points, best, zero)
  {
    hide Longest, Doubled;
    ExactFits(points, points[0], n, add);
    if zero0.count == 0 {
      ExactFirst(points, n);
    } else {
      ExactSecond(points, n, add);
    }
  }

  /** compress_bisect_add: it ends, what it returns hits every window it covers, and it covers
      at least as many steps as any single interval without `add` could.  Without tolerance it
      covers as many as any command could, if and only if the first two of several steps are not
      at one clock. */
  method CompressBisectAdd(points: seq<int>, maxError: nat) returns (move: StepMove)
    requires points != [] && Rising(points)
    ensures Sound(points, maxError, move) && BeatsSteady(points, maxError, move.count)
    ensures maxError == 0 ==> (Longest(points, maxError, move.count) <==> !Doubled(points))
  {
    hide Longest, Doubled, Rising, SteadyEnds, ExactChoice, Fits, MayReach, ErrDelta, NoneFits, BeatsSteady;
    var point := MinmaxPoint(points, maxError, 0);
    WindowFacts(points, maxError, 0);
    var outerMin, outerMax := point.minp, point.maxp;
    var add, minAdd, maxAdd := 0, -0x8000, 0x7fff;
    var best, bestReach := StepMove(0, 1, 1), -0x8000_0000;
    var zero := StepMove(0, 0, 0);
    while true
      invariant FirstWindow(points, maxError, outerMin, outerMax)
      invariant -0x8000 <= minAdd <= add <= maxAdd <= 0x7fff
      invariant zero.count == 0 ==> add == 0 && point == Points(outerMin, outerMax) && bestReach < 0
      invariant zero.count == 0 ==> minAdd == -0x8000 && maxAdd == 0x7fff
      invariant zero.count != 0 ==> (minAdd > 0 || maxAdd < 0) && Found(points, maxError, best, zero)
      invariant maxError == 0 && zero.count != 0 ==>
                  SecondRound(points, best, zero, bestReach, add, minAdd, maxAdd, outerMin, outerMax)
      decreases maxAdd - minAdd
    {
      var interval, count, nextMin, nextMax, done := LongestRun(points, maxError, add, outerMin, outerMax);
      if done {
        AllCovered(points, maxError, count);
        if maxError == 0 {
          ExactWhole(points, interval, count, add);
        }
        return StepMove(interval, count, add);
      }
      ghost var first := zero.count == 0;
      ghost var best0, zero0, reach0 := best, zero, bestReach;
      var addFactor := count * (count - 1) / 2;
      TriangleFormula(count);
      PulseFormula(interval, add, count);
      ReachIsForward(points, maxError, interval, count, add);
      var reach := add * addFactor + interval * count;
      NoneFitsAt(points, maxError, add, outerMin, outerMax, count + 1, interval);
      if first {
        FirstRound(points, maxError, interval, count, outerMin, outerMax);
      }
      if reach > bestReach || (reach == bestReach && interval > best.interval) {
        best := StepMove(interval, count, add);
        bestReach := reach;
        if add == 0 {
          zero := StepMove(interval, count, 0);
        }
        if count > 0x200 {
          if maxError == 0 {
            ExactUpdate(points, add, interval, count, reach, best0, zero0, reach0, best, zero);
          }
          break;
        }
      }
      if maxError == 0 {
        ExactUpdate(points, add, interval, count, reach, best0, zero0, reach0, best, zero);
      }
      minAdd, maxAdd, outerMin, outerMax :=
        NarrowSearch(points, maxError, add, minAdd, maxAdd, interval, count, nextMin, nextMax, outerMin, outerMax);
      if minAdd > maxAdd {
        break;
      }
      add := maxAdd - (maxAdd - minAdd) / 4;
    }
    assert maxError == 0 ==> ExactChoice(points, best, zero);
    ChoiceMeans(points, best, zero);
    if zero.count + zero.count / 16 >= best.count {
      FoundBeats(points, maxError, best, zero, zero.count);
      return zero;
    }
    FoundBeats(points, maxError, best, zero, best.count);
    return best;
  }

  // ----- Checking a command -----

  /** The step times are within reach of a 32-bit clock difference. */
  ghost predicate Near(points: seq<int>) {
    forall i :: 0 <= i < |points| ==> points[i] < CLOCK_DIFF_MAX
  }

  /** The gap before pulse k + 1. */
  function Gap(move: StepMove, k: nat): int {
    move.interval + move.add * k
  }

  ghost predicate GoodStep(points: seq<int>, maxError: nat, move: StepMove, k: nat)
    requires k < |points|
  {
    Inside(points, maxError, move.interval, move.add, k + 1) && 0 <= Gap(move, k) < HALF_WORD
  }

  ghost predicate Accepts(points: seq<int>, maxError: nat, move: StepMove) {
    && 1 <= move.count <= |points|
    && !(move.interval == 0 && move.add == 0 && move.count > 1)
    && move.interval < HALF_WORD
    && forall k: nat :: k < move.count ==> GoodStep(points, maxError, move, k)
  }

  lemma {:induction false} GapWraps(move: StepMove, k: nat)
    ensures (Gap(move, k) % WORD + move.add) % WORD == Gap(move, k + 1) % WORD
  {
    var g := Gap(move, k);
    assert g == g / WORD * WORD + g % WORD;
    assert Gap(move, k + 1) == g + move.add;
    Shifted(g % WORD + move.add, g / WORD);
  }

  lemma {:induction false} Shifted(x: int, q: int)
    ensures (x + q * WORD) % WORD == x % WORD
  {
  }

  /** A 32-bit gap is acceptable exactly when the true one is. */
  lemma {:induction false} GapFits(move: StepMove, k: nat)
    requires -0x8000 <= move.add <= 0x7fff
    requires k > 0 ==> 0 <= Gap(move, k - 1) < HALF_WORD
    requires 0 <= move.interval < HALF_WORD
    ensures Gap(move, k) % WORD < HALF_WORD <==> 0 <= Gap(move, k) < HALF_WORD
    ensures 0 <= Gap(move, k) < HALF_WORD ==> Gap(move, k) % WORD == Gap(move, k)
  {
    var g := Gap(move, k);
    if k > 0 {
      assert g == Gap(move, k - 1) + move.add;
    }
    if g < 0 {
      Shifted(g, 1);
    }
  }

  lemma {:induction false} WrapFits(x: int)
    ensures 0 <= x < WORD ==> x % WORD == x
  {
  }

  /** One turn of check_line's loop, on 32-bit registers. */
  lemma {:induction false} LineStep(points: seq<int>, maxError: nat, move: StepMove, i: nat, interval: int, p: int)
    requires Rising(points) && Near(points) && i < |points|
    requires -0x8000 <= move.add <= 0x7fff && 0 <= move.interval < HALF_WORD
    requires i > 0 ==> 0 <= Gap(move, i - 1) < HALF_WORD
    requires interval == Gap(move, i) % WORD && p == Pulse(move.interval, move.add, i) && 0 <= p < CLOCK_DIFF_MAX
    ensures var w, p' := MinmaxPoint(points, maxError, i), (p + interval) % WORD;
            && (w.minp <= p' <= w.maxp && interval < HALF_WORD <==> GoodStep(points, maxError, move, i))
            && (GoodStep(points, maxError, move, i) ==>
                  p' == Pulse(move.interval, move.add, i + 1) && 0 <= p' < CLOCK_DIFF_MAX)
  {
    WindowFacts(points, maxError, i);
    GapFits(move, i);
    WrapFits(p + interval);
    assert Pulse(move.interval, move.add, i + 1) == p + Gap(move, i);
  }

  /** check_line, with its 32-bit registers: it accepts a command exactly when no register
      overflows and every pulse hits its window. */
  method CheckLine(points: seq<int>, maxError: nat, move: StepMove) returns (ok: bool)
    requires Rising(points) && Near(points)
    requires 0 <= move.interval < WORD && 0 <= move.count <= MAX_COUNT && -0x8000 <= move.add <= 0x7fff
    requires move.count <= |points|
    ensures ok <==> Accepts(points, maxError, move)
  {
    if move.count == 0 || (move.interval == 0 && move.add == 0 && move.count > 1) || move.interval >= HALF_WORD {
      return false;
    }
    var interval, p := move.interval, 0;
    var i := 0;
    WrapFits(interval);
    while i < move.count
      invariant 0 <= i <= move.count && interval == Gap(move, i) % WORD
      invariant p == Pulse(move.interval, move.add, i) && 0 <= p < CLOCK_DIFF_MAX
      invariant i > 0 ==> 0 <= Gap(move, i - 1) < HALF_WORD
      invariant forall k: nat :: k < i ==> GoodStep(points, maxError, move, k)
    {
      LineStep(points, maxError, move, i, interval, p);
      GapWraps(move, i);
      var point := MinmaxPoint(points, maxError, i);
      p := (p + interval) % WORD;
      if p < point.minp || p > point.maxp {
        return false;
      }
      if interval >= HALF_WORD {
        return false;
      }
      interval := (interval + move.add) % WORD;
      i := i + 1;
    }
    return true;
  }

  /** Windows of successive points do not overlap, so that a sound command never steps back, and
      they do not touch where the steps are apart. */
  lemma {:induction false} SoundStepsForward(points: seq<int>, maxError: nat, move: StepMove, k: nat)
    requires Rising(points) && Sound(points, maxError, move) && k < move.count
    ensures Pulse(move.interval, move.add, k) <= Pulse(move.interval, move.add, k + 1) <= points[k]
    ensures Prev(points, k) < points[k] ==> Pulse(move.interval, move.add, k) < Pulse(move.interval, move.add, k + 1)
    ensures 0 <= Gap(move, k) <= points[k]
  {
    WindowFacts(points, maxError, k);
    assert Inside(points, maxError, move.interval, move.add, k + 1);
    if k > 0 {
      WindowFacts(points, maxError, k - 1);
      assert Inside(points, maxError, move.interval, move.add, k);
    }
  }

  /** The next two steps are at the clock of the last step sent. */
  ghost predicate Blocked(points: seq<int>) {
    |points| >= 2 && points[0] == points[1] == 0
  }

  /** check_line rejects what the search returns if and only if the next two steps are at the clock
      of the last step sent. */
  lemma {:induction false} SearchPassesCheck(points: seq<int>, maxError: nat, move: StepMove)
    requires Rising(points) && Near(points)
    requires Sound(points, maxError, move) && BeatsSteady(points, maxError, move.count)
    ensures Accepts(points, maxError, move) <==> !Blocked(points)
    ensures 0 <= move.interval < CLOCK_DIFF_MAX
    ensures Blocked(points) ==> move.interval == move.add == 0
  {
    forall k: nat | k < move.count ensures GoodStep(points, maxError, move, k) {
      SoundStepsForward(points, maxError, move, k);
      assert Inside(points, maxError, move.interval, move.add, k + 1);
    }
    SoundStepsForward(points, maxError, move, 0);
    if Blocked(points) {
      BlockedMove(points, maxError, move);
    } else if move.count > 1 {
      NotBlockedMoves(points, maxError, move);
    }
  }

  /** Two steps at once, and no time since the last: only a command that stands still covers both,
      and the search finds no shorter one. */
  lemma {:induction false} BlockedMove(points: seq<int>, maxError: nat, move: StepMove)
    requires Blocked(points) && Sound(points, maxError, move) && BeatsSteady(points, maxError, move.count)
    ensures move.count > 1 && move.interval == move.add == 0
  {
    assert Pulse(0, 0, 1) == Pulse(0, 0, 2) == 0;
    forall k: nat | 1 <= k <= 2 ensures Inside(points, maxError, 0, 0, k) {
    }
    assert Fits(points, maxError, 0, 2, 0);
    assert Inside(points, maxError, move.interval, move.add, 1) && Inside(points, maxError, move.interval, move.add, 2);
    assert Pulse(move.interval, move.add, 1) == move.interval;
    assert Pulse(move.interval, move.add, 2) == 2 * move.interval + move.add;
  }

  lemma {:induction false} NotBlockedMoves(points: seq<int>, maxError: nat, move: StepMove)
    requires Rising(points) && !Blocked(points) && Sound(points, maxError, move) && move.count > 1
    ensures move.interval != 0 || move.add != 0
  {
    assert Inside(points, maxError, move.interval, move.add, 1) && Inside(points, maxError, move.interval, move.add, 2);
    assert Pulse(move.interval, move.add, 1) == move.interval;
    assert Pulse(move.interval, move.add, 2) == 2 * move.interval + move.add;
    WindowFacts(points, maxError, 0);
    WindowFacts(points, maxError, 1);
  }

  /** Two steps at the clock of the last one: what the search returns is determined, and the check
      rejects it. */
  lemma {:induction false} EqualStepsRejected(maxError: nat, move: StepMove)
    requires Sound([0, 0], maxError, move) && BeatsSteady([0, 0], maxError, move.count)
    ensures move == StepMove(0, 2, 0) && !Accepts([0, 0], maxError, move)
  {
    SearchPassesCheck([0, 0], maxError, move);
    BlockedMove([0, 0], maxError, move);
  }

  /** Two steps at one later clock do pass. */
  lemma {:induction false} EqualStepsAccepted(maxError: nat)
    ensures Sound([5, 5], maxError, StepMove(5, 2, -5)) && Accepts([5, 5], maxError, StepMove(5, 2, -5))
  {
    var points, move := [5, 5], StepMove(5, 2, -5);
    assert Pulse(5, -5, 1) == 5 && Pulse(5, -5, 2) == 5;
    forall k: nat | 1 <= k <= 2 ensures Inside(points, maxError, 5, -5, k) {
    }
    forall k: nat | k < 2 ensures GoodStep(points, maxError, move, k) {
      assert Inside(points, maxError, 5, -5, k + 1);
    }
  }
}
