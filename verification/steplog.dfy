/**
  What a step compressor has sent: its history of queue_step commands, the pulses they stand
  for, and the pulses a micro-controller makes when it executes the messages
  (struct history_steps and struct queue_message in stepcompress.c).
*/
module StepLog {
  import opened Common
  import opened StepSearch
  import opened Kinematics

  /** A step or pulse at a 64-bit clock; direction 0 counts down. */
  datatype StepAt = StepAt(clock: int, dir: int)

  function Sign(dir: int): int {
    if dir != 0 then 1 else -1
  }

  function Net(steps: seq<StepAt>): int {
    if steps == [] then 0 else Net(steps[..|steps| - 1]) + Sign(steps[|steps| - 1].dir)
  }

  /** The position reached at a clock, by counting signed pulses one by one. */
  function PositionAt(pulses: seq<StepAt>, clock: int): int {
    if pulses == [] then 0
    else
      var p := pulses[|pulses| - 1];
      PositionAt(pulses[..|pulses| - 1], clock) + if p.clock <= clock then Sign(p.dir) else 0
  }

  lemma {:induction false} NetAppend(a: seq<StepAt>, b: seq<StepAt>)
    ensures Net(a + b) == Net(a) + Net(b)
  {
    if b == [] {
      assert a + b == a;
    } else {
      NetAppend(a, b[..|b| - 1]);
      assert (a + b)[..|a + b| - 1] == a + b[..|b| - 1];
    }
  }

  lemma {:induction false} PositionAppend(a: seq<StepAt>, b: seq<StepAt>, clock: int)
    ensures PositionAt(a + b, clock) == PositionAt(a, clock) + PositionAt(b, clock)
  {
    if b == [] {
      assert a + b == a;
    } else {
      PositionAppend(a, b[..|b| - 1], clock);
      assert (a + b)[..|a + b| - 1] == a + b[..|b| - 1];
    }
  }

  ghost predicate AllAfter(pulses: seq<StepAt>, clock: int) {
    forall i :: 0 <= i < |pulses| ==> pulses[i].clock > clock
  }

  ghost predicate AllBy(pulses: seq<StepAt>, clock: int) {
    forall i :: 0 <= i < |pulses| ==> pulses[i].clock <= clock
  }

  lemma {:induction false} NoneYet(pulses: seq<StepAt>, clock: int)
    requires AllAfter(pulses, clock)
    ensures PositionAt(pulses, clock) == 0
  {
    if pulses != [] {
      NoneYet(pulses[..|pulses| - 1], clock);
    }
  }

  lemma {:induction false} AllDone(pulses: seq<StepAt>, clock: int)
    requires AllBy(pulses, clock)
    ensures PositionAt(pulses, clock) == Net(pulses)
  {
    if pulses != [] {
      AllDone(pulses[..|pulses| - 1], clock);
    }
  }

  // ----- History -----

  /** struct history_steps */
  datatype HistorySteps = HistorySteps(firstClock: int, lastClock: int, startPosition: int,
                                       stepCount: int, interval: int, add: int)

  function Dir(hs: HistorySteps): int {
    if hs.stepCount < 0 then 0 else 1
  }

  function Count(hs: HistorySteps): nat {
    if hs.stepCount < 0 then -hs.stepCount else hs.stepCount
  }

  /** The clock of the k-th pulse of a command, from 1. */
  function PulseClock(hs: HistorySteps, k: nat): int {
    hs.firstClock - hs.interval + Pulse(hs.interval, hs.add, k)
  }

  function MovePulses(hs: HistorySteps, n: nat): (ps: seq<StepAt>)
    ensures |ps| == n
  {
    if n == 0 then [] else MovePulses(hs, n - 1) + [StepAt(PulseClock(hs, n), Dir(hs))]
  }

  function AllPulses(moves: seq<HistorySteps>): seq<StepAt> {
    if moves == [] then []
    else AllPulses(moves[..|moves| - 1]) + MovePulses(moves[|moves| - 1], Count(moves[|moves| - 1]))
  }

  function LastClock(moves: seq<HistorySteps>): int {
    if moves == [] then 0 else moves[|moves| - 1].lastClock
  }

  ghost predicate StepsForward(hs: HistorySteps) {
    forall k: nat :: 1 <= k < Count(hs) ==> Pulse(hs.interval, hs.add, k) <= Pulse(hs.interval, hs.add, k + 1)
  }

  /** History entries, oldest first, that follow one another. */
  ghost predicate Chain(moves: seq<HistorySteps>) {
    moves == [] ||
    var before, hs := moves[..|moves| - 1], moves[|moves| - 1];
    && Chain(before)
    && LinkedTo(before, hs)
  }

  /** The parameters of a command with more than one step that does not stand still. */
  ghost predicate MovesOn(interval: int, add: int) {
    interval > 0 || (interval == 0 && add > 0)
  }

  ghost predicate LinkedTo(before: seq<HistorySteps>, hs: HistorySteps) {
    && Count(hs) >= 1 && StepsForward(hs) && (Count(hs) > 1 ==> MovesOn(hs.interval, hs.add))
    && LastClock(before) <= hs.firstClock
    && hs.lastClock == PulseClock(hs, Count(hs))
    && hs.startPosition == Net(AllPulses(before))
  }

  lemma {:induction false} MoveRises(hs: HistorySteps, j: nat, k: nat)
    requires StepsForward(hs) && 1 <= j <= k <= Count(hs)
    ensures PulseClock(hs, j) <= PulseClock(hs, k)
    ensures PulseClock(hs, 1) == hs.firstClock
  {
    assert Pulse(hs.interval, hs.add, 1) == hs.interval;
    if j < k {
      MoveRises(hs, j, k - 1);
    }
  }

  lemma {:induction false} MovePulsesAt(hs: HistorySteps, n: nat, i: nat)
    requires i < n
    ensures MovePulses(hs, n)[i] == StepAt(PulseClock(hs, i + 1), Dir(hs))
  {
    if i < n - 1 {
      MovePulsesAt(hs, n - 1, i);
    }
  }

  /** If the m-th pulse is due and the next is not, the first n amount to m steps. */
  lemma {:induction false} MovePosition(hs: HistorySteps, n: nat, clock: int, m: nat)
    requires StepsForward(hs) && m <= n <= Count(hs)
    requires m > 0 ==> PulseClock(hs, m) <= clock
    requires m < Count(hs) ==> clock < PulseClock(hs, m + 1)
    ensures PositionAt(MovePulses(hs, n), clock) == m * Sign(Dir(hs))
  {
    if n > m {
      MovePosition(hs, n - 1, clock, m);
      MoveRises(hs, m + 1, n);
    } else if n > 0 {
      FullMovePosition(hs, n, clock);
    }
  }

  lemma {:induction false} FullMovePosition(hs: HistorySteps, n: nat, clock: int)
    requires StepsForward(hs) && n <= Count(hs) && (n > 0 ==> PulseClock(hs, n) <= clock)
    ensures PositionAt(MovePulses(hs, n), clock) == n * Sign(Dir(hs)) == Net(MovePulses(hs, n))
  {
    if n > 1 {
      MoveRises(hs, n - 1, n);
    }
    if n > 0 {
      FullMovePosition(hs, n - 1, clock);
    }
  }

  /** The pulses of a history are done by its last clock. */
  lemma {:induction false} DoneByLast(moves: seq<HistorySteps>)
    requires Chain(moves)
    ensures AllBy(AllPulses(moves), LastClock(moves))
  {
    if moves != [] {
      var before, hs := moves[..|moves| - 1], moves[|moves| - 1];
      DoneByLast(before);
      MoveRises(hs, 1, Count(hs));
      forall i | 0 <= i < |AllPulses(moves)| ensures AllPulses(moves)[i].clock <= hs.lastClock {
        if i >= |AllPulses(before)| {
          MovePulsesAt(hs, Count(hs), i - |AllPulses(before)|);
          MoveRises(hs, i - |AllPulses(before)| + 1, Count(hs));
        }
      }
    }
  }

  /** After the last clock, the position is the net of all steps. */
  lemma {:induction false} PositionAfter(moves: seq<HistorySteps>, clock: int)
    requires Chain(moves) && clock >= LastClock(moves)
    ensures PositionAt(AllPulses(moves), clock) == Net(AllPulses(moves))
  {
    DoneByLast(moves);
    AllDone(AllPulses(moves), clock);
  }

  /** Before a command's first clock, it does not count. */
  lemma {:induction false} PositionBefore(moves: seq<HistorySteps>, clock: int)
    requires Chain(moves) && moves != [] && clock < moves[|moves| - 1].firstClock
    ensures PositionAt(AllPulses(moves), clock) == PositionAt(AllPulses(moves[..|moves| - 1]), clock)
  {
    var before, hs := moves[..|moves| - 1], moves[|moves| - 1];
    PositionAppend(AllPulses(before), MovePulses(hs, Count(hs)), clock);
    MoveRises(hs, 1, 1);
    MovePosition(hs, Count(hs), clock, 0);
  }

  /** During a command, the position is its start position and the pulses already made. */
  lemma {:induction false} PositionDuring(moves: seq<HistorySteps>, clock: int, m: nat)
    requires Chain(moves) && moves != []
    requires var hs := moves[|moves| - 1];
             && hs.firstClock <= clock && 1 <= m <= Count(hs) && PulseClock(hs, m) <= clock
             && (m < Count(hs) ==> clock < PulseClock(hs, m + 1))
    ensures var hs := moves[|moves| - 1];
            PositionAt(AllPulses(moves), clock) == hs.startPosition + m * Sign(Dir(hs))
  {
    var before, hs := moves[..|moves| - 1], moves[|moves| - 1];
    PositionAppend(AllPulses(before), MovePulses(hs, Count(hs)), clock);
    PositionAfter(before, clock);
    MovePosition(hs, Count(hs), clock, m);
  }

  lemma {:induction false} ChainPrefix(moves: seq<HistorySteps>, n: nat)
    requires Chain(moves) && n <= |moves|
    ensures Chain(moves[..n])
  {
    if n == |moves| {
      assert moves[..n] == moves;
    } else {
      ChainPrefix(moves[..|moves| - 1], n);
      assert moves[..|moves| - 1][..n] == moves[..n];
    }
  }

  // ----- How many pulses of a command are due -----

  lemma {:induction false} PulseAsReal(interval: int, add: int, k: nat)
    ensures var a, b := 0.5 * add as real, interval as real - 0.5 * add as real;
            Pulse(interval, add, k) as real == a * (k as real) * (k as real) + b * (k as real)
  {
    if k > 0 {
      PulseAsReal(interval, add, k - 1);
      var a, b, r := 0.5 * add as real, interval as real - 0.5 * add as real, (k - 1) as real;
      assert k as real == r + 1.0;
      assert (add * (k - 1)) as real == 2.0 * a * r;
      assert a * (r + 1.0) * (r + 1.0) + b * (r + 1.0) == a * r * r + b * r + (2.0 * a * r + a + b);
    }
  }

  /** Completing the square: how 2ak + b compares with the root of the discriminant. */
  lemma {:induction false} Discriminant(a: real, b: real, t: real, k: real, s: real)
    requires 0.0 <= s && s * s == b * b + 4.0 * a * t
    ensures 2.0 * a * k + b >= 0.0 && a * (a * k * k + b * k) <= a * t ==> 2.0 * a * k + b <= s
    ensures a * (a * k * k + b * k) >= a * t ==> 2.0 * a * k + b >= s || 2.0 * a * k + b < 0.0
    ensures a * (a * k * k + b * k) < a * t ==> 2.0 * a * k + b < s
    ensures a * (a * k * k + b * k) > a * t && 2.0 * a * k + b >= 0.0 ==> 2.0 * a * k + b > s
  {
    var x, y := 2.0 * a * k + b, a * (a * k * k + b * k);
    assert x * x == 4.0 * y + b * b;
    if x >= 0.0 {
      if x * x <= s * s {
        SquaresOrdered(x, s);
      }
      if x * x >= s * s {
        SquaresOrdered(s, x);
      }
    }
  }

  lemma {:induction false} DiscriminantExists(a: real, b: real, t: real, k: real)
    requires (a > 0.0 && t >= 0.0) || (a < 0.0 && a * k * k + b * k >= t)
    ensures b * b + 4.0 * a * t >= 0.0
  {
    var x := 2.0 * a * k + b;
    assert x * x == 4.0 * (a * (a * k * k + b * k)) + b * b;
    assert x * x >= 0.0 && b * b >= 0.0;
    if a > 0.0 {
      assert a * t >= 0.0;
    } else {
      assert a * (a * k * k + b * k) <= a * t;
    }
  }

  lemma {:induction false} RootRising(a: real, b: real, t: real, m: real, s: real)
    requires a > 0.0 && 2.0 * a * m + b >= 0.0 && 0.0 <= s && s * s == b * b + 4.0 * a * t
    requires a * m * m + b * m <= t < a * (m + 1.0) * (m + 1.0) + b * (m + 1.0)
    ensures m <= (s - b) / (2.0 * a) < m + 1.0
  {
    assert a * (a * m * m + b * m) <= a * t < a * (a * (m + 1.0) * (m + 1.0) + b * (m + 1.0));
    Discriminant(a, b, t, m, s);
    Discriminant(a, b, t, m + 1.0, s);
    Between(2.0 * a, m, m + 1.0, s - b);
  }

  lemma {:induction false} RootFalling(a: real, b: real, t: real, m: real, s: real)
    requires a < 0.0 && 2.0 * a * m + b >= 0.0 && 0.0 <= s && s * s == b * b + 4.0 * a * t
    requires a * m * m + b * m <= t < a * (m + 1.0) * (m + 1.0) + b * (m + 1.0)
    ensures m <= (s - b) / (2.0 * a) < m + 1.0
  {
    assert a * (a * m * m + b * m) >= a * t > a * (a * (m + 1.0) * (m + 1.0) + b * (m + 1.0));
    Discriminant(a, b, t, m, s);
    Discriminant(a, b, t, m + 1.0, s);
    Between(-2.0 * a, m, m + 1.0, b - s);
    assert (s - b) / (2.0 * a) == (b - s) / (-2.0 * a);
  }

  lemma {:induction false} Between(d: real, lo: real, hi: real, x: real)
    requires d > 0.0 && d * lo <= x < d * hi
    ensures lo <= x / d < hi
  {
    assert x / d * d == x;
  }

  /** Up to the last pulse a command has not turned back. */
  lemma {:induction false} SlopeIsForward(interval: int, add: int, m: nat)
    requires interval >= 0 && m >= 1 && interval + add * m > 0
    ensures 2.0 * (0.5 * add as real) * m as real + (interval as real - 0.5 * add as real) >= 0.0
  {
    var p := add * m;
    assert 2.0 * (0.5 * add as real) * m as real == p as real;
    if add > 0 {
      assert p >= add;
    }
  }

  lemma {:induction false} Brackets(interval: int, add: int, m: nat, ticks: int)
    requires Pulse(interval, add, m) <= ticks < Pulse(interval, add, m + 1)
    ensures var a, b, r := 0.5 * add as real, interval as real - 0.5 * add as real, m as real;
            a * r * r + b * r <= ticks as real < a * (r + 1.0) * (r + 1.0) + b * (r + 1.0)
  {
    PulseAsReal(interval, add, m);
    PulseAsReal(interval, add, m + 1);
    assert (m + 1) as real == m as real + 1.0;
  }

  /** The quadratic formula of stepcompress_find_past_position counts pulses. */
  lemma {:induction false} RootCounts(sqrt: real -> real, interval: int, add: int, m: nat, ticks: int)
    requires IsSqrt(sqrt) && add != 0 && MovesOn(interval, add) && m >= 1 && interval + add * m > 0
    requires Pulse(interval, add, m) <= ticks < Pulse(interval, add, m + 1) && ticks >= 0
    ensures Truncated(Root(sqrt, 0.5 * add as real, interval as real - 0.5 * add as real, -(ticks as real))) == m
  {
    var a, b, t, r := 0.5 * add as real, interval as real - 0.5 * add as real, ticks as real, m as real;
    SlopeIsForward(interval, add, m);
    Brackets(interval, add, m, ticks);
    RootIs(sqrt, a, b, t, r);
    FloorIs(Root(sqrt, a, b, -t), m);
  }

  /** A root of a*x*x + b*x + c. */
  function Root(sqrt: real -> real, a: real, b: real, c: real): real
    requires a != 0.0
  {
    (sqrt(b * b - 4.0 * a * c) - b) / (2.0 * a)
  }

  lemma {:induction false} FloorIs(q: real, m: nat)
    requires m as real <= q < m as real + 1.0
    ensures Truncated(q) == m
  {
  }

  lemma {:induction false} Negated(x: real, t: real)
    ensures x * -t == -(x * t)
  {
  }

  lemma {:induction false} HasRoot(sqrt: real -> real, a: real, b: real, t: real, k: real) returns (s: real)
    requires IsSqrt(sqrt)
    requires (a > 0.0 && t >= 0.0) || (a < 0.0 && a * k * k + b * k >= t)
    ensures 0.0 <= s && s * s == b * b + 4.0 * a * t && Root(sqrt, a, b, -t) == (s - b) / (2.0 * a)
  {
    DiscriminantExists(a, b, t, k);
    Negated(4.0 * a, t);
    s := sqrt(b * b - 4.0 * a * -t);
    assert IsRootAt(sqrt, b * b - 4.0 * a * -t);
  }

  lemma {:induction false} RootIs(sqrt: real -> real, a: real, b: real, t: real, r: real)
    requires IsSqrt(sqrt) && a != 0.0 && t >= 0.0 && 2.0 * a * r + b >= 0.0
    requires a * r * r + b * r <= t < a * (r + 1.0) * (r + 1.0) + b * (r + 1.0)
    ensures r <= Root(sqrt, a, b, -t) < r + 1.0
  {
    var s := HasRoot(sqrt, a, b, t, r + 1.0);
    if a > 0.0 {
      RootRising(a, b, t, r, s);
    } else {
      RootFalling(a, b, t, r, s);
    }
  }

  /** Without `add`, a division counts pulses. */
  lemma {:induction false} QuotientCounts(interval: int, m: nat, ticks: int)
    requires interval > 0 && Pulse(interval, 0, m) <= ticks < Pulse(interval, 0, m + 1)
    ensures CDiv(ticks, interval) == m
  {
    PulseFormula(interval, 0, m);
    PulseFormula(interval, 0, m + 1);
    DownIsFloor(ticks, interval, m);
    DownIsFloor(ticks, interval, m + 1);
  }

  /** How many of the first n pulses are due. */
  function Due(hs: HistorySteps, clock: int, n: nat): (m: nat)
    ensures m <= n && (m > 0 ==> PulseClock(hs, m) <= clock) && (m < n ==> clock < PulseClock(hs, m + 1))
  {
    if n == 0 || PulseClock(hs, n) <= clock then n else Due(hs, clock, n - 1)
  }

  // ----- Pulses against the steps they stand for -----

  /** A pulse after `prev`, for a step wanted at `wanted`: never late, early by at most maxError
      and by at most half the way back to `from`, never backwards, and later than `prev` unless
      the step is wanted at `from`. */
  ghost predicate Follows(prev: int, from: int, clock: int, wanted: int, maxError: nat) {
    && prev <= clock <= wanted && (from < wanted ==> prev < clock)
    && wanted - clock <= maxError
    && 2 * (wanted - clock) <= wanted - from
  }

  function PrevClock(pulses: seq<StepAt>, i: nat): int
    requires i <= |pulses|
  {
    if i > 0 then pulses[i - 1].clock else 0
  }

  /** Pulse i is the first of its command. */
  predicate Begins(moves: seq<HistorySteps>, i: nat) {
    moves != [] &&
    var n := |AllPulses(moves[..|moves| - 1])|;
    if i < n then Begins(moves[..|moves| - 1], i) else i == n
  }

  /** What pulse i is measured from: the step wanted before it or, for the first pulse of a
      command, the last pulse made. */
  function MeasuredFrom(moves: seq<HistorySteps>, taken: seq<StepAt>, i: nat): int
    requires i < |AllPulses(moves)| == |taken|
  {
    if i == 0 || Begins(moves, i) then PrevClock(AllPulses(moves), i) else taken[i - 1].clock
  }

  ghost predicate TracksAt(moves: seq<HistorySteps>, taken: seq<StepAt>, maxError: nat, i: nat)
    requires i < |AllPulses(moves)| == |taken|
  {
    var pulses := AllPulses(moves);
    && pulses[i].dir == taken[i].dir
    && Follows(PrevClock(pulses, i), MeasuredFrom(moves, taken, i), pulses[i].clock, taken[i].clock, maxError)
  }

  /** One pulse for each step taken, in order. */
  ghost predicate Tracks(moves: seq<HistorySteps>, taken: seq<StepAt>, maxError: nat) {
    |AllPulses(moves)| == |taken| && forall i: nat :: i < |taken| ==> TracksAt(moves, taken, maxError, i)
  }

  /** The pulses of a command track the steps it is for. */
  ghost predicate Covers(last: int, hs: HistorySteps, steps: seq<StepAt>, maxError: nat) {
    && |steps| == Count(hs) >= 1
    && forall k: nat :: k < |steps| ==> CoversAt(last, hs, steps, maxError, k)
  }

  ghost predicate CoversAt(last: int, hs: HistorySteps, steps: seq<StepAt>, maxError: nat, k: nat)
    requires k < |steps|
  {
    && steps[k].dir == Dir(hs)
    && Follows(if k > 0 then PulseClock(hs, k) else last, if k > 0 then steps[k - 1].clock else last,
               PulseClock(hs, k + 1), steps[k].clock, maxError)
  }

  lemma {:induction false} LastPulse(moves: seq<HistorySteps>)
    requires Chain(moves)
    ensures PrevClock(AllPulses(moves), |AllPulses(moves)|) == LastClock(moves)
    ensures moves != [] ==> AllPulses(moves) != []
  {
    if moves != [] {
      var hs := moves[|moves| - 1];
      MovePulsesAt(hs, Count(hs), Count(hs) - 1);
    }
  }

  lemma {:induction false} CoversSteps(last: int, hs: HistorySteps, steps: seq<StepAt>, maxError: nat)
    requires Covers(last, hs, steps, maxError)
    ensures StepsForward(hs) && last <= hs.firstClock
  {
    forall k: nat | 1 <= k < Count(hs)
      ensures Pulse(hs.interval, hs.add, k) <= Pulse(hs.interval, hs.add, k + 1)
    {
      assert CoversAt(last, hs, steps, maxError, k);
    }
    assert CoversAt(last, hs, steps, maxError, 0);
    assert Pulse(hs.interval, hs.add, 1) == hs.interval;
  }

  lemma {:induction false} TracksMore(moves: seq<HistorySteps>, hs: HistorySteps, taken: seq<StepAt>,
                                      steps: seq<StepAt>, maxError: nat)
    requires Chain(moves) && Tracks(moves, taken, maxError)
    requires Covers(LastClock(moves), hs, steps, maxError)
    ensures Tracks(moves + [hs], taken + steps, maxError)
  {
    var more := moves + [hs];
    assert more[..|moves|] == moves;
    LastPulse(moves);
    forall i: nat | i < |taken + steps| ensures TracksAt(more, taken + steps, maxError, i) {
      if i < |taken| {
        assert TracksAt(moves, taken, maxError, i);
      } else {
        TracksNew(moves, hs, taken, steps, maxError, i - |taken|);
      }
    }
  }

  lemma {:induction false} TracksNew(moves: seq<HistorySteps>, hs: HistorySteps, taken: seq<StepAt>, steps: seq<StepAt>,
                                     maxError: nat, k: nat)
    requires Chain(moves) && |AllPulses(moves)| == |taken| && k < |steps|
    requires Covers(LastClock(moves), hs, steps, maxError)
    ensures |AllPulses(moves + [hs])| == |taken + steps|
    ensures TracksAt(moves + [hs], taken + steps, maxError, |taken| + k)
  {
    assert (moves + [hs])[..|moves|] == moves;
    LastPulse(moves);
    MovePulsesAt(hs, Count(hs), k);
    if k > 0 {
      MovePulsesAt(hs, Count(hs), k - 1);
    }
    assert CoversAt(LastClock(moves), hs, steps, maxError, k);
  }

  // ----- What the micro-controller does with the messages -----

  /** A queued message.  A positive minClock marks a message that uses the move queue. */
  datatype Message =
    | QueueStep(move: StepMove, minClock: int, reqClock: int)
    | SetNextStepDir(dir: int, reqClock: int)
    | Other(data: seq<int>, reqClock: int)

  function MinClock(m: Message): int {
    if m.QueueStep? then m.minClock else 0
  }

  datatype Mcu = Mcu(clock: int, dir: int, pulses: seq<StepAt>)

  function CommandPulses(clock: int, dir: int, move: StepMove, n: nat): (ps: seq<StepAt>)
    ensures |ps| == n
  {
    if n == 0 then []
    else CommandPulses(clock, dir, move, n - 1) + [StepAt(clock + Pulse(move.interval, move.add, n), dir)]
  }

  function Execute(mcu: Mcu, m: Message): Mcu {
    match m
    case QueueStep(move, _, _) =>
      var n: nat := if move.count < 0 then 0 else move.count;
      Mcu(mcu.clock + Pulse(move.interval, move.add, n), mcu.dir,
          mcu.pulses + CommandPulses(mcu.clock, mcu.dir, move, n))
    case SetNextStepDir(dir, _) => mcu.(dir := dir)
    case Other(_, _) => mcu
  }

  function Run(messages: seq<Message>): Mcu {
    if messages == [] then Mcu(0, -1, [])
    else Execute(Run(messages[..|messages| - 1]), messages[|messages| - 1])
  }

  lemma {:induction false} RunMore(messages: seq<Message>, m: Message)
    ensures Run(messages + [m]) == Execute(Run(messages), m)
  {
    assert (messages + [m])[..|messages|] == messages;
  }

  /** No step was further than a 32-bit interval from the one before it. */
  ghost predicate ShortGaps(moves: seq<HistorySteps>) {
    moves == [] ||
    (ShortGaps(moves[..|moves| - 1]) && moves[|moves| - 1].firstClock - LastClock(moves[..|moves| - 1]) < WORD)
  }

  ghost predicate SameModWord(a: StepAt, b: StepAt) {
    a.dir == b.dir && (b.clock - a.clock) % WORD == 0
  }

  ghost predicate Congruent(a: seq<StepAt>, b: seq<StepAt>) {
    |a| == |b| && forall i :: 0 <= i < |a| ==> SameModWord(a[i], b[i])
  }

  /** How the execution of the messages compares with the history: the pulses agree modulo
      2^32, and they agree exactly if and only if no gap is too long for an interval. */
  ghost predicate Emits(emitted: seq<Message>, moves: seq<HistorySteps>, sdir: int) {
    var mcu, lag := Run(emitted), LastClock(moves) - Run(emitted).clock;
    && mcu.dir == sdir
    && lag >= 0 && lag % WORD == 0
    && Congruent(mcu.pulses, AllPulses(moves))
    && (lag == 0 <==> mcu.pulses == AllPulses(moves))
    && (lag == 0 <==> ShortGaps(moves))
  }

  /** The queue_step parameters for a history entry. */
  ghost predicate Commands(last: int, move: StepMove, hs: HistorySteps) {
    && move.count == Count(hs) >= 1 && move.add == hs.add
    && last <= hs.firstClock
    && move.interval == (hs.firstClock - last) % WORD
    && (move.count > 1 ==> hs.firstClock == last + move.interval && hs.interval == move.interval)
  }

  lemma {:induction false} OffsetFromPulse(last: int, clock: int, move: StepMove, hs: HistorySteps, k: nat)
    requires Commands(last, move, hs) && 1 <= k <= move.count
    ensures var g := hs.firstClock - last;
            PulseClock(hs, k) - (clock + Pulse(move.interval, move.add, k)) == last - clock + (g - g % WORD)
  {
    var g := hs.firstClock - last;
    if k > 1 {
      assert g == move.interval;
    } else {
      assert Pulse(hs.interval, hs.add, 1) == hs.interval && Pulse(move.interval, move.add, 1) == move.interval;
    }
  }

  lemma {:induction false} CommandPulsesAt(clock: int, dir: int, move: StepMove, n: nat, i: nat)
    requires i < n
    ensures CommandPulses(clock, dir, move, n)[i] == StepAt(clock + Pulse(move.interval, move.add, i + 1), dir)
  {
    if i < n - 1 {
      CommandPulsesAt(clock, dir, move, n - 1, i);
    }
  }

  lemma {:induction false} MultiplesAdd(x: int, g: int)
    requires x % WORD == 0
    ensures (x + (g - g % WORD)) % WORD == 0
    ensures g >= 0 ==> g - g % WORD >= 0 && (g - g % WORD == 0 <==> g < WORD)
  {
    assert g - g % WORD == g / WORD * WORD;
  }

  /** The pulses of one command against those of its history entry. */
  lemma {:induction false} CommandAgrees(mcu: Mcu, last: int, move: StepMove, hs: HistorySteps)
    requires Commands(last, move, hs) && (last - mcu.clock) % WORD == 0 && mcu.dir == Dir(hs)
    ensures var g := hs.firstClock - last;
            var a, b := CommandPulses(mcu.clock, mcu.dir, move, move.count), MovePulses(hs, move.count);
            && Congruent(a, b)
            && (forall i :: 0 <= i < move.count ==> b[i].clock - a[i].clock == last - mcu.clock + (g - g % WORD))
            && PulseClock(hs, move.count) - (mcu.clock + Pulse(move.interval, move.add, move.count))
               == last - mcu.clock + (g - g % WORD)
  {
    var g := hs.firstClock - last;
    var a, b := CommandPulses(mcu.clock, mcu.dir, move, move.count), MovePulses(hs, move.count);
    MultiplesAdd(last - mcu.clock, g);
    forall i | 0 <= i < move.count
      ensures SameModWord(a[i], b[i]) && b[i].clock - a[i].clock == last - mcu.clock + (g - g % WORD)
    {
      CommandPulsesAt(mcu.clock, mcu.dir, move, move.count, i);
      MovePulsesAt(hs, move.count, i);
      OffsetFromPulse(last, mcu.clock, move, hs, i + 1);
    }
    OffsetFromPulse(last, mcu.clock, move, hs, move.count);
  }

  lemma {:induction false} EqualParts(a: seq<StepAt>, a': seq<StepAt>, b: seq<StepAt>, b': seq<StepAt>)
    requires |a| == |b|
    ensures a + a' == b + b' <==> a == b && a' == b'
  {
    if a + a' == b + b' {
      assert a == (a + a')[..|a|] && b == (b + b')[..|b|];
      assert a' == (a + a')[|a|..] && b' == (b + b')[|b|..];
    }
  }

  lemma {:induction false} EqualIfNoLag(a: seq<StepAt>, b: seq<StepAt>, lag: int)
    requires |a| == |b| > 0 && Congruent(a, b)
    requires forall i :: 0 <= i < |a| ==> b[i].clock - a[i].clock == lag
    ensures a == b <==> lag == 0
  {
    if lag == 0 {
      forall i | 0 <= i < |a| ensures a[i] == b[i] {
        assert SameModWord(a[i], b[i]);
      }
    } else {
      assert b[0].clock != a[0].clock;
    }
  }

  lemma {:induction false} CongruentConcat(a: seq<StepAt>, a': seq<StepAt>, b: seq<StepAt>, b': seq<StepAt>)
    requires Congruent(a, b) && Congruent(a', b')
    ensures Congruent(a + a', b + b')
  {
    forall i | 0 <= i < |a + a'| ensures SameModWord((a + a')[i], (b + b')[i]) {
      if i < |a| {
        assert SameModWord(a[i], b[i]);
      } else {
        assert SameModWord(a'[i - |a|], b'[i - |a|]);
      }
    }
  }

  lemma {:induction false} EmitsMove(emitted: seq<Message>, moves: seq<HistorySteps>, sdir: int, m: Message,
                                     hs: HistorySteps)
    requires Emits(emitted, moves, sdir)
    requires m.QueueStep? && Commands(LastClock(moves), m.move, hs) && Dir(hs) == sdir
    requires hs.lastClock == PulseClock(hs, Count(hs))
    ensures Emits(emitted + [m], moves + [hs], sdir)
  {
    RunMore(emitted, m);
    assert (moves + [hs])[..|moves|] == moves;
    var mcu, last, g := Run(emitted), LastClock(moves), hs.firstClock - LastClock(moves);
    var a, b := CommandPulses(mcu.clock, sdir, m.move, m.move.count), MovePulses(hs, m.move.count);
    CommandAgrees(mcu, last, m.move, hs);
    MultiplesAdd(last - mcu.clock, g);
    CongruentConcat(mcu.pulses, a, AllPulses(moves), b);
    EqualParts(mcu.pulses, a, AllPulses(moves), b);
    EqualIfNoLag(a, b, last - mcu.clock + (g - g % WORD));
  }

  lemma {:induction false} EmitsDir(emitted: seq<Message>, moves: seq<HistorySteps>, sdir: int, m: Message)
    requires Emits(emitted, moves, sdir) && m.SetNextStepDir?
    ensures Emits(emitted + [m], moves, m.dir)
  {
    RunMore(emitted, m);
  }

  lemma {:induction false} EmitsOther(emitted: seq<Message>, moves: seq<HistorySteps>, sdir: int, m: Message)
    requires Emits(emitted, moves, sdir) && m.Other?
    ensures Emits(emitted + [m], moves, sdir)
  {
    RunMore(emitted, m);
  }

  // ----- Part of the messages -----

  /** How many steps the commands among the messages are for. */
  function StepsIn(messages: seq<Message>): nat {
    if messages == [] then 0
    else
      var m := messages[|messages| - 1];
      StepsIn(messages[..|messages| - 1]) + if m.QueueStep? && m.move.count > 0 then m.move.count else 0
  }

  lemma {:induction false} RunCounts(messages: seq<Message>)
    ensures |Run(messages).pulses| == StepsIn(messages)
  {
    if messages != [] {
      RunCounts(messages[..|messages| - 1]);
    }
  }

  /** Messages still to come only add pulses. */
  lemma {:induction false} RunPrefix(a: seq<Message>, b: seq<Message>)
    ensures Run(a).pulses <= Run(a + b).pulses
    ensures |Run(a + b).pulses| == |Run(a).pulses| + StepsIn(b)
  {
    if b == [] {
      assert a + b == a;
    } else {
      RunPrefix(a, b[..|b| - 1]);
      assert (a + b)[..|a + b| - 1] == a + b[..|b| - 1];
    }
  }

  lemma {:induction false} CongruentPrefix(a: seq<StepAt>, b: seq<StepAt>, n: nat)
    requires Congruent(a, b) && n <= |a|
    ensures Congruent(a[..n], b[..n])
  {
    forall i | 0 <= i < n ensures SameModWord(a[..n][i], b[..n][i]) {
      assert SameModWord(a[i], b[i]);
    }
  }
}
