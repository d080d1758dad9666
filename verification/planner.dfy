/**
  The look-ahead velocity plan of toolhead.py, as a function of the queue.

  Every speed is a squared velocity.  `Start` and `Smoothed` are the two backward
  recurrences of LookAheadQueue.flush, `Delayed` says which moves the loop puts on
  its "delayed" list, `NewPeak` where it recomputes the peak cruise speed, and
  `JunctionOf` is the (start, cruise, end) triple a full flush gives to a move.
  `CommitPoint` is the prefix length that a lazy flush hands out.
*/
module Planner {
  import opened Common

  /** The limits of one queued move that the look-ahead pass reads. */
  datatype Limits = Limits(
    maxStart: real,      // max_start_v2
    maxCruise: real,     // max_cruise_v2
    delta: real,         // delta_v2
    maxSmoothed: real,   // max_smoothed_v2
    smoothDelta: real)   // smooth_delta_v2

  /** The arguments of one call of Move.set_junction. */
  datatype Junction = Junction(start: real, cruise: real, end: real)

  // ----- What add_move guarantees about a queue -----

  /** Limits of a single move once speed limits have been applied. */
  ghost predicate MoveOk(m: Limits) {
    && 0.0 < m.smoothDelta <= m.delta
    && 0.0 < m.maxCruise
    && 0.0 <= m.maxSmoothed <= m.maxStart <= m.maxCruise
  }

  /** What Move.calc_junction establishes between a move and the one before it:
      either no junction speed at all, or the two `min` formulas. */
  ghost predicate Linked(prev: Limits, m: Limits) {
    || (m.maxStart == 0.0 && m.maxSmoothed == 0.0)
    || (&& m.maxStart <= prev.maxCruise
        && m.maxStart <= prev.maxStart + prev.delta
        && m.maxSmoothed == Min(m.maxStart, prev.maxSmoothed + prev.smoothDelta))
  }

  ghost predicate WellLinked(q: seq<Limits>) {
    && (forall i :: 0 <= i < |q| ==> MoveOk(q[i]))
    && (forall i, j {:trigger Linked(q[i], q[j])} :: 0 <= i < j < |q| && j == i + 1 ==> Linked(q[i], q[j]))
  }

  // ----- The backward recurrences -----

  /** Value of `start_v2` for move i; index |q| stands for the stop after the last move. */
  function Start(q: seq<Limits>, i: nat): real
    requires i <= |q|
    decreases |q| - i
  {
    if i == |q| then 0.0 else Min(q[i].maxStart, Start(q, i + 1) + q[i].delta)
  }

  /** Value of `smoothed_v2` for move i. */
  function Smoothed(q: seq<Limits>, i: nat): real
    requires i <= |q|
    decreases |q| - i
  {
    if i == |q| then 0.0 else Min(q[i].maxSmoothed, Smoothed(q, i + 1) + q[i].smoothDelta)
  }

  /** The loop cannot plan move i yet: it only decelerates. */
  predicate Delayed(q: seq<Limits>, i: nat)
    requires i < |q|
  {
    Smoothed(q, i) >= Smoothed(q, i + 1) + q[i].smoothDelta
  }

  /** The loop recomputes `peak_cruise_v2` at move i. */
  predicate NewPeak(q: seq<Limits>, i: nat)
    requires i < |q|
  {
    && !Delayed(q, i)
    && (|| Smoothed(q, i) + q[i].smoothDelta > Smoothed(q, i + 1)
        || (i + 1 < |q| && Delayed(q, i + 1)))
  }

  /** The value `peak_cruise_v2` gets at such a move. */
  function PeakAt(q: seq<Limits>, i: nat): real
    requires i < |q|
  {
    Min(q[i].maxCruise, (Smoothed(q, i) + Smoothed(q, i + 1) + q[i].smoothDelta) * 0.5)
  }

  /** The value of `peak_cruise_v2` after the loop has treated move i. */
  function Peak(q: seq<Limits>, i: nat): real
    requires i <= |q|
    decreases |q| - i
  {
    if i == |q| then 0.0 else if NewPeak(q, i) then PeakAt(q, i) else Peak(q, i + 1)
  }

  /** The running `mc_v2` when peaks are propagated forward over a delayed run. */
  function Cap(q: seq<Limits>, i: nat): real
    requires i < |q|
  {
    if !Delayed(q, i) then PeakAt(q, i)
    else if i == 0 then 0.0
    else Min(Cap(q, i - 1), Start(q, i))
  }

  function JunctionOf(q: seq<Limits>, i: nat): Junction
    requires i < |q|
  {
    var s, e := Start(q, i), Start(q, i + 1);
    var c := if Delayed(q, i) then Cap(q, i)
             else Min(Min((s + (e + q[i].delta)) * 0.5, q[i].maxCruise), Peak(q, i));
    Junction(Min(s, c), c, Min(e, c))
  }

  /** The junctions a full flush of h gives to its moves from .. from+count-1. */
  function PlanOf(h: seq<Limits>, from: nat, count: nat): (plan: seq<Junction>)
    requires from + count <= |h|
    ensures |plan| == count
  {
    if count == 0 then [] else PlanOf(h, from, count - 1) + [JunctionOf(h, from + count - 1)]
  }

  /** The value of `flush_count` that a lazy pass has fixed after treating move i. */
  function CommitPoint(q: seq<Limits>, i: nat): Option<nat>
    requires i <= |q|
    decreases |q| - i
  {
    if i == |q| then None
    else match CommitPoint(q, i + 1)
      case Some(f) => Some(f)
      case None => if NewPeak(q, i) && Peak(q, i + 1) != 0.0 then Some(i) else None
  }

  lemma {:induction false} PlanOfAt(h: seq<Limits>, from: nat, count: nat, j: nat)
    requires from + count <= |h| && j < count
    ensures PlanOf(h, from, count)[j] == JunctionOf(h, from + j)
  {
    if j < count - 1 {
      PlanOfAt(h, from, count - 1, j);
    }
  }

  lemma {:induction false} PlanOfSplit(h: seq<Limits>, from: nat, count: nat, more: nat)
    requires from + count + more <= |h|
    ensures PlanOf(h, from, count + more) == PlanOf(h, from, count) + PlanOf(h, from + count, more)
  {
    if more > 0 {
      PlanOfSplit(h, from, count, more - 1);
    }
  }

  // ----- Bounds on the recurrences -----

  lemma {:induction false} SmoothedBelowStart(q: seq<Limits>, i: nat)
    requires WellLinked(q) && i <= |q|
    ensures 0.0 <= Smoothed(q, i) <= Start(q, i)
    ensures i < |q| ==> Smoothed(q, i) <= q[i].maxSmoothed && Start(q, i) <= q[i].maxStart
    decreases |q| - i
  {
    if i < |q| {
      SmoothedBelowStart(q, i + 1);
      assert MoveOk(q[i]);
    }
  }

  /** No speed may drop faster than one move's budget going backwards either. */
  lemma {:induction false} RampUp(q: seq<Limits>, i: nat)
    requires WellLinked(q) && i < |q|
    ensures Start(q, i + 1) <= Start(q, i) + q[i].delta
    ensures Smoothed(q, i + 1) <= Smoothed(q, i) + q[i].smoothDelta
    ensures Start(q, i) <= Start(q, i + 1) + q[i].delta
    ensures i + 1 < |q| ==> Smoothed(q, i + 1) <= Start(q, i + 1) <= q[i].maxCruise
  {
    SmoothedBelowStart(q, i);
    SmoothedBelowStart(q, i + 1);
    assert MoveOk(q[i]);
    if i + 1 < |q| {
      assert MoveOk(q[i + 1]);
      assert Linked(q[i], q[i + 1]);
    }
  }

  /** A move whose two speeds are both limited by its own junction only. */
  ghost predicate Anchored(q: seq<Limits>, k: nat) {
    && k < |q|
    && !Delayed(q, k)
    && Smoothed(q, k) == Start(q, k) == q[k].maxStart
  }

  /** The first planned move after a delayed run, or after a peak, runs at its junction limit. */
  lemma {:induction false} AnchorAfterPeak(q: seq<Limits>, i: nat)
    requires WellLinked(q) && i + 1 < |q| && !Delayed(q, i + 1)
    requires Delayed(q, i) || NewPeak(q, i)
    ensures Anchored(q, i + 1)
  {
    SmoothedBelowStart(q, i);
    SmoothedBelowStart(q, i + 1);
    assert MoveOk(q[i]);
    assert MoveOk(q[i + 1]);
    assert Linked(q[i], q[i + 1]);
  }

  lemma {:induction false} PeakAtBounds(q: seq<Limits>, i: nat)
    requires WellLinked(q) && i < |q|
    ensures 0.0 < PeakAt(q, i)
    ensures Smoothed(q, i + 1) <= PeakAt(q, i)
    ensures Smoothed(q, i) <= PeakAt(q, i)
  {
    SmoothedBelowStart(q, i);
    SmoothedBelowStart(q, i + 1);
    RampUp(q, i);
    assert MoveOk(q[i]);
  }

  /** Whenever the loop plans a move directly, a peak is known and is above its smoothed speed. */
  lemma {:induction false} PeakAboveSmoothed(q: seq<Limits>, i: nat)
    requires WellLinked(q) && i < |q| && !Delayed(q, i)
    ensures Smoothed(q, i) <= Peak(q, i) && 0.0 < Peak(q, i)
    decreases |q| - i
  {
    SmoothedBelowStart(q, i);
    assert MoveOk(q[i]);
    if NewPeak(q, i) {
      PeakAtBounds(q, i);
    } else {
      PeakAboveSmoothed(q, i + 1);
    }
  }

  lemma {:induction false} PeakOfRun(q: seq<Limits>, i: nat)
    requires WellLinked(q) && i + 1 < |q| && !Delayed(q, i) && Delayed(q, i + 1)
    ensures NewPeak(q, i) && Peak(q, i) == PeakAt(q, i) == Cap(q, i)
  {
  }

  /** A queue whose first move is planned never meets the unplanned branch of Cap. */
  lemma {:induction false} CapBounds(q: seq<Limits>, i: nat)
    requires WellLinked(q) && i < |q| && !Delayed(q, 0)
    ensures Smoothed(q, i) <= Cap(q, i) && 0.0 < Cap(q, i)
    ensures i + 1 < |q| && Delayed(q, i + 1) ==> Smoothed(q, i + 1) <= Cap(q, i)
    ensures Delayed(q, i) ==> Cap(q, i) <= Start(q, i) && Cap(q, i) <= q[i].maxCruise
  {
    SmoothedBelowStart(q, i);
    SmoothedBelowStart(q, i + 1);
    assert MoveOk(q[i]);
    if !Delayed(q, i) {
      PeakAtBounds(q, i);
    } else {
      CapBounds(q, i - 1);
    }
  }

  // ----- Feasibility and continuity of a full flush -----

  /** Every planned move can be executed: the cruise speed is positive and within the
      move's limit, the junction limit is met, and accelerating from start to cruise
      and braking to end needs no more than the move's speed budget. */
  lemma {:induction false} Feasible(q: seq<Limits>, i: nat)
    requires WellLinked(q) && i < |q| && !Delayed(q, 0)
    ensures var j := JunctionOf(q, i);
            && 0.0 <= j.start <= j.cruise && 0.0 <= j.end <= j.cruise
            && 0.0 < j.cruise <= q[i].maxCruise
            && j.start <= q[i].maxStart
            && (j.cruise - j.start) + (j.cruise - j.end) <= q[i].delta
  {
    SmoothedBelowStart(q, i);
    SmoothedBelowStart(q, i + 1);
    RampUp(q, i);
    assert MoveOk(q[i]);
    if Delayed(q, i) {
      CapBounds(q, i);
    } else {
      PeakAboveSmoothed(q, i);
    }
  }

  /** The start speed of a move, written with the peak that governs it. */
  lemma {:induction false} StartOfPlanned(q: seq<Limits>, i: nat)
    requires WellLinked(q) && i < |q| && !Delayed(q, i)
    ensures JunctionOf(q, i).start == Min(Start(q, i), Peak(q, i))
    ensures JunctionOf(q, i).end == Min(Start(q, i + 1), Peak(q, i))
  {
    SmoothedBelowStart(q, i);
    SmoothedBelowStart(q, i + 1);
    RampUp(q, i);
    assert MoveOk(q[i]);
  }

  /** The toolhead never has to jump in speed: each move ends at the speed the next starts with. */
  lemma {:induction false} Continuous(q: seq<Limits>, i: nat)
    requires WellLinked(q) && i + 1 < |q| && !Delayed(q, 0)
    ensures JunctionOf(q, i).end == JunctionOf(q, i + 1).start
  {
    SmoothedBelowStart(q, i);
    SmoothedBelowStart(q, i + 1);
    if Delayed(q, i + 1) {
      CapBounds(q, i + 1);
      if !Delayed(q, i) {
        StartOfPlanned(q, i);
        PeakOfRun(q, i);
      }
    } else {
      StartOfPlanned(q, i + 1);
      PeakAboveSmoothed(q, i + 1);
      if Delayed(q, i) || NewPeak(q, i) {
        AnchorAfterPeak(q, i);
        RampUp(q, i);
        if Delayed(q, i) {
          CapBounds(q, i);
        } else {
          StartOfPlanned(q, i);
          PeakAtBounds(q, i);
        }
      } else {
        StartOfPlanned(q, i);
      }
    }
  }

  /** A full flush plans for a complete stop. */
  lemma {:induction false} EndsAtRest(q: seq<Limits>)
    requires WellLinked(q) && |q| > 0 && !Delayed(q, 0)
    ensures JunctionOf(q, |q| - 1).end == 0.0
  {
    Feasible(q, |q| - 1);
  }

  /** Continuity of a batch of planned moves, also with the moves handed out before it. */
  lemma {:induction false} PlanJoins(h: seq<Limits>, d: nat, n: nat)
    requires WellLinked(h) && d + n <= |h| && (|h| > 0 ==> !Delayed(h, 0))
    ensures forall i, j {:trigger PlanOf(h, d, n)[i], PlanOf(h, d, n)[j]} :: 0 <= i < n - 1 && j == i + 1 ==>
              PlanOf(h, d, n)[i].end == PlanOf(h, d, n)[j].start
    ensures n > 0 && d > 0 ==> PlanOf(h, 0, d)[d - 1].end == PlanOf(h, d, n)[0].start
    ensures n > 0 && d == 0 && h[0].maxStart == 0.0 ==> PlanOf(h, d, n)[0].start == 0.0
  {
    hide PlanOf, JunctionOf, Start, Smoothed, WellLinked;
    forall i, j | 0 <= i < n - 1 && j == i + 1
      ensures PlanOf(h, d, n)[i].end == PlanOf(h, d, n)[j].start
    {
      PlanOfAt(h, d, n, i);
      PlanOfAt(h, d, n, j);
      Continuous(h, d + i);
    }
    if n > 0 {
      PlanOfAt(h, d, n, 0);
      Feasible(h, d);
      if d > 0 {
        PlanOfAt(h, 0, d, d - 1);
        Continuous(h, d - 1);
      }
    }
  }

  // ----- A full flush gives the fastest plan -----

  /** Junction speeds v, with v[|q|] behind the last move, from which every move can still brake
      to the next and the last to a stop. */
  ghost predicate CanStop(q: seq<Limits>, v: seq<real>) {
    && |v| == |q| + 1 && v[|q|] == 0.0
    && forall i, j {:trigger v[i], v[j]} :: 0 <= i < |q| && j == i + 1 ==>
         v[i] <= q[i].maxStart && v[i] <= v[j] + q[i].delta
  }

  /** The same with the smoothed limits. */
  ghost predicate CanStopSmoothly(q: seq<Limits>, v: seq<real>) {
    && |v| == |q| + 1 && v[|q|] == 0.0
    && forall i, j {:trigger v[i], v[j]} :: 0 <= i < |q| && j == i + 1 ==>
         v[i] <= q[i].maxSmoothed && v[i] <= v[j] + q[i].smoothDelta
  }

  function Starts(q: seq<Limits>): (v: seq<real>)
    ensures |v| == |q| + 1 && forall i :: 0 <= i <= |q| ==> v[i] == Start(q, i)
  {
    seq(|q| + 1, i requires 0 <= i <= |q| => Start(q, i))
  }

  function SmoothedStarts(q: seq<Limits>): (v: seq<real>)
    ensures |v| == |q| + 1 && forall i :: 0 <= i <= |q| ==> v[i] == Smoothed(q, i)
  {
    seq(|q| + 1, i requires 0 <= i <= |q| => Smoothed(q, i))
  }

  /** `start_v2` is the greatest speed from which the queue can still stop. */
  lemma {:induction false} StartIsGreatest(q: seq<Limits>, v: seq<real>, i: nat)
    requires CanStop(q, v) && i <= |q|
    ensures v[i] <= Start(q, i) && CanStop(q, Starts(q))
    decreases |q| - i
  {
    if i < |q| {
      StartIsGreatest(q, v, i + 1);
      assert v[i] <= v[i + 1] + q[i].delta;
    }
  }

  /** `smoothed_v2` is the greatest with the smoothed limits. */
  lemma {:induction false} SmoothedIsGreatest(q: seq<Limits>, v: seq<real>, i: nat)
    requires CanStopSmoothly(q, v) && i <= |q|
    ensures v[i] <= Smoothed(q, i) && CanStopSmoothly(q, SmoothedStarts(q))
    decreases |q| - i
  {
    if i < |q| {
      SmoothedIsGreatest(q, v, i + 1);
      assert v[i] <= v[i + 1] + q[i].smoothDelta;
    }
  }

  /** A peak is the greatest cruise speed that the move allows and that leaves the smoothed budget
      enough for both ramps between the smoothed speeds: one of the two is used up. */
  lemma {:induction false} PeakIsGreatest(q: seq<Limits>, i: nat, c: real)
    requires i < |q|
    ensures c <= PeakAt(q, i) <==>
            c <= q[i].maxCruise && (c - Smoothed(q, i)) + (c - Smoothed(q, i + 1)) <= q[i].smoothDelta
  {
  }

  /** The peak that governs a planned move is that of the next new peak; up to there every move
      accelerates with its whole smoothed budget. */
  lemma {:induction false} GoverningPeak(q: seq<Limits>, i: nat) returns (k: nat)
    requires WellLinked(q) && i < |q| && !Delayed(q, i)
    ensures i <= k < |q| && NewPeak(q, k) && Peak(q, i) == PeakAt(q, k)
    ensures forall j :: i <= j < k ==> !Delayed(q, j) && Smoothed(q, j + 1) == Smoothed(q, j) + q[j].smoothDelta
    decreases |q| - i
  {
    if NewPeak(q, i) {
      k := i;
    } else {
      RampUp(q, i);
      SmoothedBelowStart(q, i);
      assert MoveOk(q[i]);
      k := GoverningPeak(q, i + 1);
    }
  }

  /** What a move can run with: its limits, and both ramps within its budget. */
  ghost predicate Executable(m: Limits, j: Junction) {
    && 0.0 <= j.start <= j.cruise <= m.maxCruise && 0.0 <= j.end <= j.cruise
    && j.start <= m.maxStart
    && (j.cruise - j.start) + (j.cruise - j.end) <= m.delta
  }

  /** Look-ahead's own rules: a move that only decelerates does not accelerate first, and others
      cruise no faster than the peak. */
  ghost predicate Allowed(q: seq<Limits>, i: nat, j: Junction)
    requires i < |q|
  {
    && Executable(q[i], j)
    && if Delayed(q, i) then j.start == j.cruise else j.cruise <= Peak(q, i)
  }

  /** A plan for the whole queue that joins up and ends in a stop. */
  ghost predicate AllowedPlan(q: seq<Limits>, plan: seq<Junction>) {
    && |plan| == |q|
    && (forall i :: 0 <= i < |q| ==> Allowed(q, i, plan[i]))
    && (forall i, j {:trigger plan[i], plan[j]} :: 0 <= i < |q| && j == i + 1 < |q| ==> plan[i].end == plan[j].start)
    && (q != [] ==> plan[|q| - 1].end == 0.0)
  }

  /** A delayed move runs at the cruise speed of the move before, or at its own start limit. */
  lemma {:induction false} DelayedCruise(q: seq<Limits>, i: nat)
    requires WellLinked(q) && 0 < i < |q| && !Delayed(q, 0) && Delayed(q, i)
    ensures JunctionOf(q, i).start == JunctionOf(q, i).cruise == Min(JunctionOf(q, i - 1).cruise, Start(q, i))
  {
    CapBounds(q, i);
    if !Delayed(q, i - 1) {
      PeakOfRun(q, i - 1);
      SmoothedBelowStart(q, i - 1);
      SmoothedBelowStart(q, i);
      assert MoveOk(q[i - 1]);
    }
  }

  /** What a full flush plans is such a plan. */
  lemma {:induction false} PlanIsAllowed(q: seq<Limits>)
    requires WellLinked(q) && (q != [] ==> !Delayed(q, 0))
    ensures AllowedPlan(q, PlanOf(q, 0, |q|))
  {
    hide PlanOf, JunctionOf, Start, Smoothed, WellLinked, Delayed;
    var plan := PlanOf(q, 0, |q|);
    forall i | 0 <= i < |q| ensures plan[i] == JunctionOf(q, i) && Allowed(q, i, plan[i]) {
      PlanOfAt(q, 0, |q|, i);
      JunctionIsAllowed(q, i);
    }
    forall i, j | 0 <= i < |q| && j == i + 1 < |q| ensures plan[i].end == plan[j].start {
      Continuous(q, i);
    }
    if q != [] {
      EndsAtRest(q);
    }
  }

  lemma {:induction false} JunctionIsAllowed(q: seq<Limits>, i: nat)
    requires WellLinked(q) && i < |q| && !Delayed(q, 0)
    ensures Allowed(q, i, JunctionOf(q, i))
  {
    Feasible(q, i);
    if Delayed(q, i) {
      DelayedCruise(q, i);
    }
  }

  lemma {:induction false} StartsBelow(q: seq<Limits>, plan: seq<Junction>, i: nat)
    requires AllowedPlan(q, plan) && i < |q|
    ensures plan[i].start <= Start(q, i) && plan[i].end <= Start(q, i + 1)
    decreases |q| - i
  {
    assert Allowed(q, i, plan[i]);
    if i + 1 < |q| {
      StartsBelow(q, plan, i + 1);
      assert plan[i].end == plan[i + 1].start;
    }
  }

  /** No such plan is faster anywhere: every start, cruise and end speed of a full flush is the
      greatest that any of them has. */
  lemma {:induction false} PlanIsFastest(q: seq<Limits>, plan: seq<Junction>, i: nat)
    requires WellLinked(q) && i < |q| && !Delayed(q, 0) && AllowedPlan(q, plan)
    ensures var best := JunctionOf(q, i);
            plan[i].start <= best.start && plan[i].cruise <= best.cruise && plan[i].end <= best.end
  {
    StartsBelow(q, plan, i);
    assert Allowed(q, i, plan[i]);
    if Delayed(q, i) {
      PlanIsFastest(q, plan, i - 1);
      assert plan[i - 1].end == plan[i].start && Allowed(q, i - 1, plan[i - 1]);
      DelayedCruise(q, i);
    }
  }

  /** A planned move is at one of its limits: its cruise speed, the peak, or its whole budget goes
      into the two ramps. */
  lemma {:induction false} PlanIsTight(q: seq<Limits>, i: nat)
    requires WellLinked(q) && i < |q| && !Delayed(q, i)
    ensures var j := JunctionOf(q, i);
            || j.cruise == q[i].maxCruise || j.cruise == Peak(q, i)
            || (j.cruise - j.start) + (j.cruise - j.end) == q[i].delta
  {
    RampUp(q, i);
  }

  // ----- Appending moves: what a lazy flush commits stays right -----

  lemma {:induction false} ExtensionRaises(q: seq<Limits>, more: seq<Limits>, i: nat)
    requires WellLinked(q + more) && i <= |q|
    ensures Start(q, i) <= Start(q + more, i)
    ensures Smoothed(q, i) <= Smoothed(q + more, i)
    decreases |q| - i
  {
    if i == |q| {
      SmoothedBelowStart(q + more, i);
    } else {
      ExtensionRaises(q, more, i + 1);
    }
  }

  /** An anchored move stays anchored, and fixes the speeds of all moves before it. */
  lemma {:induction false} AnchorFixes(q: seq<Limits>, more: seq<Limits>, k: nat, i: nat)
    requires WellLinked(q) && WellLinked(q + more) && Anchored(q, k) && i <= k
    ensures Anchored(q + more, k)
    ensures Start(q + more, i) == Start(q, i) && Smoothed(q + more, i) == Smoothed(q, i)
    decreases k - i
  {
    ExtensionRaises(q, more, k + 1);
    assert MoveOk(q[k]) && (q + more)[k] == q[k];
    if i < k {
      AnchorFixes(q, more, k, i + 1);
    }
  }

  /** f can be handed out: it starts a new peak, and every move after it up to some
      anchored move is only delayed. */
  ghost predicate Settled(q: seq<Limits>, f: nat, k: nat) {
    && f < k
    && Anchored(q, k)
    && NewPeak(q, f)
    && forall j :: f < j < k ==> Delayed(q, j)
  }

  lemma {:induction false} CommitSettles(q: seq<Limits>, i: nat, f: nat)
    requires WellLinked(q) && i <= |q| && CommitPoint(q, i) == Some(f)
    ensures i <= f < |q|
    ensures exists k: nat :: Settled(q, f, k)
    decreases |q| - i
  {
    if CommitPoint(q, i + 1) == None {
      var k := FirstPlanned(q, i + 1);
      AnchorAfterPeak(q, k - 1);
      assert Settled(q, f, k);
    } else {
      CommitSettles(q, i + 1, f);
    }
  }

  /** Where a lazy pass may commit: at a new peak with a planned move behind it. */
  ghost predicate MayCommit(q: seq<Limits>, f: nat) {
    f < |q| && NewPeak(q, f) && exists k: nat :: f < k < |q| && !Delayed(q, k)
  }

  /** A lazy pass commits at the last such place, if there is one. */
  lemma {:induction false} CommitIsLatest(q: seq<Limits>, i: nat)
    requires WellLinked(q) && i <= |q|
    ensures match CommitPoint(q, i)
            case None => forall f: nat :: i <= f ==> !MayCommit(q, f)
            case Some(f) => i <= f && MayCommit(q, f) && forall g: nat :: f < g ==> !MayCommit(q, g)
    decreases |q| - i
  {
    if i < |q| {
      CommitIsLatest(q, i + 1);
      PeakIsKnown(q, i + 1);
    }
  }

  lemma {:induction false} PeakIsKnown(q: seq<Limits>, i: nat)
    requires WellLinked(q) && i <= |q|
    ensures Peak(q, i) != 0.0 <==> exists k: nat :: i <= k < |q| && !Delayed(q, k)
    decreases |q| - i
  {
    if i < |q| {
      PeakIsKnown(q, i + 1);
      if !Delayed(q, i) {
        PeakAboveSmoothed(q, i);
      } else if Peak(q, i + 1) != 0.0 {
        var k: nat :| i + 1 <= k < |q| && !Delayed(q, k);
      }
    }
  }

  /** If a peak is known after move i, some move from i on is not delayed. */
  lemma {:induction false} FirstPlanned(q: seq<Limits>, i: nat) returns (k: nat)
    requires i <= |q| && Peak(q, i) != 0.0
    ensures i <= k < |q| && !Delayed(q, k)
    ensures forall j :: i <= j < k ==> Delayed(q, j)
    decreases |q| - i
  {
    if !Delayed(q, i) {
      k := i;
    } else {
      k := FirstPlanned(q, i + 1);
    }
  }

  /** Up to the anchored move, the same moves are delayed. */
  lemma {:induction false} AnchorFixesDelayed(q: seq<Limits>, more: seq<Limits>, k: nat, i: nat)
    requires WellLinked(q) && WellLinked(q + more) && Anchored(q, k) && i <= k
    ensures Delayed(q + more, i) == Delayed(q, i)
  {
    AnchorFixes(q, more, k, i);
    if i < k {
      AnchorFixes(q, more, k, i + 1);
      assert (q + more)[i] == q[i];
    }
  }

  lemma {:induction false} SettledPeakAt(q: seq<Limits>, more: seq<Limits>, k: nat, i: nat)
    requires WellLinked(q) && WellLinked(q + more) && Anchored(q, k) && i < k
    ensures NewPeak(q + more, i) == NewPeak(q, i)
    ensures PeakAt(q + more, i) == PeakAt(q, i)
  {
    AnchorFixes(q, more, k, i);
    AnchorFixes(q, more, k, i + 1);
    AnchorFixesDelayed(q, more, k, i);
    AnchorFixesDelayed(q, more, k, i + 1);
    assert (q + more)[i] == q[i];
  }

  lemma {:induction false} SettledPeaks(q: seq<Limits>, more: seq<Limits>, f: nat, k: nat, i: nat)
    requires WellLinked(q) && WellLinked(q + more) && Settled(q, f, k) && i <= f
    ensures Peak(q + more, i) == Peak(q, i)
    decreases f - i
  {
    SettledPeakAt(q, more, k, i);
    if i < f {
      SettledPeaks(q, more, f, k, i + 1);
    }
  }

  lemma {:induction false} SettledStays(q: seq<Limits>, more: seq<Limits>, f: nat, k: nat)
    requires WellLinked(q) && WellLinked(q + more) && Settled(q, f, k)
    ensures Settled(q + more, f, k)
  {
    AnchorFixes(q, more, k, k);
    SettledPeakAt(q, more, k, f);
    forall j | f < j < k ensures Delayed(q + more, j) {
      AnchorFixesDelayed(q, more, k, j);
    }
  }

  lemma {:induction false} SettledCap(q: seq<Limits>, more: seq<Limits>, f: nat, k: nat, i: nat)
    requires WellLinked(q) && WellLinked(q + more) && Settled(q, f, k) && i <= f
    ensures Cap(q + more, i) == Cap(q, i)
  {
    SettledPeakAt(q, more, k, i);
    AnchorFixesDelayed(q, more, k, i);
    AnchorFixes(q, more, k, i);
    if Delayed(q, i) && i > 0 {
      SettledCap(q, more, f, k, i - 1);
    }
  }

  /** Lazy flush is online = offline: what it commits is what one full flush of any
      extension of the queue would give the same moves. */
  lemma {:induction false} CommittedPlanIsFinal(q: seq<Limits>, more: seq<Limits>, f: nat, k: nat, i: nat)
    requires WellLinked(q) && WellLinked(q + more) && Settled(q, f, k) && i < f
    ensures JunctionOf(q + more, i) == JunctionOf(q, i)
  {
    SettledPeaks(q, more, f, k, i);
    AnchorFixes(q, more, k, i);
    AnchorFixes(q, more, k, i + 1);
    AnchorFixesDelayed(q, more, k, i);
    SettledCap(q, more, f, k, i);
  }

  lemma {:induction false} StablePlan(q: seq<Limits>, more: seq<Limits>, f: nat, k: nat, count: nat)
    requires WellLinked(q) && WellLinked(q + more) && Settled(q, f, k) && count <= f
    ensures PlanOf(q + more, 0, count) == PlanOf(q, 0, count)
  {
    if count > 0 {
      StablePlan(q, more, f, k, count - 1);
      CommittedPlanIsFinal(q, more, f, k, count - 1);
    }
  }

  // ----- Removing a committed prefix -----

  lemma {:induction false} SuffixSpeeds(q: seq<Limits>, f: nat, i: nat)
    requires f <= i <= |q|
    ensures Start(q[f..], i - f) == Start(q, i)
    ensures Smoothed(q[f..], i - f) == Smoothed(q, i)
    decreases |q| - i
  {
    if i < |q| {
      SuffixSpeeds(q, f, i + 1);
    }
  }

  lemma {:induction false} SuffixPeaks(q: seq<Limits>, f: nat, i: nat)
    requires f <= i <= |q|
    ensures i < |q| ==> Delayed(q[f..], i - f) == Delayed(q, i)
    ensures i < |q| ==> NewPeak(q[f..], i - f) == NewPeak(q, i)
    ensures Peak(q[f..], i - f) == Peak(q, i)
    ensures CommitPoint(q, i).Some? ==> f <= CommitPoint(q, i).value
    ensures CommitPoint(q[f..], i - f) ==
            match CommitPoint(q, i) case None => None case Some(g) => Some(g - f)
    decreases |q| - i
  {
    if i < |q| {
      SuffixSpeeds(q, f, i);
      SuffixSpeeds(q, f, i + 1);
      SuffixPeaks(q, f, i + 1);
    }
  }

  lemma {:induction false} SuffixCap(q: seq<Limits>, f: nat, i: nat)
    requires f <= i < |q| && !Delayed(q, f)
    ensures Cap(q[f..], i - f) == Cap(q, i)
  {
    SuffixPeaks(q, f, i);
    SuffixSpeeds(q, f, i);
    SuffixSpeeds(q, f, i + 1);
    if Delayed(q, i) {
      SuffixCap(q, f, i - 1);
    }
  }

  /** Flushing what is left after a commit gives the moves the plan of the whole queue. */
  lemma {:induction false} SuffixPlan(q: seq<Limits>, f: nat, i: nat)
    requires f <= i < |q| && !Delayed(q, f)
    ensures JunctionOf(q[f..], i - f) == JunctionOf(q, i)
  {
    SuffixSpeeds(q, f, i);
    SuffixSpeeds(q, f, i + 1);
    SuffixPeaks(q, f, i);
    SuffixCap(q, f, i);
  }

  lemma {:induction false} SuffixPlanOf(h: seq<Limits>, f: nat, count: nat)
    requires f + count <= |h| && (f < |h| ==> !Delayed(h, f))
    ensures PlanOf(h[f..], 0, count) == PlanOf(h, f, count)
  {
    if count > 0 {
      SuffixPlanOf(h, f, count - 1);
      SuffixPlan(h, f, f + count - 1);
    }
  }

  /** A move without a junction limit, such as the first of a queue, is never delayed. */
  lemma {:induction false} FirstIsPlanned(q: seq<Limits>)
    requires WellLinked(q) && |q| > 0 && q[0].maxSmoothed == 0.0
    ensures !Delayed(q, 0)
  {
    SmoothedBelowStart(q, 1);
    assert MoveOk(q[0]);
  }
}
