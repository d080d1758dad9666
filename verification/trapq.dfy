/**
  The trapezoid motion queue of trapq.c.

  A queue entry moves along a fixed direction with constant acceleration.  Module
  TrapQueue models trapq_append and trapq_add_move on the list between the two
  sentinels, and proves what the kinematics code relies on: the entries tile time,
  and position and speed never jump.
*/
module TrapQueue {
  import opened Kinematics

  const MAX_NULL_MOVE := 1.0

  datatype Coord = Coord(x: real, y: real, z: real)

  /** `struct move` of trapq.h. */
  datatype Segment = Segment(printTime: real, moveT: real, startV: real, halfAccel: real,
                             startPos: Coord, axesR: Coord)
  {
    /** move_get_distance */
    function Distance(t: real): real {
      (startV + halfAccel * t) * t
    }

    /** move_get_coord */
    function CoordAt(t: real): Coord {
      Advance(startPos, axesR, Distance(t))
    }

    function EndTime(): real {
      printTime + moveT
    }

    function EndPos(): Coord {
      CoordAt(moveT)
    }

    function EndV(): real {
      startV + 2.0 * halfAccel * moveT
    }
  }

  function Advance(p: Coord, dir: Coord, d: real): Coord {
    Coord(p.x + dir.x * d, p.y + dir.y * d, p.z + dir.z * d)
  }

  /** One planned move, as _process_moves passes it to trapq_append. */
  datatype Motion = Motion(isKinematicMove: bool, moveD: real, accel: real, startPos: Coord, axesR: Coord,
                           startV: real, cruiseV: real, endV: real, accelT: real, cruiseT: real, decelT: real)
  {
    function Duration(): real {
      accelT + cruiseT + decelT
    }

    function AccelD(): real {
      (startV + 0.5 * accel * accelT) * accelT
    }

    function CruiseD(): real {
      cruiseV * cruiseT
    }

    function DecelD(): real {
      (cruiseV - 0.5 * accel * decelT) * decelT
    }

    function EndPos(): Coord {
      if isKinematicMove then Advance(startPos, axesR, moveD) else startPos
    }

    /** The times fit the distance; an extrude-only move starts and ends at rest. */
    ghost predicate Sound() {
      && IsTrapezoid(moveD, accel, startV, cruiseV, endV, accelT, cruiseT, decelT)
      && (!isKinematicMove ==> startV == endV == 0.0)
    }
  }

  // ----- trapq_add_move and trapq_append as functions of the list -----

  /** The entry that fills the time before m; `tail` is the end of the last entry and
      `fromZero` says that this entry, or the head sentinel, has print time zero. */
  function NullMove(m: Segment, tail: real, fromZero: bool): Segment {
    var start := if fromZero && m.printTime > MAX_NULL_MOVE then m.printTime - MAX_NULL_MOVE else tail;
    Segment(start, m.printTime - start, 0.0, 0.0, m.startPos, Coord(0.0, 0.0, 0.0))
  }

  function Tail(q: seq<Segment>): real {
    if q == [] then 0.0 else q[|q| - 1].EndTime()
  }

  function Added(q: seq<Segment>, m: Segment): seq<Segment> {
    var fromZero := q == [] || q[|q| - 1].printTime == 0.0;
    if Tail(q) < m.printTime then q + [NullMove(m, Tail(q), fromZero), m] else q + [m]
  }

  function AccelPart(time: real, m: Motion): Segment {
    Segment(time, m.accelT, m.startV, 0.5 * m.accel, m.startPos, m.axesR)
  }

  function CruisePart(time: real, pos: Coord, m: Motion): Segment {
    Segment(time, m.cruiseT, m.cruiseV, 0.0, pos, m.axesR)
  }

  function DecelPart(time: real, pos: Coord, m: Motion): Segment {
    Segment(time, m.decelT, m.cruiseV, -0.5 * m.accel, pos, m.axesR)
  }

  /** The list, time and position after an optional phase of a move. */
  datatype Progress = Progress(q: seq<Segment>, time: real, pos: Coord)

  function WithPart(p: Progress, part: Segment): Progress {
    if part.moveT == 0.0 then p
    else Progress(Added(p.q, part), p.time + part.moveT, part.CoordAt(part.moveT))
  }

  function Appended(q: seq<Segment>, printTime: real, m: Motion): seq<Segment> {
    var p0 := Progress(q, printTime, m.startPos);
    var p1 := WithPart(p0, AccelPart(p0.time, m));
    var p2 := WithPart(p1, CruisePart(p1.time, p1.pos, m));
    WithPart(p2, DecelPart(p2.time, p2.pos, m)).q
  }

  function Fed(q: seq<Segment>, printTime: real, m: Motion): seq<Segment> {
    if m.isKinematicMove then Appended(q, printTime, m) else q
  }

  /** _process_moves on a whole batch. */
  function FedAll(q: seq<Segment>, printTime: real, ms: seq<Motion>): seq<Segment> {
    if ms == [] then q
    else Fed(FedAll(q, printTime, ms[..|ms| - 1]), EndOf(printTime, ms[..|ms| - 1]), ms[|ms| - 1])
  }

  function EndOf(printTime: real, ms: seq<Motion>): real {
    if ms == [] then printTime else EndOf(printTime, ms[..|ms| - 1]) + ms[|ms| - 1].Duration()
  }

  /** Moves handed over together, and the print time they start at. */
  datatype Batch = Batch(start: real, motions: seq<Motion>)

  /** The queue fed with all batches so far. */
  function FedBatches(batches: seq<Batch>): seq<Segment> {
    if batches == [] then []
    else
      var last := batches[|batches| - 1];
      FedAll(FedBatches(batches[..|batches| - 1]), last.start, last.motions)
  }

  /** Where all batches so far end. */
  function BatchesEnd(batches: seq<Batch>, home: Coord): Coord {
    if batches == [] then home
    else LastPos(batches[|batches| - 1].motions, BatchesEnd(batches[..|batches| - 1], home))
  }

  /** Entries are only added behind those there. */
  lemma {:induction false} FedAllGrows(q: seq<Segment>, printTime: real, ms: seq<Motion>)
    ensures q <= FedAll(q, printTime, ms)
  {
    if ms != [] {
      FedAllGrows(q, printTime, ms[..|ms| - 1]);
    }
  }

  // ----- The list operations of the source -----

  class Trapq {
    var moves: seq<Segment>   // the entries between the sentinels

    constructor ()
      ensures moves == []
    {
      moves := [];
    }

    method AddMove(m: Segment)
      modifies this
      ensures moves == Added(old(moves), m)
    {
      var prevTime, prevEnd := 0.0, 0.0;   // the head sentinel
      if moves != [] {
        prevTime := moves[|moves| - 1].printTime;
        prevEnd := moves[|moves| - 1].EndTime();
      }
      if prevEnd < m.printTime {
        var start := if prevTime == 0.0 && m.printTime > MAX_NULL_MOVE then m.printTime - MAX_NULL_MOVE else prevEnd;
        moves := moves + [Segment(start, m.printTime - start, 0.0, 0.0, m.startPos, Coord(0.0, 0.0, 0.0))];
      }
      moves := moves + [m];
      assert old(moves) + [NullMove(m, prevEnd, prevTime == 0.0)] + [m]
          == old(moves) + [NullMove(m, prevEnd, prevTime == 0.0), m];
    }

    method Append(printTime: real, m: Motion)
      modifies this
      ensures moves == Appended(old(moves), printTime, m)
    {
      var time, pos := printTime, m.startPos;
      if m.accelT != 0.0 {
        var part := Segment(time, m.accelT, m.startV, 0.5 * m.accel, pos, m.axesR);
        AddMove(part);
        time, pos := time + m.accelT, part.CoordAt(m.accelT);
      }
      if m.cruiseT != 0.0 {
        var part := Segment(time, m.cruiseT, m.cruiseV, 0.0, pos, m.axesR);
        AddMove(part);
        time, pos := time + m.cruiseT, part.CoordAt(m.cruiseT);
      }
      if m.decelT != 0.0 {
        AddMove(Segment(time, m.decelT, m.cruiseV, -0.5 * m.accel, pos, m.axesR));
      }
    }
  }

  // ----- No gaps, no overlaps, no jumps -----

  /** Consecutive entries share their boundary in time. */
  ghost predicate Tiled(q: seq<Segment>) {
    forall i, j {:trigger q[i], q[j]} :: 0 <= i < |q| - 1 && j == i + 1 ==> q[i].EndTime() == q[j].printTime
  }

  /** trapq_add_move keeps the tiling exactly when its special case for print time zero,
      meant for the head sentinel, is not triggered by a real entry. */
  lemma {:induction false} AddedTilesIff(q: seq<Segment>, m: Segment)
    requires Tiled(q) && Tail(q) <= m.printTime
    ensures Tiled(Added(q, m)) <==>
            !(&& q != [] && q[|q| - 1].printTime == 0.0
              && Tail(q) < m.printTime && MAX_NULL_MOVE < m.printTime
              && Tail(q) != m.printTime - MAX_NULL_MOVE)
  {
    var r := Added(q, m);
    if q != [] {
      var last := |q| - 1;
      assert r[last] == q[last];
      assert r[last + 1] == if Tail(q) < m.printTime then NullMove(m, Tail(q), q[last].printTime == 0.0) else m;
    }
  }

  /** A real entry at time zero does break the tiling. */
  lemma {:induction false} NullMoveOverlap()
    ensures var here := Coord(0.0, 0.0, 0.0);
            var q := [Segment(0.0, 5.0, 1.0, 0.0, here, Coord(1.0, 0.0, 0.0))];
            var r := Added(q, Segment(5.5, 1.0, 0.0, 0.0, here, here));
            r[1].printTime < q[0].EndTime()
  {
  }

  /** Position and speed carry over from entry to entry. */
  ghost predicate Smooth(q: seq<Segment>) {
    forall i, j {:trigger q[i], q[j]} :: 0 <= i < |q| - 1 && j == i + 1 ==>
      q[i].EndPos() == q[j].startPos && q[i].EndV() == q[j].startV
  }

  datatype Aspect = InTime | InSpace

  /** The queue is continuous up to `time`, where the toolhead is at pos with speed v.
      It may rest, but not move, after the last entry. */
  ghost predicate Follows(q: seq<Segment>, time: real, pos: Coord, v: real) {
    forall aspect :: FollowsIn(aspect, q, time, pos, v)
  }

  ghost predicate FollowsIn(aspect: Aspect, q: seq<Segment>, time: real, pos: Coord, v: real) {
    match aspect
    case InTime =>
      && Tiled(q)
      && (forall i :: 0 <= i < |q| ==> 0.0 < q[i].moveT && 0.0 <= q[i].printTime)
      && (q != [] ==> 0.0 < q[|q| - 1].printTime)
      && Tail(q) <= time
      && (Tail(q) < time ==> v == 0.0)
    case InSpace =>
      && Smooth(q)
      && (q != [] ==> q[|q| - 1].EndPos() == pos && q[|q| - 1].EndV() == v)
  }

  /** Nothing moves while the toolhead waits at rest. */
  lemma {:induction false} FollowsAtRest(q: seq<Segment>, time: real, later: real, pos: Coord)
    requires Follows(q, time, pos, 0.0) && time <= later
    ensures Follows(q, later, pos, 0.0)
  {
    assert FollowsIn(InTime, q, time, pos, 0.0) && FollowsIn(InSpace, q, time, pos, 0.0);
  }

  lemma {:induction false} NullMoveRests(m: Segment, tail: real, fromZero: bool)
    ensures var n := NullMove(m, tail, fromZero); n.EndPos() == m.startPos && n.EndV() == 0.0
  {
  }

  /** Adding an entry that starts where the queue ends. */
  lemma {:induction false} AddedFollows(q: seq<Segment>, m: Segment)
    requires Follows(q, m.printTime, m.startPos, m.startV) && 0.0 < m.printTime && 0.0 < m.moveT
    ensures Follows(Added(q, m), m.EndTime(), m.EndPos(), m.EndV())
  {
    assert FollowsIn(InTime, q, m.printTime, m.startPos, m.startV);
    assert FollowsIn(InSpace, q, m.printTime, m.startPos, m.startV);
    AddedTilesIff(q, m);
    var r := Added(q, m);
    if q != [] {
      assert r[|q| - 1] == q[|q| - 1];
    }
    NullMoveRests(m, Tail(q), q == [] || q[|q| - 1].printTime == 0.0);
    assert r[|r| - 1] == m;
  }

  /** An optional phase that has a length, or changes nothing. */
  lemma {:induction false} PartFollows(p: Progress, part: Segment, v: real)
    requires part.printTime == p.time && part.startPos == p.pos && 0.0 <= part.moveT && 0.0 < p.time
    requires Follows(p.q, p.time, p.pos, part.startV)
    requires part.EndV() == v && (part.moveT == 0.0 ==> part.startV == v)
    ensures var r := WithPart(p, part);
            && Follows(r.q, r.time, r.pos, v) && r.time == p.time + part.moveT
            && r.pos == Advance(p.pos, part.axesR, part.Distance(part.moveT))
  {
    if part.moveT != 0.0 {
      AddedFollows(p.q, part);
    } else {
      assert part.Distance(0.0) == 0.0;
    }
  }

  lemma {:induction false} AdvanceTwice(p: Coord, dir: Coord, d0: real, d1: real)
    ensures Advance(Advance(p, dir, d0), dir, d1) == Advance(p, dir, d0 + d1)
  {
    assert dir.x * d0 + dir.x * d1 == dir.x * (d0 + d1);
    assert dir.y * d0 + dir.y * d1 == dir.y * (d0 + d1);
    assert dir.z * d0 + dir.z * d1 == dir.z * (d0 + d1);
  }

  lemma {:induction false} PartSpeeds(m: Motion, time: real, pos: Coord)
    requires m.Sound()
    ensures AccelPart(time, m).EndV() == m.cruiseV && (m.accelT == 0.0 ==> m.startV == m.cruiseV)
    ensures CruisePart(time, pos, m).EndV() == m.cruiseV
    ensures DecelPart(time, pos, m).EndV() == m.endV && (m.decelT == 0.0 ==> m.cruiseV == m.endV)
    ensures AccelPart(time, m).Distance(m.accelT) == m.AccelD()
    ensures CruisePart(time, pos, m).Distance(m.cruiseT) == m.CruiseD()
    ensures DecelPart(time, pos, m).Distance(m.decelT) == m.DecelD()
  {
    assert 2.0 * (0.5 * m.accel) * m.accelT == m.accel * m.accelT;
    assert 2.0 * (-0.5 * m.accel) * m.decelT == -(m.accel * m.decelT);
    assert (-0.5 * m.accel) * m.decelT == -(0.5 * m.accel * m.decelT);
  }

  function AfterAccel(q: seq<Segment>, time: real, m: Motion): Progress {
    var p := Progress(q, time, m.startPos);
    WithPart(p, AccelPart(p.time, m))
  }

  function AfterCruise(p: Progress, m: Motion): Progress {
    WithPart(p, CruisePart(p.time, p.pos, m))
  }

  function AfterDecel(p: Progress, m: Motion): Progress {
    WithPart(p, DecelPart(p.time, p.pos, m))
  }

  ghost predicate At(p: Progress, time: real, pos: Coord, v: real) {
    p.time == time && p.pos == pos && Follows(p.q, time, pos, v)
  }

  lemma {:induction false} AccelFollows(q: seq<Segment>, time: real, m: Motion)
    requires m.Sound() && 0.0 < time && Follows(q, time, m.startPos, m.startV)
    ensures At(AfterAccel(q, time, m), time + m.accelT, Advance(m.startPos, m.axesR, m.AccelD()), m.cruiseV)
  {
    PartSpeeds(m, time, m.startPos);
    PartFollows(Progress(q, time, m.startPos), AccelPart(time, m), m.cruiseV);
  }

  lemma {:induction false} CruiseFollows(p: Progress, time: real, pos: Coord, m: Motion)
    requires m.Sound() && 0.0 < time && At(p, time, pos, m.cruiseV)
    ensures At(AfterCruise(p, m), time + m.cruiseT, Advance(pos, m.axesR, m.CruiseD()), m.cruiseV)
  {
    PartSpeeds(m, time, pos);
    PartFollows(p, CruisePart(time, pos, m), m.cruiseV);
  }

  lemma {:induction false} DecelFollows(p: Progress, time: real, pos: Coord, m: Motion)
    requires m.Sound() && 0.0 < time && At(p, time, pos, m.cruiseV)
    ensures At(AfterDecel(p, m), time + m.decelT, Advance(pos, m.axesR, m.DecelD()), m.endV)
  {
    PartSpeeds(m, time, pos);
    PartFollows(p, DecelPart(time, pos, m), m.endV);
  }

  /** trapq_append: the entries of one move cover its time exactly, keep position and
      speed continuous, and end at the end position and speed of the move. */
  lemma {:induction false} AppendedFollows(q: seq<Segment>, time: real, m: Motion)
    requires m.Sound() && m.isKinematicMove && 0.0 < time
    requires Follows(q, time, m.startPos, m.startV)
    ensures Follows(Appended(q, time, m), time + m.Duration(), m.EndPos(), m.endV)
  {
    AccelFollows(q, time, m);
    var p1 := AfterAccel(q, time, m);
    CruiseFollows(p1, p1.time, p1.pos, m);
    var p2 := AfterCruise(p1, m);
    DecelFollows(p2, p2.time, p2.pos, m);
    WholeDistance(m);
    assert AfterDecel(p2, m).q == Appended(q, time, m);
  }

  lemma {:induction false} WholeDistance(m: Motion)
    requires m.Sound() && m.isKinematicMove
    ensures Advance(Advance(Advance(m.startPos, m.axesR, m.AccelD()), m.axesR, m.CruiseD()), m.axesR, m.DecelD())
            == m.EndPos()
  {
    AdvanceTwice(m.startPos, m.axesR, m.AccelD(), m.CruiseD());
    AdvanceTwice(m.startPos, m.axesR, m.AccelD() + m.CruiseD(), m.DecelD());
    assert m.AccelD() + m.CruiseD() + m.DecelD() == m.moveD;
  }

  function LastPos(ms: seq<Motion>, pos: Coord): Coord {
    if ms == [] then pos else ms[|ms| - 1].EndPos()
  }

  function LastV(ms: seq<Motion>, v: real): real {
    if ms == [] then v else ms[|ms| - 1].endV
  }

  /** Each move starts where, and as fast as, the one before it ends. */
  ghost predicate Chained(ms: seq<Motion>, pos: Coord, v: real) {
    ms == [] || (var front, m := ms[..|ms| - 1], ms[|ms| - 1];
                 && Chained(front, pos, v) && m.Sound()
                 && m.startPos == LastPos(front, pos) && m.startV == LastV(front, v))
  }

  lemma {:induction false} DurationPositive(m: Motion)
    requires m.Sound()
    ensures 0.0 <= m.Duration()
  {
  }

  /** A whole batch of chained moves leaves the motion queue continuous: no gap, no
      overlap, no jump in position or speed, through to the end of the last move. */
  lemma {:induction false} BatchFollows(q: seq<Segment>, time: real, ms: seq<Motion>, pos: Coord, v: real)
    requires Chained(ms, pos, v) && 0.0 < time && Follows(q, time, pos, v)
    ensures time <= EndOf(time, ms)
    ensures Follows(FedAll(q, time, ms), EndOf(time, ms), LastPos(ms, pos), LastV(ms, v))
  {
    if ms != [] {
      var front, m := ms[..|ms| - 1], ms[|ms| - 1];
      BatchFollows(q, time, front, pos, v);
      DurationPositive(m);
      if m.isKinematicMove {
        AppendedFollows(FedAll(q, time, front), EndOf(time, front), m);
      } else {
        FollowsAtRest(FedAll(q, time, front), EndOf(time, front), EndOf(time, ms), m.startPos);
      }
    }
  }
}
