/**
  The look-ahead move queue of toolhead.py: class Move and class LookAheadQueue.

  `LookAheadQueue.Flush` is the loop of the source, proved against the plan of module
  Planner.  The ghost `history` holds the limits of every move added since the queue
  was last empty, and `plans` the junctions already handed out, so that the invariant
  Valid() can say that lazy flushes never had to be revised.
*/
module LookAhead {
  import opened Common
  import opened Planner
  import opened Kinematics
  import TrapQueue

  const LOOKAHEAD_FLUSH_TIME := 0.25

  /** What set_junction computes for a move: three speeds and three times. */
  datatype Profile = Profile(startV: real, cruiseV: real, endV: real, accelT: real, cruiseT: real, decelT: real)
  {
    ghost predicate Fits(sqrt: real -> real, j: Junction, moveD: real, accel: real) {
      && startV == sqrt(j.start) && cruiseV == sqrt(j.cruise) && endV == sqrt(j.end)
      && IsTrapezoid(moveD, accel, startV, cruiseV, endV, accelT, cruiseT, decelT)
    }
  }

  class Move {
    const isKinematicMove: bool
    const moveD: real
    const startPos: TrapQueue.Coord
    const axesR: TrapQueue.Coord
    var accel: real
    var minMoveT: real
    var maxStartV2: real
    var maxCruiseV2: real
    var deltaV2: real
    var maxSmoothedV2: real
    var smoothDeltaV2: real
    // Filled by SetJunction
    var profile: Profile
    // The arguments of every SetJunction call on this move
    ghost var planned: seq<Junction>

    function Bounds(): Limits
      reads this`maxStartV2, this`maxCruiseV2, this`deltaV2, this`maxSmoothedV2, this`smoothDeltaV2
    {
      Limits(maxStartV2, maxCruiseV2, deltaV2, maxSmoothedV2, smoothDeltaV2)
    }

    ghost predicate Valid()
      reads this`maxStartV2, this`maxCruiseV2, this`deltaV2, this`maxSmoothedV2, this`smoothDeltaV2, this`accel
    {
      && 0.0 < moveD && 0.0 < accel
      && deltaV2 == 2.0 * moveD * accel
      && MoveOk(Bounds())
    }

    /** The move as _process_moves reads it. */
    function AsMotion(): TrapQueue.Motion
      reads this`accel, this`profile
    {
      TrapQueue.Motion(isKinematicMove, moveD, accel, startPos, axesR, profile.startV, profile.cruiseV, profile.endV,
                       profile.accelT, profile.cruiseT, profile.decelT)
    }

    constructor (isKinematicMove: bool, moveD: real, startPos: TrapQueue.Coord, axesR: TrapQueue.Coord,
                 velocity: real, accel: real, maxAccelToDecel: real)
      requires 0.0 < moveD && 0.0 < velocity && 0.0 < maxAccelToDecel <= accel
      ensures Valid() && Bounds() == Limits(0.0, velocity * velocity, 2.0 * moveD * accel,
                                                   0.0, 2.0 * moveD * maxAccelToDecel)
      ensures this.isKinematicMove == isKinematicMove && this.moveD == moveD && planned == []
      ensures this.startPos == startPos && this.axesR == axesR
      ensures minMoveT * velocity == moveD
    {
      this.isKinematicMove := isKinematicMove;
      this.moveD := moveD;
      this.startPos, this.axesR := startPos, axesR;
      this.accel := accel;
      minMoveT := moveD / velocity;
      maxStartV2 := 0.0;
      maxCruiseV2 := velocity * velocity;
      deltaV2 := 2.0 * moveD * accel;
      maxSmoothedV2 := 0.0;
      smoothDeltaV2 := 2.0 * moveD * maxAccelToDecel;
      profile := Profile(0.0, 0.0, 0.0, 0.0, 0.0, 0.0);
      planned := [];
      new;
      assert 0.0 < velocity * velocity;
      assert 0.0 < moveD * maxAccelToDecel;
      assert 0.0 <= moveD * (accel - maxAccelToDecel);
    }

    /** Called by the kinematics before the move is queued, so before any junction is known. */
    method LimitSpeed(speed: real, accel: real)
      requires Valid() && 0.0 < speed && 0.0 < accel
      requires maxStartV2 == 0.0
      modifies this`maxCruiseV2, this`minMoveT, this`accel, this`deltaV2, this`smoothDeltaV2
      ensures Valid()
      ensures maxCruiseV2 == Min(old(maxCruiseV2), speed * speed)
      ensures this.accel == Min(old(this.accel), accel)
      ensures smoothDeltaV2 == Min(old(smoothDeltaV2), deltaV2)
    {
      var speed2 := speed * speed;
      assert 0.0 < speed2;
      if speed2 < maxCruiseV2 {
        maxCruiseV2 := speed2;
        minMoveT := moveD / speed;
      }
      this.accel := Min(this.accel, accel);
      deltaV2 := 2.0 * moveD * this.accel;
      smoothDeltaV2 := Min(smoothDeltaV2, deltaV2);
      assert 0.0 < moveD * this.accel;
    }

    /** `geometry` stands for the geometric and extruder terms of the source: None when
        the moves are almost opposite (no junction speed), else their minimum. */
    method CalcJunction(prev: Move, geometry: Option<real>)
      requires Valid() && prev.Valid() && prev != this
      requires maxStartV2 == 0.0 && maxSmoothedV2 == 0.0
      requires geometry.Some? ==> 0.0 <= geometry.value
      modifies this`maxStartV2, this`maxSmoothedV2
      ensures Valid() && Linked(prev.Bounds(), Bounds())
      ensures !isKinematicMove || !prev.isKinematicMove || geometry.None? ==> maxStartV2 == maxSmoothedV2 == 0.0
      // Else the least of the bounds
      ensures isKinematicMove && prev.isKinematicMove && geometry.Some? ==>
                IsLeast(maxStartV2, [geometry.value, maxCruiseV2, prev.maxCruiseV2, prev.maxStartV2 + prev.deltaV2])
      ensures isKinematicMove && prev.isKinematicMove && geometry.Some? ==>
                maxSmoothedV2 == Min(maxStartV2, prev.maxSmoothedV2 + prev.smoothDeltaV2)
    {
      if !isKinematicMove || !prev.isKinematicMove {
        return;
      }
      if geometry.None? {
        return;
      }
      ghost var bounds := [geometry.value, maxCruiseV2, prev.maxCruiseV2, prev.maxStartV2 + prev.deltaV2];
      maxStartV2 := Min(geometry.value,
                        Min(maxCruiseV2, Min(prev.maxCruiseV2, prev.maxStartV2 + prev.deltaV2)));
      assert maxStartV2 in bounds by {
        assert bounds[0] in bounds && bounds[1] in bounds && bounds[2] in bounds && bounds[3] in bounds;
      }
      maxSmoothedV2 := Min(maxStartV2, prev.maxSmoothedV2 + prev.smoothDeltaV2);
    }

    /** The trapezoid of a planned move: times that reach the planned speeds at the move's
        acceleration and cover exactly its distance. */
    ghost predicate Trapezoid(sqrt: real -> real, j: Junction)
      reads this
    {
      profile.Fits(sqrt, j, moveD, accel)
    }

    method SetJunction(sqrt: real -> real, startV2: real, cruiseV2: real, endV2: real)
      requires IsSqrt(sqrt) && Doable(Junction(startV2, cruiseV2, endV2), moveD, accel)
      modifies this`profile, this`planned
      ensures Trapezoid(sqrt, Junction(startV2, cruiseV2, endV2))
      ensures planned == old(planned) + [Junction(startV2, cruiseV2, endV2)]
    {
      var s, c, e := sqrt(startV2), sqrt(cruiseV2), sqrt(endV2);
      SqrtOf(sqrt, startV2);
      SqrtOf(sqrt, cruiseV2);
      SqrtOf(sqrt, endV2);
      var accelT, cruiseT, decelT := JunctionTimes(moveD, accel, s, c, e, startV2, cruiseV2, endV2);
      profile := Profile(s, c, e, accelT, cruiseT, decelT);
      planned := planned + [Junction(startV2, cruiseV2, endV2)];
    }
  }

  ghost predicate IsLeast(x: real, bounds: seq<real>) {
    x in bounds && forall i :: 0 <= i < |bounds| ==> x <= bounds[i]
  }

  /** The junction speeds a move can really run with: a positive cruise speed, and a
      distance long enough for both ramps. */
  ghost predicate Doable(j: Junction, moveD: real, accel: real) {
    && 0.0 < moveD && 0.0 < accel
    && 0.0 <= j.start <= j.cruise && 0.0 <= j.end <= j.cruise && 0.0 < j.cruise
    && (j.cruise - j.start) + (j.cruise - j.end) <= 2.0 * moveD * accel
  }

  /** The time part of set_junction. */
  method JunctionTimes(moveD: real, accel: real, startV: real, cruiseV: real, endV: real,
                       startV2: real, cruiseV2: real, endV2: real)
    returns (accelT: real, cruiseT: real, decelT: real)
    requires 0.0 < moveD && 0.0 < accel && 0.0 <= startV && 0.0 < cruiseV && 0.0 <= endV
    requires startV * startV == startV2 && cruiseV * cruiseV == cruiseV2 && endV * endV == endV2
    requires startV2 <= cruiseV2 && endV2 <= cruiseV2
    requires (cruiseV2 - startV2) + (cruiseV2 - endV2) <= 2.0 * moveD * accel
    ensures IsTrapezoid(moveD, accel, startV, cruiseV, endV, accelT, cruiseT, decelT)
  {
    var halfInvAccel := 0.5 / accel;
    var accelD := (cruiseV2 - startV2) * halfInvAccel;
    var decelD := (cruiseV2 - endV2) * halfInvAccel;
    var cruiseD := moveD - accelD - decelD;
    accelT := accelD / ((startV + cruiseV) * 0.5);
    cruiseT := cruiseD / cruiseV;
    decelT := decelD / ((endV + cruiseV) * 0.5);
    RampTime(startV, cruiseV, accel, accelD, accelT);
    RampTime(endV, cruiseV, accel, decelD, decelT);
    CruiseFits(moveD, accel, startV2, cruiseV2, endV2, accelD, decelD, cruiseD);
    QuotientSign(cruiseV, cruiseT);
  }

  /** The list of pending moves. */
  class LookAheadQueue {
    const sqrt: real -> real
    var queue: seq<Move>
    var junctionFlush: real
    // The limits of all moves added since the queue was last empty, and the
    // junctions of those among them that were already handed out
    ghost var history: seq<Limits>
    ghost var plans: seq<Junction>

    ghost predicate Valid()
      reads this, queue
    {
      && IsSqrt(sqrt) && Distinct(queue)
      && |plans| + |queue| == |history|
      && (forall i {:trigger queue[i].Valid()} :: 0 <= i < |queue| ==> queue[i].Valid())
      && (forall i {:trigger queue[i].Bounds()} :: 0 <= i < |queue| ==> queue[i].Bounds() == history[|plans| + i])
      && Online(history, plans)
      && (queue == [] ==> history == [])
    }

    constructor (sqrt: real -> real)
      requires IsSqrt(sqrt)
      ensures Valid() && this.sqrt == sqrt && queue == [] && history == [] && plans == []
    {
      this.sqrt := sqrt;
      queue := [];
      junctionFlush := LOOKAHEAD_FLUSH_TIME;
      history, plans := [], [];
    }

    method Reset()
      requires Valid()
      modifies this
      ensures Valid() && queue == [] && history == [] && plans == []
    {
      queue := [];
      junctionFlush := LOOKAHEAD_FLUSH_TIME;
      history, plans := [], [];
    }

    /** Plans the queue and hands out the moves that are ready, for _process_moves.  Each of
        them had exactly one junction set, the one that a full flush of all the moves added
        since the queue was last empty gives it; the other moves are untouched. */
    method Flush(lazy: bool) returns (ready: seq<Move>, ghost junctions: seq<Junction>)
      requires Valid()
      modifies this, queue`profile, queue`planned
      ensures Valid()
      ensures old(queue) == ready + queue
      ensures !lazy ==> queue == []
      ensures lazy ==> |ready| == match CommitPoint(old(history)[|old(plans)|..], 0) case None => 0 case Some(f) => f
      ensures |old(plans)| + |ready| <= |old(history)|
      ensures junctions == PlanOf(old(history), |old(plans)|, |ready|)
      ensures forall j {:trigger old(queue)[j]} :: 0 <= j < |ready| ==>
                && old(queue)[j].planned == old(queue[j].planned) + [junctions[j]]
                && old(queue)[j].Trapezoid(sqrt, junctions[j])
      ensures forall j {:trigger old(queue)[j]} :: |ready| <= j < |old(queue)| ==>
                old(queue)[j].planned == old(queue[j].planned)
      ensures queue != [] ==> history == old(history) && plans == old(plans) + junctions
      ensures junctionFlush == LOOKAHEAD_FLUSH_TIME
    {
      hide Online, PlanOf, CommitPoint, IsSqrt, Distinct, IsTrapezoid, MoveOk;
      junctionFlush := LOOKAHEAD_FLUSH_TIME;
      var updateFlushCount, flushCount := PlanHistory(lazy);
      if updateFlushCount || flushCount == 0 {
        return [], PlanOf(history, |plans|, 0);
      }
      ready, junctions := TakeReady(flushCount);
    }

    /** The loop of flush, seen from the history. */
    method PlanHistory(lazy: bool) returns (updateFlushCount: bool, flushCount: nat)
      requires Valid()
      modifies queue`profile, queue`planned
      ensures flushCount <= |queue|
      ensures updateFlushCount == (lazy && CommitPoint(history[|plans|..], 0).None?)
      ensures lazy && !updateFlushCount ==> CommitPoint(history[|plans|..], 0) == Some(flushCount)
      ensures !lazy ==> flushCount == |queue|
      ensures forall j {:trigger queue[j].planned} :: !updateFlushCount && 0 <= j < flushCount ==>
                queue[j].planned == old(queue[j].planned) + [PlanOf(history, |plans|, flushCount)[j]]
      ensures forall j {:trigger queue[j].Trapezoid(sqrt, PlanOf(history, |plans|, flushCount)[j])} ::
                !updateFlushCount && 0 <= j < flushCount ==>
                queue[j].Trapezoid(sqrt, PlanOf(history, |plans|, flushCount)[j])
      ensures forall j {:trigger queue[j].planned} :: 0 <= j < |queue| && (updateFlushCount || flushCount <= j) ==>
                queue[j].planned == old(queue[j].planned)
    {
      ghost var q := history[|plans|..];
      OnlineSuffix(history, plans);
      ghost var t := MakeTables(q, seq(|queue|, j requires 0 <= j < |queue| reads this, queue => queue[j].accel));
      TablesFit(q, t);
      updateFlushCount, flushCount := PlanMoves(lazy, q, t);
      SuffixPlanOf(history, |plans|, flushCount);
      TablePlan(q, t, flushCount);
    }

    /** Removes the planned moves from the queue. */
    method TakeReady(count: nat) returns (ready: seq<Move>, ghost junctions: seq<Junction>)
      requires Valid() && count <= |queue|
      requires count == |queue| || CommitPoint(history[|plans|..], 0) == Some(count)
      modifies this`queue, this`history, this`plans
      ensures Valid()
      ensures old(queue) == ready + queue && |ready| == count
      ensures junctions == PlanOf(old(history), |old(plans)|, count)
      ensures queue != [] ==> history == old(history) && plans == old(plans) + junctions
    {
      junctions := PlanOf(history, |plans|, count);
      OnlineStep(history, plans, count, plans + junctions);
      ready, queue := queue[..count], queue[count..];
      plans := plans + junctions;
      if queue == [] {
        history, plans := [], [];
      }
    }

    lemma {:induction false} TablesFit(q: seq<Limits>, t: Tables)
      requires |q| == |queue| && Agrees(q, t) && WellLinked(q) && (|q| > 0 ==> !Delayed(q, 0))
      requires forall j {:trigger queue[j].Valid()} :: 0 <= j < |queue| ==> queue[j].Valid()
      requires forall j {:trigger queue[j].Bounds()} :: 0 <= j < |queue| ==> queue[j].Bounds() == q[j]
      requires forall j {:trigger t.accel[j]} :: 0 <= j < |queue| ==> queue[j].accel == t.accel[j]
      ensures Tabulated(q, t)
    {
      forall j | 0 <= j < |queue| ensures t.StepAt(j, q[j]) && (j > 0 && t.delayed[j] ==> t.DelayedAt(j)) {
        TableStep(q, t, j);
      }
      forall j | 0 <= j < |queue| ensures Doable(t.plan[j], queue[j].moveD, t.accel[j]) {
        TableDoable(q, t, j, queue[j]);
      }
    }

    /** Adds a move; once enough move time has been queued, also flushes lazily. */
    method AddMove(move: Move, geometry: Option<real>) returns (ready: seq<Move>, ghost junctions: seq<Junction>)
      requires Valid() && move.Valid() && move !in queue
      requires move.maxStartV2 == 0.0 && move.maxSmoothedV2 == 0.0
      requires geometry.Some? ==> 0.0 <= geometry.value
      modifies this, queue`profile, queue`planned
      modifies move`maxStartV2, move`maxSmoothedV2, move`profile, move`planned
      ensures Valid()
      ensures old(queue) + [move] == ready + queue && queue != []
      ensures history == old(history) + [move.Bounds()] && Online(history, old(plans))
      ensures |old(plans)| + |junctions| <= |history|
      ensures junctions == PlanOf(history, |old(plans)|, |junctions|)
      ensures !move.isKinematicMove || old(queue) == [] || !old(queue)[|old(queue)| - 1].isKinematicMove ==>
                move.maxStartV2 == 0.0
      ensures plans == old(plans) + junctions && |junctions| == |ready| <= |old(queue)|
      // Once the moves queued since the last flush take long enough, all that can be is handed out
      ensures old(queue) == [] ==> ready == [] && junctionFlush == old(junctionFlush)
      ensures old(queue) != [] && old(junctionFlush) > move.minMoveT ==>
                ready == [] && junctionFlush == old(junctionFlush) - move.minMoveT
      ensures old(queue) != [] && old(junctionFlush) <= move.minMoveT ==>
                junctionFlush == LOOKAHEAD_FLUSH_TIME &&
                |ready| == match CommitPoint(history[|old(plans)|..], 0) case None => 0 case Some(f) => f
      ensures forall j {:trigger old(queue)[j]} :: 0 <= j < |ready| ==>
                && old(queue)[j].planned == old(queue[j].planned) + [junctions[j]]
                && old(queue)[j].Trapezoid(sqrt, junctions[j])
    {
      hide Online, PlanOf, CommitPoint, IsSqrt, Distinct, MoveOk, Move.Trapezoid;
      Append(move, geometry);
      if |queue| == 1 {
        return [], [];
      }
      junctionFlush := junctionFlush - move.minMoveT;
      ready, junctions := [], [];
      if junctionFlush <= 0.0 {
        OnlineSuffix(history, plans);
        CommitLeavesSome(history[|plans|..], 0);
        ghost var all := queue;
        ready, junctions := Flush(true);
        assert forall j :: 0 <= j < |ready| ==> all[j] == old(queue)[j];
      }
    }

    method Append(move: Move, geometry: Option<real>)
      requires Valid() && move.Valid() && move !in queue
      requires move.maxStartV2 == 0.0 && move.maxSmoothedV2 == 0.0
      requires geometry.Some? ==> 0.0 <= geometry.value
      modifies this`queue, this`history, move`maxStartV2, move`maxSmoothedV2
      ensures Valid()
      ensures queue == old(queue) + [move]
      ensures history == old(history) + [move.Bounds()]
      ensures !move.isKinematicMove || old(queue) == [] || !old(queue)[|old(queue)| - 1].isKinematicMove ==>
                move.maxStartV2 == 0.0
    {
      queue := queue + [move];
      if |queue| > 1 {
        move.CalcJunction(queue[|queue| - 2], geometry);
      }
      OnlineAppend(history, plans, move.Bounds());
      history := history + [move.Bounds()];
    }

    /** The loop of flush: plans every move it can, and finds how many leading moves
        may be handed out. */
    method PlanMoves(lazy: bool, ghost q: seq<Limits>, ghost t: Tables)
      returns (updateFlushCount: bool, flushCount: nat)
      requires IsSqrt(sqrt) && t.Shape(|queue|) && Distinct(queue)
      requires t.start[|queue|] == t.smoothed[|queue|] == t.peak[|queue|] == 0.0 && t.commit[|queue|] == None
      requires Tabulated(q, t)
      requires |queue| > 0 ==> !t.delayed[0]
      modifies queue`profile, queue`planned
      ensures updateFlushCount == (lazy && t.commit[0].None?)
      ensures flushCount == if lazy && t.commit[0].Some? then t.commit[0].value else |queue|
      ensures flushCount <= |queue|
      ensures forall j {:trigger queue[j].planned} :: !updateFlushCount && 0 <= j < flushCount ==>
                queue[j].planned == old(queue[j].planned) + [t.plan[j]]
      ensures forall j {:trigger queue[j].Trapezoid(sqrt, t.plan[j])} :: !updateFlushCount && 0 <= j < flushCount ==>
                queue[j].Trapezoid(sqrt, t.plan[j])
      ensures forall j {:trigger queue[j].planned} :: 0 <= j < |queue| && (updateFlushCount || flushCount <= j) ==>
                queue[j].planned == old(queue[j].planned)
    {
      ghost var base := seq(|queue|, j requires 0 <= j < |queue| reads this, queue => queue[j].planned);
      ghost var from: int;
      updateFlushCount, flushCount, from := PlanBackward(lazy, q, t, base);
      GivenMeans(t, base, from, flushCount);
    }

    method PlanBackward(lazy: bool, ghost q: seq<Limits>, ghost t: Tables, ghost base: seq<seq<Junction>>)
      returns (updateFlushCount: bool, flushCount: nat, ghost from: int)
      requires IsSqrt(sqrt) && t.Shape(|queue|) && Distinct(queue)
      requires t.start[|queue|] == t.smoothed[|queue|] == t.peak[|queue|] == 0.0 && t.commit[|queue|] == None
      requires Tabulated(q, t)
      requires |queue| > 0 ==> !t.delayed[0]
      requires |base| == |queue| && Given(t, base, |queue|, |queue|)
      modifies queue`profile, queue`planned
      ensures updateFlushCount == (lazy && t.commit[0].None?)
      ensures flushCount == if lazy && t.commit[0].Some? then t.commit[0].value else |queue|
      ensures flushCount <= |queue|
      ensures from == if updateFlushCount then |queue| else 0
      ensures Given(t, base, from, flushCount)
    {
      hide Given, Postponed, Tabulated, Distinct, IsSqrt, Min;
      updateFlushCount := lazy;
      flushCount := |queue|;
      var delayed: seq<(Move, real, real)> := [];
      var nextEndV2, nextSmoothedV2, peakCruiseV2 := 0.0, 0.0, 0.0;
      var i := |queue|;
      ghost var top := i;   // moves i .. top-1 are the delayed ones
      from := i;            // moves from .. flushCount-1 are planned
      PostponedNone(t, i);
      while i > 0
        invariant 0 <= i <= top <= |queue| && Postponed(t, delayed, i, top)
        invariant nextEndV2 == t.start[i] && nextSmoothedV2 == t.smoothed[i] && peakCruiseV2 == t.peak[i]
        invariant updateFlushCount == (lazy && t.commit[i].None?)
        invariant flushCount == if lazy && t.commit[i].Some? then t.commit[i].value else |queue|
        invariant i <= flushCount <= |queue| && (!updateFlushCount ==> top <= flushCount)
        invariant if i < top then t.delayed[i] else i < |queue| ==> !t.delayed[i]
        invariant top < |queue| ==> !t.delayed[top]
        invariant from == if updateFlushCount then |queue| else top
        invariant Given(t, base, from, flushCount)
      {
        i := i - 1;
        var move := queue[i];
        TabulatedStep(q, t, i);
        GivenNone(t, base, from, flushCount, i);
        var reachableStartV2 := nextEndV2 + move.deltaV2;
        var startV2 := Min(move.maxStartV2, reachableStartV2);
        var reachableSmoothedV2 := nextSmoothedV2 + move.smoothDeltaV2;
        var smoothedV2 := Min(move.maxSmoothedV2, reachableSmoothedV2);
        if smoothedV2 < reachableSmoothedV2 {
          PostponedLength(t, delayed, i + 1, top);
          var newPeak := smoothedV2 + move.smoothDeltaV2 > nextSmoothedV2 || delayed != [];
          if newPeak {
            if updateFlushCount && peakCruiseV2 != 0.0 {
              flushCount := i;
              updateFlushCount := false;
            }
            peakCruiseV2 := Min(move.maxCruiseV2, (smoothedV2 + reachableSmoothedV2) * 0.5);
          }
          if !updateFlushCount && i < flushCount {
            PlanDown(q, t, base, i, top, flushCount, delayed, startV2, reachableStartV2, nextEndV2, peakCruiseV2);
          }
          PostponedNone(t, i);
          delayed := [];
          top := i;
          from := if updateFlushCount then |queue| else i;
        } else {
          PostponedMore(t, delayed, i, top);
          delayed := delayed + [(move, startV2, nextEndV2)];
        }
        nextEndV2 := startV2;
        nextSmoothedV2 := smoothedV2;
      }
    }

    lemma {:induction false} TabulatedStep(q: seq<Limits>, t: Tables, i: nat)
      requires t.Shape(|queue|) && Tabulated(q, t) && i < |queue|
      ensures i < |q| && q[i].delta == queue[i].deltaV2
      ensures t.start[i] == Min(queue[i].maxStartV2, t.start[i + 1] + queue[i].deltaV2)
      ensures t.smoothed[i] == Min(queue[i].maxSmoothedV2, t.smoothed[i + 1] + queue[i].smoothDeltaV2)
      ensures t.delayed[i] == (t.smoothed[i] >= t.smoothed[i + 1] + queue[i].smoothDeltaV2)
      ensures t.newPeak[i] == (!t.delayed[i] && (t.smoothed[i] + queue[i].smoothDeltaV2 > t.smoothed[i + 1]
                                                 || (i + 1 < |queue| && t.delayed[i + 1])))
      ensures t.peak[i] == if t.newPeak[i]
                           then Min(queue[i].maxCruiseV2, (t.smoothed[i] + (t.smoothed[i + 1] + queue[i].smoothDeltaV2)) * 0.5)
                           else t.peak[i + 1]
      ensures t.commit[i] == if t.commit[i + 1].None? && t.newPeak[i] && t.peak[i + 1] != 0.0 then Some(i as nat)
                             else t.commit[i + 1]
    {
      assert queue[i].Bounds() == q[i] && t.StepAt(i, q[i]);
    }

    lemma {:induction false} GivenMeans(t: Tables, base: seq<seq<Junction>>, from: int, upTo: int)
      requires |base| == |queue| && t.Shape(|queue|) && Given(t, base, from, upTo)
      ensures forall j {:trigger queue[j].planned} :: 0 <= j < |queue| ==>
                queue[j].planned == if from <= j < upTo then base[j] + [t.plan[j]] else base[j]
      ensures forall j {:trigger queue[j].Trapezoid(sqrt, t.plan[j])} :: 0 <= j < |queue| && from <= j < upTo ==>
                queue[j].Trapezoid(sqrt, t.plan[j])
    {
    }

    /** Extends the planned range of moves from top .. upTo-1 to i .. upTo-1. */
    method PlanDown(ghost q: seq<Limits>, ghost t: Tables, ghost base: seq<seq<Junction>>, i: nat, ghost top: nat,
                    ghost upTo: nat, delayed: seq<(Move, real, real)>,
                    startV2: real, reachableStartV2: real, nextEndV2: real, peakCruiseV2: real)
      requires IsSqrt(sqrt) && t.Shape(|queue|) && Distinct(queue) && i < top <= |queue|
      requires Tabulated(q, t)
      requires |base| == |queue| && top <= upTo <= |queue| && Given(t, base, top, upTo)
      requires !t.delayed[i] && (i + 1 < top ==> t.newPeak[i])
      requires Postponed(t, delayed, i + 1, top)
      requires startV2 == t.start[i] && reachableStartV2 == t.start[i + 1] + q[i].delta
      requires nextEndV2 == t.start[i + 1] && peakCruiseV2 == t.peak[i]
      modifies queue`profile, queue`planned
      ensures Given(t, base, i, upTo)
    {
      PlanRun(q, t, i, top, delayed, startV2, reachableStartV2, nextEndV2, peakCruiseV2);
    }

    /** Plan move i and the delayed moves i+1 .. top-1 behind it. */
    method PlanRun(ghost q: seq<Limits>, ghost t: Tables, i: nat, ghost top: nat, delayed: seq<(Move, real, real)>,
                   startV2: real, reachableStartV2: real, nextEndV2: real, peakCruiseV2: real)
      requires IsSqrt(sqrt) && t.Shape(|queue|) && Distinct(queue) && i < top <= |queue|
      requires Tabulated(q, t)
      requires !t.delayed[i] && (i + 1 < top ==> t.newPeak[i])
      requires Postponed(t, delayed, i + 1, top)
      requires startV2 == t.start[i] && reachableStartV2 == t.start[i + 1] + q[i].delta
      requires nextEndV2 == t.start[i + 1] && peakCruiseV2 == t.peak[i]
      modifies queue`profile, queue`planned
      ensures forall j {:trigger queue[j].planned} :: i <= j < top ==>
                queue[j].planned == old(queue[j].planned) + [t.plan[j]]
      ensures forall j {:trigger queue[j].Trapezoid(sqrt, t.plan[j])} :: i <= j < top ==>
                queue[j].Trapezoid(sqrt, t.plan[j])
      ensures forall j :: 0 <= j < |queue| && !(i <= j < top) ==> unchanged(queue[j])
    {
      var move := queue[i];
      var cruiseV2 := Min(Min((startV2 + reachableStartV2) * 0.5, move.maxCruiseV2), peakCruiseV2);
      assert t.plan[i] == Junction(Min(startV2, cruiseV2), cruiseV2, Min(nextEndV2, cruiseV2))
          && (t.newPeak[i] ==> t.cap[i] == t.peak[i]) by {
        assert t.StepAt(i, q[i]);
      }
      assert Doable(t.plan[i], move.moveD, t.accel[i]);
      if delayed != [] {
        PropagatePeak(q, t, i, top, delayed, peakCruiseV2);
      }
      assert move.accel == t.accel[i];
      move.SetJunction(sqrt, Min(startV2, cruiseV2), cruiseV2, Min(nextEndV2, cruiseV2));
    }

    /** The list of delayed moves: i .. top-1, latest first, with their start and end speeds. */
    ghost predicate Postponed(t: Tables, delayed: seq<(Move, real, real)>, i: int, top: int)
      requires t.Shape(|queue|) && 0 <= i <= top <= |queue|
      reads this`queue
    {
      && |delayed| == top - i
      && (forall j {:trigger t.delayed[j]} :: i <= j < top ==> t.delayed[j])
      && (forall x {:trigger delayed[x]} :: 0 <= x < |delayed| ==>
            delayed[x] == (queue[top - 1 - x], t.start[top - 1 - x], t.start[top - x]))
    }

    lemma {:induction false} PostponedAt(q: seq<Limits>, t: Tables, delayed: seq<(Move, real, real)>, i: int, top: int,
                                         x: int)
      requires t.Shape(|queue|) && 0 < i <= top <= |queue| && Postponed(t, delayed, i, top) && Tabulated(q, t)
      requires 0 <= x < |delayed|
      ensures var j := top - 1 - x;
              && i <= j < top && delayed[x] == (queue[j], t.start[j], t.start[j + 1])
              && t.DelayedAt(j) && Doable(t.plan[j], queue[j].moveD, queue[j].accel)
    {
      var j := top - 1 - x;
      assert t.delayed[j] && t.DelayedAt(j);
      assert queue[j].accel == t.accel[j] && Doable(t.plan[j], queue[j].moveD, t.accel[j]);
    }

    lemma {:induction false} PostponedNone(t: Tables, i: int)
      requires t.Shape(|queue|) && 0 <= i <= |queue|
      ensures Postponed(t, [], i, i)
    {
    }

    lemma {:induction false} PostponedLength(t: Tables, delayed: seq<(Move, real, real)>, i: int, top: int)
      requires t.Shape(|queue|) && 0 <= i <= top <= |queue| && Postponed(t, delayed, i, top)
      ensures |delayed| == top - i
    {
    }

    lemma {:induction false} PostponedMore(t: Tables, delayed: seq<(Move, real, real)>, i: int, top: int)
      requires t.Shape(|queue|) && 0 <= i < top <= |queue| && Postponed(t, delayed, i + 1, top) && t.delayed[i]
      ensures Postponed(t, delayed + [(queue[i], t.start[i], t.start[i + 1])], i, top)
    {
      var more := delayed + [(queue[i], t.start[i], t.start[i + 1])];
      forall x | 0 <= x < |more|
        ensures more[x] == (queue[top - 1 - x], t.start[top - 1 - x], t.start[top - x])
      {
        assert x < |delayed| ==> more[x] == delayed[x];
      }
    }

    /** Exactly the moves from .. upTo-1 were planned since their junction lists were `base`. */
    ghost predicate Given(t: Tables, base: seq<seq<Junction>>, from: int, upTo: int)
      requires |base| == |queue| && t.Shape(|queue|)
      reads this, queue
    {
      && (forall j {:trigger queue[j].planned} :: 0 <= j < |queue| ==>
            queue[j].planned == if from <= j < upTo then base[j] + [t.plan[j]] else base[j])
      && (forall j {:trigger queue[j].Trapezoid(sqrt, t.plan[j])} :: 0 <= j < |queue| && from <= j < upTo ==>
            queue[j].Trapezoid(sqrt, t.plan[j]))
    }

    lemma {:induction false} GivenNone(t: Tables, base: seq<seq<Junction>>, from: int, upTo: int, i: int)
      requires |base| == |queue| && t.Shape(|queue|)
      ensures Given(t, base, from, upTo) && upTo <= from ==> Given(t, base, i, i)
    {
    }

    /** The moves are ready, and the tables belong to their limits. */
    ghost predicate Tabulated(q: seq<Limits>, t: Tables)
      requires t.Shape(|queue|)
      reads this`queue, queue`maxStartV2, queue`maxCruiseV2, queue`deltaV2, queue`maxSmoothedV2, queue`smoothDeltaV2,
            queue`accel
    {
      && |q| == |queue|
      && (forall j :: 0 <= j < |queue| ==> queue[j].Bounds() == q[j] && queue[j].accel == t.accel[j])
      && (forall j {:trigger t.plan[j]} :: 0 <= j < |queue| ==> Doable(t.plan[j], queue[j].moveD, t.accel[j]))
      && (forall j {:trigger t.StepAt(j, q[j])} :: 0 <= j < |queue| ==> t.StepAt(j, q[j]))
      && (forall j {:trigger t.DelayedAt(j)} :: 0 < j < |queue| && t.delayed[j] ==> t.DelayedAt(j))
    }

    /** The inner loop of flush: carry a new peak forward over the delayed moves lo+1 .. top-1. */
    method PropagatePeak(ghost q: seq<Limits>, ghost t: Tables, ghost lo: nat, ghost top: nat,
                         delayed: seq<(Move, real, real)>, peakCruiseV2: real)
      requires IsSqrt(sqrt) && t.Shape(|queue|) && Distinct(queue) && lo < top <= |queue|
      requires Tabulated(q, t)
      requires peakCruiseV2 == t.cap[lo]
      requires Postponed(t, delayed, lo + 1, top)
      modifies queue`profile, queue`planned
      ensures forall j {:trigger queue[j].planned} :: lo < j < top ==>
                queue[j].planned == old(queue[j].planned) + [t.plan[j]]
      ensures forall j {:trigger queue[j].Trapezoid(sqrt, t.plan[j])} :: lo < j < top ==>
                queue[j].Trapezoid(sqrt, t.plan[j])
      ensures forall j :: 0 <= j < |queue| && !(lo < j < top) ==> unchanged(queue[j])
    {
      hide IsSqrt, Min, Tabulated, Postponed, Doable;
      PostponedLength(t, delayed, lo + 1, top);
      var mcV2 := peakCruiseV2;
      var x := |delayed|;
      while x > 0
        invariant 0 <= x <= |delayed|
        invariant mcV2 == t.cap[top - 1 - x]
        invariant forall j {:trigger queue[j].planned} :: lo < j < top - x ==>
                    queue[j].planned == old(queue[j].planned) + [t.plan[j]]
        invariant forall j {:trigger queue[j].Trapezoid(sqrt, t.plan[j])} :: lo < j < top - x ==>
                    queue[j].Trapezoid(sqrt, t.plan[j])
        invariant forall j :: 0 <= j < |queue| && !(lo < j < top - x) ==> unchanged(queue[j])
      {
        x := x - 1;
        var (m, msV2, meV2) := delayed[x];
        PostponedAt(q, t, delayed, lo + 1, top, x);
        mcV2 := Min(mcV2, msV2);
        m.SetJunction(sqrt, Min(msV2, mcV2), mcV2, Min(meV2, mcV2));
      }
    }
  }

  // ----- The invariant of online planning -----

  /** `plans` are final for the first moves of `history`: they are what a full flush of
      the whole history says, and no later move can change that. */
  ghost predicate Online(history: seq<Limits>, plans: seq<Junction>) {
    |plans| <= |history| && forall fact :: OnlineFact(fact, history, plans)
  }

  datatype Fact = WellFormed | StartsAtRest | PlansMatch | PlansFinal

  ghost predicate OnlineFact(fact: Fact, history: seq<Limits>, plans: seq<Junction>)
    requires |plans| <= |history|
  {
    match fact
    case WellFormed => WellLinked(history)
    case StartsAtRest => |history| > 0 ==> history[0].maxSmoothed == history[0].maxStart == 0.0
    case PlansMatch => plans == PlanOf(history, 0, |plans|)
    case PlansFinal => 0 < |plans| < |history| ==> exists k: nat :: Settled(history, |plans|, k)
  }

  lemma {:induction false} OpenOnline(history: seq<Limits>, plans: seq<Junction>)
    requires Online(history, plans)
    ensures WellLinked(history)
    ensures |history| > 0 ==> history[0].maxSmoothed == history[0].maxStart == 0.0
    ensures plans == PlanOf(history, 0, |plans|)
    ensures 0 < |plans| < |history| ==> exists k: nat :: Settled(history, |plans|, k)
  {
    assert OnlineFact(WellFormed, history, plans) && OnlineFact(StartsAtRest, history, plans);
    assert OnlineFact(PlansMatch, history, plans) && OnlineFact(PlansFinal, history, plans);
  }

  lemma {:induction false} OnlineAppend(history: seq<Limits>, plans: seq<Junction>, m: Limits)
    requires Online(history, plans) && MoveOk(m)
    requires history == [] ==> m.maxSmoothed == m.maxStart == 0.0
    requires history != [] ==> Linked(history[|history| - 1], m) && |plans| < |history|
    ensures Online(history + [m], plans)
  {
    OpenOnline(history, plans);
    var more := history + [m];
    assert WellLinked(more);
    var k: nat := 0;
    if plans != [] {
      k :| Settled(history, |plans|, k);
      SettledStays(history, [m], |plans|, k);
      StablePlan(history, [m], |plans|, k, |plans|);
    }
    CloseOnline(more, plans, k);
  }

  /** What is left of the history starts with a planned move. */
  lemma {:induction false} OnlineSuffix(history: seq<Limits>, plans: seq<Junction>)
    requires Online(history, plans)
    ensures WellLinked(history[|plans|..])
    ensures |plans| < |history| ==> !Delayed(history, |plans|) && !Delayed(history[|plans|..], 0)
  {
    OpenOnline(history, plans);
    if |plans| < |history| {
      if plans == [] {
        FirstIsPlanned(history);
      }
      SuffixPeaks(history, |plans|, |plans|);
    }
  }

  lemma {:induction false} CloseOnline(history: seq<Limits>, plans: seq<Junction>, k: nat)
    requires |plans| <= |history| && WellLinked(history)
    requires |history| > 0 ==> history[0].maxSmoothed == history[0].maxStart == 0.0
    requires plans == PlanOf(history, 0, |plans|)
    requires 0 < |plans| < |history| ==> Settled(history, |plans|, k)
    ensures Online(history, plans)
  {
  }

  /** Handing out `count` more moves, by a full flush or up to the commit point. */
  lemma {:induction false} OnlineStep(history: seq<Limits>, plans: seq<Junction>, count: nat, all: seq<Junction>)
    requires Online(history, plans) && |plans| + count <= |history|
    requires |plans| + count == |history| || CommitPoint(history[|plans|..], 0) == Some(count)
    requires all == plans + PlanOf(history, |plans|, count)
    ensures Online(history, all)
  {
    OpenOnline(history, plans);
    PlanOfSplit(history, 0, |plans|, count);
    assert |all| == |plans| + count;
    var k := 0;
    if 0 < |all| < |history| {
      k := SettledAfter(history, plans, count);
    }
    CloseOnline(history, all, k);
  }

  lemma {:induction false} SettledAfter(history: seq<Limits>, plans: seq<Junction>, count: nat) returns (k: nat)
    requires Online(history, plans) && |plans| + count < |history|
    requires CommitPoint(history[|plans|..], 0) == Some(count)
    ensures Settled(history, |plans| + count, k)
  {
    OnlineSuffix(history, plans);
    CommitSettles(history[|plans|..], 0, count);
    var k0: nat :| Settled(history[|plans|..], count, k0);
    SettledInWhole(history, |plans|, count, k0);
    k := |plans| + k0;
  }

  lemma {:induction false} TablePlan(q: seq<Limits>, t: Tables, count: nat)
    requires Agrees(q, t) && count <= |q|
    ensures PlanOf(q, 0, count) == t.plan[..count]
  {
    if count > 0 {
      TablePlan(q, t, count - 1);
      assert t.plan[count - 1] == JunctionOf(q, count - 1);
      assert t.plan[..count] == t.plan[..count - 1] + [t.plan[count - 1]];
    }
  }

  lemma {:induction false} SettledInWhole(h: seq<Limits>, d: nat, f: nat, k: nat)
    requires d <= |h| && Settled(h[d..], f, k)
    ensures Settled(h, d + f, d + k)
  {
    SuffixPeaks(h, d, d + f);
    SuffixPeaks(h, d, d + k);
    SuffixSpeeds(h, d, d + k);
    forall j | d + f < j < d + k ensures Delayed(h, j) {
      SuffixPeaks(h, d, j);
      assert Delayed(h[d..], j - d);
    }
  }

  /** A lazy flush never hands out the last move. */
  lemma {:induction false} CommitLeavesSome(q: seq<Limits>, i: nat)
    requires WellLinked(q) && i <= |q|
    ensures CommitPoint(q, i).Some? ==> CommitPoint(q, i).value + 1 < |q|
  {
    if CommitPoint(q, i).Some? {
      CommitSettles(q, i, CommitPoint(q, i).value);
    }
  }

  /** t tabulates the recurrences for q. */
  ghost predicate Agrees(q: seq<Limits>, t: Tables) {
    && t.Shape(|q|)
    && (forall j {:trigger t.start[j]} :: 0 <= j <= |q| ==> t.start[j] == Start(q, j))
    && (forall j {:trigger t.smoothed[j]} :: 0 <= j <= |q| ==> t.smoothed[j] == Smoothed(q, j))
    && (forall j {:trigger t.peak[j]} :: 0 <= j <= |q| ==> t.peak[j] == Peak(q, j))
    && (forall j {:trigger t.commit[j]} :: 0 <= j <= |q| ==> t.commit[j] == CommitPoint(q, j))
    && (forall j {:trigger t.delayed[j]} :: 0 <= j < |q| ==> t.delayed[j] == Delayed(q, j))
    && (forall j {:trigger t.newPeak[j]} :: 0 <= j < |q| ==> t.newPeak[j] == NewPeak(q, j))
    && (forall j {:trigger t.cap[j]} :: 0 <= j < |q| ==> t.cap[j] == Cap(q, j))
    && (forall j {:trigger t.plan[j]} :: 0 <= j < |q| ==> t.plan[j] == JunctionOf(q, j))
  }

  lemma {:induction false} MakeTables(q: seq<Limits>, accel: seq<real>) returns (t: Tables)
    requires |accel| == |q|
    ensures Agrees(q, t) && t.accel == accel
  {
    var n := |q|;
    t := Tables(seq(n + 1, j requires 0 <= j <= n => Start(q, j)),
                seq(n + 1, j requires 0 <= j <= n => Smoothed(q, j)),
                seq(n + 1, j requires 0 <= j <= n => Peak(q, j)),
                seq(n + 1, j requires 0 <= j <= n => CommitPoint(q, j)),
                accel,
                seq(n, j requires 0 <= j < n => Delayed(q, j)),
                seq(n, j requires 0 <= j < n => NewPeak(q, j)),
                seq(n, j requires 0 <= j < n => Cap(q, j)),
                seq(n, j requires 0 <= j < n => JunctionOf(q, j)));
  }

  lemma {:induction false} TableStep(q: seq<Limits>, t: Tables, j: nat)
    requires Agrees(q, t) && j < |q|
    ensures t.StepAt(j, q[j])
    ensures j > 0 && t.delayed[j] ==> t.DelayedAt(j)
  {
  }

  lemma {:induction false} TableDoable(q: seq<Limits>, t: Tables, j: nat, m: Move)
    requires WellLinked(q) && Agrees(q, t) && j < |q| && !Delayed(q, 0)
    requires m.Valid() && m.accel == t.accel[j] && m.Bounds() == q[j]
    ensures Doable(t.plan[j], m.moveD, t.accel[j])
  {
    assert t.plan[j] == JunctionOf(q, j);
    Feasible(q, j);
    WithinBudget(t.plan[j], m.moveD, t.accel[j], q[j].delta);
  }

  lemma {:induction false} WithinBudget(j: Junction, moveD: real, accel: real, delta: real)
    requires 0.0 < moveD && 0.0 < accel && delta == 2.0 * moveD * accel
    requires 0.0 <= j.start <= j.cruise && 0.0 <= j.end <= j.cruise && 0.0 < j.cruise
    requires (j.cruise - j.start) + (j.cruise - j.end) <= delta
    ensures Doable(j, moveD, accel)
  {
  }

  ghost predicate Distinct(s: seq<Move>) {
    forall i, j :: 0 <= i < j < |s| ==> s[i] != s[j]
  }

  /** The recurrences of module Planner for one queue, tabulated. */
  datatype Tables = Tables(start: seq<real>, smoothed: seq<real>, peak: seq<real>, commit: seq<Option<nat>>,
                           accel: seq<real>, delayed: seq<bool>, newPeak: seq<bool>, cap: seq<real>, plan: seq<Junction>)
  {
    ghost predicate Shape(n: nat) {
      && |start| == |smoothed| == |peak| == |commit| == n + 1
      && |accel| == |delayed| == |newPeak| == |cap| == |plan| == n
    }

    ghost predicate StepAt(j: int, m: Limits)
      requires Shape(|plan|) && 0 <= j < |plan|
    {
      && start[j] == Min(m.maxStart, start[j + 1] + m.delta)
      && smoothed[j] == Min(m.maxSmoothed, smoothed[j + 1] + m.smoothDelta)
      && delayed[j] == (smoothed[j] >= smoothed[j + 1] + m.smoothDelta)
      && newPeak[j] == (!delayed[j] && (smoothed[j] + m.smoothDelta > smoothed[j + 1]
                                        || (j + 1 < |plan| && delayed[j + 1])))
      && peak[j] == (if newPeak[j] then Min(m.maxCruise, (smoothed[j] + smoothed[j + 1] + m.smoothDelta) * 0.5)
                     else peak[j + 1])
      && commit[j] == (if commit[j + 1].None? && newPeak[j] && peak[j + 1] != 0.0 then Some(j) else commit[j + 1])
      && (newPeak[j] ==> cap[j] == peak[j])
      && (!delayed[j] ==>
          var c := Min(Min((start[j] + (start[j + 1] + m.delta)) * 0.5, m.maxCruise), peak[j]);
          plan[j] == Junction(Min(start[j], c), c, Min(start[j + 1], c)))
    }

    ghost predicate DelayedAt(j: int)
      requires Shape(|plan|) && 0 < j < |plan|
    {
      && cap[j] == Min(cap[j - 1], start[j])
      && plan[j] == Junction(Min(start[j], cap[j]), cap[j], Min(start[j + 1], cap[j]))
    }
  }
}
