/**
  The path of a move through toolhead.py: ToolHead.move queues it in the look-ahead
  queue, a flush plans it, and _process_moves feeds it to the trapezoid motion queue.
  The invariant Valid() says that the motion queue built so far is continuous in time,
  position and speed, whatever mix of lazy and full flushes produced it.
*/
module PrinterToolHead {
  import opened Common
  import opened Planner
  import opened Kinematics
  import opened LookAhead
  import opened TrapQueue

  /** The speed at which the last handed-out move ends. */
  ghost function SpeedAfter(sqrt: real -> real, plans: seq<Junction>): real {
    if plans == [] then 0.0 else sqrt(plans[|plans| - 1].end)
  }

  function MoveEnd(m: Move): Coord {
    if m.isKinematicMove then Advance(m.startPos, m.axesR, m.moveD) else m.startPos
  }

  /** The moves lead from one position to another. */
  ghost predicate Path(s: seq<Move>, from: Coord, to: Coord) {
    if s == [] then from == to else s[0].startPos == from && Path(s[1..], MoveEnd(s[0]), to)
  }

  lemma {:induction false} PathSplit(s: seq<Move>, k: nat, from: Coord, to: Coord) returns (mid: Coord)
    requires Path(s, from, to) && k <= |s|
    ensures Path(s[..k], from, mid) && Path(s[k..], mid, to)
  {
    if k == 0 {
      mid := from;
      assert s[0..] == s;
    } else {
      mid := PathSplit(s[1..], k - 1, MoveEnd(s[0]), to);
      assert s[..k][1..] == s[1..][..k - 1] && s[1..][k - 1..] == s[k..];
    }
  }

  lemma {:induction false} PathAppend(s: seq<Move>, m: Move, from: Coord, to: Coord)
    requires Path(s, from, to) && m.startPos == to
    ensures Path(s + [m], from, MoveEnd(m))
  {
    if s != [] {
      PathAppend(s[1..], m, MoveEnd(s[0]), to);
      assert (s + [m])[1..] == s[1..] + [m];
    } else {
      assert Path([], MoveEnd(m), MoveEnd(m));
    }
  }

  lemma {:induction false} PathAt(s: seq<Move>, from: Coord, to: Coord, i: nat)
    requires Path(s, from, to) && i < |s|
    ensures s[0].startPos == from
    ensures MoveEnd(s[i]) == if i + 1 < |s| then s[i + 1].startPos else to
  {
    if i > 0 {
      PathAt(s[1..], MoveEnd(s[0]), to, i - 1);
    } else if |s| > 1 {
      PathAt(s[1..], MoveEnd(s[0]), to, 0);
    }
  }

  /** An extrude-only move, and the move behind it, have no junction speed. */
  ghost predicate ExtrudeRests(kinematic: seq<bool>, q: seq<Limits>)
    requires |kinematic| == |q|
  {
    q == [] || (&& (kinematic[0] || (q[0].maxStart == 0.0 && (|q| > 1 ==> q[1].maxStart == 0.0)))
                && ExtrudeRests(kinematic[1..], q[1..]))
  }

  lemma {:induction false} RestsAt(kinematic: seq<bool>, q: seq<Limits>, i: nat)
    requires |kinematic| == |q| && i < |q| && ExtrudeRests(kinematic, q) && !kinematic[i]
    ensures q[i].maxStart == 0.0 && (i + 1 < |q| ==> q[i + 1].maxStart == 0.0)
  {
    if i > 0 {
      RestsAt(kinematic[1..], q[1..], i - 1);
    }
  }

  lemma {:induction false} ExtrudeRestsAppend(kinematic: seq<bool>, q: seq<Limits>, k: bool, m: Limits)
    requires |kinematic| == |q| && ExtrudeRests(kinematic, q)
    requires !k || (kinematic != [] && !kinematic[|kinematic| - 1]) ==> m.maxStart == 0.0
    ensures ExtrudeRests(kinematic + [k], q + [m])
  {
    if q != [] {
      ExtrudeRestsAppend(kinematic[1..], q[1..], k, m);
      assert (kinematic + [k])[1..] == kinematic[1..] + [k] && (q + [m])[1..] == q[1..] + [m];
    } else {
      assert ExtrudeRests([k][1..], [m][1..]);
    }
  }

  lemma {:induction false} ExtrudeRestsSuffix(kinematic: seq<bool>, q: seq<Limits>, n: nat)
    requires |kinematic| == |q| && n <= |q| && ExtrudeRests(kinematic, q)
    ensures ExtrudeRests(kinematic[n..], q[n..])
  {
    if n > 0 {
      ExtrudeRestsSuffix(kinematic[1..], q[1..], n - 1);
      assert kinematic[1..][n - 1..] == kinematic[n..] && q[1..][n - 1..] == q[n..];
    } else {
      assert kinematic[0..] == kinematic && q[0..] == q;
    }
  }

  /** A planned move, as a motion. */
  ghost predicate Runs(m: Motion, sqrt: real -> real, j: Junction) {
    && m.startV == sqrt(j.start) && m.endV == sqrt(j.end)
    && IsTrapezoid(m.moveD, m.accel, m.startV, m.cruiseV, m.endV, m.accelT, m.cruiseT, m.decelT)
  }

  lemma {:induction false} RestingMove(h: seq<Limits>, i: nat)
    requires WellLinked(h) && i < |h| && !Delayed(h, 0)
    requires h[i].maxStart == 0.0 && (i + 1 < |h| ==> h[i + 1].maxStart == 0.0)
    ensures JunctionOf(h, i).start == JunctionOf(h, i).end == 0.0
  {
    Feasible(h, i);
    SmoothedBelowStart(h, i + 1);
  }

  lemma {:induction false} SqrtZero(sqrt: real -> real)
    requires IsSqrt(sqrt)
    ensures sqrt(0.0) == 0.0
  {
    SqrtOf(sqrt, 0.0);
    SquaresOrdered(sqrt(0.0), 0.0);
  }

  lemma {:induction false} MotionSound(h: seq<Limits>, plans: seq<Junction>, kinematic: seq<bool>, n: nat, i: nat,
                                       m: Motion, sqrt: real -> real)
    requires IsSqrt(sqrt) && Online(h, plans) && |plans| + n <= |h| && i < n
    requires |kinematic| == |h| - |plans| && ExtrudeRests(kinematic, h[|plans|..])
    requires m.isKinematicMove == kinematic[i] && Runs(m, sqrt, PlanOf(h, |plans|, n)[i])
    ensures m.Sound()
  {
    var d := |plans|;
    OpenOnline(h, plans);
    FirstIsPlanned(h);
    SqrtZero(sqrt);
    if !kinematic[i] {
      RestsAt(kinematic, h[d..], i);
      RestingMove(h, d + i);
      PlanOfAt(h, d, n, i);
    }
  }

  /** A full flush comes to rest. */
  lemma {:induction false} EndsAtSpeedZero(h: seq<Limits>, d: nat, n: nat, sqrt: real -> real)
    requires IsSqrt(sqrt) && WellLinked(h) && 0 < n && d + n == |h| && !Delayed(h, 0)
    ensures SpeedAfter(sqrt, PlanOf(h, d, n)) == 0.0
  {
    SqrtZero(sqrt);
    EndsAtRest(h);
    PlanOfAt(h, d, n, n - 1);
  }

  /** The moves a flush hands out: planned with these junctions, one path. */
  ghost predicate Ready(h: seq<Limits>, plans: seq<Junction>, all: seq<Move>, ready: seq<Move>,
                        junctions: seq<Junction>, sqrt: real -> real)
    reads ready
  {
    && IsSqrt(sqrt) && Online(h, plans) && |plans| + |all| == |h| && ready <= all
    && junctions == PlanOf(h, |plans|, |ready|)
    && ExtrudeRests(Kinematic(all), h[|plans|..])
    && forall i {:trigger ready[i].Trapezoid(sqrt, junctions[i])} :: 0 <= i < |ready| ==>
         ready[i].Trapezoid(sqrt, junctions[i])
  }

  lemma {:induction false} ReadyPlanned(h: seq<Limits>, plans: seq<Junction>, all: seq<Move>, ready: seq<Move>,
                                        junctions: seq<Junction>, sqrt: real -> real)
    requires Ready(h, plans, all, ready, junctions, sqrt)
    ensures Planned(ready, sqrt, h, plans)
  {
    forall i | 0 <= i < |ready| ensures ready[i].Trapezoid(sqrt, PlanOf(h, |plans|, |ready|)[i]) {
      assert ready[i].Trapezoid(sqrt, junctions[i]);
    }
  }

  /** The plan of a batch makes its motions join up, among themselves and with the
      moves handed out before. */
  lemma {:induction false} BatchReady(h: seq<Limits>, plans: seq<Junction>, all: seq<Move>, ready: seq<Move>,
                                      junctions: seq<Junction>, sqrt: real -> real, pos: Coord, mid: Coord, n: nat)
    requires Ready(h, plans, all, ready, junctions, sqrt) && Path(ready, pos, mid) && n <= |ready|
    ensures var ms := Motions(ready)[..n];
            && Chained(ms, pos, SpeedAfter(sqrt, plans))
            && LastPos(ms, pos) == (if n < |ready| then ready[n].startPos else mid)
            && LastV(ms, SpeedAfter(sqrt, plans)) ==
               (if n == 0 then SpeedAfter(sqrt, plans) else sqrt(junctions[n - 1].end))
  {
    var ms := Motions(ready);
    if n == 0 {
      assert ms[..0] == [];
      if ready != [] {
        PathAt(ready, pos, mid, 0);
      }
    } else {
      BatchReady(h, plans, all, ready, junctions, sqrt, pos, mid, n - 1);
      PathAt(ready, pos, mid, n - 1);
      assert ready[n - 1].Trapezoid(sqrt, junctions[n - 1]);
      assert ms[n - 1] == ready[n - 1].AsMotion() && ms[..n][..n - 1] == ms[..n - 1];
      MotionSound(h, plans, Kinematic(all), |ready|, n - 1, ms[n - 1], sqrt);
      SpeedsJoin(h, plans, junctions, sqrt, n - 1);
    }
  }

  lemma {:induction false} SpeedsJoin(h: seq<Limits>, plans: seq<Junction>, junctions: seq<Junction>,
                                      sqrt: real -> real, i: nat)
    requires IsSqrt(sqrt) && Online(h, plans) && |plans| + |junctions| <= |h| && i < |junctions|
    requires junctions == PlanOf(h, |plans|, |junctions|)
    ensures sqrt(junctions[i].start) == if i == 0 then SpeedAfter(sqrt, plans) else sqrt(junctions[i - 1].end)
  {
    OpenOnline(h, plans);
    FirstIsPlanned(h);
    SqrtZero(sqrt);
    PlanJoins(h, |plans|, |junctions|);
    if i > 0 {
      assert junctions[i - 1].end == junctions[i].start;
    }
  }

  /** A print time resync only happens at rest, where it leaves the queue continuous. */
  lemma {:induction false} BatchEnd(q: seq<Segment>, printTime: real, resync: real, ms: seq<Motion>, pos: Coord,
                                    v: real)
    requires Chained(ms, pos, v) && 0.0 < printTime && Follows(q, printTime, pos, v)
    requires v != 0.0 ==> resync <= printTime
    ensures var start := Max(printTime, resync);
            var end := Max(start, EndOf(start, ms));
            0.0 < end && Follows(FedAll(q, start, ms), end, LastPos(ms, pos), LastV(ms, v))
  {
    var start := Max(printTime, resync);
    if printTime < start {
      FollowsAtRest(q, printTime, start, pos);
    }
    BatchFollows(q, start, ms, pos, v);
  }

  /** Feeding the moves of a flush keeps the motion queue continuous. */
  lemma {:induction false} BatchKeeps(q: seq<Segment>, printTime: real, resync: real, h: seq<Limits>,
                                      plans: seq<Junction>, all: seq<Move>, ready: seq<Move>, junctions: seq<Junction>,
                                      sqrt: real -> real, pos: Coord, mid: Coord)
    requires 0.0 < printTime && Follows(q, printTime, pos, SpeedAfter(sqrt, plans))
    requires plans != [] ==> resync <= printTime
    requires Ready(h, plans, all, ready, junctions, sqrt) && Path(ready, pos, mid) && ready != []
    ensures LastPos(Motions(ready), pos) == mid
    ensures var start := Max(printTime, resync);
            var end := Max(start, EndOf(start, Motions(ready)));
            0.0 < end && Follows(FedAll(q, start, Motions(ready)), end, mid, SpeedAfter(sqrt, junctions))
  {
    BatchReady(h, plans, all, ready, junctions, sqrt, pos, mid, |ready|);
    assert Motions(ready)[..|ready|] == Motions(ready);
    BatchEnd(q, printTime, resync, Motions(ready), pos, SpeedAfter(sqrt, plans));
  }

  /** The end speed of a batch is that of the last junction handed out, or zero at the end. */
  lemma {:induction false} SpeedCarries(h: seq<Limits>, plans: seq<Junction>, junctions: seq<Junction>, last: bool,
                                        sqrt: real -> real)
    requires IsSqrt(sqrt) && Online(h, plans) && junctions != [] && |plans| + |junctions| <= |h|
    requires junctions == PlanOf(h, |plans|, |junctions|) && (last ==> |plans| + |junctions| == |h|)
    ensures SpeedAfter(sqrt, junctions) == SpeedAfter(sqrt, plans + junctions)
    ensures last ==> SpeedAfter(sqrt, junctions) == SpeedAfter(sqrt, [])
  {
    if last {
      OpenOnline(h, plans);
      FirstIsPlanned(h);
      EndsAtSpeedZero(h, |plans|, |junctions|, sqrt);
    }
  }

  /** All that handing out a batch does to the invariant of ToolHead. */
  lemma {:induction false} BatchResult(q: seq<Segment>, printTime: real, resync: real, h: seq<Limits>,
                                       plans: seq<Junction>, all: seq<Move>, ready: seq<Move>, junctions: seq<Junction>,
                                       sqrt: real -> real, pos: Coord, to: Coord, rest: seq<Move>,
                                       newHistory: seq<Limits>, newPlans: seq<Junction>)
    returns (mid: Coord)
    requires 0.0 < printTime && Follows(q, printTime, pos, SpeedAfter(sqrt, plans))
    requires plans != [] ==> resync <= printTime
    requires Ready(h, plans, all, ready, junctions, sqrt) && Path(all, pos, to)
    requires all == ready + rest && (all == [] ==> plans == [])
    requires if rest == [] then newHistory == [] && newPlans == [] else newHistory == h && newPlans == plans + junctions
    ensures Path(rest, mid, to) && mid == if ready == [] then pos else LastPos(Motions(ready), pos)
    ensures |newPlans| + |rest| == |newHistory| && ExtrudeRests(Kinematic(rest), newHistory[|newPlans|..])
    ensures ready == [] ==> Follows(q, printTime, mid, SpeedAfter(sqrt, newPlans))
    ensures ready != [] ==>
              var start := Max(printTime, resync);
              var end := Max(start, EndOf(start, Motions(ready)));
              0.0 < end && Follows(FedAll(q, start, Motions(ready)), end, mid, SpeedAfter(sqrt, newPlans))
  {
    hide Follows, FedAll, EndOf, PlanOf, Path, Max;
    mid := PathSplit(all, |ready|, pos, to);
    assert all[..|ready|] == ready && all[|ready|..] == rest;
    if rest != [] {
      ExtrudeRestsSuffix(Kinematic(all), h[|plans|..], |ready|);
      assert Kinematic(all)[|ready|..] == Kinematic(rest);
      assert h[|plans|..][|ready|..] == h[|plans| + |ready|..];
    }
    if ready != [] {
      BatchKeeps(q, printTime, resync, h, plans, all, ready, junctions, sqrt, pos, mid);
      SpeedCarries(h, plans, junctions, rest == [], sqrt);
    } else {
      assert plans + junctions == plans;
    }
  }

  lemma {:induction false} BatchMore(batches: seq<Batch>, b: Batch, home: Coord)
    ensures FedBatches(batches + [b]) == FedAll(FedBatches(batches), b.start, b.motions)
    ensures BatchesEnd(batches + [b], home) == LastPos(b.motions, BatchesEnd(batches, home))
  {
    assert (batches + [b])[..|batches|] == batches;
  }

  lemma {:induction false} PrefixBeforeLast(q: seq<Move>, move: Move, ready: seq<Move>, rest: seq<Move>)
    requires q + [move] == ready + rest && |ready| <= |q|
    ensures ready == q[..|ready|]
  {
    assert ready == (q + [move])[..|ready|];
  }

  /** What is ready after adding a move behind q. */
  lemma {:induction false} QueuedReady(h: seq<Limits>, plans: seq<Junction>, q: seq<Move>, move: Move, ready: seq<Move>,
                                       junctions: seq<Junction>, sqrt: real -> real, pos: Coord, to: Coord)
    requires |plans| + |q| == |h| && ExtrudeRests(Kinematic(q), h[|plans|..])
    requires Path(q, pos, to) && move.startPos == to
    requires IsSqrt(sqrt) && Online(h + [move.Bounds()], plans)
    requires |ready| <= |q| && ready == q[..|ready|]
    requires junctions == PlanOf(h + [move.Bounds()], |plans|, |ready|)
    requires forall i {:trigger ready[i].Trapezoid(sqrt, junctions[i])} :: 0 <= i < |ready| ==>
               ready[i].Trapezoid(sqrt, junctions[i])
    requires !move.isKinematicMove || (q != [] && !q[|q| - 1].isKinematicMove) ==> move.maxStartV2 == 0.0
    ensures Ready(h + [move.Bounds()], plans, q + [move], ready, junctions, sqrt)
    ensures Path(q + [move], pos, MoveEnd(move))
  {
    PathAppend(q, move, pos, to);
    QueuedRests(h, plans, q, move.Bounds(), move);
  }

  lemma {:induction false} QueuedRests(h: seq<Limits>, plans: seq<Junction>, q: seq<Move>, bounds: Limits, move: Move)
    requires |plans| + |q| == |h| && ExtrudeRests(Kinematic(q), h[|plans|..])
    requires !move.isKinematicMove || (q != [] && !q[|q| - 1].isKinematicMove) ==> bounds.maxStart == 0.0
    ensures ExtrudeRests(Kinematic(q + [move]), (h + [bounds])[|plans|..])
  {
    ExtrudeRestsAppend(Kinematic(q), h[|plans|..], move.isKinematicMove, bounds);
    assert Kinematic(q + [move]) == Kinematic(q) + [move.isKinematicMove];
    assert (h + [bounds])[|plans|..] == h[|plans|..] + [bounds];
  }

  class ToolHead {
    const lookahead: LookAheadQueue
    const trapq: Trapq
    var printTime: real
    var commandedPos: Coord
    // Where the handed-out moves end, and what was fed to the motion queue since the start at `home`
    ghost var plannedPos: Coord
    ghost var batches: seq<Batch>
    ghost const home: Coord

    ghost predicate Valid()
      reads this, lookahead, lookahead.queue, trapq
    {
      ValidTo(commandedPos)
    }

    ghost predicate ValidTo(to: Coord)
      reads this`printTime, this`plannedPos, this`batches, lookahead, lookahead.queue, trapq
    {
      && lookahead.Valid()
      && 0.0 < printTime
      && Path(lookahead.queue, plannedPos, to)
      && ExtrudeRests(Kinematic(lookahead.queue), lookahead.history[|lookahead.plans|..])
      && Follows(trapq.moves, printTime, plannedPos, SpeedAfter(lookahead.sqrt, lookahead.plans))
      && trapq.moves == FedBatches(batches) && plannedPos == BatchesEnd(batches, home)
    }

    constructor (sqrt: real -> real, printTime: real, home: Coord)
      requires IsSqrt(sqrt) && 0.0 < printTime
      ensures Valid() && lookahead.queue == [] && trapq.moves == [] && batches == []
      ensures commandedPos == this.home == home
    {
      lookahead := new LookAheadQueue(sqrt);
      trapq := new Trapq();
      this.printTime := printTime;
      this.home, commandedPos, plannedPos, batches := home, home, home, [];
    }

    /** _flush_lookahead: plan everything queued, for a stop after the last move, and feed all of
        it to the motion queue as one batch. */
    method FlushLookahead(resync: real)
      requires Valid()
      requires lookahead.plans != [] ==> resync <= printTime
      modifies this`printTime, this`plannedPos, this`batches, trapq, lookahead, lookahead.queue`profile,
               lookahead.queue`planned
      ensures Valid() && lookahead.queue == []
      ensures Follows(trapq.moves, printTime, commandedPos, 0.0) && commandedPos == BatchesEnd(batches, home)
      ensures old(trapq.moves) <= trapq.moves
      ensures batches == old(batches) + BatchOf(old(lookahead.queue), Max(old(printTime), resync))
      ensures Planned(old(lookahead.queue), lookahead.sqrt, old(lookahead.history), old(lookahead.plans))
    {
      ghost var h, plans, all := lookahead.history, lookahead.plans, lookahead.queue;
      hide Follows, Online, ExtrudeRests, Path, SpeedAfter, FedBatches, BatchesEnd, Planned, Motions, Max, PlanOf;
      var ready, junctions := lookahead.Flush(false);
      assert ready == all;
      assert ready[..|ready|] == ready;
      HandOut(ready, junctions, h, plans, all, commandedPos, resync);
    }

    /** ToolHead.move: the move starts where the last one ends; enough queued move time
        makes the queue hand out a prefix, which is fed to the motion queue as one batch. */
    method QueueMove(move: Move, geometry: Option<real>, resync: real) returns (ghost ready: seq<Move>)
      requires Valid() && move.Valid() && move !in lookahead.queue && move.startPos == commandedPos
      requires move.maxStartV2 == 0.0 && move.maxSmoothedV2 == 0.0
      requires geometry.Some? ==> 0.0 <= geometry.value
      requires lookahead.plans != [] ==> resync <= printTime
      modifies this`printTime, this`plannedPos, this`batches, this`commandedPos, trapq
      modifies lookahead, lookahead.queue`profile, lookahead.queue`planned
      modifies move`maxStartV2, move`maxSmoothedV2, move`profile, move`planned
      ensures Valid() && commandedPos == MoveEnd(move)
      ensures old(lookahead.queue) + [move] == ready + lookahead.queue && ready <= old(lookahead.queue)
      ensures old(trapq.moves) <= trapq.moves
      ensures batches == old(batches) + BatchOf(ready, Max(old(printTime), resync))
      ensures Planned(ready, lookahead.sqrt, old(lookahead.history) + [move.Bounds()], old(lookahead.plans))
    {
      hide Follows, Online, ExtrudeRests, Path, SpeedAfter, FedBatches, BatchesEnd, Planned, Ready, Motions,
           Kinematic, Max,
           PlanOf;
      ghost var plans, q := lookahead.plans, lookahead.queue;
      var moves;
      ghost var junctions;
      moves, junctions := AddToLookahead(move, geometry);
      ready := moves;
      HandOut(moves, junctions, lookahead.history, plans, q + [move], MoveEnd(move), resync);
      commandedPos := MoveEnd(move);
    }

    method AddToLookahead(move: Move, geometry: Option<real>) returns (ready: seq<Move>, ghost junctions: seq<Junction>)
      requires lookahead.Valid() && move.Valid() && move !in lookahead.queue && move.startPos == commandedPos
      requires move.maxStartV2 == 0.0 && move.maxSmoothedV2 == 0.0
      requires geometry.Some? ==> 0.0 <= geometry.value
      requires Path(lookahead.queue, plannedPos, commandedPos)
      requires ExtrudeRests(Kinematic(lookahead.queue), lookahead.history[|lookahead.plans|..])
      modifies lookahead, lookahead.queue`profile, lookahead.queue`planned
      modifies move`maxStartV2, move`maxSmoothedV2, move`profile, move`planned
      ensures lookahead.Valid() && old(lookahead.queue) + [move] == ready + lookahead.queue && lookahead.queue != []
      ensures ready <= old(lookahead.queue)
      ensures lookahead.history == old(lookahead.history) + [move.Bounds()]
      ensures lookahead.plans == old(lookahead.plans) + junctions
      ensures Path(old(lookahead.queue) + [move], plannedPos, MoveEnd(move))
      ensures Ready(lookahead.history, old(lookahead.plans), old(lookahead.queue) + [move], ready, junctions, lookahead.sqrt)
    {
      hide Path, ExtrudeRests, Online, Kinematic, PlanOf, Ready;
      ghost var h, plans, q := lookahead.history, lookahead.plans, lookahead.queue;
      ready, junctions := lookahead.AddMove(move, geometry);
      PrefixBeforeLast(q, move, ready, lookahead.queue);
      QueuedReady(h, plans, q, move, ready, junctions, lookahead.sqrt, plannedPos, commandedPos);
    }

    /** What a flush does with the moves that are ready. */
    method HandOut(ready: seq<Move>, ghost junctions: seq<Junction>, ghost h: seq<Limits>, ghost plans: seq<Junction>,
                   ghost all: seq<Move>, ghost to: Coord, resync: real)
      requires lookahead.Valid() && 0.0 < printTime && (plans != [] ==> resync <= printTime)
      requires Ready(h, plans, all, ready, junctions, lookahead.sqrt)
      requires all == ready + lookahead.queue && Path(all, plannedPos, to)
      requires all == [] ==> plans == []
      requires Follows(trapq.moves, printTime, plannedPos, SpeedAfter(lookahead.sqrt, plans))
      requires trapq.moves == FedBatches(batches) && plannedPos == BatchesEnd(batches, home)
      requires if lookahead.queue == [] then lookahead.history == [] && lookahead.plans == []
               else lookahead.history == h && lookahead.plans == plans + junctions
      modifies this`printTime, this`plannedPos, this`batches, trapq
      ensures ValidTo(to) && old(trapq.moves) <= trapq.moves
      ensures batches == old(batches) + BatchOf(ready, Max(old(printTime), resync))
      ensures Planned(ready, lookahead.sqrt, h, plans)
    {
      hide Follows, FedAll, EndOf, LastPos, Ready, Online, ExtrudeRests, Path, SpeedAfter, FedBatches, BatchesEnd,
           Planned,
           Motions, Kinematic, Max;
      ReadyPlanned(h, plans, all, ready, junctions, lookahead.sqrt);
      ghost var mid := BatchResult(trapq.moves, printTime, resync, h, plans, all, ready, junctions, lookahead.sqrt,
                                   plannedPos, to, lookahead.queue, lookahead.history, lookahead.plans);
      if ready != [] {
        var start := Max(printTime, resync);
        FedAllGrows(trapq.moves, start, Motions(ready));
        BatchMore(batches, Batch(start, Motions(ready)), home);
        batches := batches + [Batch(start, Motions(ready))];
        ProcessMoves(ready, resync);
      }
      plannedPos := mid;
    }

    /** `resync` is the time that _calc_print_time asks for, or less than the print time
        when the toolhead is not in a special queuing state. */
    method ProcessMoves(moves: seq<Move>, resync: real)
      modifies this`printTime, trapq
      ensures var start := Max(old(printTime), resync);
              && trapq.moves == FedAll(old(trapq.moves), start, Motions(moves))
              && printTime == Max(start, EndOf(start, Motions(moves)))
    {
      printTime := Max(printTime, resync);
      ghost var ms := Motions(moves);
      var nextMoveTime := printTime;
      var i := 0;
      while i < |moves|
        invariant 0 <= i <= |moves| && ms == Motions(moves)
        invariant trapq.moves == FedAll(old(trapq.moves), printTime, ms[..i])
        invariant nextMoveTime == EndOf(printTime, ms[..i])
        invariant printTime == Max(old(printTime), resync)
      {
        var move := moves[i];
        assert ms[i] == move.AsMotion() && ms[..i + 1][..i] == ms[..i];
        if move.isKinematicMove {
          trapq.Append(nextMoveTime, move.AsMotion());
        }
        nextMoveTime := nextMoveTime + move.AsMotion().Duration();
        i := i + 1;
      }
      assert ms[..|moves|] == ms;
      printTime := Max(printTime, nextMoveTime);
    }
  }

  /** What is fed for the moves of a flush. */
  ghost function BatchOf(ready: seq<Move>, start: real): seq<Batch>
    reads ready
  {
    if ready == [] then [] else [Batch(start, Motions(ready))]
  }

  /** The moves run as the plan of all moves added since the queue was last empty says. */
  ghost predicate Planned(ready: seq<Move>, sqrt: real -> real, h: seq<Limits>, plans: seq<Junction>)
    reads ready
  {
    && |plans| + |ready| <= |h|
    && forall i {:trigger ready[i]} :: 0 <= i < |ready| ==>
         ready[i].Trapezoid(sqrt, PlanOf(h, |plans|, |ready|)[i])
  }

  ghost function Kinematic(s: seq<Move>): (k: seq<bool>)
    ensures |k| == |s| && forall i {:trigger k[i]} :: 0 <= i < |s| ==> k[i] == s[i].isKinematicMove
  {
    seq(|s|, i requires 0 <= i < |s| => s[i].isKinematicMove)
  }

  ghost function Motions(s: seq<Move>): (ms: seq<Motion>)
    reads s
    ensures |ms| == |s| && forall i {:trigger ms[i]} :: 0 <= i < |s| ==> ms[i] == s[i].AsMotion()
  {
    seq(|s|, i requires 0 <= i < |s| reads s => s[i].AsMotion())
  }
}
