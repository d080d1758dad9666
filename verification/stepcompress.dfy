/**
  struct stepcompress: the queue of step times, the filter for step+dir+step, the messages
  and the history made from them (the second half of stepcompress.c).

  The queue holds the low 32 bits of step clocks; the true clocks are kept beside it as ghosts.
*/
module StepCompressor {
  import opened Common
  import opened StepSearch
  import opened StepLog
  import opened Kinematics

  // ----- The 32-bit queue -----

  function Relative(clocks: seq<int>, last: int): (points: seq<int>)
    ensures |points| == |clocks|
    ensures forall i :: 0 <= i < |points| ==> points[i] == clocks[i] - last
  {
    seq(|clocks|, i requires 0 <= i < |clocks| => clocks[i] - last)
  }

  /** `*pos - lsc` in 32 bits */
  function Difference(q: int, last: int): int {
    (q - last % WORD) % WORD
  }

  function Differences(queue: seq<int>, last: int): (points: seq<int>)
    ensures |points| == |queue|
    ensures forall i :: 0 <= i < |points| ==> points[i] == Difference(queue[i], last)
  {
    seq(|queue|, i requires 0 <= i < |queue| => Difference(queue[i], last))
  }

  lemma {:induction false} DifferenceIsTrue(clock: int, last: int)
    requires 0 <= clock - last < WORD
    ensures Difference(clock % WORD, last) == clock - last
  {
    var k := clock / WORD - last / WORD;
    assert clock % WORD - last % WORD == clock - last - k * WORD;
    Shifted(clock - last, -k);
  }

  ghost predicate InQueue(queue: seq<int>, clocks: seq<int>, last: int, i: nat)
    requires i < |queue| == |clocks|
  {
    && queue[i] == clocks[i] % WORD
    && last <= clocks[i] < last + CLOCK_DIFF_MAX
    && clocks[i] < MAX_CLOCK
    && (i > 0 ==> clocks[i - 1] <= clocks[i])
  }

  ghost predicate QueueFacts(seal: Seal, queue: seq<int>, clocks: seq<int>, last: int) {
    && |queue| == |clocks|
    && (forall i: nat :: i < |queue| ==> InQueue(queue, clocks, last, i))
    && (forall i, j :: 0 <= i < j < |clocks| ==> clocks[i] <= clocks[j])
  }

  /** The 32-bit entries recover the true clocks, which do not go back, start no earlier than the
      last step sent, and are within reach of it. */
  ghost predicate QueueOk(queue: seq<int>, clocks: seq<int>, last: int) {
    forall seal :: QueueFacts(seal, queue, clocks, last)
  }

  lemma {:induction false} QueueSame(queue: seq<int>, clocks: seq<int>, last: int)
    requires QueueOk(queue, clocks, last)
    ensures |queue| == |clocks|
  {
    assert QueueFacts(Whole, queue, clocks, last);
  }

  lemma {:induction false} QueuePoints(queue: seq<int>, clocks: seq<int>, last: int)
    requires QueueOk(queue, clocks, last)
    ensures Rising(Relative(clocks, last)) && Near(Relative(clocks, last))
    ensures |queue| == |clocks|
    ensures forall i :: 0 <= i < |queue| ==> Difference(queue[i], last) == clocks[i] - last
  {
    assert QueueFacts(Whole, queue, clocks, last);
    forall i | 0 <= i < |queue|
      ensures Difference(queue[i], last) == clocks[i] - last && 0 <= clocks[i] - last < CLOCK_DIFF_MAX
    {
      assert InQueue(queue, clocks, last, i);
      DifferenceIsTrue(clocks[i], last);
    }
  }

  lemma {:induction false} QueuePush(queue: seq<int>, clocks: seq<int>, last: int, clock: int)
    requires QueueOk(queue, clocks, last) && LastDue(clocks, last) <= clock < last + CLOCK_DIFF_MAX && clock < MAX_CLOCK
    ensures QueueOk(queue + [clock % WORD], clocks + [clock], last)
  {
    var q, c := queue + [clock % WORD], clocks + [clock];
    assert QueueFacts(Whole, queue, clocks, last);
    DueBounds(queue, clocks, last);
    forall i: nat | i < |q| ensures InQueue(q, c, last, i) {
      if i < |queue| {
        assert InQueue(queue, clocks, last, i);
      }
    }
  }

  lemma {:induction false} QueueDrop(queue: seq<int>, clocks: seq<int>, last: int, n: nat, newLast: int)
    requires QueueOk(queue, clocks, last) && 1 <= n <= |queue| == |clocks|
    requires last <= newLast <= clocks[n - 1]
    ensures QueueOk(queue[n..], clocks[n..], newLast)
    ensures newLast <= LastDue(clocks[n..], newLast) <= LastDue(clocks, last)
  {
    assert QueueFacts(Whole, queue, clocks, last);
    forall i: nat | i < |queue[n..]| ensures InQueue(queue[n..], clocks[n..], newLast, i) {
      assert InQueue(queue, clocks, last, n + i);
    }
  }

  /** The clock of the newest step queued or sent. */
  function LastDue(clocks: seq<int>, last: int): int {
    if clocks == [] then last else clocks[|clocks| - 1]
  }

  lemma {:induction false} DueBounds(queue: seq<int>, clocks: seq<int>, last: int)
    requires QueueOk(queue, clocks, last)
    ensures last <= LastDue(clocks, last)
    ensures |queue| == |clocks|
    ensures forall i :: 0 <= i < |clocks| ==> last <= clocks[i] <= LastDue(clocks, last) && clocks[i] < MAX_CLOCK
  {
    assert QueueFacts(Whole, queue, clocks, last);
    forall i | 0 <= i < |clocks| ensures last <= clocks[i] < MAX_CLOCK {
      assert InQueue(queue, clocks, last, i);
    }
  }

  function Queued(clocks: seq<int>, dir: int): (steps: seq<StepAt>)
    ensures |steps| == |clocks|
    ensures forall i :: 0 <= i < |steps| ==> steps[i] == StepAt(clocks[i], dir)
  {
    seq(|clocks|, i requires 0 <= i < |clocks| => StepAt(clocks[i], dir))
  }

  lemma {:induction false} QueuedNet(clocks: seq<int>, dir: int)
    ensures Net(Queued(clocks, dir)) == |clocks| * Sign(dir)
  {
    if clocks != [] {
      QueuedNet(clocks[..|clocks| - 1], dir);
      assert Queued(clocks, dir)[..|clocks| - 1] == Queued(clocks[..|clocks| - 1], dir);
    }
  }

  // ----- What has been sent -----

  /** Every move of the history (oldest first), the steps they were for, every message. */
  datatype Sent = Sent(moves: seq<HistorySteps>, taken: seq<StepAt>, emitted: seq<Message>)

  /** Messages are requested in order, none beyond the last step sent. */
  ghost predicate Requests(emitted: seq<Message>, last: int) {
    && (forall i :: 0 <= i < |emitted| ==> 0 <= MinClock(emitted[i]) <= emitted[i].reqClock <= last)
    && (forall i, j :: 0 <= i < j < |emitted| ==> emitted[i].reqClock <= emitted[j].reqClock)
  }

  /** The history: one pulse for each step taken, as close as promised, and the position is
      their net. */
  ghost predicate LogOk(moves: seq<HistorySteps>, taken: seq<StepAt>, maxError: nat, last: int, position: int) {
    && Chain(moves)
    && Tracks(moves, taken, maxError)
    && last == LastClock(moves)
    && position == Net(AllPulses(moves))
  }

  ghost predicate SentOk(s: Sent, maxError: nat, last: int, position: int, sdir: int) {
    forall seal :: SentFacts(seal, s, maxError, last, position, sdir)
  }

  ghost predicate SentFacts(seal: Seal, s: Sent, maxError: nat, last: int, position: int, sdir: int) {
    && LogOk(s.moves, s.taken, maxError, last, position)
    && Emits(s.emitted, s.moves, sdir)
    && Requests(s.emitted, last)
  }

  /** The history entry that add_move makes. */
  function Entry(firstClock: int, move: StepMove, position: int, sdir: int): HistorySteps
    requires move.count >= 0
  {
    HistorySteps(firstClock, firstClock + Pulse(move.interval, move.add, move.count) - move.interval, position,
                 if sdir != 0 then move.count else -move.count, AsInt32(move.interval), move.add)
  }

  /** A command that add_move may be given: its pulses are for `steps`. */
  ghost predicate MayAdd(last: int, firstClock: int, move: StepMove, sdir: int, steps: seq<StepAt>, maxError: nat) {
    forall seal :: AddFacts(seal, last, firstClock, move, sdir, steps, maxError)
  }

  ghost predicate AddFacts(seal: Seal, last: int, firstClock: int, move: StepMove, sdir: int, steps: seq<StepAt>,
                           maxError: nat)
  {
    && 1 <= move.count <= MAX_COUNT && (sdir == 0 || sdir == 1)
    && 0 <= move.interval < WORD && (move.count > 1 ==> MovesOn(move.interval, move.add) && move.interval < HALF_WORD)
    && 0 <= Pulse(move.interval, move.add, move.count) - move.interval < WORD
    && Commands(last, move, Entry(firstClock, move, 0, sdir))
    && Covers(last, Entry(firstClock, move, 0, sdir), steps, maxError)
  }

  lemma {:induction false} EntryShape(firstClock: int, move: StepMove, position: int, sdir: int)
    requires 1 <= move.count && 0 <= move.interval && (move.count > 1 ==> move.interval < HALF_WORD)
    ensures var hs := Entry(firstClock, move, position, sdir);
            && Count(hs) == move.count && hs.lastClock == PulseClock(hs, move.count)
            && Dir(hs) == (if sdir != 0 then 1 else 0)
            && forall k: nat :: PulseClock(hs, k) == PulseClock(Entry(firstClock, move, 0, sdir), k)
  {
    if move.count == 1 {
      assert Pulse(AsInt32(move.interval), move.add, 1) == AsInt32(move.interval);
      assert Pulse(move.interval, move.add, 1) == move.interval;
    }
  }

  lemma {:induction false} CoversAnyPosition(last: int, firstClock: int, move: StepMove, position: int, sdir: int,
                                             steps: seq<StepAt>, maxError: nat)
    requires MayAdd(last, firstClock, move, sdir, steps, maxError)
    requires move.count >= 0
    ensures var hs := Entry(firstClock, move, position, sdir);
            Covers(last, hs, steps, maxError) && Commands(last, move, hs)
  {
    var h0, hs := Entry(firstClock, move, 0, sdir), Entry(firstClock, move, position, sdir);
    assert AddFacts(Whole, last, firstClock, move, sdir, steps, maxError);
    EntryShape(firstClock, move, position, sdir);
    forall k: nat | k < |steps| ensures CoversAt(last, hs, steps, maxError, k) {
      assert CoversAt(last, h0, steps, maxError, k);
    }
  }

  lemma {:induction false} NetOfMove(moves: seq<HistorySteps>, hs: HistorySteps)
    requires Count(hs) >= 1 && StepsForward(hs)
    ensures Net(AllPulses(moves + [hs])) == Net(AllPulses(moves)) + hs.stepCount
  {
    assert (moves + [hs])[..|moves|] == moves;
    NetAppend(AllPulses(moves), MovePulses(hs, Count(hs)));
    FullMovePosition(hs, Count(hs), PulseClock(hs, Count(hs)));
  }

  lemma {:induction false} LogMove(moves: seq<HistorySteps>, taken: seq<StepAt>, maxError: nat, last: int,
                                   position: int, hs: HistorySteps, steps: seq<StepAt>)
    requires LogOk(moves, taken, maxError, last, position)
    requires Covers(last, hs, steps, maxError) && (Count(hs) > 1 ==> MovesOn(hs.interval, hs.add))
    requires hs.lastClock == PulseClock(hs, Count(hs)) && hs.startPosition == position
    ensures LogOk(moves + [hs], taken + steps, maxError, hs.lastClock, position + hs.stepCount)
    ensures last <= hs.firstClock <= hs.lastClock <= steps[|steps| - 1].clock
  {
    CoversSteps(last, hs, steps, maxError);
    TracksMore(moves, hs, taken, steps, maxError);
    NetOfMove(moves, hs);
    MoveRises(hs, 1, Count(hs));
    assert CoversAt(last, hs, steps, maxError, |steps| - 1);
    assert (moves + [hs])[..|moves|] == moves;
  }

  lemma {:induction false} RequestsMore(emitted: seq<Message>, last: int, m: Message, newLast: int)
    requires Requests(emitted, last) && last <= m.reqClock <= newLast && 0 <= MinClock(m) <= last
    ensures Requests(emitted + [m], newLast)
  {
  }

  lemma {:induction false} RequestsRest(front: seq<Message>, rest: seq<Message>, last: int)
    requires Requests(front + rest, last)
    ensures Requests(rest, last)
  {
    var all := front + rest;
    assert forall i :: 0 <= i < |rest| ==> rest[i] == all[|front| + i];
  }

  /** add_move keeps everything that is known of what has been sent. */
  lemma {:induction false} SentMove(s: Sent, maxError: nat, last: int, position: int, sdir: int, firstClock: int,
                                    move: StepMove, steps: seq<StepAt>, m: Message)
    requires SentOk(s, maxError, last, position, sdir) && MayAdd(last, firstClock, move, sdir, steps, maxError)
    requires move.count >= 1 && steps != []
    requires m.QueueStep? && m.move == move && m.minClock == last >= 0
    requires (m.reqClock == last || m.reqClock == firstClock)
    ensures var hs := Entry(firstClock, move, position, sdir);
            && SentOk(Sent(s.moves + [hs], s.taken + steps, s.emitted + [m]), maxError, hs.lastClock,
                      position + hs.stepCount, sdir)
            && last <= hs.firstClock <= hs.lastClock <= steps[|steps| - 1].clock
  {
    var hs := Entry(firstClock, move, position, sdir);
    assert SentFacts(Whole, s, maxError, last, position, sdir);
    assert AddFacts(Whole, last, firstClock, move, sdir, steps, maxError);
    EntryShape(firstClock, move, position, sdir);
    CoversAnyPosition(last, firstClock, move, position, sdir, steps, maxError);
    LogMove(s.moves, s.taken, maxError, last, position, hs, steps);
    EmitsMove(s.emitted, s.moves, sdir, m, hs);
    RequestsMore(s.emitted, last, m, hs.lastClock);
  }

  lemma {:induction false} SentDir(s: Sent, maxError: nat, last: int, position: int, sdir: int, m: Message)
    requires SentOk(s, maxError, last, position, sdir) && m.SetNextStepDir? && m.reqClock == last >= 0
    ensures SentOk(s.(emitted := s.emitted + [m]), maxError, last, position, m.dir)
  {
    assert SentFacts(Whole, s, maxError, last, position, sdir);
    EmitsDir(s.emitted, s.moves, sdir, m);
    RequestsMore(s.emitted, last, m, last);
  }

  lemma {:induction false} SentOther(s: Sent, maxError: nat, last: int, position: int, sdir: int, m: Message)
    requires SentOk(s, maxError, last, position, sdir) && m.Other? && m.reqClock == last >= 0
    ensures SentOk(s.(emitted := s.emitted + [m]), maxError, last, position, sdir)
  {
    assert SentFacts(Whole, s, maxError, last, position, sdir);
    EmitsOther(s.emitted, s.moves, sdir, m);
    RequestsMore(s.emitted, last, m, last);
  }

  /** A command found by the search may be added for the steps that it covers. */
  lemma {:induction false} FoundMayAdd(queue: seq<int>, clocks: seq<int>, last: int, sdir: int, maxError: nat,
                                       move: StepMove)
    requires QueueOk(queue, clocks, last) && (sdir == 0 || sdir == 1)
    requires Sound(Relative(clocks, last), maxError, move) && Accepts(Relative(clocks, last), maxError, move)
    ensures MayAdd(last, last + move.interval, move, sdir, Queued(clocks[..move.count], sdir), maxError)
  {
    var points := Relative(clocks, last);
    QueuePoints(queue, clocks, last);
    SoundStepsForward(points, maxError, move, 0);
    if move.count > 1 {
      AcceptedMovesOn(points, maxError, move);
    }
    EntryShape(last + move.interval, move, 0, sdir);
    FoundCovers(clocks, last, sdir, maxError, move);
    SoundSpan(points, maxError, move, move.count);
  }

  lemma {:induction false} FoundCovers(clocks: seq<int>, last: int, sdir: int, maxError: nat, move: StepMove)
    requires Rising(Relative(clocks, last)) && Sound(Relative(clocks, last), maxError, move)
    requires (sdir == 0 || sdir == 1) && 0 <= move.interval && (move.count > 1 ==> move.interval < HALF_WORD)
    ensures Covers(last, Entry(last + move.interval, move, 0, sdir), Queued(clocks[..move.count], sdir), maxError)
  {
    var points := Relative(clocks, last);
    EntryShape(last + move.interval, move, 0, sdir);
    var hs, steps := Entry(last + move.interval, move, 0, sdir), Queued(clocks[..move.count], sdir);
    forall k: nat | k < move.count ensures CoversAt(last, hs, steps, maxError, k) {
      SoundStepsForward(points, maxError, move, k);
      WindowFacts(points, maxError, k);
      assert Inside(points, maxError, move.interval, move.add, k + 1);
      if k > 0 {
        SoundStepsForward(points, maxError, move, k - 1);
      }
    }
  }

  lemma {:induction false} AcceptedMovesOn(points: seq<int>, maxError: nat, move: StepMove)
    requires Rising(points) && Sound(points, maxError, move) && Accepts(points, maxError, move) && move.count > 1
    ensures MovesOn(move.interval, move.add) && move.interval < HALF_WORD
  {
    SoundStepsForward(points, maxError, move, 0);
    SoundStepsForward(points, maxError, move, 1);
  }

  lemma {:induction false} SoundSpan(points: seq<int>, maxError: nat, move: StepMove, k: nat)
    requires Rising(points) && Near(points) && Sound(points, maxError, move) && 1 <= k <= move.count
    ensures move.interval <= Pulse(move.interval, move.add, k) < CLOCK_DIFF_MAX
  {
    SoundStepsForward(points, maxError, move, k - 1);
    if k > 1 {
      SoundSpan(points, maxError, move, k - 1);
    } else {
      assert Pulse(move.interval, move.add, 1) == move.interval;
    }
  }

  /** A step far ahead of an empty queue may be added alone; only the low 32 bits of the gap go
      into its interval. */
  lemma {:induction false} FarMayAdd(last: int, clock: int, sdir: int, maxError: nat)
    requires clock >= last + CLOCK_DIFF_MAX && (sdir == 0 || sdir == 1)
    ensures MayAdd(last, clock, StepMove((clock - last) % WORD, 1, 0), sdir, [StepAt(clock, sdir)], maxError)
  {
    var move := StepMove((clock - last) % WORD, 1, 0);
    EntryShape(clock, move, 0, sdir);
    var hs := Entry(clock, move, 0, sdir);
    assert Pulse(move.interval, 0, 1) == move.interval;
    assert Pulse(hs.interval, 0, 1) == hs.interval;
    assert CoversAt(last, hs, [StepAt(clock, sdir)], maxError, 0);
  }

  /** A first step 2^32 + 5 ticks on: its command has interval 5, and the micro-controller's
      pulse comes at 5. */
  lemma {:induction false} FarStepTruncated()
    ensures var move, hs := StepMove(5, 1, 0), Entry(WORD + 5, StepMove(5, 1, 0), 0, 1);
            && MayAdd(0, WORD + 5, move, 1, [StepAt(WORD + 5, 1)], 0)
            && AllPulses([hs]) == [StepAt(WORD + 5, 1)]
            && Run([SetNextStepDir(1, 0), QueueStep(move, 0, WORD + 5)]).pulses == [StepAt(5, 1)]
            && !ShortGaps([hs])
  {
    var move, hs := StepMove(5, 1, 0), Entry(WORD + 5, StepMove(5, 1, 0), 0, 1);
    FarMayAdd(0, WORD + 5, 1, 0);
    assert Pulse(5, 0, 1) == 5;
    assert [hs][..0] == [];
    var first, both := SetNextStepDir(1, 0), [SetNextStepDir(1, 0), QueueStep(move, 0, WORD + 5)];
    assert both[..1] == [first] && [first][..0] == [];
    assert Run([first]) == Mcu(0, 1, []);
    assert CommandPulses(0, 1, move, 1) == [StepAt(5, 1)];
  }

  // ----- History and messages not yet collected -----

  /** The history list has the newest moves, newest first. */
  ghost predicate HistoryOk(history: seq<HistorySteps>, moves: seq<HistorySteps>) {
    && |history| <= |moves|
    && forall i :: 0 <= i < |history| ==> history[i] == moves[|moves| - 1 - i]
  }

  /** Every message is either collected by the scheduler or waiting, in order. */
  ghost predicate MessagesOk(collected: seq<Message>, msgQueue: seq<Message>, emitted: seq<Message>) {
    emitted == collected + msgQueue
  }

  /** No move that can be forgotten is left: the oldest is still needed. */
  ghost predicate IsExpired(history: seq<HistorySteps>, clock: int) {
    history == [] || history[|history| - 1].lastClock > clock
  }

  /** Nothing sent is taken back. */
  ghost predicate Grows(a: Sent, b: Sent) {
    forall seal :: GrowsFacts(seal, a, b)
  }

  ghost predicate GrowsFacts(seal: Seal, a: Sent, b: Sent) {
    a.moves <= b.moves && a.taken <= b.taken && a.emitted <= b.emitted
  }

  lemma {:induction false} GrowsStill(a: Sent)
    ensures Grows(a, a)
  {
  }

  lemma {:induction false} GrowsBy(a: Sent, moves: seq<HistorySteps>, taken: seq<StepAt>, emitted: seq<Message>)
    ensures Grows(a, Sent(a.moves + moves, a.taken + taken, a.emitted + emitted))
  {
  }

  lemma {:induction false} GrowsEmitted(a: Sent, m: Message)
    ensures Grows(a, a.(emitted := a.emitted + [m]))
  {
  }

  lemma {:induction false} GrowsOn(a: Sent, b: Sent, c: Sent)
    requires Grows(a, b) && Grows(b, c)
    ensures Grows(a, c)
  {
    assert GrowsFacts(Whole, a, b) && GrowsFacts(Whole, b, c);
  }

  /** Every command added since was started before the given clock: when the last step sent, its
      earliest clock, was before it. */
  ghost predicate StartsBefore(a: Sent, b: Sent, clock: int) {
    forall seal :: StartFacts(seal, a, b, clock)
  }

  ghost predicate StartFacts(seal: Seal, a: Sent, b: Sent, clock: int) {
    && a.emitted <= b.emitted
    && forall i :: |a.emitted| <= i < |b.emitted| && b.emitted[i].QueueStep? ==> b.emitted[i].minClock < clock
  }

  lemma {:induction false} StartsNone(a: Sent, clock: int)
    ensures StartsBefore(a, a, clock)
  {
  }

  lemma {:induction false} StartsOne(a: Sent, b: Sent, m: Message, clock: int)
    requires b.emitted == a.emitted + [m] && (m.QueueStep? ==> m.minClock < clock)
    ensures StartsBefore(a, b, clock)
  {
  }

  lemma {:induction false} StartsOn(a: Sent, b: Sent, c: Sent, early: int, clock: int)
    requires StartsBefore(a, b, early) && StartsBefore(b, c, clock) && early <= clock
    ensures StartsBefore(a, c, clock)
  {
    assert StartFacts(Whole, a, b, early) && StartFacts(Whole, b, c, clock);
    forall i | |a.emitted| <= i < |c.emitted| && c.emitted[i].QueueStep? ensures c.emitted[i].minClock < clock {
      if i < |b.emitted| {
        assert b.emitted[i] == c.emitted[i];
      }
    }
  }

  lemma {:induction false} StartsLater(a: Sent, b: Sent, early: int, clock: int)
    requires StartsBefore(a, b, early) && early <= clock
    ensures StartsBefore(a, b, clock)
  {
    StartsNone(b, clock);
    StartsOn(a, b, b, early, clock);
  }

  lemma {:induction false} HistoryMore(history: seq<HistorySteps>, moves: seq<HistorySteps>, hs: HistorySteps)
    requires HistoryOk(history, moves)
    ensures HistoryOk([hs] + history, moves + [hs])
  {
  }

  lemma {:induction false} MessagesMore(collected: seq<Message>, msgQueue: seq<Message>, emitted: seq<Message>,
                                        m: Message)
    requires MessagesOk(collected, msgQueue, emitted)
    ensures MessagesOk(collected, msgQueue + [m], emitted + [m])
  {
  }

  /** The ticks of add_move, in 32 bits, span the command. */
  lemma {:induction false} TicksAreExact(last: int, firstClock: int, move: StepMove, sdir: int, steps: seq<StepAt>,
                                         maxError: nat)
    requires MayAdd(last, firstClock, move, sdir, steps, maxError)
    ensures move.count >= 1 && steps != []
    ensures (move.add * (move.count * (move.count - 1) / 2) + move.interval * (move.count - 1)) % WORD
            == Pulse(move.interval, move.add, move.count) - move.interval
  {
    assert AddFacts(Whole, last, firstClock, move, sdir, steps, maxError);
    PulseFormula(move.interval, move.add, move.count);
    TriangleFormula(move.count);
    Distribute(move.interval, move.count - 1, 1);
    WrapFits(Pulse(move.interval, move.add, move.count) - move.interval);
  }

  /** The pending step, if any. */
  function Pending(clock: int, dir: int): seq<StepAt> {
    if clock > 0 then [StepAt(clock, dir)] else []
  }

  class StepCompress {
    const maxError: nat
    const filter: real              // SDS_FILTER_TIME * mcu_freq
    var queue: seq<int>
    var lastStepClock: int
    var msgQueue: seq<Message>
    var sdir: int
    var nextStepClock: int
    var nextStepDir: int
    var lastPosition: int
    var history: seq<HistorySteps>  // newest first
    // The true clocks of `queue`
    ghost var clocks: seq<int>
    ghost var sent: Sent
    // The messages already taken off msgQueue
    ghost var collected: seq<Message>

    ghost predicate Valid()
      reads this
    {
      && ValidSent()
      && QueueOk(queue, clocks, lastStepClock)
      && (sdir == 0 || sdir == 1 || (sdir == -1 && queue == []))
      && (nextStepClock != 0 ==>
            LastDue(clocks, lastStepClock) <= nextStepClock < MAX_CLOCK && (nextStepDir == 0 || nextStepDir == 1))
      && 0 <= lastStepClock < MAX_CLOCK && nextStepClock >= 0
    }

    ghost predicate ValidSent()
      reads this`sent, this`lastStepClock, this`lastPosition, this`sdir, this`history, this`msgQueue, this`collected
    {
      && SentOk(sent, maxError, lastStepClock, lastPosition, sdir)
      && HistoryOk(history, sent.moves)
      && MessagesOk(collected, msgQueue, sent.emitted)
    }

    /** How many moves history has forgotten. */
    ghost function Forgotten(): int
      reads this`sent, this`history
    {
      |sent.moves| - |history|
    }

    /** All steps appended and not cancelled: sent, queued or pending. */
    ghost function Kept(): seq<StepAt>
      reads this
    {
      sent.taken + Queued(clocks, sdir) + Pending(nextStepClock, nextStepDir)
    }

    /** stepcompress_alloc and stepcompress_fill */
    constructor (maxError: nat, filter: real)
      ensures Valid() && Kept() == [] && collected == [] && this.maxError == maxError && this.filter == filter
    {
      this.maxError, this.filter := maxError, filter;
      queue, lastStepClock, msgQueue, sdir := [], 0, [], -1;
      nextStepClock, nextStepDir, lastPosition, history := 0, 0, 0, [];
      clocks, sent, collected := [], Sent([], [], []), [];
      new;
      SentStart(maxError);
      EmptyQueue(0);
    }

    /** add_move */
    method AddMove(firstClock: int, move: StepMove, ghost steps: seq<StepAt>)
      requires ValidSent() && lastStepClock >= 0 && MayAdd(lastStepClock, firstClock, move, sdir, steps, maxError)
      requires move.count >= 1 && steps != []
      modifies this`sent, this`lastStepClock, this`lastPosition, this`history, this`msgQueue
      ensures ValidSent() && sent.taken == old(sent.taken) + steps
      ensures sent.emitted == old(sent.emitted) + [QueueStep(move, old(lastStepClock),
                if move.count == 1 && firstClock >= old(lastStepClock) + CLOCK_DIFF_MAX then firstClock else old(lastStepClock))]
      ensures Grows(old(sent), sent) && Forgotten() == old(Forgotten())
      ensures lastStepClock == firstClock + Pulse(move.interval, move.add, move.count) - move.interval
      ensures old(lastStepClock) <= lastStepClock <= steps[|steps| - 1].clock
    {
      TicksAreExact(lastStepClock, firstClock, move, sdir, steps, maxError);
      var addFactor := move.count * (move.count - 1) / 2;
      var ticks := (move.add * addFactor + move.interval * (move.count - 1)) % WORD;
      var lastClock := firstClock + ticks;
      var reqClock := if move.count == 1 && firstClock >= lastStepClock + CLOCK_DIFF_MAX then firstClock else lastStepClock;
      var qm := QueueStep(move, lastStepClock, reqClock);
      var hs := HistorySteps(firstClock, lastClock, lastPosition, if sdir != 0 then move.count else -move.count,
                             AsInt32(move.interval), move.add);
      SentMove(sent, maxError, lastStepClock, lastPosition, sdir, firstClock, move, steps, qm);
      HistoryMore(history, sent.moves, hs);
      MessagesMore(collected, msgQueue, sent.emitted, qm);
      GrowsBy(sent, [hs], steps, [qm]);
      msgQueue := msgQueue + [qm];
      lastStepClock := lastClock;
      lastPosition := lastPosition + hs.stepCount;
      history := [hs] + history;
      sent := Sent(sent.moves + [hs], sent.taken + steps, sent.emitted + [qm]);
    }

    /** The next two steps in the queue are at the clock of the last step sent. */
    ghost predicate Stuck()
      reads this`clocks, this`lastStepClock
    {
      |clocks| >= 2 && clocks[0] == clocks[1] == lastStepClock
    }

    /** The clocks of all steps not yet sent. */
    ghost function Due(): seq<int>
      reads this`clocks, this`nextStepClock
    {
      clocks + if nextStepClock != 0 then [nextStepClock] else []
    }

    /** The next queue_step command, and whether check_line accepts it. */
    method NextMove() returns (move: StepMove, ok: bool)
      requires QueueOk(queue, clocks, lastStepClock) && queue != [] && (sdir == 0 || sdir == 1)
      ensures 1 <= move.count <= |queue| == |clocks|
      ensures ok <==> !Stuck()
      ensures ok ==> MayAdd(lastStepClock, lastStepClock + move.interval, move, sdir, Queued(clocks[..move.count], sdir),
                            maxError)
    {
      QueuePoints(queue, clocks, lastStepClock);
      var points := Differences(queue, lastStepClock);
      assert points == Relative(clocks, lastStepClock);
      move := CompressBisectAdd(points, maxError);
      SearchPassesCheck(points, maxError, move);
      ok := CheckLine(points, maxError, move);
      if ok {
        FoundMayAdd(queue, clocks, lastStepClock, sdir, maxError, move);
      }
    }

    /** One turn of queue_flush's loop. */
    method FlushOne() returns (ok: bool)
      requires Valid() && queue != []
      modifies this`queue, this`clocks, this`sent, this`lastStepClock, this`lastPosition, this`history, this`msgQueue
      ensures Valid() && Kept() == old(Kept())
      ensures Grows(old(sent), sent) && Forgotten() == old(Forgotten())
      ensures ok <==> !old(Stuck())
      ensures if ok then |queue| < old(|queue|)
              else sent == old(sent) && queue == old(queue) && lastStepClock == old(lastStepClock) && Stuck()
      ensures StartsBefore(old(sent), sent, old(lastStepClock) + 1)
      ensures old(lastStepClock) <= lastStepClock
      ensures LastDue(clocks, lastStepClock) <= old(LastDue(clocks, lastStepClock))
      ensures StaysSpaced(old(lastStepClock), old(clocks), lastStepClock, clocks)
    {
      var move;
      move, ok := NextMove();
      if !ok {
        GrowsStill(sent);
        StartsNone(sent, lastStepClock + 1);
        return;
      }
      SendMove(move);
    }

    /** The rest of the turn, for a command that was accepted. */
    method SendMove(move: StepMove)
      requires Valid() && 1 <= move.count <= |queue| == |clocks|
      requires MayAdd(lastStepClock, lastStepClock + move.interval, move, sdir, Queued(clocks[..move.count], sdir),
                      maxError)
      modifies this`queue, this`clocks, this`sent, this`lastStepClock, this`lastPosition, this`history, this`msgQueue
      ensures Valid() && Kept() == old(Kept())
      ensures Grows(old(sent), sent) && Forgotten() == old(Forgotten())
      ensures |queue| < old(|queue|)
      ensures StartsBefore(old(sent), sent, old(lastStepClock) + 1)
      ensures old(lastStepClock) <= lastStepClock
      ensures LastDue(clocks, lastStepClock) <= old(LastDue(clocks, lastStepClock))
      ensures StaysSpaced(old(lastStepClock), old(clocks), lastStepClock, clocks)
    {
      hide StaysSpaced, Spaced, Grows, StartsBefore, ValidSent, QueueOk, MayAdd;
      ghost var before, taken, steps := lastStepClock, sent.taken, Queued(clocks[..move.count], sdir);
      KeptMoves(taken, clocks, move.count, sdir, Pending(nextStepClock, nextStepDir));
      AddMove(lastStepClock + move.interval, move, steps);
      DueBounds(queue, clocks, before);
      QueueDrop(queue, clocks, before, move.count, lastStepClock);
      SpacedDrop(queue, clocks, before, move.count, lastStepClock);
      StartsOne(old(sent), sent, sent.emitted[|sent.emitted| - 1], before + 1);
      queue, clocks := queue[move.count..], clocks[move.count..];
    }

    /** queue_flush: it fails exactly when it comes to two steps at the clock of the last one sent,
        which takes three steps at one clock; it loses no step, stops once the given clock is
        reached, and starts no command from then on. */
    method QueueFlush(moveClock: int) returns (ok: bool)
      requires Valid()
      modifies this`queue, this`clocks, this`sent, this`lastStepClock, this`lastPosition, this`history, this`msgQueue
      ensures Valid() && Kept() == old(Kept())
      ensures Grows(old(sent), sent) && Forgotten() == old(Forgotten())
      ensures if ok then queue == [] || lastStepClock >= moveClock else Stuck() && lastStepClock < moveClock
      ensures old(Spaced(lastStepClock, clocks)) ==> ok
      ensures old(lastStepClock) >= moveClock ==> sent == old(sent) && queue == old(queue)
      ensures StartsBefore(old(sent), sent, moveClock)
      ensures StartsBefore(old(sent), sent, old(LastDue(clocks, lastStepClock)) + 1)
      ensures old(lastStepClock) <= lastStepClock
      ensures LastDue(clocks, lastStepClock) <= old(LastDue(clocks, lastStepClock))
      ensures StaysSpaced(old(lastStepClock), old(clocks), lastStepClock, clocks)
    {
      hide Grows, StartsBefore, ValidSent;
      ghost var horizon := if LastDue(clocks, lastStepClock) + 1 < moveClock then LastDue(clocks, lastStepClock) + 1
                           else moveClock;
      StartsNone(sent, horizon);
      GrowsStill(sent);
      StaysStill(lastStepClock, clocks);
      ok := true;
      while queue != [] && lastStepClock < moveClock
        invariant ok && Valid() && Kept() == old(Kept())
        invariant Grows(old(sent), sent) && Forgotten() == old(Forgotten())
        invariant old(lastStepClock) >= moveClock ==> sent == old(sent) && queue == old(queue)
        invariant StartsBefore(old(sent), sent, horizon)
        invariant old(lastStepClock) <= lastStepClock
        invariant LastDue(clocks, lastStepClock) <= old(LastDue(clocks, lastStepClock))
        invariant StaysSpaced(old(lastStepClock), old(clocks), lastStepClock, clocks)
        decreases |queue|
      {
        ghost var before, last, due := sent, lastStepClock, clocks;
        DueBounds(queue, clocks, lastStepClock);
        ok := FlushOne();
        GrowsOn(old(sent), before, sent);
        StartsLater(before, sent, last + 1, horizon);
        StartsOn(old(sent), before, sent, horizon, horizon);
        StaysOn(old(lastStepClock), old(clocks), last, due, lastStepClock, clocks);
        if !ok {
          if Spaced(last, due) {
            SpacedIsNotStuck(last, due);
          }
          break;
        }
      }
      StartsLater(old(sent), sent, horizon, moveClock);
      StartsLater(old(sent), sent, horizon, old(LastDue(clocks, lastStepClock)) + 1);
    }

    /** set_next_step_dir, with the direction pin not inverted */
    method SetNextStepDir(dir: int) returns (ok: bool)
      requires Valid() && (dir == 0 || dir == 1)
      modifies this`queue, this`clocks, this`sent, this`lastStepClock, this`lastPosition, this`history, this`msgQueue,
               this`sdir
      ensures Valid() && Kept() == old(Kept())
      ensures Grows(old(sent), sent) && Forgotten() == old(Forgotten())
      ensures if old(sdir) == dir then ok && sent == old(sent) && queue == old(queue) && clocks == old(clocks)
              else if ok then queue == [] && sent.emitted != [] &&
                   sent.emitted[|sent.emitted| - 1] == Message.SetNextStepDir(dir, lastStepClock)
              else Stuck()
      ensures sdir == if ok then dir else old(sdir)
      ensures old(Spaced(lastStepClock, clocks)) ==> ok
      ensures ok ==> StaysSpaced(old(lastStepClock), old(clocks), lastStepClock, clocks)
      ensures old(sdir) == dir ==> lastStepClock == old(lastStepClock)
      ensures LastDue(clocks, lastStepClock) <= old(LastDue(clocks, lastStepClock))
      ensures StartsBefore(old(sent), sent, old(LastDue(clocks, lastStepClock)) + 1)
    {
      hide Grows, StartsBefore, StaysSpaced, Spaced;
      GrowsStill(sent);
      StartsNone(sent, LastDue(clocks, lastStepClock) + 1);
      StaysStill(lastStepClock, clocks);
      if sdir == dir {
        return true;
      }
      ok := QueueFlush(UINT64_MAX);
      if !ok {
        return;
      }
      assert queue == [];
      QueueSame(queue, clocks, lastStepClock);
      var qm := Message.SetNextStepDir(dir, lastStepClock);
      SentDir(sent, maxError, lastStepClock, lastPosition, sdir, qm);
      MessagesMore(collected, msgQueue, sent.emitted, qm);
      GrowsEmitted(sent, qm);
      GrowsOn(old(sent), sent, sent.(emitted := sent.emitted + [qm]));
      ghost var horizon := old(LastDue(clocks, lastStepClock)) + 1;
      StartsOne(sent, sent.(emitted := sent.emitted + [qm]), qm, horizon);
      StartsOn(old(sent), sent, sent.(emitted := sent.emitted + [qm]), horizon, horizon);
      sdir := dir;
      msgQueue := msgQueue + [qm];
      sent := sent.(emitted := sent.emitted + [qm]);
    }

    /** Put a step into the queue. */
    method Push(stepClock: int)
      requires Valid() && nextStepClock == 0 && (sdir == 0 || sdir == 1) && 0 < stepClock < MAX_CLOCK
      requires LastDue(clocks, lastStepClock) <= stepClock < lastStepClock + CLOCK_DIFF_MAX
      modifies this`queue, this`clocks
      ensures Valid() && Kept() == old(Kept()) + [StepAt(stepClock, sdir)]
      ensures clocks == old(clocks) + [stepClock]
    {
      QueuePush(queue, clocks, lastStepClock, stepClock);
      KeptPush(sent.taken, clocks, stepClock, sdir);
      KeptAppended(sent.taken + Queued(clocks, sdir), stepClock, sdir);
      queue, clocks := queue + [stepClock % WORD], clocks + [stepClock];
    }

    /** stepcompress_flush_far: the step goes out after all queued steps. */
    method FlushFar(absStepClock: int)
      requires Valid() && nextStepClock == 0 && queue == [] && (sdir == 0 || sdir == 1)
      requires lastStepClock + CLOCK_DIFF_MAX <= absStepClock < MAX_CLOCK
      modifies this`sent, this`lastStepClock, this`lastPosition, this`history, this`msgQueue
      ensures Valid() && Kept() == old(Kept()) + [StepAt(absStepClock, sdir)]
      ensures Grows(old(sent), sent) && Forgotten() == old(Forgotten())
      ensures clocks == [] && lastStepClock == absStepClock
      ensures StartsBefore(old(sent), sent, old(lastStepClock) + 1)
    {
      ghost var steps := [StepAt(absStepClock, sdir)];
      QueueSame(queue, clocks, lastStepClock);
      FarMayAdd(lastStepClock, absStepClock, sdir, maxError);
      KeptFar(sent.taken, absStepClock, sdir);
      KeptAppended(sent.taken + Queued(clocks, sdir), absStepClock, sdir);
      var move := StepMove((absStepClock - lastStepClock) % WORD, 1, 0);
      assert Pulse(move.interval, 0, 1) == move.interval;
      AddMove(absStepClock, move, steps);
      EmptyQueue(lastStepClock);
      StartsOne(old(sent), sent, sent.emitted[|sent.emitted| - 1], old(lastStepClock) + 1);
    }

    /** queue_append_far: when the queue before it cannot be flushed, the step is lost. */
    method QueueAppendFar() returns (ok: bool)
      requires Valid() && nextStepClock >= lastStepClock + CLOCK_DIFF_MAX && nextStepDir == sdir
      modifies this`queue, this`clocks, this`sent, this`lastStepClock, this`lastPosition, this`history, this`msgQueue,
               this`nextStepClock
      ensures Valid() && nextStepClock == 0
      ensures old(Kept()) == Kept() + if ok then [] else [StepAt(old(nextStepClock), old(nextStepDir))]
      ensures Grows(old(sent), sent) && Forgotten() == old(Forgotten())
      ensures if ok then LastDue(clocks, lastStepClock) == old(nextStepClock) else Stuck()
      ensures old(Spaced(lastStepClock, clocks)) ==> ok
      ensures ok ==> StaysSpaced(old(lastStepClock), old(Due()), lastStepClock, clocks)
      ensures StartsBefore(old(sent), sent, old(nextStepClock) - CLOCK_DIFF_MAX + 1)
    {
      hide StaysSpaced, Spaced, Grows, StartsBefore, ValidSent, QueueOk, Stuck;
      ghost var horizon := nextStepClock - CLOCK_DIFF_MAX + 1;
      var stepClock := nextStepClock;
      KeptAppended(sent.taken + Queued(clocks, sdir), stepClock, sdir);
      nextStepClock := 0;
      ok := QueueFlush(stepClock - CLOCK_DIFF_MAX + 1);
      if !ok {
        return;
      }
      ghost var before := sent;
      StaysPushed(old(lastStepClock), old(clocks), lastStepClock, clocks, stepClock);
      ghost var last, due := lastStepClock, clocks + [stepClock];
      FlushOrPush(stepClock);
      GrowsOn(old(sent), before, sent);
      StartsOn(old(sent), before, sent, horizon, horizon);
      StaysOn(old(lastStepClock), old(Due()), last, due, lastStepClock, clocks);
    }

    /** The end of queue_append_far: the step goes out, if it is still far ahead, or is queued. */
    method FlushOrPush(stepClock: int)
      requires Valid() && nextStepClock == 0 && (sdir == 0 || sdir == 1) && 0 < stepClock < MAX_CLOCK
      requires LastDue(clocks, lastStepClock) <= stepClock
      requires queue == [] || stepClock < lastStepClock + CLOCK_DIFF_MAX
      modifies this`queue, this`clocks, this`sent, this`lastStepClock, this`lastPosition, this`history, this`msgQueue
      ensures Valid() && Kept() == old(Kept()) + [StepAt(stepClock, sdir)]
      ensures Grows(old(sent), sent) && Forgotten() == old(Forgotten())
      ensures LastDue(clocks, lastStepClock) == stepClock
      ensures StaysSpaced(old(lastStepClock), old(clocks) + [stepClock], lastStepClock, clocks)
      ensures StartsBefore(old(sent), sent, stepClock - CLOCK_DIFF_MAX + 1)
    {
      hide StaysSpaced, Spaced, Grows, StartsBefore, ValidSent, QueueOk;
      ghost var last, horizon := lastStepClock, stepClock - CLOCK_DIFF_MAX + 1;
      if stepClock >= lastStepClock + CLOCK_DIFF_MAX {
        FlushFar(stepClock);
        StartsLater(old(sent), sent, last + 1, horizon);
        StaysFresh(last, old(clocks) + [stepClock], lastStepClock);
      } else {
        GrowsStill(sent);
        StartsNone(sent, horizon);
        Push(stepClock);
        StaysStill(lastStepClock, clocks);
      }
    }

    /** The flush of queue_append_extend, which keeps no more than 64K steps in memory. */
    method Extend() returns (ok: bool)
      requires Valid()
      modifies this`queue, this`clocks, this`sent, this`lastStepClock, this`lastPosition, this`history, this`msgQueue
      ensures Valid() && Kept() == old(Kept())
      ensures Grows(old(sent), sent) && Forgotten() == old(Forgotten())
      ensures !ok ==> Stuck()
      ensures old(Spaced(lastStepClock, clocks)) ==> ok
      ensures old(lastStepClock) <= lastStepClock
      ensures LastDue(clocks, lastStepClock) <= old(LastDue(clocks, lastStepClock))
      ensures StaysSpaced(old(lastStepClock), old(clocks), lastStepClock, clocks)
      ensures |old(clocks)| == |old(queue)|
      ensures if |old(queue)| > 65535 + 2000 then StartsBefore(old(sent), sent, old(clocks)[|old(queue)| - 65535])
              else sent == old(sent) && queue == old(queue)
      ensures StartsBefore(old(sent), sent, old(LastDue(clocks, lastStepClock)))
    {
      hide Grows, StartsBefore, StaysSpaced, Spaced, ValidSent;
      GrowsStill(sent);
      StaysStill(lastStepClock, clocks);
      QueueSame(queue, clocks, lastStepClock);
      StartsNone(sent, LastDue(clocks, lastStepClock));
      ok := true;
      if |queue| > 65535 + 2000 {
        QueuePoints(queue, clocks, lastStepClock);
        DueBounds(queue, clocks, lastStepClock);
        ok := QueueFlush(lastStepClock + Difference(queue[|queue| - 65535], lastStepClock));
        StartsLater(old(sent), sent, old(clocks)[|old(queue)| - 65535], old(LastDue(clocks, lastStepClock)));
      }
    }

    /** Move the pending step to the queue. */
    method PushPending()
      requires Valid() && nextStepClock != 0 && nextStepDir == sdir && nextStepClock < lastStepClock + CLOCK_DIFF_MAX
      modifies this`queue, this`clocks, this`nextStepClock
      ensures Valid() && Kept() == old(Kept()) && nextStepClock == 0 && clocks == old(clocks) + [old(nextStepClock)]
    {
      var stepClock := nextStepClock;
      KeptAppended(sent.taken + Queued(clocks, sdir), stepClock, sdir);
      nextStepClock := 0;
      Push(stepClock);
    }

    /** Before this clock start all commands that make room for the pending step: before its own
        clock, or no later when the direction changes. */
    ghost function PushHorizon(): int
      reads this`nextStepClock, this`nextStepDir, this`sdir
    {
      if nextStepDir == sdir then nextStepClock else nextStepClock + 1
    }

    /** The pending step cannot just join the queue: its direction is another, it is far ahead, or
        there are 64K steps in the queue's full storage. */
    ghost predicate Pushes(full: bool)
      reads this`nextStepClock, this`nextStepDir, this`sdir, this`lastStepClock, this`queue
    {
      || nextStepDir != sdir || nextStepClock >= lastStepClock + CLOCK_DIFF_MAX
      || (full && |queue| > 65535 + 2000)
    }

    /** queue_append; `full` says that the queue's storage has to be extended first.  When it fails
        the step stays pending, unless it is far ahead: then it is lost. */
    method QueueAppend(full: bool) returns (ok: bool)
      requires Valid() && nextStepClock != 0
      modifies this
      ensures Valid() && if ok then nextStepClock == 0 else nextStepClock == 0 || nextStepClock == old(nextStepClock)
      ensures old(Kept()) == Kept() + if ok || nextStepClock != 0 then []
                                      else [StepAt(old(nextStepClock), old(nextStepDir))]
      ensures collected == old(collected) && Grows(old(sent), sent) && Forgotten() == old(Forgotten())
      ensures if ok then LastDue(clocks, lastStepClock) == old(nextStepClock) else Stuck()
      ensures old(Spaced(lastStepClock, clocks)) ==> ok
      ensures ok ==> StaysSpaced(old(lastStepClock), old(Due()), lastStepClock, clocks)
      // No command is started early, and none without need
      ensures StartsBefore(old(sent), sent, old(PushHorizon()))
      ensures !old(Pushes(full)) ==> sent == old(sent)
    {
      hide StaysSpaced, Spaced, Grows, StartsBefore, ValidSent, QueueOk, Stuck;
      ok := SetNextStepDir(nextStepDir);
      if old(sdir) == nextStepDir {
        StartsNone(sent, nextStepClock);
      } else {
        StartsLater(old(sent), sent, old(LastDue(clocks, lastStepClock)) + 1, nextStepClock + 1);
      }
      if !ok {
        return;
      }
      ghost var before, last, due := sent, lastStepClock, clocks;
      StaysPushed(old(lastStepClock), old(clocks), last, due, nextStepClock);
      StaysKept(old(lastStepClock), old(clocks), last, due);
      ok := AppendPending(full);
      GrowsOn(old(sent), before, sent);
      StartsLater(before, sent, old(nextStepClock), old(PushHorizon()));
      StartsOn(old(sent), before, sent, old(PushHorizon()), old(PushHorizon()));
      if ok {
        StaysOn(old(lastStepClock), old(Due()), last, due + [old(nextStepClock)], lastStepClock, clocks);
      }
    }

    /** The rest of queue_append, with the direction set. */
    method AppendPending(full: bool) returns (ok: bool)
      requires Valid() && nextStepClock != 0 && nextStepDir == sdir
      modifies this`queue, this`clocks, this`sent, this`lastStepClock, this`lastPosition, this`history, this`msgQueue,
               this`nextStepClock
      ensures Valid() && if ok then nextStepClock == 0 else nextStepClock == 0 || nextStepClock == old(nextStepClock)
      ensures old(Kept()) == Kept() + if ok || nextStepClock != 0 then []
                                      else [StepAt(old(nextStepClock), old(nextStepDir))]
      ensures Grows(old(sent), sent) && Forgotten() == old(Forgotten())
      ensures if ok then LastDue(clocks, lastStepClock) == old(nextStepClock) else Stuck()
      ensures old(Spaced(lastStepClock, clocks)) ==> ok
      ensures ok ==> StaysSpaced(old(lastStepClock), old(Due()), lastStepClock, clocks)
      ensures StartsBefore(old(sent), sent, old(nextStepClock))
      ensures !old(Pushes(full)) ==> sent == old(sent)
    {
      hide StaysSpaced, Spaced, Grows, StartsBefore, ValidSent, QueueOk, Stuck;
      GrowsStill(sent);
      StartsNone(sent, nextStepClock);
      ghost var last, due := lastStepClock, clocks;
      if nextStepClock >= lastStepClock + CLOCK_DIFF_MAX {
        ok := QueueAppendFar();
        StartsLater(old(sent), sent, old(nextStepClock) - CLOCK_DIFF_MAX + 1, old(nextStepClock));
        return;
      }
      ok := true;
      StaysStill(lastStepClock, clocks);
      if full {
        ok := Extend();
        StartsLater(old(sent), sent, LastDue(due, last), nextStepClock);
        if !ok {
          return;
        }
      }
      StaysPushed(last, due, lastStepClock, clocks, nextStepClock);
      PushPending();
    }

    /** The step+dir+step filter undoes the pending step. */
    method UndoPending(dir: int)
      requires Valid() && nextStepClock != 0 && dir != nextStepDir && (dir == 0 || dir == 1)
      modifies this`nextStepClock, this`nextStepDir
      ensures Valid() && old(Kept()) == Kept() + [StepAt(old(nextStepClock), old(nextStepDir))]
      ensures Net(Kept()) == old(Net(Kept())) + Sign(dir)
      ensures Due() == clocks
    {
      hide QueueOk, ValidSent, Net;
      KeptUndone(sent.taken + Queued(clocks, sdir), nextStepClock, nextStepDir, dir);
      nextStepClock := 0;
      nextStepDir := dir;
      assert clocks + [] == clocks;
    }

    /** The new step becomes the pending one. */
    method SetPending(dir: int, stepClock: int)
      requires Valid() && nextStepClock == 0 && (dir == 0 || dir == 1)
      requires 0 < stepClock < MAX_CLOCK && LastDue(clocks, lastStepClock) <= stepClock
      modifies this`nextStepClock, this`nextStepDir
      ensures Valid() && Kept() == old(Kept()) + [StepAt(stepClock, dir)]
      ensures Net(Kept()) == old(Net(Kept())) + Sign(dir)
      ensures Due() == clocks + [stepClock]
    {
      hide QueueOk, ValidSent, Net;
      KeptAppended(sent.taken + Queued(clocks, sdir), stepClock, dir);
      nextStepClock := stepClock;
      nextStepDir := dir;
    }

    /** stepcompress_append, for a step time already converted to a clock.  Steps come in order,
        except that a step may undo the pending one; they may come at the same clock.  When it
        fails the step is not taken. */
    method Append(dir: int, stepClock: int, full: bool) returns (ok: bool)
      requires Valid() && (dir == 0 || dir == 1) && 0 < stepClock < MAX_CLOCK
      requires nextStepClock == 0 ==> LastDue(clocks, lastStepClock) <= stepClock
      requires nextStepClock != 0 && !Cancels(dir, stepClock) ==> nextStepClock <= stepClock
      modifies this
      ensures Valid()
      ensures collected == old(collected) && Grows(old(sent), sent) && Forgotten() == old(Forgotten())
      ensures old(Cancels(dir, stepClock)) ==>
                ok && old(Kept()) == Kept() + [StepAt(old(nextStepClock), old(nextStepDir))] && old(nextStepDir) != dir
      ensures ok && !old(Cancels(dir, stepClock)) ==> Kept() == old(Kept()) + [StepAt(stepClock, dir)]
      ensures ok ==> Net(Kept()) == old(Net(Kept())) + Sign(dir)
      ensures !ok ==> Stuck() && old(nextStepClock) != 0
      ensures !ok ==> old(Kept()) == Kept() + if nextStepClock != 0 then []
                                              else [StepAt(old(nextStepClock), old(nextStepDir))]
      ensures old(Spaced(lastStepClock, clocks)) ==> ok
      ensures ok && old(Spaced(lastStepClock, Due() + [stepClock])) ==> Spaced(lastStepClock, Due())
      // Commands are started only when the pending step cannot just be queued, and not after it
      ensures old(nextStepClock == 0 || Cancels(dir, stepClock) || !Pushes(full)) ==> sent == old(sent)
      ensures StartsBefore(old(sent), sent, old(PushHorizon()))
    {
      hide StaysSpaced, Spaced, Grows, StartsBefore, Valid, Kept, Net, QueueOk, Stuck;
      GrowsStill(sent);
      StartsNone(sent, PushHorizon());
      ok := true;
      if nextStepClock != 0 {
        if dir != nextStepDir {
          var diff := stepClock - nextStepClock;
          if diff as real < filter {
            SpacedFront(lastStepClock, clocks, [nextStepClock] + [stepClock]);
            assert clocks + ([nextStepClock] + [stepClock]) == Due() + [stepClock];
            UndoPending(dir);
            return;
          }
        }
        ok := QueueAppend(full);
        if !ok {
          return;
        }
      } else {
        StaysStill(lastStepClock, Due());
        assert Due() == clocks;
      }
      assert Kept() + [] == Kept();
      StaysApplied(old(lastStepClock), old(Due()), lastStepClock, clocks, stepClock);
      SetPending(dir, stepClock);
    }

    /** The step+dir+step filter: the pending step is undone. */
    predicate Cancels(dir: int, stepClock: int)
      reads this`nextStepClock, this`nextStepDir
    {
      nextStepClock != 0 && dir != nextStepDir && (stepClock - nextStepClock) as real < filter
    }

    /** stepcompress_commit */
    method Commit(full: bool) returns (ok: bool)
      requires Valid()
      modifies this
      ensures Valid() && (ok ==> nextStepClock == 0)
      ensures old(Kept()) == Kept() + if ok || nextStepClock != 0 then []
                                      else [StepAt(old(nextStepClock), old(nextStepDir))]
      ensures collected == old(collected) && Grows(old(sent), sent) && Forgotten() == old(Forgotten())
      ensures !ok ==> Stuck()
      ensures old(Spaced(lastStepClock, clocks)) ==> ok
      ensures StartsBefore(old(sent), sent, old(PushHorizon()))
    {
      GrowsStill(sent);
      StartsNone(sent, PushHorizon());
      ok := true;
      if nextStepClock != 0 {
        ok := QueueAppend(full);
      }
    }

    /** What a flush may send: commands started before its clock, or at it when a pending step due
        then makes the direction change. */
    ghost function FlushHorizon(moveClock: int): int
      reads this`nextStepClock, this`nextStepDir, this`sdir
    {
      Horizon(nextStepClock, nextStepDir != sdir, moveClock)
    }

    /** stepcompress_flush: every step that is due before the given clock has been sent, and also
        those due at it, except behind a pulse at that very clock; and no command is started from
        then on. */
    method Flush(moveClock: int, full: bool) returns (ok: bool)
      requires Valid()
      modifies this
      ensures Valid()
      ensures if ok then Kept() == old(Kept())
              else Stuck() && LosesAtMost(old(Kept()), Kept(), old(Pending(nextStepClock, nextStepDir)))
      ensures collected == old(collected) && Grows(old(sent), sent) && Forgotten() == old(Forgotten())
      ensures ok ==> |sent.taken| <= |Kept()| && forall i :: |sent.taken| <= i < |Kept()| ==>
                Kept()[i].clock > moveClock || Kept()[i].clock == moveClock == lastStepClock
      ensures ok && moveClock >= MAX_CLOCK ==> Kept() == sent.taken
      ensures ok ==> nextStepClock == if old(nextStepClock) > moveClock then old(nextStepClock) else 0
      ensures old(Spaced(lastStepClock, Due())) ==> ok && Spaced(lastStepClock, Due())
      ensures StartsBefore(old(sent), sent, old(FlushHorizon(moveClock)))
    {
      hide Spaced, StaysSpaced, Grows, StartsBefore, ValidSent;
      ok := FlushPending(moveClock, full);
      if !ok {
        return;
      }
      ghost var before, last, due, pending := sent, lastStepClock, clocks, Due()[|clocks|..];
      label Mid:
      ok := QueueFlush(moveClock);
      GrowsOn(old(sent), before, sent);
      StartsLater(before, sent, moveClock, old(FlushHorizon(moveClock)));
      StartsOn(old(sent), before, sent, old(FlushHorizon(moveClock)), old(FlushHorizon(moveClock)));
      SpacedDue(last, due, lastStepClock, clocks, pending);
      assert due + pending == old@Mid(Due()) && clocks + pending == Due();
      if !ok {
        return;
      }
      NothingDue(moveClock);
    }

    /** The first part of stepcompress_flush: the pending step, if it is due. */
    method FlushPending(moveClock: int, full: bool) returns (ok: bool)
      requires Valid()
      modifies this
      ensures Valid() && (ok ==> nextStepClock == if old(nextStepClock) > moveClock then old(nextStepClock) else 0)
      ensures if ok then Kept() == old(Kept())
              else Stuck() && LosesAtMost(old(Kept()), Kept(), old(Pending(nextStepClock, nextStepDir)))
      ensures collected == old(collected) && Grows(old(sent), sent) && Forgotten() == old(Forgotten())
      ensures old(Spaced(lastStepClock, Due())) ==> ok && Spaced(lastStepClock, Due())
      ensures StartsBefore(old(sent), sent, old(FlushHorizon(moveClock)))
    {
      hide StartsBefore, Grows;
      StartsNone(sent, FlushHorizon(moveClock));
      GrowsStill(sent);
      ok := true;
      if nextStepClock != 0 && moveClock >= nextStepClock {
        SpacedFront(lastStepClock, clocks, [nextStepClock]);
        ok := QueueAppend(full);
        StartsLater(old(sent), sent, old(PushHorizon()), old(FlushHorizon(moveClock)));
        assert ok ==> Due() == clocks;
      }
    }

    /** What is left after a flush is later, or at the clock of the last step sent. */
    lemma {:induction false} NothingDue(moveClock: int)
      requires Valid() && (queue == [] || lastStepClock >= moveClock)
      requires nextStepClock != 0 ==> moveClock < nextStepClock
      ensures |sent.taken| <= |Kept()| && forall i :: |sent.taken| <= i < |Kept()| ==>
                Kept()[i].clock > moveClock || Kept()[i].clock == moveClock == lastStepClock
      ensures moveClock >= MAX_CLOCK ==> Kept() == sent.taken
    {
      QueueSame(queue, clocks, lastStepClock);
      DueBounds(queue, clocks, lastStepClock);
      RestIsLater(sent.taken, Queued(clocks, sdir), Pending(nextStepClock, nextStepDir), moveClock, lastStepClock);
      assert moveClock >= MAX_CLOCK ==> clocks == [] && nextStepClock == 0;
      assert sent.taken + [] + [] == sent.taken;
    }

    /** stepcompress_queue_msg: the message goes out after every step so far. */
    method QueueMsg(data: seq<int>, full: bool) returns (ok: bool)
      requires Valid()
      modifies this
      ensures Valid()
      ensures if ok then Kept() == old(Kept()) == sent.taken
              else Stuck() && LosesAtMost(old(Kept()), Kept(), old(Pending(nextStepClock, nextStepDir)))
      ensures collected == old(collected) && Grows(old(sent), sent) && Forgotten() == old(Forgotten())
      ensures ok ==> sent.emitted != [] && sent.emitted[|sent.emitted| - 1] == Other(data, lastStepClock)
      ensures old(Spaced(lastStepClock, Due())) ==> ok
    {
      ok := Flush(UINT64_MAX, full);
      if !ok {
        return;
      }
      var qm := Other(data, lastStepClock);
      SentOther(sent, maxError, lastStepClock, lastPosition, sdir, qm);
      GrowsEmitted(sent, qm);
      GrowsOn(old(sent), sent, sent.(emitted := sent.emitted + [qm]));
      MessagesMore(collected, msgQueue, sent.emitted, qm);
      msgQueue := msgQueue + [qm];
      sent := sent.(emitted := sent.emitted + [qm]);
    }

    /** The scheduler takes the oldest message. */
    method TakeMessage() returns (qm: Message)
      requires Valid() && msgQueue != []
      modifies this`msgQueue, this`collected
      ensures Valid() && qm == old(msgQueue[0]) && msgQueue == old(msgQueue[1..])
      ensures collected == old(collected) + [qm]
    {
      qm := msgQueue[0];
      assert collected + msgQueue == (collected + [qm]) + msgQueue[1..];
      msgQueue := msgQueue[1..];
      collected := collected + [qm];
    }

    /** Messages wait in the order of their request clocks. */
    lemma {:induction false} MessagesInOrder()
      requires Valid()
      ensures forall i, j :: 0 <= i < j < |msgQueue| ==> msgQueue[i].reqClock <= msgQueue[j].reqClock
      ensures forall i :: 0 <= i < |msgQueue| ==> 0 <= MinClock(msgQueue[i]) <= msgQueue[i].reqClock < MAX_CLOCK
    {
      assert SentFacts(Whole, sent, maxError, lastStepClock, lastPosition, sdir);
      RequestsRest(collected, msgQueue, lastStepClock);
    }

    /** The last step clock that history has forgotten. */
    ghost function ExpiredClock(): int
      requires HistoryOk(history, sent.moves)
      reads this`history, this`sent
    {
      LastClock(sent.moves[..|sent.moves| - |history|])
    }

    /** stepcompress_history_expire: the moves that ended by the given clock are forgotten, and only
        they. */
    method HistoryExpire(endClock: int)
      requires Valid()
      modifies this`history
      ensures Valid() && Kept() == old(Kept()) && history <= old(history)
      ensures ExpiredClock() == old(ExpiredClock()) || ExpiredClock() <= endClock
      ensures IsExpired(history, endClock)
    {
      while history != [] && history[|history| - 1].lastClock <= endClock
        invariant ValidSent() && history <= old(history)
        invariant ExpiredClock() == old(ExpiredClock()) || ExpiredClock() <= endClock
      {
        history := history[..|history| - 1];
      }
    }

    /** stepcompress_find_past_position: from the last forgotten step on, it gives the position
        that counting the signed pulses one by one gives. */
    method FindPastPosition(sqrt: real -> real, clock: int) returns (position: int)
      requires Valid() && IsSqrt(sqrt)
      ensures clock >= ExpiredClock() ==> position == PositionAt(AllPulses(sent.moves), clock)
    {
      var i, lastPos := 0, lastPosition;
      StartLooking(sent, maxError, lastStepClock, lastPosition, sdir, clock);
      while i < |history|
        invariant 0 <= i <= |history| && Looking(sent.moves, |sent.moves| - i, clock, lastPos)
      {
        var hs := history[i];
        ghost var n := |sent.moves| - i;
        if clock < hs.firstClock {
          LookFurther(sent.moves, n, clock, lastPos);
          lastPos := hs.startPosition;
          i := i + 1;
          continue;
        }
        if clock >= hs.lastClock {
          FoundAfter(sent.moves, n, clock, lastPos);
          return hs.startPosition + hs.stepCount;
        }
        FoundDuring(sent.moves, n, clock, lastPos);
        var offset := OffsetAt(sqrt, hs, clock);
        if hs.stepCount < 0 {
          return hs.startPosition - offset;
        }
        return hs.startPosition + offset;
      }
      if clock >= ExpiredClock() {
        FoundNone(sent.moves, |sent.moves| - i, clock, lastPos);
      }
      return lastPos;
    }

    /** Conservation: the position, the queued steps and the pending step make up the net of all
        steps appended. */
    lemma {:induction false} Conservation()
      requires Valid()
      ensures lastPosition + |queue| * Sign(sdir) + Net(Pending(nextStepClock, nextStepDir)) == Net(Kept())
    {
      assert SentFacts(Whole, sent, maxError, lastStepClock, lastPosition, sdir);
      QueueSame(queue, clocks, lastStepClock);
      NetTracks(sent.moves, sent.taken, maxError);
      NetAppend(sent.taken + Queued(clocks, sdir), Pending(nextStepClock, nextStepDir));
      NetAppend(sent.taken, Queued(clocks, sdir));
      QueuedNet(clocks, sdir);
    }

    /** What the micro-controller does: one pulse for each step sent, in order, none late, none
        early by more than allowed, the last one at lastStepClock; and executing the messages
        gives these pulses modulo 2^32, and exactly them if and only if no gap needed more
        than 32 bits. */
    lemma {:induction false} StreamRefinement()
      requires Valid()
      ensures var pulses := AllPulses(sent.moves);
              && Tracks(sent.moves, sent.taken, maxError)
              && PrevClock(pulses, |pulses|) == lastStepClock
              && Congruent(Run(collected + msgQueue).pulses, pulses)
              && (Run(collected + msgQueue).pulses == pulses <==> ShortGaps(sent.moves))
    {
      assert SentFacts(Whole, sent, maxError, lastStepClock, lastPosition, sdir);
      LastPulse(sent.moves);
    }

    /** What the micro-controller has been told so far: executing the messages handed over gives
        the first of those pulses, as many as their commands count, and all of them once no
        command is waiting. */
    lemma {:induction false} CollectedRefinement()
      requires Valid()
      ensures var pulses, done := AllPulses(sent.moves), Run(collected).pulses;
              && |done| == StepsIn(collected) && |done| + StepsIn(msgQueue) == |pulses|
              && Congruent(done, pulses[..|done|])
              && (ShortGaps(sent.moves) ==> done == pulses[..|done|])
    {
      StreamRefinement();
      RunPrefix(collected, msgQueue);
      RunCounts(collected);
      CongruentPrefix(Run(collected + msgQueue).pulses, AllPulses(sent.moves), |Run(collected).pulses|);
    }
  }

  function Horizon(pending: int, turns: bool, moveClock: int): int {
    if pending != 0 && pending == moveClock && turns then moveClock + 1 else moveClock
  }

  /** Sending queued steps keeps them. */
  lemma {:induction false} KeptMoves(taken: seq<StepAt>, clocks: seq<int>, n: nat, dir: int, pending: seq<StepAt>)
    requires n <= |clocks|
    ensures taken + Queued(clocks, dir) + pending ==
            (taken + Queued(clocks[..n], dir)) + Queued(clocks[n..], dir) + pending
  {
    TakeQueued(clocks, n, dir);
  }

  lemma {:induction false} TakeQueued(clocks: seq<int>, n: nat, dir: int)
    requires n <= |clocks|
    ensures Queued(clocks, dir) == Queued(clocks[..n], dir) + Queued(clocks[n..], dir)
  {
  }

  lemma {:induction false} KeptPush(taken: seq<StepAt>, clocks: seq<int>, clock: int, dir: int)
    requires clock > 0
    ensures taken + Queued(clocks + [clock], dir) + Pending(0, dir) == taken + Queued(clocks, dir) + Pending(clock, dir)
  {
    assert Queued(clocks + [clock], dir) == Queued(clocks, dir) + [StepAt(clock, dir)];
  }

  lemma {:induction false} KeptFar(taken: seq<StepAt>, clock: int, dir: int)
    requires clock > 0
    ensures (taken + [StepAt(clock, dir)]) + Queued([], dir) + Pending(0, dir) ==
            taken + Queued([], dir) + Pending(clock, dir)
  {
  }

  lemma {:induction false} EmptyQueue(last: int)
    ensures QueueOk([], [], last)
  {
  }

  lemma {:induction false} SentStart(maxError: nat)
    ensures SentOk(Sent([], [], []), maxError, 0, 0, -1)
  {
  }

  /** A cancelled pair of steps leaves everything as before the first. */
  lemma {:induction false} KeptUndone(front: seq<StepAt>, clock: int, pendingDir: int, dir: int)
    requires clock > 0 && dir != pendingDir && (dir == 0 || dir == 1) && (pendingDir == 0 || pendingDir == 1)
    ensures front + Pending(clock, pendingDir) == (front + Pending(0, dir)) + [StepAt(clock, pendingDir)]
    ensures Net(front + Pending(0, dir)) == Net(front + Pending(clock, pendingDir)) + Sign(dir)
  {
    assert front + Pending(0, dir) == front;
    assert (front + [StepAt(clock, pendingDir)])[..|front|] == front;
  }

  lemma {:induction false} KeptAppended(front: seq<StepAt>, clock: int, dir: int)
    requires clock > 0
    ensures front + Pending(clock, dir) == (front + Pending(0, dir)) + [StepAt(clock, dir)]
    ensures Net(front + Pending(clock, dir)) == Net(front + Pending(0, dir)) + Sign(dir)
  {
    assert front + Pending(0, dir) == front;
    assert (front + [StepAt(clock, dir)])[..|front|] == front;
  }

  lemma {:induction false} RestIsLater(taken: seq<StepAt>, queued: seq<StepAt>, pending: seq<StepAt>, clock: int,
                                       last: int)
    requires forall i :: 0 <= i < |queued| ==> queued[i].clock > clock || queued[i].clock == clock == last
    requires AllAfter(pending, clock)
    ensures var kept := taken + queued + pending;
            forall i :: |taken| <= i < |kept| ==> kept[i].clock > clock || kept[i].clock == clock == last
  {
  }

  /** All steps are kept, or all but the pending one. */
  ghost predicate LosesAtMost(before: seq<StepAt>, after: seq<StepAt>, pending: seq<StepAt>) {
    after == before || after + pending == before
  }

  // ----- Steps at the same clock -----

  /** No three steps in a row at one clock, the last step sent included. */
  ghost predicate Spaced(last: int, clocks: seq<int>) {
    forall i, j {:trigger clocks[i], clocks[j]} :: 0 <= i && j == i + 1 < |clocks| ==>
      !((if i > 0 then clocks[i - 1] else last) == clocks[i] == clocks[j])
  }

  /** With one more step the condition concerns only the last three. */
  lemma {:induction false} SpacedEnd(last: int, clocks: seq<int>, c: int)
    ensures Spaced(last, clocks + [c]) <==>
            Spaced(last, clocks) && (clocks != [] ==>
              !(LastDue(clocks[..|clocks| - 1], last) == clocks[|clocks| - 1] == c))
  {
    var more, n := clocks + [c], |clocks|;
    if Spaced(last, more) {
      SpacedFront(last, clocks, [c]);
      if n > 0 {
        assert more[n - 1] == clocks[n - 1] && more[n] == c;
      }
    }
    if Spaced(last, clocks) && (n > 0 ==> !(LastDue(clocks[..n - 1], last) == clocks[n - 1] == c)) {
      forall i, j | 0 <= i && j == i + 1 < |more|
        ensures !((if i > 0 then more[i - 1] else last) == more[i] == more[j])
      {
        if j < n {
          assert more[i] == clocks[i] && more[j] == clocks[j];
        }
      }
    }
  }

  lemma {:induction false} SpacedFront(last: int, clocks: seq<int>, more: seq<int>)
    ensures Spaced(last, clocks + more) ==> Spaced(last, clocks)
  {
    if Spaced(last, clocks + more) {
      var all := clocks + more;
      forall i, j | 0 <= i && j == i + 1 < |clocks|
        ensures !((if i > 0 then clocks[i - 1] else last) == clocks[i] == clocks[j])
      {
        assert all[i] == clocks[i] && all[j] == clocks[j];
      }
    }
  }

  /** What is spaced, also with one more step to come, stays so. */
  ghost predicate StaysSpaced(l0: int, d0: seq<int>, l1: int, d1: seq<int>) {
    && (Spaced(l0, d0) ==> Spaced(l1, d1))
    && forall c {:trigger Spaced(l1, d1 + [c])} {:trigger Spaced(l0, d0 + [c])} ::
         LastDue(d0, l0) <= c && Spaced(l0, d0 + [c]) ==> Spaced(l1, d1 + [c])
  }

  lemma {:induction false} StaysApplied(l0: int, d0: seq<int>, l1: int, d1: seq<int>, c: int)
    requires StaysSpaced(l0, d0, l1, d1) && LastDue(d0, l0) <= c
    ensures Spaced(l0, d0 + [c]) ==> Spaced(l1, d1 + [c])
  {
  }

  lemma {:induction false} StaysKept(l0: int, d0: seq<int>, l1: int, d1: seq<int>)
    requires StaysSpaced(l0, d0, l1, d1)
    ensures Spaced(l0, d0) ==> Spaced(l1, d1)
  {
  }

  lemma {:induction false} StaysStill(last: int, clocks: seq<int>)
    ensures StaysSpaced(last, clocks, last, clocks)
  {
  }

  lemma {:induction false} StaysOn(l0: int, d0: seq<int>, l1: int, d1: seq<int>, l2: int, d2: seq<int>)
    requires StaysSpaced(l0, d0, l1, d1) && StaysSpaced(l1, d1, l2, d2) && LastDue(d1, l1) <= LastDue(d0, l0)
    ensures StaysSpaced(l0, d0, l2, d2)
  {
    forall c | LastDue(d0, l0) <= c && Spaced(l0, d0 + [c]) ensures Spaced(l2, d2 + [c]) {
      assert Spaced(l1, d1 + [c]);
    }
  }

  lemma {:induction false} StaysFresh(l0: int, d0: seq<int>, last: int)
    ensures StaysSpaced(l0, d0, last, [])
  {
  }

  lemma {:induction false} StaysPushed(l0: int, d0: seq<int>, l1: int, d1: seq<int>, s: int)
    requires StaysSpaced(l0, d0, l1, d1) && LastDue(d1, l1) <= LastDue(d0, l0) <= s
    ensures StaysSpaced(l0, d0 + [s], l1, d1 + [s])
  {
    forall c | s <= c && Spaced(l0, d0 + [s] + [c]) ensures Spaced(l1, d1 + [s] + [c]) {
      SpacedEnd(l0, d0 + [s], c);
      SpacedEnd(l1, d1 + [s], c);
      assert (d0 + [s])[..|d0|] == d0 && (d1 + [s])[..|d1|] == d1;
      assert Spaced(l1, d1 + [s]);
    }
  }

  lemma {:induction false} SpacedDue(l0: int, d0: seq<int>, l1: int, d1: seq<int>, pending: seq<int>)
    requires StaysSpaced(l0, d0, l1, d1) && |pending| <= 1 && (pending != [] ==> LastDue(d0, l0) <= pending[0])
    ensures Spaced(l0, d0 + pending) ==> Spaced(l0, d0) && Spaced(l1, d1 + pending)
  {
    SpacedFront(l0, d0, pending);
    if pending == [] {
      assert d0 + pending == d0 && d1 + pending == d1;
    } else {
      assert pending == [pending[0]];
    }
  }

  /** Sending a command leaves what is spaced so. */
  lemma {:induction false} SpacedDrop(queue: seq<int>, clocks: seq<int>, last: int, n: nat, newLast: int)
    requires QueueOk(queue, clocks, last) && 1 <= n <= |queue| == |clocks|
    requires newLast <= clocks[n - 1]
    ensures StaysSpaced(last, clocks, newLast, clocks[n..])
  {
    assert QueueFacts(Whole, queue, clocks, last);
    SpacedRest(last, clocks, n, newLast);
    forall c | LastDue(clocks, last) <= c && Spaced(last, clocks + [c]) ensures Spaced(newLast, clocks[n..] + [c]) {
      SpacedRest(last, clocks + [c], n, newLast);
      assert (clocks + [c])[n..] == clocks[n..] + [c];
    }
  }

  lemma {:induction false} SpacedRest(last: int, clocks: seq<int>, n: nat, newLast: int)
    requires 1 <= n <= |clocks| && newLast <= clocks[n - 1]
    requires forall i, j :: 0 <= i < j < |clocks| ==> clocks[i] <= clocks[j]
    ensures Spaced(last, clocks) ==> Spaced(newLast, clocks[n..])
  {
    var rest := clocks[n..];
    if Spaced(last, clocks) {
      forall i, j | 0 <= i && j == i + 1 < |rest|
        ensures !((if i > 0 then rest[i - 1] else newLast) == rest[i] == rest[j])
      {
        assert rest[i] == clocks[n + i] && rest[j] == clocks[n + j];
      }
    }
  }

  lemma {:induction false} SpacedIsNotStuck(last: int, clocks: seq<int>)
    requires Spaced(last, clocks)
    ensures !(|clocks| >= 2 && clocks[0] == clocks[1] == last)
  {
  }

  lemma {:induction false} NetTracks(moves: seq<HistorySteps>, taken: seq<StepAt>, maxError: nat)
    requires Tracks(moves, taken, maxError)
    ensures Net(AllPulses(moves)) == Net(taken)
  {
    forall i: nat | i < |taken| ensures AllPulses(moves)[i].dir == taken[i].dir {
      assert TracksAt(moves, taken, maxError, i);
    }
    NetOfDirs(AllPulses(moves), taken);
  }

  lemma {:induction false} NetOfDirs(a: seq<StepAt>, b: seq<StepAt>)
    requires |a| == |b| && forall i :: 0 <= i < |a| ==> a[i].dir == b[i].dir
    ensures Net(a) == Net(b)
  {
    if a != [] {
      NetOfDirs(a[..|a| - 1], b[..|b| - 1]);
    }
  }

  // ----- Looking up past positions -----

  /** Only the first n moves can have begun by the given clock; `position` is where they end. */
  ghost predicate Looking(moves: seq<HistorySteps>, n: nat, clock: int, position: int) {
    forall seal :: LookingFacts(seal, moves, n, clock, position)
  }

  ghost predicate LookingFacts(seal: Seal, moves: seq<HistorySteps>, n: nat, clock: int, position: int) {
    && n <= |moves| && Chain(moves[..n])
    && position == Net(AllPulses(moves[..n]))
    && PositionAt(AllPulses(moves), clock) == PositionAt(AllPulses(moves[..n]), clock)
  }

  lemma {:induction false} StartLooking(s: Sent, maxError: nat, last: int, position: int, sdir: int, clock: int)
    requires SentOk(s, maxError, last, position, sdir)
    ensures Looking(s.moves, |s.moves|, clock, position)
  {
    assert SentFacts(Whole, s, maxError, last, position, sdir);
    assert s.moves[..|s.moves|] == s.moves;
  }

  lemma {:induction false} LookFurther(moves: seq<HistorySteps>, n: nat, clock: int, position: int)
    requires 0 < n <= |moves| && Looking(moves, n, clock, position) && clock < moves[n - 1].firstClock
    ensures Looking(moves, n - 1, clock, moves[n - 1].startPosition)
  {
    assert LookingFacts(Whole, moves, n, clock, position);
    PositionBefore(moves[..n], clock);
    assert moves[..n][..n - 1] == moves[..n - 1];
  }

  lemma {:induction false} FoundAfter(moves: seq<HistorySteps>, n: nat, clock: int, position: int)
    requires 0 < n <= |moves| && Looking(moves, n, clock, position) && clock >= moves[n - 1].lastClock
    ensures PositionAt(AllPulses(moves), clock) == moves[n - 1].startPosition + moves[n - 1].stepCount
  {
    assert LookingFacts(Whole, moves, n, clock, position);
    var hs := moves[n - 1];
    MoveRises(hs, 1, Count(hs));
    MoveRises(hs, Count(hs), Count(hs));
    assert hs == moves[..n][n - 1];
    PositionDuring(moves[..n], clock, Count(hs));
  }

  lemma {:induction false} FoundDuring(moves: seq<HistorySteps>, n: nat, clock: int, position: int)
    requires 0 < n <= |moves| && Looking(moves, n, clock, position)
    requires moves[n - 1].firstClock <= clock < moves[n - 1].lastClock
    ensures var hs := moves[n - 1];
            && InMove(hs, clock)
            && PositionAt(AllPulses(moves), clock) == hs.startPosition + Due(hs, clock, Count(hs)) * Sign(Dir(hs))
  {
    assert LookingFacts(Whole, moves, n, clock, position);
    var hs := moves[n - 1];
    assert hs == moves[..n][n - 1];
    MoveRises(hs, 1, Count(hs));
    PositionDuring(moves[..n], clock, Due(hs, clock, Count(hs)));
  }

  lemma {:induction false} FoundNone(moves: seq<HistorySteps>, n: nat, clock: int, position: int)
    requires n <= |moves| && Looking(moves, n, clock, position) && clock >= LastClock(moves[..n])
    ensures PositionAt(AllPulses(moves), clock) == position
  {
    assert LookingFacts(Whole, moves, n, clock, position);
    PositionAfter(moves[..n], clock);
  }

  /** The clock is between the first and the last pulse of a move. */
  ghost predicate InMove(hs: HistorySteps, clock: int) {
    forall seal :: InMoveFacts(seal, hs, clock)
  }

  ghost predicate InMoveFacts(seal: Seal, hs: HistorySteps, clock: int) {
    && MovesOn(hs.interval, hs.add) && hs.firstClock <= clock
    && var m := Due(hs, clock, Count(hs));
       && 1 <= m < Count(hs)
       && hs.interval + hs.add * m > 0
  }

  /** How far into a move a clock is: a division, or the quadratic formula. */
  method OffsetAt(sqrt: real -> real, hs: HistorySteps, clock: int) returns (offset: int)
    requires IsSqrt(sqrt) && InMove(hs, clock)
    ensures offset == Due(hs, clock, Count(hs))
  {
    assert InMoveFacts(Whole, hs, clock);
    ghost var m := Due(hs, clock, Count(hs));
    var interval, add := hs.interval, hs.add;
    var ticks := clock - hs.firstClock + interval;
    if add == 0 {
      QuotientCounts(interval, m, ticks);
      offset := CDiv(ticks, interval);
    } else {
      RootCounts(sqrt, interval, add, m, ticks);
      var a, b, c := 0.5 * add as real, interval as real - 0.5 * add as real, -(ticks as real);
      offset := Truncated(Root(sqrt, a, b, c));
    }
  }

  /** With a non-zero `add`, a command's count is small enough that count * (count - 1) fits a
      32-bit register. */
  lemma {:induction false} AddFactorFits(points: seq<int>, maxError: nat, move: StepMove)
    requires Rising(points) && Near(points) && Sound(points, maxError, move) && move.add != 0
    ensures move.count * (move.count - 1) < HALF_WORD
  {
    TriangleFormula(move.count);
    SpanGrows(points, maxError, move, move.count);
    SoundStepsForward(points, maxError, move, move.count - 1);
    assert Triangle(move.count) < CLOCK_DIFF_MAX;
  }

  /** Gaps that change by at least one tick from pulse to pulse and never go back. */
  lemma {:induction false} GapAtLeast(points: seq<int>, maxError: nat, move: StepMove, k: nat)
    requires Rising(points) && Sound(points, maxError, move) && move.add != 0 && k < move.count
    ensures Gap(move, k) >= if move.add > 0 then k else move.count - 1 - k
  {
    SoundStepsForward(points, maxError, move, 0);
    SoundStepsForward(points, maxError, move, move.count - 1);
    if move.add > 0 {
      AtLeast(move.add, k);
    } else {
      AtLeast(-move.add, move.count - 1 - k);
      assert Gap(move, k) == Gap(move, move.count - 1) + -move.add * (move.count - 1 - k);
    }
  }

  lemma {:induction false} AtLeast(x: int, k: nat)
    requires x > 0
    ensures x * k >= k
  {
  }

  lemma {:induction false} SpanGrows(points: seq<int>, maxError: nat, move: StepMove, k: nat)
    requires Rising(points) && Sound(points, maxError, move) && move.add != 0 && k <= move.count
    ensures Pulse(move.interval, move.add, k) >=
            if move.add > 0 then Triangle(k) else Triangle(move.count) - Triangle(move.count - k)
  {
    if k > 0 {
      SpanGrows(points, maxError, move, k - 1);
      GapAtLeast(points, maxError, move, k - 1);
      assert Triangle(move.count - (k - 1)) == Triangle(move.count - k) + (move.count - k);
    }
  }
}
