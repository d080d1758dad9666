/**
  struct steppersync: the messages of several step compressors are put in one order, and each
  that uses the micro-controller's move queue is held back until a slot of it is free
  (the end of stepcompress.c).
*/
module MoveSlots {
  import opened Common

  // ----- The binary heap -----

  ghost predicate Above(s: seq<int>, i: nat)
    requires 1 <= i < |s|
  {
    s[(i - 1) / 2] <= s[i]
  }

  ghost predicate IsHeap(s: seq<int>) {
    forall i: nat :: 1 <= i < |s| ==> Above(s, i)
  }

  lemma {:induction false} RootIsLeast(s: seq<int>, i: nat)
    requires IsHeap(s) && i < |s|
    ensures s[0] <= s[i]
  {
    if i > 0 {
      assert Above(s, i);
      RootIsLeast(s, (i - 1) / 2);
    }
  }

  /** A heap but for the children of `pos`, which are in order only with its parent. */
  ghost predicate HeapBut(s: seq<int>, pos: nat) {
    && pos < |s|
    && (forall i: nat :: 1 <= i < |s| && i != 2 * pos + 1 && i != 2 * pos + 2 ==> Above(s, i))
    && (pos > 0 && 2 * pos + 1 < |s| ==> s[(pos - 1) / 2] <= s[2 * pos + 1])
    && (pos > 0 && 2 * pos + 2 < |s| ==> s[(pos - 1) / 2] <= s[2 * pos + 2])
  }

  ghost predicate LeastChild(s: seq<int>, pos: nat, k: nat) {
    && pos < k < |s| && (k == 2 * pos + 1 || k == 2 * pos + 2)
    && (2 * pos + 1 < |s| ==> s[k] <= s[2 * pos + 1])
    && (2 * pos + 2 < |s| ==> s[k] <= s[2 * pos + 2])
  }

  /** Pull the lesser child up into the hole. */
  lemma {:induction false} HoleSinks(s: seq<int>, pos: nat, k: nat, t: seq<int>)
    requires HeapBut(s, pos) && LeastChild(s, pos, k) && s[k] <= s[pos]
    requires t == s[pos := s[k]][k := s[pos]]
    ensures HeapBut(t, k)
  {
    forall i: nat | 1 <= i < |t| && i != 2 * k + 1 && i != 2 * k + 2 ensures Above(t, i) {
      if i != 2 * pos + 1 && i != 2 * pos + 2 {
        assert Above(s, i);
      }
    }
    if 2 * k + 1 < |s| {
      assert Above(s, 2 * k + 1);
    }
    if 2 * k + 2 < |s| {
      assert Above(s, 2 * k + 2);
    }
  }

  ghost predicate AtMost(s: seq<int>, top: int) {
    forall i :: 0 <= i < |s| ==> s[i] <= top
  }

  lemma {:induction false} HoleStarts(a: seq<int>, reqClock: int)
    requires IsHeap(a) && a != [] && AtMost(a, UINT64_MAX) && reqClock <= UINT64_MAX
    ensures HeapBut(a[0 := reqClock], 0) && AtMost(a[0 := reqClock], UINT64_MAX)
    ensures multiset(a[0 := reqClock]) == multiset(a) - multiset{a[0]} + multiset{reqClock}
  {
    var s := a[0 := reqClock];
    forall i: nat | 1 <= i < |s| && i != 1 && i != 2 ensures Above(s, i) {
      assert Above(a, i);
    }
  }

  /** The array with `reqClock` put in its hole, before and after a child moves up. */
  lemma {:induction false} HoleMoves(a: seq<int>, pos: nat, k: nat, reqClock: int)
    requires pos < |a| && k < |a| && HeapBut(a[pos := reqClock], pos) && LeastChild(a, pos, k) && a[k] < reqClock
    requires AtMost(a[pos := reqClock], UINT64_MAX)
    ensures var s, t := a[pos := reqClock], a[pos := a[k]][k := reqClock];
            HeapBut(t, k) && multiset(t) == multiset(s) && AtMost(t, UINT64_MAX)
  {
    var s, t := a[pos := reqClock], a[pos := a[k]][k := reqClock];
    assert t == s[pos := s[k]][k := s[pos]];
    HoleSinks(s, pos, k, t);
  }

  lemma {:induction false} HoleStops(s: seq<int>, pos: nat)
    requires HeapBut(s, pos)
    requires 2 * pos + 1 < |s| ==> s[pos] <= s[2 * pos + 1]
    requires 2 * pos + 2 < |s| ==> s[pos] <= s[2 * pos + 2]
    ensures IsHeap(s)
  {
  }

  /** heap_replace, in place: the root gives way to a new clock. */
  method HeapReplace(mc: array<int>, reqClock: int)
    requires mc.Length > 0 && IsHeap(mc[..]) && AtMost(mc[..], UINT64_MAX) && reqClock <= UINT64_MAX
    modifies mc
    ensures IsHeap(mc[..]) && AtMost(mc[..], UINT64_MAX)
    ensures multiset(mc[..]) == multiset(old(mc[..])) - multiset{old(mc[0])} + multiset{reqClock}
  {
    var nmc, pos := mc.Length, 0;
    HoleStarts(mc[..], reqClock);
    ghost var all := multiset(mc[..][0 := reqClock]);
    while true
      invariant 0 <= pos < nmc
      invariant HeapBut(mc[..][pos := reqClock], pos) && AtMost(mc[..][pos := reqClock], UINT64_MAX)
      invariant multiset(mc[..][pos := reqClock]) == all
      decreases nmc - pos
    {
      ghost var a := mc[..];
      var child1Pos, child2Pos := 2 * pos + 1, 2 * pos + 2;
      var child2Clock := if child2Pos < nmc then mc[child2Pos] else UINT64_MAX;
      var child1Clock := if child1Pos < nmc then mc[child1Pos] else UINT64_MAX;
      if reqClock <= child1Clock && reqClock <= child2Clock {
        HoleStops(a[pos := reqClock], pos);
        mc[pos] := reqClock;
        assert mc[..] == a[pos := reqClock];
        break;
      }
      var childPos, childClock := child2Pos, child2Clock;
      if child1Clock < child2Clock {
        childPos, childClock := child1Pos, child1Clock;
      }
      HoleMoves(a, pos, childPos, reqClock);
      mc[pos] := childClock;
      assert mc[..] == a[pos := a[childPos]];
      pos := childPos;
    }
  }

  // ----- Slots -----

  function Repeat(n: nat, x: int): (s: seq<int>)
    ensures |s| == n && forall i :: 0 <= i < n ==> s[i] == x
  {
    seq(n, i => x)
  }

  ghost predicate TakesLeast(before: multiset<int>, least: int, added: int, after: multiset<int>) {
    && least in before && (forall x :: x in before ==> least <= x)
    && after == before - multiset{least} + multiset{added}
  }

  /** A sequence of commands on n slots: command i waited for the slot that was the first to
      become free, at avails[i], and releases it at freed[i]; clocks[i] are the times at which
      the slots are free before it. */
  datatype Schedule = Schedule(avails: seq<int>, freed: seq<int>, clocks: seq<multiset<int>>)

  ghost predicate SlotTaken(s: Schedule, i: nat)
    requires i < |s.freed| == |s.avails| == |s.clocks| - 1
  {
    TakesLeast(s.clocks[i], s.avails[i], s.freed[i], s.clocks[i + 1])
  }

  ghost predicate Slots(n: nat, s: Schedule) {
    && |s.freed| == |s.avails| == |s.clocks| - 1
    && s.clocks[0] == multiset(Repeat(n, 0))
    && forall i: nat :: i < |s.freed| ==> SlotTaken(s, i)
  }

  /** How many of the first k commands are in use at a clock: sent by then, not yet released. */
  function InUse(sentAt: seq<int>, freed: seq<int>, clock: int, k: nat): nat
    requires k <= |sentAt| == |freed|
  {
    if k == 0 then 0
    else InUse(sentAt, freed, clock, k - 1) + if sentAt[k - 1] <= clock < freed[k - 1] then 1 else 0
  }

  /** The slot taken is not one in use; the new command's slot is, if it is not yet released. */
  lemma {:induction false} UsedStep(before: multiset<int>, least: int, added: int, after: multiset<int>,
                                    earlier: multiset<int>, clock: int)
    returns (used: multiset<int>)
    requires TakesLeast(before, least, added, after) && least <= clock
    requires earlier <= before && forall x :: x in earlier ==> x > clock
    ensures used <= after && |after| == |before|
    ensures (forall x :: x in used ==> x > clock) && |used| == |earlier| + if clock < added then 1 else 0
  {
    assert earlier[least] == 0;
    used := if clock < added then earlier + multiset{added} else earlier;
  }

  /** When the first k commands have been sent, each one still in use is among the clocks. */
  lemma {:induction false} UsedAreListed(n: nat, s: Schedule, sentAt: seq<int>, clock: int, k: nat)
    returns (used: multiset<int>)
    requires Slots(n, s) && k <= |sentAt| == |s.freed|
    requires forall i :: 0 <= i < k ==> s.avails[i] <= sentAt[i] <= clock
    ensures used <= s.clocks[k] && |used| == InUse(sentAt, s.freed, clock, k) && |s.clocks[k]| == n
    ensures forall x :: x in used ==> x > clock
  {
    if k == 0 {
      used := multiset{};
    } else {
      var earlier := UsedAreListed(n, s, sentAt, clock, k - 1);
      assert SlotTaken(s, k - 1);
      used := UsedStep(s.clocks[k - 1], s.avails[k - 1], s.freed[k - 1], s.clocks[k], earlier, clock);
    }
  }

  /** Move slots never overflow: if commands go out in order, and none before the clock it waited
      for, then at any time no more than n slots are in use. */
  lemma {:induction false} SlotsNeverOverflow(n: nat, s: Schedule, sentAt: seq<int>, clock: int, k: nat)
    requires Slots(n, s) && k <= |sentAt| == |s.freed|
    requires forall i :: 0 <= i < |sentAt| ==> s.avails[i] <= sentAt[i]
    requires forall i, j :: 0 <= i < j < |sentAt| ==> sentAt[i] <= sentAt[j]
    ensures InUse(sentAt, s.freed, clock, k) <= n
  {
    if k > 0 {
      if sentAt[k - 1] <= clock {
        var used := UsedAreListed(n, s, sentAt, clock, k);
        SubMultiset(used, s.clocks[k]);
      } else {
        SlotsNeverOverflow(n, s, sentAt, clock, k - 1);
      }
    }
  }

  lemma {:induction false} SubMultiset(a: multiset<int>, b: multiset<int>)
    requires a <= b
    ensures |a| <= |b|
  {
    assert b == a + (b - a);
  }

  function Take(s: Schedule, avail: int, free: int, after: multiset<int>): Schedule {
    Schedule(s.avails + [avail], s.freed + [free], s.clocks + [after])
  }

  lemma {:induction false} SlotsMore(n: nat, s: Schedule, avail: int, free: int, after: multiset<int>)
    requires Slots(n, s) && TakesLeast(s.clocks[|s.freed|], avail, free, after)
    ensures Slots(n, Take(s, avail, free, after))
  {
    var t := Take(s, avail, free, after);
    forall i: nat | i < |t.freed| ensures SlotTaken(t, i) {
      if i < |s.freed| {
        assert SlotTaken(s, i);
      }
    }
  }
}

module StepperSynchronizer {
  import opened Common
  import opened StepLog
  import opened StepCompressor
  import opened MoveSlots

  /** A message as it is passed on: from which stepper, and not to be sent before minClock. */
  datatype Batched = Batched(stepper: nat, msg: Message, minClock: int)

  /** The messages of one stepper within a batch, in order. */
  function Share(batch: seq<Batched>, stepper: nat): seq<Message> {
    if batch == [] then []
    else
      var i := |batch| - 1;
      Share(batch[..i], stepper) + if batch[i].stepper == stepper then [batch[i].msg] else []
  }

  /** The batch takes messages off the fronts of the queues. */
  ghost predicate Interleaves(before: seq<seq<Message>>, batch: seq<Batched>, after: seq<seq<Message>>) {
    |before| == |after| && forall i :: 0 <= i < |before| ==> before[i] == Share(batch, i) + after[i]
  }

  ghost predicate InOrder(q: seq<Message>) {
    && (forall i, j :: 0 <= i < j < |q| ==> q[i].reqClock <= q[j].reqClock)
    && (forall i :: 0 <= i < |q| ==> 0 <= MinClock(q[i]) <= q[i].reqClock < MAX_CLOCK)
  }

  ghost predicate BatchInOrder(batch: seq<Batched>) {
    forall i, j :: 0 <= i < j < |batch| ==> batch[i].msg.reqClock <= batch[j].msg.reqClock
  }

  /** Messages still waiting come after those in the batch. */
  ghost predicate WaitingIsLater(batch: seq<Batched>, after: seq<seq<Message>>) {
    batch != [] ==>
      forall i, j :: 0 <= i < |after| && 0 <= j < |after[i]| ==>
        batch[|batch| - 1].msg.reqClock <= after[i][j].reqClock
  }

  /** What is known while messages are being merged. */
  ghost predicate Merging(before: seq<seq<Message>>, batch: seq<Batched>, after: seq<seq<Message>>) {
    forall seal :: MergingFacts(seal, before, batch, after)
  }

  ghost predicate MergingFacts(seal: Seal, before: seq<seq<Message>>, batch: seq<Batched>, after: seq<seq<Message>>) {
    && Interleaves(before, batch, after)
    && (forall i :: 0 <= i < |batch| ==> batch[i].stepper < |before|)
    && BatchInOrder(batch) && WaitingIsLater(batch, after)
    && forall i :: 0 <= i < |after| ==> InOrder(after[i])
  }

  lemma {:induction false} MergeStart(queues: seq<seq<Message>>)
    requires forall i :: 0 <= i < |queues| ==> InOrder(queues[i])
    ensures Merging(queues, [], queues)
  {
    forall i | 0 <= i < |queues| ensures queues[i] == Share([], i) + queues[i] {
    }
  }

  ghost predicate IsLeast(queues: seq<seq<Message>>, k: nat) {
    && k < |queues| && queues[k] != []
    && forall i :: 0 <= i < |queues| && queues[i] != [] ==> queues[k][0].reqClock <= queues[i][0].reqClock
  }

  lemma {:induction false} MergeStep(before: seq<seq<Message>>, batch: seq<Batched>, after: seq<seq<Message>>,
                                     b: Batched)
    requires Merging(before, batch, after) && IsLeast(after, b.stepper) && b.msg == after[b.stepper][0]
    ensures Merging(before, batch + [b], after[b.stepper := after[b.stepper][1..]])
  {
    assert MergingFacts(Whole, before, batch, after);
    var k, next, more := b.stepper, after[b.stepper := after[b.stepper][1..]], batch + [b];
    assert more[..|batch|] == batch;
    forall i | 0 <= i < |before| ensures before[i] == Share(more, i) + next[i] && InOrder(next[i]) {
      assert InOrder(after[i]);
      if i == k {
        assert after[k] == [b.msg] + next[k];
      }
    }
    forall i, j | 0 <= i < |next| && 0 <= j < |next[i]| ensures b.msg.reqClock <= next[i][j].reqClock {
      assert InOrder(after[i]) && InOrder(next[i]);
      assert after[i] != [] && after[i][0].reqClock <= next[i][j].reqClock;
    }
  }

  /** What a stepper has sent, all the steps it was given and kept, the clock of the last step
      sent, the clocks of those not yet sent, the clock of the pending one (or 0), and whether
      that one turns the direction. */
  datatype Progress = Progress(sent: Sent, kept: seq<StepAt>, last: int, due: seq<int>, pending: int, turns: bool)

  /** Every stepper's share of a batch, and nothing else, has been handed over. */
  ghost predicate HandedOver(before: seq<seq<Message>>, batch: seq<Batched>, after: seq<seq<Message>>) {
    && |before| == |after|
    && (forall i :: 0 <= i < |batch| ==> batch[i].stepper < |before|)
    && forall i :: 0 <= i < |before| ==> after[i] == before[i] + Share(batch, i)
  }

  /** Messages leave the queues only by being handed over. */
  lemma {:induction false} HandedFromQueues(c0: seq<seq<Message>>, q0: seq<seq<Message>>, batch: seq<Batched>,
                                            c1: seq<seq<Message>>, q1: seq<seq<Message>>)
    requires |c0| == |q0| == |c1| == |q1| && Merging(q0, batch, q1)
    requires forall i :: 0 <= i < |c0| ==> c0[i] + q0[i] == c1[i] + q1[i]
    ensures HandedOver(c0, batch, c1) && BatchInOrder(batch) && WaitingIsLater(batch, q1)
  {
    assert MergingFacts(Whole, q0, batch, q1);
    forall i | 0 <= i < |c0| ensures c1[i] == c0[i] + Share(batch, i) {
      SameFront(c0[i], Share(batch, i), c1[i], q1[i]);
    }
  }

  lemma {:induction false} SameFront(a: seq<Message>, b: seq<Message>, c: seq<Message>, rest: seq<Message>)
    requires a + (b + rest) == c + rest
    ensures c == a + b
  {
    assert (a + b) + rest == c + rest;
    assert c == (c + rest)[..|c|] && a + b == ((a + b) + rest)[..|a + b|];
  }

  class StepperSync {
    const scList: seq<StepCompress>
    const moveClocks: array<int>
    ghost var schedule: Schedule

    ghost predicate Valid()
      reads this, moveClocks, scList
    {
      && (forall i, j {:trigger scList[i], scList[j]} :: 0 <= i < j < |scList| ==> scList[i] != scList[j])
      && (forall i {:trigger scList[i].Valid()} :: 0 <= i < |scList| ==> scList[i].Valid())
      && ValidSlots()
    }

    ghost predicate ValidSlots()
      reads this, moveClocks
    {
      && moveClocks.Length > 0
      && IsHeap(moveClocks[..]) && AtMost(moveClocks[..], UINT64_MAX)
      && Slots(moveClocks.Length, schedule)
      && schedule.clocks[|schedule.freed|] == multiset(moveClocks[..])
    }

    ghost function Queues(): (queues: seq<seq<Message>>)
      reads scList
      ensures |queues| == |scList|
      ensures forall i :: 0 <= i < |scList| ==> queues[i] == scList[i].msgQueue
    {
      seq(|scList|, i requires 0 <= i < |scList| reads scList => scList[i].msgQueue)
    }

    /** The messages of every stepper that have been put into batches. */
    ghost function Collected(): (collected: seq<seq<Message>>)
      reads scList
      ensures |collected| == |scList|
      ensures forall i :: 0 <= i < |scList| ==> collected[i] == scList[i].collected
    {
      seq(|scList|, i requires 0 <= i < |scList| reads scList => scList[i].collected)
    }

    ghost function StepsOf(sc: StepCompress): Progress
      reads sc
    {
      Progress(sc.sent, sc.Kept(), sc.lastStepClock, sc.Due(), sc.nextStepClock, sc.nextStepDir != sc.sdir)
    }

    /** How far every stepper is. */
    ghost function AllSteps(): (steps: seq<Progress>)
      reads scList
      ensures |steps| == |scList|
      ensures forall i :: 0 <= i < |scList| ==> steps[i] == StepsOf(scList[i])
    {
      seq(|scList|, i requires 0 <= i < |scList| reads scList => StepsOf(scList[i]))
    }

    /** steppersync_alloc: all slots are free. */
    constructor (scList: seq<StepCompress>, moveNum: nat)
      requires moveNum > 0
      requires forall i, j {:trigger scList[i], scList[j]} :: 0 <= i < j < |scList| ==> scList[i] != scList[j]
      requires forall i {:trigger scList[i].Valid()} :: 0 <= i < |scList| ==> scList[i].Valid()
      ensures Valid() && fresh(moveClocks) && this.scList == scList && schedule.freed == []
    {
      this.scList := scList;
      moveClocks := new int[moveNum](i => 0);
      schedule := Schedule([], [], [multiset(Repeat(moveNum, 0))]);
      new;
      assert moveClocks[..] == Repeat(moveNum, 0);
    }

    /** Find the message with the lowest request clock; of equals, the first stepper's. */
    method PickMessage() returns (k: int)
      requires forall i {:trigger scList[i].Valid()} :: 0 <= i < |scList| ==> scList[i].Valid()
      ensures k < 0 ==> forall i :: 0 <= i < |scList| ==> Queues()[i] == []
      ensures k >= 0 ==> IsLeast(Queues(), k)
      ensures k >= 0 ==> forall i :: 0 <= i < k && Queues()[i] != [] ==>
                Queues()[i][0].reqClock > Queues()[k][0].reqClock
    {
      var reqClock := MAX_CLOCK;
      k := -1;
      for i := 0 to |scList|
        invariant -1 <= k < i || k == -1
        invariant k < 0 ==> reqClock == MAX_CLOCK && forall j :: 0 <= j < i ==> Queues()[j] == []
        invariant k >= 0 ==> Queues()[k] != [] && reqClock == Queues()[k][0].reqClock
        invariant k >= 0 ==> forall j :: 0 <= j < i && Queues()[j] != [] ==> reqClock <= Queues()[j][0].reqClock
        invariant k >= 0 ==> forall j :: 0 <= j < k && Queues()[j] != [] ==> reqClock < Queues()[j][0].reqClock
      {
        var sc := scList[i];
        assert sc.Valid();
        sc.MessagesInOrder();
        if sc.msgQueue != [] {
          var m := sc.msgQueue[0];
          if m.reqClock < reqClock {
            k, reqClock := i, m.reqClock;
          }
        }
      }
    }

    /** The root of the heap is the slot that is free first. */
    lemma {:induction false} RootIsFirstFree()
      requires ValidSlots()
      ensures IsFirstFree(multiset(moveClocks[..]), moveClocks[0])
    {
      var clocks := moveClocks[..];
      forall x | x in multiset(clocks) ensures clocks[0] <= x {
        var i :| 0 <= i < |clocks| && clocks[i] == x;
        RootIsLeast(clocks, i);
      }
      assert clocks[0] in multiset(clocks);
    }

    /** heap_replace for a command that uses a slot: it waits for the first to become free. */
    method TakeSlot(free: int)
      requires ValidSlots() && free <= UINT64_MAX
      modifies this`schedule, moveClocks
      ensures ValidSlots()
      ensures schedule.freed == old(schedule.freed) + [free]
      ensures schedule.avails == old(schedule.avails) + [old(moveClocks[0])]
      ensures |schedule.clocks| == |old(schedule.clocks)| + 1 && old(schedule.clocks) <= schedule.clocks
    {
      ghost var before := moveClocks[..];
      RootIsFirstFree();
      HeapReplace(moveClocks, free);
      SlotsMore(moveClocks.Length, schedule, before[0], free, multiset(moveClocks[..]));
      schedule := Take(schedule, before[0], free, multiset(moveClocks[..]));
    }

    method Pop(k: nat) returns (qm: Message)
      requires Valid() && k < |scList| && scList[k].msgQueue != []
      modifies scList[k]
      ensures Valid() && Queues() == old(Queues()[k := Queues()[k][1..]]) && qm == old(scList[k].msgQueue[0])
      ensures 0 <= MinClock(qm) < MAX_CLOCK
      ensures AllSteps() == old(AllSteps())
    {
      assert scList[k].Valid();
      scList[k].MessagesInOrder();
      qm := scList[k].TakeMessage();
    }

    /** Move one stepper's oldest message to the batch. */
    method BatchMessage(k: nat) returns (b: Batched)
      requires Valid() && k < |scList| && scList[k].msgQueue != []
      modifies this`schedule, moveClocks, scList[k]
      ensures Valid() && Queues() == old(Queues()[k := Queues()[k][1..]])
      ensures b == Batched(k, old(scList[k].msgQueue[0]), old(moveClocks[0]))
      ensures Booked(old(schedule), [b], schedule)
      ensures AllSteps() == old(AllSteps())
    {
      var qm := Pop(k);
      b := Batched(k, qm, moveClocks[0]);
      RootIsFirstFree();
      if MinClock(qm) != 0 {
        TakeSlot(MinClock(qm));
      }
      BookedOne(old(schedule), b, schedule);
    }

    /** The next message for the batch, if there is one that may go before `moveClock`. */
    method NextForBatch(moveClock: int) returns (k: int)
      requires Valid()
      ensures k < 0 ==> AllRequestedAfter(Queues(), moveClock) && Halts(Queues(), moveClock)
      ensures k >= 0 ==> IsNext(Queues(), k, moveClock)
    {
      k := PickMessage();
      if k < 0 {
        HaltsAt(Queues(), k, moveClock);
      } else {
        var qm := scList[k].msgQueue[0];
        if MinClock(qm) != 0 && qm.reqClock > moveClock {
          QueuesInOrder();
          LeastIsLater(Queues(), k, moveClock);
          HaltsAt(Queues(), k, moveClock);
          k := -1;
        }
      }
    }

    /** One turn of the merge. */
    method MergeOne(ghost queues: seq<seq<Message>>, ghost booked: Schedule, batch: seq<Batched>, k: nat,
                    ghost moveClock: int)
      returns (more: seq<Batched>)
      requires Valid() && IsNext(Queues(), k, moveClock)
      requires AllMayGo(batch, moveClock)
      requires Merging(queues, batch, Queues()) && Booked(booked, batch, schedule)
      modifies this`schedule, moveClocks, scList[k]
      ensures Valid() && Waiting(Queues()) < old(Waiting(Queues()))
      ensures Merging(queues, more, Queues()) && Booked(booked, more, schedule) && AllMayGo(more, moveClock)
      ensures AllSteps() == old(AllSteps())
    {
      ghost var waiting, before := Queues(), schedule;
      NextIs(waiting, k, moveClock);
      WaitingLess(waiting, k);
      var b := BatchMessage(k);
      MergeStep(queues, batch, waiting, b);
      BookedMore(booked, batch, before, b, schedule);
      MayGoMore(batch, b, moveClock);
      more := batch + [b];
    }

    /** The merge of steppersync_flush. */
    method MergeMessages(moveClock: int) returns (batch: seq<Batched>)
      requires Valid()
      modifies this`schedule, moveClocks, scList
      ensures Valid()
      ensures Merging(old(Queues()), batch, Queues())
      ensures AllRequestedAfter(Queues(), moveClock) && Halts(Queues(), moveClock) && AllMayGo(batch, moveClock)
      ensures Booked(old(schedule), batch, schedule)
      ensures AllSteps() == old(AllSteps())
    {
      batch := [];
      QueuesInOrder();
      MergeStart(Queues());
      BookedNone(schedule);
      ghost var queues, booked, steps := Queues(), schedule, AllSteps();
      while true
        invariant Valid() && Merging(queues, batch, Queues()) && Booked(booked, batch, schedule)
        invariant AllMayGo(batch, moveClock)
        invariant AllSteps() == steps
        decreases Waiting(Queues())
      {
        var k := NextForBatch(moveClock);
        if k < 0 {
          break;
        }
        batch := MergeOne(queues, booked, batch, k, moveClock);
      }
    }

    /** What has been handed over and what is waiting make up what has been sent. */
    lemma {:induction false} CollectedAndWaiting()
      requires Valid()
      ensures forall i :: 0 <= i < |scList| ==> Collected()[i] + Queues()[i] == AllSteps()[i].sent.emitted
    {
      forall i | 0 <= i < |scList| ensures Collected()[i] + Queues()[i] == AllSteps()[i].sent.emitted {
        assert scList[i].Valid();
      }
    }

    /** The merge hands over each stepper's messages in order, and loses none. */
    method HandOver(moveClock: int) returns (batch: seq<Batched>)
      requires Valid()
      modifies this`schedule, moveClocks, scList
      ensures Valid() && AllSteps() == old(AllSteps())
      ensures HandedOver(old(Collected()), batch, Collected())
      ensures BatchInOrder(batch) && WaitingIsLater(batch, Queues())
      ensures AllRequestedAfter(Queues(), moveClock) && Halts(Queues(), moveClock) && AllMayGo(batch, moveClock)
      ensures Booked(old(schedule), batch, schedule)
    {
      ghost var c0, q0 := Collected(), Queues();
      CollectedAndWaiting();
      batch := MergeMessages(moveClock);
      CollectedAndWaiting();
      HandedFromQueues(c0, q0, batch, Collected(), Queues());
    }

    /** steppersync_flush: every step due by the given clock is sent by its stepper, every
        message requested by then is in the batch, and the batch is an interleaving, in the order
        of request clocks, of what each stepper had to hand over next, in its order.  It fails
        when a stepper does, and then hands nothing over; with no three steps of a stepper in a
        row at one clock none does. */
    method Flush(moveClock: int, clearHistoryClock: int, full: nat -> bool) returns (ok: bool, batch: seq<Batched>)
      requires Valid()
      modifies this`schedule, moveClocks, scList
      ensures Valid()
      ensures ok ==> OnlySends(old(AllSteps()), AllSteps(), moveClock)
      ensures ok ==> HandedOver(old(Collected()), batch, Collected())
      ensures ok ==> BatchInOrder(batch) && WaitingIsLater(batch, Queues())
      ensures ok ==> AllRequestedAfter(Queues(), moveClock) && Halts(Queues(), moveClock) && AllMayGo(batch, moveClock)
      ensures ok ==> Booked(old(schedule), batch, schedule)
      ensures ok ==> ExpiredUpTo(|scList|, clearHistoryClock)
      ensures !ok ==> SomeStuck(old(AllSteps()), AllSteps(), moveClock)
      ensures !ok ==> batch == [] && Collected() == old(Collected()) && schedule == old(schedule)
      ensures AllSpaced(old(AllSteps())) ==> ok
    {
      batch := [];
      ok := FlushAll(moveClock, full);
      if !ok {
        return;
      }
      batch := HandOver(moveClock);
      ExpireAll(clearHistoryClock);
    }

    method FlushAll(moveClock: int, full: nat -> bool) returns (ok: bool)
      requires Valid()
      modifies scList
      ensures Valid() && Collected() == old(Collected())
      ensures if ok then OnlySends(old(AllSteps()), AllSteps(), moveClock)
              else SomeStuck(old(AllSteps()), AllSteps(), moveClock)
      ensures AllSpaced(old(AllSteps())) ==> ok
    {
      ghost var start := AllSteps();
      ok := true;
      for i := 0 to |scList|
        invariant ok && Valid() && Collected() == old(Collected())
        invariant SendsUpTo(start, AllSteps(), moveClock, i)
      {
        ghost var before := AllSteps();
        ok := FlushOne(i, moveClock, full(i));
        if !ok {
          StuckAtOne(start, before, AllSteps(), moveClock, i);
          return;
        }
        SendsNext(start, before, AllSteps(), moveClock, i);
      }
    }

    method FlushOne(i: nat, moveClock: int, full: bool) returns (ok: bool)
      requires Valid() && i < |scList|
      modifies scList[i]
      ensures Valid() && Collected() == old(Collected())
      ensures if ok then OnlySendsAt(old(AllSteps()), AllSteps(), moveClock, i)
              else IsStuck(old(AllSteps()), AllSteps(), moveClock, i)
      ensures forall j :: 0 <= j < |scList| && j != i ==> AllSteps()[j] == old(AllSteps())[j]
    {
      hide Spaced, Grows, StartsBefore;
      assert scList[i].Valid();
      ok := scList[i].Flush(moveClock, full);
    }

    method ExpireAll(clearHistoryClock: int)
      requires Valid()
      modifies scList
      ensures Valid() && AllSteps() == old(AllSteps()) && Queues() == old(Queues()) && Collected() == old(Collected())
      ensures ExpiredUpTo(|scList|, clearHistoryClock)
    {
      for i := 0 to |scList|
        invariant Valid() && AllSteps() == old(AllSteps()) && Queues() == old(Queues())
        invariant Collected() == old(Collected())
        invariant ExpiredUpTo(i, clearHistoryClock)
      {
        ExpireOne(i, clearHistoryClock);
      }
    }

    /** The first n steppers have forgotten the moves that ended by the given clock. */
    ghost predicate ExpiredUpTo(n: nat, clock: int)
      reads scList
    {
      forall i {:trigger scList[i].history} :: 0 <= i < n && i < |scList| ==> IsExpired(scList[i].history, clock)
    }

    method ExpireOne(i: nat, clearHistoryClock: int)
      requires Valid() && i < |scList|
      modifies scList[i]
      ensures Valid() && AllSteps() == old(AllSteps()) && Queues() == old(Queues()) && Collected() == old(Collected())
      ensures old(ExpiredUpTo(i, clearHistoryClock)) ==> ExpiredUpTo(i + 1, clearHistoryClock)
    {
      assert scList[i].Valid();
      scList[i].HistoryExpire(clearHistoryClock);
    }

    /** Move slots never overflow, for any times of sending that keep the order and wait for the
        clocks given. */
    lemma {:induction false} NeverOverflows(sentAt: seq<int>, clock: int)
      requires Valid() && |sentAt| == |schedule.freed| == |schedule.avails|
      requires forall i :: 0 <= i < |sentAt| ==> schedule.avails[i] <= sentAt[i]
      requires forall i, j :: 0 <= i < j < |sentAt| ==> sentAt[i] <= sentAt[j]
      ensures InUse(sentAt, schedule.freed, clock, |sentAt|) <= moveClocks.Length
    {
      SlotsNeverOverflow(moveClocks.Length, schedule, sentAt, clock, |sentAt|);
    }

    lemma {:induction false} QueuesInOrder()
      requires Valid()
      ensures forall i :: 0 <= i < |scList| ==> InOrder(Queues()[i])
    {
      forall i | 0 <= i < |scList| ensures InOrder(Queues()[i]) {
        scList[i].MessagesInOrder();
      }
    }
  }

  /** Steppers keep their steps and take nothing sent back; what is due has been sent. */
  ghost predicate OnlySends(before: seq<Progress>, after: seq<Progress>, moveClock: int) {
    |before| == |after| && forall i :: 0 <= i < |before| ==> OnlySendsAt(before, after, moveClock, i)
  }

  /** What stepcompress_flush promises: of the steps due, only those behind a pulse at the very
      clock given are left; and no command was started from that clock on, but for a pending step
      due then that turns the direction. */
  ghost predicate OnlySendsAt(before: seq<Progress>, after: seq<Progress>, moveClock: int, i: int)
    requires |before| == |after| && 0 <= i < |before|
  {
    var rest := after[i].kept;
    && rest == before[i].kept && Grows(before[i].sent, after[i].sent)
    && |after[i].sent.taken| <= |rest|
    && (forall k :: |after[i].sent.taken| <= k < |rest| ==>
          rest[k].clock > moveClock || rest[k].clock == moveClock == after[i].last)
    && StartsBefore(before[i].sent, after[i].sent, Horizon(before[i].pending, before[i].turns, moveClock))
    && after[i].pending == (if before[i].pending > moveClock then before[i].pending else 0)
    && (Spaced(before[i].last, before[i].due) ==> Spaced(after[i].last, after[i].due))
  }

  /** A stepper that fails: its next two steps are at the clock of the last one sent, three steps
      in a row were at one clock, and no step is lost but maybe the newest. */
  ghost predicate IsStuck(before: seq<Progress>, after: seq<Progress>, moveClock: int, i: int)
    requires |before| == |after| && 0 <= i < |before|
  {
    && |after[i].due| >= 2 && after[i].due[0] == after[i].due[1] == after[i].last
    && !Spaced(before[i].last, before[i].due)
    && Grows(before[i].sent, after[i].sent)
    && StartsBefore(before[i].sent, after[i].sent, Horizon(before[i].pending, before[i].turns, moveClock))
    && after[i].kept <= before[i].kept && |before[i].kept| <= |after[i].kept| + 1
  }

  /** The steppers up to the first that failed have been flushed, those after it left alone. */
  ghost predicate SomeStuck(before: seq<Progress>, after: seq<Progress>, moveClock: int) {
    |before| == |after| && exists k: nat :: k < |before| && StuckFirst(before, after, moveClock, k)
  }

  ghost predicate StuckFirst(before: seq<Progress>, after: seq<Progress>, moveClock: int, k: nat)
    requires k < |before| == |after|
  {
    && IsStuck(before, after, moveClock, k)
    && forall i :: 0 <= i < |before| && i != k ==>
         if i < k then OnlySendsAt(before, after, moveClock, i) else after[i] == before[i]
  }

  ghost predicate AllSpaced(steps: seq<Progress>) {
    forall i :: 0 <= i < |steps| ==> Spaced(steps[i].last, steps[i].due)
  }

  /** The first n steppers have done so, the others nothing yet. */
  ghost predicate SendsUpTo(start: seq<Progress>, now: seq<Progress>, moveClock: int, n: nat) {
    && |start| == |now|
    && forall i :: 0 <= i < |start| ==> if i < n then OnlySendsAt(start, now, moveClock, i) else now[i] == start[i]
  }

  lemma {:induction false} SendsNext(start: seq<Progress>, before: seq<Progress>, now: seq<Progress>, moveClock: int,
                                     n: nat)
    requires SendsUpTo(start, before, moveClock, n) && n < |start| == |now|
    requires OnlySendsAt(before, now, moveClock, n)
    requires forall j :: 0 <= j < |now| && j != n ==> now[j] == before[j]
    ensures SendsUpTo(start, now, moveClock, n + 1)
  {
    hide Spaced, Grows, StartsBefore;
    forall i | 0 <= i < |start|
      ensures if i < n + 1 then OnlySendsAt(start, now, moveClock, i) else now[i] == start[i]
    {
      if i < n {
        assert OnlySendsAt(start, before, moveClock, i);
      }
    }
  }

  lemma {:induction false} StuckAtOne(start: seq<Progress>, before: seq<Progress>, now: seq<Progress>, moveClock: int,
                                      n: nat)
    requires SendsUpTo(start, before, moveClock, n) && n < |start| == |now|
    requires IsStuck(before, now, moveClock, n)
    requires forall j :: 0 <= j < |now| && j != n ==> now[j] == before[j]
    ensures SomeStuck(start, now, moveClock) && !AllSpaced(start)
  {
    hide Spaced, Grows, StartsBefore;
    assert before[n] == start[n];
    forall i | 0 <= i < |start| && i != n
      ensures if i < n then OnlySendsAt(start, now, moveClock, i) else now[i] == start[i]
    {
      if i < n {
        assert OnlySendsAt(start, before, moveClock, i);
      }
    }
    assert StuckFirst(start, now, moveClock, n);
  }

  /** When the slots taken by a batch become free again. */
  function Frees(batch: seq<Batched>): seq<int> {
    if batch == [] then []
    else
      var i := |batch| - 1;
      Frees(batch[..i]) + if MinClock(batch[i].msg) != 0 then [MinClock(batch[i].msg)] else []
  }

  /** The clocks before which the slot users of a batch are not sent. */
  function Avails(batch: seq<Batched>): seq<int> {
    if batch == [] then []
    else
      var i := |batch| - 1;
      Avails(batch[..i]) + if MinClock(batch[i].msg) != 0 then [batch[i].minClock] else []
  }

  /** The slots that a batch takes, in order, and the slot that each message waits for: the one
      that is free first at its turn. */
  ghost predicate Booked(before: Schedule, batch: seq<Batched>, after: Schedule) {
    forall seal :: BookedFacts(seal, before, batch, after)
  }

  ghost predicate BookedFacts(seal: Seal, before: Schedule, batch: seq<Batched>, after: Schedule) {
    && after.freed == before.freed + Frees(batch) && after.avails == before.avails + Avails(batch)
    && |after.clocks| == |after.freed| + 1 && before.clocks <= after.clocks
    && forall i: nat :: i < |batch| ==> WaitsForSlot(|before.freed|, batch, after, i)
  }

  ghost predicate WaitsForSlot(base: nat, batch: seq<Batched>, after: Schedule, i: nat)
    requires i < |batch|
  {
    var k := base + |Frees(batch[..i])|;
    k < |after.clocks| && IsFirstFree(after.clocks[k], batch[i].minClock)
  }

  ghost predicate IsFirstFree(clocks: multiset<int>, clock: int) {
    clock in clocks && forall x :: x in clocks ==> clock <= x
  }

  lemma {:induction false} BookedMore(s0: Schedule, batch: seq<Batched>, s1: Schedule, b: Batched, s2: Schedule)
    requires Booked(s0, batch, s1) && Booked(s1, [b], s2)
    ensures Booked(s0, batch + [b], s2)
  {
    assert BookedFacts(Whole, s0, batch, s1) && BookedFacts(Whole, s1, [b], s2);
    SharesMore(batch, b);
    var more := batch + [b];
    forall i: nat | i < |more| ensures WaitsForSlot(|s0.freed|, more, s2, i) {
      if i < |batch| {
        assert WaitsForSlot(|s0.freed|, batch, s1, i);
        assert more[..i] == batch[..i];
      } else {
        assert WaitsForSlot(|s1.freed|, [b], s2, 0);
        assert more[..i] == batch && [b][..0] == [];
      }
    }
  }

  lemma {:induction false} BookedNone(s: Schedule)
    requires |s.clocks| == |s.freed| + 1
    ensures Booked(s, [], s)
  {
    assert s.freed + [] == s.freed && s.avails + [] == s.avails;
  }

  lemma {:induction false} BookedOne(s: Schedule, b: Batched, t: Schedule)
    requires |s.clocks| == |s.freed| + 1 && IsFirstFree(s.clocks[|s.freed|], b.minClock)
    requires if MinClock(b.msg) == 0 then t == s
             else |t.clocks| == |s.clocks| + 1 && s.clocks <= t.clocks
                  && t.freed == s.freed + [MinClock(b.msg)] && t.avails == s.avails + [b.minClock]
    ensures Booked(s, [b], t)
  {
    OneShare(b);
    assert [b][..0] == [];
    assert s.freed + [] == s.freed && s.avails + [] == s.avails;
    assert WaitsForSlot(|s.freed|, [b], t, 0);
  }

  lemma {:induction false} SharesMore(batch: seq<Batched>, b: Batched)
    ensures Frees(batch + [b]) == Frees(batch) + Frees([b]) && Avails(batch + [b]) == Avails(batch) + Avails([b])
  {
    assert (batch + [b])[..|batch|] == batch;
    OneShare(b);
  }

  lemma {:induction false} OneShare(b: Batched)
    ensures Frees([b]) == if MinClock(b.msg) != 0 then [MinClock(b.msg)] else []
    ensures Avails([b]) == if MinClock(b.msg) != 0 then [b.minClock] else []
  {
    assert [b][..0] == [];
  }

  function Waiting(queues: seq<seq<Message>>): nat {
    if queues == [] then 0 else Waiting(queues[..|queues| - 1]) + |queues[|queues| - 1]|
  }

  lemma {:induction false} WaitingLess(queues: seq<seq<Message>>, k: nat)
    requires k < |queues| && queues[k] != []
    ensures Waiting(queues[k := queues[k][1..]]) == Waiting(queues) - 1
  {
    var n, next := |queues| - 1, queues[k := queues[k][1..]];
    if k < n {
      WaitingLess(queues[..n], k);
      assert next[..n] == queues[..n][k := queues[k][1..]];
    } else {
      assert next[..n] == queues[..n];
    }
  }

  /** A slot user goes only if it is requested by the given clock. */
  ghost predicate MayGo(m: Message, clock: int) {
    MinClock(m) == 0 || m.reqClock <= clock
  }

  ghost predicate AllMayGo(batch: seq<Batched>, clock: int) {
    forall seal :: MayGoFacts(seal, batch, clock)
  }

  ghost predicate MayGoFacts(seal: Seal, batch: seq<Batched>, clock: int) {
    forall i :: 0 <= i < |batch| ==> MayGo(batch[i].msg, clock)
  }

  lemma {:induction false} MayGoMore(batch: seq<Batched>, b: Batched, clock: int)
    requires AllMayGo(batch, clock) && MayGo(b.msg, clock)
    ensures AllMayGo(batch + [b], clock)
  {
    assert MayGoFacts(Whole, batch, clock);
  }

  /** Queue k has the message that goes next, and it may go. */
  ghost predicate IsNext(queues: seq<seq<Message>>, k: nat, clock: int) {
    k < |queues| && forall seal :: NextFacts(seal, queues, k, clock)
  }

  ghost predicate NextFacts(seal: Seal, queues: seq<seq<Message>>, k: nat, clock: int) {
    IsLeast(queues, k) && MayGo(queues[k][0], clock)
  }

  lemma {:induction false} NextIs(queues: seq<seq<Message>>, k: nat, clock: int)
    requires IsNext(queues, k, clock)
    ensures IsLeast(queues, k) && MayGo(queues[k][0], clock)
  {
    assert NextFacts(Whole, queues, k, clock);
  }

  ghost predicate AllRequestedAfter(queues: seq<seq<Message>>, clock: int) {
    forall seal :: LaterFacts(seal, queues, clock)
  }

  ghost predicate LaterFacts(seal: Seal, queues: seq<seq<Message>>, clock: int) {
    forall i, j :: 0 <= i < |queues| && 0 <= j < |queues[i]| ==> queues[i][j].reqClock > clock
  }

  /** The first in order, and of equals the first stepper's. */
  ghost predicate IsPicked(queues: seq<seq<Message>>, k: nat) {
    && IsLeast(queues, k)
    && forall i :: 0 <= i < k && queues[i] != [] ==> queues[i][0].reqClock > queues[k][0].reqClock
  }

  /** The batch stops only before a slot user that is requested later; other messages go along. */
  ghost predicate Halts(queues: seq<seq<Message>>, clock: int) {
    forall seal :: HaltFacts(seal, queues, clock)
  }

  ghost predicate HaltFacts(seal: Seal, queues: seq<seq<Message>>, clock: int) {
    forall k: nat :: IsPicked(queues, k) ==> MinClock(queues[k][0]) != 0 && queues[k][0].reqClock > clock
  }

  lemma {:induction false} HaltsAt(queues: seq<seq<Message>>, k: int, clock: int)
    requires if k < 0 then forall i :: 0 <= i < |queues| ==> queues[i] == []
             else IsPicked(queues, k) && MinClock(queues[k][0]) != 0 && queues[k][0].reqClock > clock
    ensures Halts(queues, clock)
  {
    forall j: nat | IsPicked(queues, j) ensures MinClock(queues[j][0]) != 0 && queues[j][0].reqClock > clock {
      assert j == k;
    }
  }

  /** If the lowest request clock is too late, so are all. */
  lemma {:induction false} LeastIsLater(queues: seq<seq<Message>>, k: nat, clock: int)
    requires IsLeast(queues, k) && clock < queues[k][0].reqClock
    requires forall i :: 0 <= i < |queues| ==> InOrder(queues[i])
    ensures AllRequestedAfter(queues, clock)
  {
    forall i, j | 0 <= i < |queues| && 0 <= j < |queues[i]| ensures queues[k][0].reqClock <= queues[i][j].reqClock {
      assert InOrder(queues[i]);
    }
  }
}
