/**
  Trigger dispatch over several micro-controllers (trdispatch.c).

  While all of them report that they are still watching, each is given a deadline that the
  others' reports push ahead; once one reports otherwise, all are triggered.
*/
module TriggerDispatch {
  import opened Common
  import opened ClockEstimates
  import opened Vlq
  import opened MsgBlock

  const PR_NEVER := 9999999999999999.0
  const DOUBLE_WORD := 0x1_0000_0000_0000_0000

  /** struct trdispatch_mcu */
  datatype TrDispatchMcu = TrDispatchMcu(trsyncOid: int, lastStatusClock: int, expireClock: int,
                                         expireTicks: int, minExtendTicks: int, ce: ClockEstimate)

  /** A message to the micro-controller at a place on the list. */
  datatype Dispatched =
    | Trigger(mcu: nat, reason: int)
    | SetTimeout(mcu: nat, clock: int)

  /** Every clock estimate in use has a rate, and every status has a time. */
  ghost predicate Estimated(mcus: seq<TrDispatchMcu>) {
    forall i :: 0 <= i < |mcus| ==> mcus[i].ce.estFreq > 0.0
  }

  function StatusTime(m: TrDispatchMcu): real
    requires m.ce.estFreq > 0.0
  {
    ClockToTime(m.ce, m.lastStatusClock)
  }

  /** A status time, as far as the scan sees it. */
  function Seen(m: TrDispatchMcu): real
    requires m.ce.estFreq > 0.0
  {
    Min(StatusTime(m), PR_NEVER)
  }

  /** The least status time seen among the first n, micro-controller `but` left out. */
  function Least(mcus: seq<TrDispatchMcu>, but: int, n: nat): (t: real)
    requires Estimated(mcus) && n <= |mcus|
    ensures t <= PR_NEVER
    ensures forall j :: 0 <= j < n && j != but ==> t <= Seen(mcus[j])
  {
    if n == 0 then PR_NEVER
    else if n - 1 == but then Least(mcus, but, n - 1)
    else Min(Least(mcus, but, n - 1), Seen(mcus[n - 1]))
  }

  /** The time that bounds micro-controller i: the least status time of the others or, if there
      is none, its own. */
  function Bound(mcus: seq<TrDispatchMcu>, i: nat): real
    requires Estimated(mcus) && i < |mcus|
  {
    var others := Least(mcus, i, |mcus|);
    if others < PR_NEVER then others else Seen(mcus[i])
  }

  lemma {:induction false} LeastIsAttained(mcus: seq<TrDispatchMcu>, but: int, n: nat) returns (j: nat)
    requires Estimated(mcus) && n <= |mcus| && Least(mcus, but, n) < PR_NEVER
    ensures j < n && j != but && StatusTime(mcus[j]) == Least(mcus, but, n)
  {
    if n - 1 != but && Seen(mcus[n - 1]) <= Least(mcus, but, n - 1) {
      j := n - 1;
    } else {
      j := LeastIsAttained(mcus, but, n - 1);
    }
  }

  /** With two micro-controllers or more, all heard from, the bound is the least status time over
      the others; alone, a micro-controller is bound by its own. */
  lemma {:induction false} BoundIsLeastOfOthers(mcus: seq<TrDispatchMcu>, i: nat)
    requires Estimated(mcus) && i < |mcus|
    requires forall j :: 0 <= j < |mcus| ==> StatusTime(mcus[j]) < PR_NEVER
    ensures if |mcus| == 1 then Bound(mcus, i) == StatusTime(mcus[i])
            else (exists j :: 0 <= j < |mcus| && j != i && StatusTime(mcus[j]) == Bound(mcus, i))
                 && forall j :: 0 <= j < |mcus| && j != i ==> Bound(mcus, i) <= StatusTime(mcus[j])
  {
    if |mcus| > 1 {
      var other := if i == 0 then 1 else 0;
      assert Least(mcus, i, |mcus|) <= Seen(mcus[other]) < PR_NEVER;
      var j := LeastIsAttained(mcus, i, |mcus|);
      forall j | 0 <= j < |mcus| && j != i ensures Bound(mcus, i) <= StatusTime(mcus[j]) {
        assert Least(mcus, i, |mcus|) <= Seen(mcus[j]);
      }
    } else {
      assert Least(mcus, i, 1) == Least(mcus, i, 0);
    }
  }

  /** What the scan knows after the first n: the least time, where it is, and the least of the
      others. */
  ghost predicate Scanned(mcus: seq<TrDispatchMcu>, n: nat, minTime: real, nextMinTime: real, minTdm: int)
    requires Estimated(mcus) && n <= |mcus|
  {
    && -1 <= minTdm < n
    && minTime == Least(mcus, -1, n) && nextMinTime == Least(mcus, minTdm, n)
    && (if minTdm < 0 then minTime == PR_NEVER else minTime == StatusTime(mcus[minTdm]) < PR_NEVER)
  }

  /** Leaving out one that has not been reached changes nothing. */
  lemma {:induction false} LeastBeyond(mcus: seq<TrDispatchMcu>, but: int, n: nat)
    requires Estimated(mcus) && n <= |mcus| && (but < 0 || but >= n)
    ensures Least(mcus, but, n) == Least(mcus, -1, n)
  {
    if n > 0 {
      LeastBeyond(mcus, but, n - 1);
    }
  }

  /** Leaving out one that is not the least changes nothing. */
  lemma {:induction false} LeastButAnother(mcus: seq<TrDispatchMcu>, but: int, j: nat, n: nat)
    requires Estimated(mcus) && n <= |mcus| && j < n && j != but
    requires StatusTime(mcus[j]) == Least(mcus, -1, n)
    ensures Least(mcus, but, n) == Least(mcus, -1, n)
  {
    LeastOfFewer(mcus, but, n);
  }

  lemma {:induction false} LeastOfFewer(mcus: seq<TrDispatchMcu>, but: int, n: nat)
    requires Estimated(mcus) && n <= |mcus|
    ensures Least(mcus, -1, n) <= Least(mcus, but, n)
  {
    if n > 0 {
      LeastOfFewer(mcus, but, n - 1);
    }
  }

  lemma {:induction false} ScanStep(mcus: seq<TrDispatchMcu>, n: nat, minTime: real, nextMinTime: real, minTdm: int)
    requires Estimated(mcus) && n < |mcus| && Scanned(mcus, n, minTime, nextMinTime, minTdm)
    ensures var t := StatusTime(mcus[n]);
            if t >= nextMinTime then Scanned(mcus, n + 1, minTime, nextMinTime, minTdm)
            else if t >= minTime then Scanned(mcus, n + 1, minTime, t, minTdm)
            else Scanned(mcus, n + 1, t, minTime, n)
  {
    LeastBeyond(mcus, n, n);
    LeastOfFewer(mcus, minTdm, n);
  }

  /** Which of the two times bounds micro-controller i. */
  function BoundFor(i: nat, minTime: real, nextMinTime: real, minTdm: int): real {
    if i == minTdm then nextMinTime else minTime
  }

  lemma {:induction false} ScanBounds(mcus: seq<TrDispatchMcu>, minTime: real, nextMinTime: real, minTdm: int, i: nat)
    requires Estimated(mcus) && i < |mcus| && Scanned(mcus, |mcus|, minTime, nextMinTime, minTdm)
    ensures BoundFor(i, minTime, if nextMinTime == PR_NEVER then minTime else nextMinTime, minTdm) == Bound(mcus, i)
  {
    if minTdm < 0 {
      LeastOfFewer(mcus, i, |mcus|);
    } else if i != minTdm {
      LeastButAnother(mcus, i, minTdm, |mcus|);
    }
  }

  /** The scan of handle_trsync_state. */
  method FindMinTimes(mcus: seq<TrDispatchMcu>) returns (minTime: real, nextMinTime: real, minTdm: int)
    requires Estimated(mcus)
    ensures forall i: nat :: i < |mcus| ==> BoundFor(i, minTime, nextMinTime, minTdm) == Bound(mcus, i)
  {
    minTime, nextMinTime, minTdm := PR_NEVER, PR_NEVER, -1;
    for i := 0 to |mcus|
      invariant Scanned(mcus, i, minTime, nextMinTime, minTdm)
    {
      ScanStep(mcus, i, minTime, nextMinTime, minTdm);
      var statusTime := StatusTime(mcus[i]);
      if statusTime < nextMinTime {
        nextMinTime := statusTime;
        if statusTime < minTime {
          nextMinTime := minTime;
          minTime := statusTime;
          minTdm := i;
        }
      }
    }
    ghost var scanned := nextMinTime;
    if nextMinTime == PR_NEVER {
      nextMinTime := minTime;
    }
    forall i: nat | i < |mcus| ensures BoundFor(i, minTime, nextMinTime, minTdm) == Bound(mcus, i) {
      ScanBounds(mcus, minTime, scanned, minTdm, i);
    }
  }

  /** The deadline for micro-controller i: the bound, on its own clock, and its grace period. */
  function Deadline(mcus: seq<TrDispatchMcu>, i: nat): int
    requires Estimated(mcus) && i < |mcus|
  {
    ClockFromTime(mcus[i].ce, Bound(mcus, i)) + mcus[i].expireTicks
  }

  /** `(int64_t)(expire - m->expire_clock) >= m->min_extend_ticks`: the comparison is unsigned. */
  predicate Extends(expire: int, m: TrDispatchMcu) {
    (expire - m.expireClock) % DOUBLE_WORD >= m.minExtendTicks
  }

  /** A new deadline is sent if it is later by enough, and also if it is earlier at all: that a
      deadline only moves ahead holds exactly while the new one is not before the old. */
  lemma {:induction false} DeadlineMoves(expire: int, m: TrDispatchMcu)
    requires 0 <= m.minExtendTicks <= 0x8000_0000_0000_0000
    requires -0x8000_0000_0000_0000 <= expire - m.expireClock < 0x8000_0000_0000_0000
    ensures Extends(expire, m) <==> (expire - m.expireClock >= m.minExtendTicks || expire < m.expireClock)
    ensures (Extends(expire, m) ==> expire >= m.expireClock + m.minExtendTicks) <==> expire >= m.expireClock
  {
    var d := expire - m.expireClock;
    if d < 0 {
      assert d % DOUBLE_WORD == d + DOUBLE_WORD;
    }
  }

  /** A deadline that would move back by one tick is sent. */
  lemma {:induction false} DeadlineMovesBack(m: TrDispatchMcu)
    requires 0 <= m.minExtendTicks <= 0x8000_0000_0000_0000
    ensures Extends(m.expireClock - 1, m)
  {
    DeadlineMoves(m.expireClock - 1, m);
  }

  function Triggers(n: nat, reason: int): (t: seq<Dispatched>)
    ensures |t| == n && forall i :: 0 <= i < n ==> t[i] == Trigger(i, reason)
  {
    seq(n, i requires 0 <= i < n => Trigger(i, reason))
  }

  ghost predicate OnlyTimeouts(log: seq<Dispatched>) {
    forall i :: 0 <= i < |log| ==> log[i].SetTimeout?
  }

  /** The deadlines to be sent to the first n: those that differ enough from the ones sent last. */
  function NewTimeouts(mcus: seq<TrDispatchMcu>, n: nat): seq<Dispatched>
    requires Estimated(mcus) && n <= |mcus|
  {
    if n == 0 then []
    else NewTimeouts(mcus, n - 1) +
         if Extends(Deadline(mcus, n - 1), mcus[n - 1]) then [SetTimeout(n - 1, Deadline(mcus, n - 1))] else []
  }

  /** The first n micro-controllers with their new deadlines. */
  function Extended(mcus: seq<TrDispatchMcu>, n: nat): (r: seq<TrDispatchMcu>)
    requires Estimated(mcus) && n <= |mcus|
    ensures |r| == |mcus|
  {
    if n == 0 then mcus
    else if Extends(Deadline(mcus, n - 1), mcus[n - 1])
    then Extended(mcus, n - 1)[n - 1 := mcus[n - 1].(expireClock := Deadline(mcus, n - 1))]
    else Extended(mcus, n - 1)
  }

  lemma {:induction false} ExtendedAt(mcus: seq<TrDispatchMcu>, n: nat, j: nat)
    requires Estimated(mcus) && n <= |mcus| && j < |mcus|
    ensures Extended(mcus, n)[j] == if j < n && Extends(Deadline(mcus, j), mcus[j])
                                    then mcus[j].(expireClock := Deadline(mcus, j)) else mcus[j]
  {
    if n > 0 {
      ExtendedAt(mcus, n - 1, j);
    }
  }

  /** Each micro-controller is sent its deadline if it differs enough, once, and no other. */
  lemma {:induction false} NewTimeoutsAre(mcus: seq<TrDispatchMcu>, n: nat)
    requires Estimated(mcus) && n <= |mcus|
    ensures var sent := NewTimeouts(mcus, n);
            && (forall k :: 0 <= k < |sent| ==>
                  sent[k].SetTimeout? && sent[k].mcu < n && sent[k].clock == Deadline(mcus, sent[k].mcu)
                  && Extends(sent[k].clock, mcus[sent[k].mcu]))
            && (forall k, l :: 0 <= k < l < |sent| ==> sent[k].mcu < sent[l].mcu)
            && (forall i: nat :: i < n && Extends(Deadline(mcus, i), mcus[i]) ==> SetTimeout(i, Deadline(mcus, i)) in sent)
  {
    if n > 0 {
      NewTimeoutsAre(mcus, n - 1);
    }
  }

  /** No deadline sent is later than another micro-controller's last report allows: one that
      falls silent holds back all others. */
  lemma {:induction false} SilenceHoldsBack(mcus: seq<TrDispatchMcu>, k: nat, j: nat)
    requires Estimated(mcus) && j < |mcus| && k < |NewTimeouts(mcus, |mcus|)|
    ensures var m := NewTimeouts(mcus, |mcus|)[k];
            && m.SetTimeout? && m.mcu < |mcus|
            && (m.mcu != j ==>
                  m.clock <= ClockFromTime(mcus[m.mcu].ce, StatusTime(mcus[j])) + mcus[m.mcu].expireTicks)
  {
    NewTimeoutsAre(mcus, |mcus|);
    var i := NewTimeouts(mcus, |mcus|)[k].mcu;
    if i != j {
      assert Least(mcus, i, |mcus|) <= Seen(mcus[j]);
      ClockFromTimeMonotone(mcus[i].ce, Bound(mcus, i), StatusTime(mcus[j]));
    }
  }

  class TrDispatch {
    var mcus: seq<TrDispatchMcu>
    var isActive: bool
    var canTrigger: bool
    var dispatchReason: int
    // Messages sent since the last start, and whether the triggers are among them
    ghost var deadlines: seq<Dispatched>
    ghost var triggered: bool
    var sent: seq<Dispatched>

    /** Until the triggers are sent only deadlines are; then each micro-controller is triggered
        exactly once, and nothing more is sent. */
    ghost predicate Valid()
      reads this
    {
      && OnlyTimeouts(deadlines)
      && (forall i :: 0 <= i < |deadlines| ==> deadlines[i].mcu < |mcus|)
      && sent == deadlines + (if triggered then Triggers(|mcus|, dispatchReason) else [])
      && (triggered ==> !canTrigger)
    }

    /** trdispatch_alloc, and trdispatch_mcu_alloc for each micro-controller */
    constructor (mcus: seq<TrDispatchMcu>)
      ensures Valid() && this.mcus == mcus && !isActive && !canTrigger && sent == []
    {
      this.mcus := mcus;
      isActive, canTrigger, dispatchReason := false, false, 0;
      deadlines, triggered, sent := [], false, [];
    }

    /** trdispatch_mcu_setup */
    method Setup(i: nat, lastStatusClock: int, expireClock: int, expireTicks: int, minExtendTicks: int,
                 ce: ClockEstimate)
      requires Valid() && i < |mcus|
      modifies this`mcus
      ensures Valid() && mcus == old(mcus)[i := TrDispatchMcu(old(mcus)[i].trsyncOid, lastStatusClock, expireClock,
                                                              expireTicks, minExtendTicks, ce)]
    {
      mcus := mcus[i := TrDispatchMcu(mcus[i].trsyncOid, lastStatusClock, expireClock, expireTicks, minExtendTicks, ce)];
    }

    /** trdispatch_start */
    method Start(reason: int)
      requires Valid()
      modifies this
      ensures Valid() && mcus == old(mcus)
      ensures if old(isActive) || mcus == [] then
                isActive == old(isActive) && canTrigger == old(canTrigger) && sent == old(sent)
                && dispatchReason == old(dispatchReason)
              else isActive && canTrigger && sent == [] && dispatchReason == reason
    {
      if isActive || mcus == [] {
        return;
      }
      dispatchReason := reason;
      isActive, canTrigger := true, true;
      sent, deadlines, triggered := [], [], false;
    }

    /** trdispatch_stop */
    method Stop()
      requires Valid()
      modifies this`isActive
      ensures Valid() && !isActive
    {
      isActive := false;
    }

    method SendTriggers()
      modifies this`sent
      ensures sent == old(sent) + Triggers(|mcus|, dispatchReason)
    {
      for i := 0 to |mcus|
        invariant sent == old(sent) + Triggers(i, dispatchReason)
      {
        assert Triggers(i + 1, dispatchReason) == Triggers(i, dispatchReason) + [Trigger(i, dispatchReason)];
        sent := sent + [Trigger(i, dispatchReason)];
      }
    }

    /** Send each new deadline that differs enough. */
    method SendTimeouts(minTime: real, nextMinTime: real, minTdm: int)
      requires Estimated(mcus)
      requires forall i: nat :: i < |mcus| ==> BoundFor(i, minTime, nextMinTime, minTdm) == Bound(mcus, i)
      modifies this`mcus, this`sent
      ensures mcus == Extended(old(mcus), |old(mcus)|)
      ensures sent == old(sent) + NewTimeouts(old(mcus), |old(mcus)|)
    {
      ghost var before, earlier := mcus, sent;
      assert earlier + [] == earlier;
      for i := 0 to |mcus|
        invariant mcus == Extended(before, i) && sent == earlier + NewTimeouts(before, i)
      {
        ExtendedAt(before, i, i);
        assert BoundFor(i, minTime, nextMinTime, minTdm) == Bound(before, i);
        var m := mcus[i];
        var statusTime := if i == minTdm then nextMinTime else minTime;
        var expire := ClockFromTime(m.ce, statusTime) + m.expireTicks;
        if Extends(expire, m) {
          mcus := mcus[i := m.(expireClock := expire)];
          sent := sent + [SetTimeout(i, expire)];
        }
      }
    }

    /** A report that micro-controller i is still watching. */
    method ReportWatching(i: nat, clock: int, ce: ClockEstimate)
      requires Valid() && i < |mcus| && canTrigger && Estimated(mcus) && ce.estFreq > 0.0
      modifies this`mcus, this`sent, this`deadlines
      ensures Valid()
      ensures var reported := Reported(old(mcus), i, clock, ce);
              && Estimated(reported) && mcus == Extended(reported, |reported|)
              && sent == old(sent) + NewTimeouts(reported, |reported|)
    {
      mcus := mcus[i := mcus[i].(ce := ce, lastStatusClock := ClockFromClock32(ce, clock))];
      ghost var reported := mcus;
      var minTime, nextMinTime, minTdm := FindMinTimes(mcus);
      SendTimeouts(minTime, nextMinTime, minTdm);
      NewTimeoutsAre(reported, |reported|);
      deadlines := sent;
    }

    /** handle_trsync_state: a report of micro-controller i, which comes as a received block.
        `ce` is the clock estimate now known for it. */
    method HandleTrsyncState(i: nat, block: seq<byte>, ce: ClockEstimate)
      requires Valid() && i < |mcus| && IsBlock(block)
      requires Estimated(mcus) && ce.estFreq > 0.0
      modifies this
      ensures Valid() && dispatchReason == old(dispatchReason) && isActive == old(isActive)
      ensures match Parse(block, old(mcus)[i].trsyncOid)
              case None => sent == old(sent) && mcus == old(mcus) && canTrigger == old(canTrigger)
              case Some((watching, clock)) =>
                if old(!canTrigger) then sent == old(sent) && mcus == old(mcus) && !canTrigger
                else if !watching then
                  !canTrigger && mcus == old(mcus) && sent == old(sent) + Triggers(|mcus|, dispatchReason)
                else
                  var reported := Reported(old(mcus), i, clock, ce);
                  && canTrigger && Estimated(reported) && mcus == Extended(reported, |reported|)
                  && sent == old(sent) + NewTimeouts(reported, |reported|)
    {
      BlockIsClosed(block);
      var fields := MsgblockDecode(5, block);
      DecodedCount(5, block, MESSAGE_HEADER_SIZE);
      if fields == None || fields.value[1] as int != mcus[i].trsyncOid {
        return;
      }
      var stillCan, clock := fields.value[2], fields.value[4] as int;
      if !canTrigger {
        return;
      }
      if stillCan == 0 {
        canTrigger := false;
        triggered := true;
        SendTriggers();
        return;
      }
      ReportWatching(i, clock, ce);
    }
  }

  /** A trsync_state message for an object: whether it is still watching, and its clock. */
  ghost function Parse(block: seq<byte>, oid: int): Option<(bool, int)>
    requires IsBlock(block)
  {
    BlockIsClosed(block);
    DecodedCount(5, block, MESSAGE_HEADER_SIZE);
    var fields := DecodeFrom(5, block, MESSAGE_HEADER_SIZE);
    if fields == None || fields.value[1] as int != oid then None
    else Some((fields.value[2] != 0, fields.value[4] as int))
  }

  /** From the sender's side: the state message of an object says whether it may still trigger and
      its clock, whatever the reason field holds; it is taken by that object's entry alone. */
  lemma {:induction false} ParseIsState(num: nat, id: uint32, oid: uint32, canTrigger: uint32, reason: uint32,
                                        clock: uint32, mine: int)
    ensures var words := [id, oid, canTrigger, reason, clock];
            && |EncodeWords(words)| <= MESSAGE_PAYLOAD_MAX && IsBlock(Frame(num, EncodeWords(words)))
            && Parse(Frame(num, EncodeWords(words)), mine) == if oid == mine then Some((canTrigger != 0, clock)) else None
  {
    var words := [id, oid, canTrigger, reason, clock];
    WordsLength(words);
    ParseOfWords(num, words, mine);
  }

  /** Any list of words: five are wanted, and the object's number in the second. */
  lemma {:induction false} ParseOfWords(num: nat, words: seq<uint32>, mine: int)
    requires |EncodeWords(words)| <= MESSAGE_PAYLOAD_MAX
    ensures IsBlock(Frame(num, EncodeWords(words)))
    ensures Parse(Frame(num, EncodeWords(words)), mine) ==
            if |words| == 5 && words[1] == mine then Some((words[2] != 0, words[4])) else None
  {
    hide EncodeWords, Frame, DecodeFrom;
    FrameIsBlock(num, EncodeWords(words));
    MessageRoundTrip(5, num, words);
  }

  lemma {:induction false} WordsLength(words: seq<uint32>)
    ensures |EncodeWords(words)| <= 5 * |words|
  {
    if words != [] {
      WordsLength(words[..|words| - 1]);
    }
  }

  function Reported(mcus: seq<TrDispatchMcu>, i: nat, clock: int, ce: ClockEstimate): seq<TrDispatchMcu>
    requires i < |mcus|
  {
    mcus[i := mcus[i].(ce := ce, lastStatusClock := ClockFromClock32(ce, clock))]
  }

  lemma {:induction false} BlockIsClosed(block: seq<byte>)
    requires IsBlock(block)
    ensures Closed(block)
  {
  }

  lemma {:induction false} DecodedCount(n: nat, msg: seq<byte>, p: nat)
    requires Closed(msg)
    ensures var r := DecodeFrom(n, msg, p); r.Some? ==> |r.value| == n
    decreases n
  {
    if n > 0 && p < |msg| - MESSAGE_TRAILER_SIZE {
      ClosedTerminates(msg, p);
      DecodedCount(n - 1, msg, p + ParseInt(msg[p..]).1);
    }
  }
}
