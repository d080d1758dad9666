/**
  struct serialqueue: the host's end of the sliding-window protocol, with its queues, byte
  counters, timers and round-trip estimate (serialqueue.c).  Its numbers and blocks behave as
  the host of module GoBackN.

  Times are real numbers; reading, writing and the clock are parameters or results.
*/
module SerialQueues {
  import opened Common
  import opened Vlq
  import opened MsgBlock
  import opened ClockEstimates
  import opened CommandQueues
  import opened Notifications
  import GoBackN

  const MAX_PENDING_BLOCKS := 12
  const MIN_RTO := 0.025
  const MAX_RTO := 5.0
  const MIN_REQTIME_DELTA := 0.250
  const MIN_BACKGROUND_DELTA := 0.005

  /** A wake-up time: PR_NOW, PR_NEVER or a time. */
  datatype Timer = Now | At(time: real) | Never

  datatype SentBlock = SentBlock(msg: seq<byte>, sentTime: real, receiveTime: real)

  datatype Received =
    | Notified(id: nat, sentTime: real, receiveTime: real)
    | Data(block: seq<byte>, sentTime: real, receiveTime: real)

  /** Every block built: its bytes, when it was due to have arrived, how often it was sent. */
  datatype Log = Log(blocks: seq<seq<byte>>, times: seq<real>, sends: seq<nat>)

  // ----- Sent blocks -----

  function BlockBytes(sent: seq<SentBlock>): nat {
    if sent == [] then 0 else |sent[0].msg| + BlockBytes(sent[1..])
  }

  lemma {:induction false} BlockBytesMore(sent: seq<SentBlock>, b: SentBlock)
    ensures BlockBytes(sent + [b]) == BlockBytes(sent) + |b.msg|
  {
    if sent == [] {
      assert ([] + [b])[1..] == [];
    } else {
      assert (sent + [b])[1..] == sent[1..] + [b];
      BlockBytesMore(sent[1..], b);
    }
  }

  /** A well-formed block that carries the low four bits of its number. */
  ghost predicate IsNumbered(block: seq<byte>, num: nat) {
    IsBlock(block) && block[1] as int % 16 == num % 16
  }

  ghost predicate SentFacts(seal: Seal, receiveSeq: nat, sendSeq: nat, retransmitSeq: nat, sent: seq<SentBlock>,
                            log: Log) {
    && |log.blocks| == |log.times| == |log.sends| == sendSeq - 1
    && 1 <= receiveSeq <= sendSeq <= receiveSeq + MAX_PENDING_BLOCKS
    && |sent| == sendSeq - receiveSeq
    && (forall i :: 0 <= i < |sent| ==>
          sent[i].msg == log.blocks[receiveSeq - 1 + i] && sent[i].receiveTime == log.times[receiveSeq - 1 + i])
    && (forall k :: 0 <= k < |log.blocks| ==> IsNumbered(log.blocks[k], k + 1))
    && retransmitSeq <= sendSeq
    && (forall k :: 0 <= k < |log.sends| && k + 1 >= retransmitSeq ==> log.sends[k] == 1)
    && (forall k :: 0 <= k < |log.sends| ==> log.sends[k] >= if receiveSeq <= k + 1 < retransmitSeq then 2 else 1)
  }

  /** sent_queue holds exactly blocks receiveSeq..sendSeq-1; blocks from retransmitSeq on have been
      sent only once, those before it that are not acknowledged more than once. */
  ghost predicate SentOk(receiveSeq: nat, sendSeq: nat, retransmitSeq: nat, sent: seq<SentBlock>, log: Log) {
    forall seal :: SentFacts(seal, receiveSeq, sendSeq, retransmitSeq, sent, log)
  }

  lemma {:induction false} SentBounds(receiveSeq: nat, sendSeq: nat, retransmitSeq: nat, sent: seq<SentBlock>, log: Log)
    requires SentOk(receiveSeq, sendSeq, retransmitSeq, sent, log)
    ensures 1 <= receiveSeq <= sendSeq == |log.blocks| + 1 <= receiveSeq + MAX_PENDING_BLOCKS
    ensures |sent| == sendSeq - receiveSeq && retransmitSeq <= sendSeq
    ensures |log.blocks| == |log.times| == |log.sends|
  {
    assert SentFacts(Whole, receiveSeq, sendSeq, retransmitSeq, sent, log);
  }

  lemma {:induction false} SentDrop(receiveSeq: nat, sendSeq: nat, retransmitSeq: nat, sent: seq<SentBlock>, log: Log)
    requires SentOk(receiveSeq, sendSeq, retransmitSeq, sent, log) && 1 <= receiveSeq < sendSeq
    ensures sent != [] && SentOk(receiveSeq + 1, sendSeq, retransmitSeq, sent[1..], log)
    ensures |log.times| >= receiveSeq && sent[0].receiveTime == log.times[receiveSeq - 1]
    ensures |log.sends| >= receiveSeq && (receiveSeq >= retransmitSeq <==> log.sends[receiveSeq - 1] == 1)
    ensures MESSAGE_MIN <= |sent[0].msg| <= MESSAGE_MAX
  {
    assert SentFacts(Whole, receiveSeq, sendSeq, retransmitSeq, sent, log);
    assert IsNumbered(log.blocks[receiveSeq - 1], receiveSeq);
  }

  lemma {:induction false} SentMore(receiveSeq: nat, sendSeq: nat, retransmitSeq: nat, sent: seq<SentBlock>, log: Log,
                                    b: SentBlock)
    requires SentOk(receiveSeq, sendSeq, retransmitSeq, sent, log)
    requires sendSeq - receiveSeq < MAX_PENDING_BLOCKS && IsNumbered(b.msg, sendSeq)
    ensures SentOk(receiveSeq, sendSeq + 1, retransmitSeq, sent + [b],
                   Log(log.blocks + [b.msg], log.times + [b.receiveTime], log.sends + [1]))
  {
    assert SentFacts(Whole, receiveSeq, sendSeq, retransmitSeq, sent, log);
  }

  /** Everything not yet acknowledged has been sent once more. */
  function Resent(sends: seq<nat>, receiveSeq: nat): (r: seq<nat>)
    ensures |r| == |sends|
    ensures forall k :: 0 <= k < |sends| ==> r[k] == if k + 1 >= receiveSeq then sends[k] + 1 else sends[k]
  {
    seq(|sends|, k requires 0 <= k < |sends| => if k + 1 >= receiveSeq then sends[k] + 1 else sends[k])
  }

  lemma {:induction false} SentAgain(receiveSeq: nat, sendSeq: nat, retransmitSeq: nat, sent: seq<SentBlock>, log: Log)
    requires SentOk(receiveSeq, sendSeq, retransmitSeq, sent, log)
    ensures SentOk(receiveSeq, sendSeq, sendSeq, sent, log.(sends := Resent(log.sends, receiveSeq)))
  {
    assert SentFacts(Whole, receiveSeq, sendSeq, retransmitSeq, sent, log);
  }

  function SentBytes(sent: seq<SentBlock>): seq<byte> {
    if sent == [] then [] else SentBytes(sent[..|sent| - 1]) + sent[|sent| - 1].msg
  }

  // ----- Round-trip time -----

  datatype Rtt = Rtt(srtt: real, rttvar: real, rto: real)

  function Clamp(x: real): (r: real)
    ensures MIN_RTO <= r <= MAX_RTO
  {
    if x < MIN_RTO then MIN_RTO else if x > MAX_RTO then MAX_RTO else x
  }

  /** The smoothed estimate of section 2 of RFC 6298, with this program's starting values. */
  function Sampled(r: Rtt, delta: real): Rtt {
    var rttvar := if r.srtt == 0.0 then delta / 2.0 else (3.0 * r.rttvar + Abs(r.srtt - delta)) / 4.0;
    var srtt := if r.srtt == 0.0 then delta * 10.0 else (7.0 * r.srtt + delta) / 8.0;
    var rttvar4 := if rttvar * 4.0 < 0.001 then 0.001 else rttvar * 4.0;
    Rtt(srtt, rttvar, Clamp(srtt + rttvar4))
  }

  /** A sample moves the estimate an eighth and its deviation a quarter of the way, never past the
      sample; the timeout covers both, within its limits. */
  lemma {:induction false} SampledBetween(r: Rtt, delta: real)
    requires r.srtt != 0.0
    ensures var s, deviation := Sampled(r, delta), Abs(r.srtt - delta);
            && Min(r.srtt, delta) <= s.srtt <= Max(r.srtt, delta) && 8.0 * (s.srtt - r.srtt) == delta - r.srtt
            && Min(r.rttvar, deviation) <= s.rttvar <= Max(r.rttvar, deviation)
            && 4.0 * (s.rttvar - r.rttvar) == deviation - r.rttvar
            && MIN_RTO <= s.rto <= MAX_RTO
            && (s.rto < MAX_RTO ==> s.rto >= s.srtt + 4.0 * s.rttvar)
            && (s.rto > MIN_RTO ==> s.rto <= s.srtt + Max(4.0 * s.rttvar, 0.001))
  {
  }

  /** The first sample: a cautious estimate of ten times the time measured. */
  lemma {:induction false} SampledFirst(r: Rtt, delta: real)
    requires r.srtt == 0.0 && delta > 0.0
    ensures var s := Sampled(r, delta); s.srtt == 10.0 * delta && s.rttvar == 0.5 * delta && s.rto >= Min(12.0 * delta, MAX_RTO)
  {
  }

  /** The estimate, and the number that the next sample must exceed, after block rseq - 1 with the
      given time was acknowledged; sample is 0 when none is wanted. */
  function RttAfter(r: Rtt, sample: nat, before: nat, rseq: nat, eventTime: real, blockTime: real): (Rtt, nat) {
    if before < rseq && sample != 0 && sample < rseq && blockTime != 0.0 then (Sampled(r, eventTime - blockTime), 0)
    else (r, sample)
  }

  // ----- Clocks -----

  const CANBUS_PACKET_BITS := (1 + 11 + 3 + 4) + (16 + 2 + 7 + 3)
  const CANBUS_IFS_BITS := 4

  /** calculate_bittime */
  function BitTime(isCan: bool, bittimeAdjust: real, bytes: nat): real {
    if isCan then
      var pkts := (bytes + 7) / 8;
      bittimeAdjust * (bytes * 8 + pkts * CANBUS_PACKET_BITS - CANBUS_IFS_BITS) as real
    else bittimeAdjust * bytes as real
  }

  lemma {:induction false} BitTimeIsNotNegative(isCan: bool, bittimeAdjust: real, bytes: nat)
    requires bittimeAdjust >= 0.0 && bytes >= 1
    ensures BitTime(isCan, bittimeAdjust, bytes) >= 0.0
  {
    NotNegative(bittimeAdjust, bytes as real);
    NotNegative(bittimeAdjust, (bytes * 8 + (bytes + 7) / 8 * CANBUS_PACKET_BITS - CANBUS_IFS_BITS) as real);
  }

  lemma {:induction false} NotNegative(x: real, y: real)
    requires x >= 0.0 && y >= 0.0
    ensures x * y >= 0.0
  {
  }

  // ----- What is waiting to be sent -----

  ghost predicate QueueFacts(seal: Seal, queues: seq<CommandQueue>, ready: int, upcoming: int,
                             submitted: seq<Entry>, outgoing: seq<Entry>)
  {
    && QueuesOk(queues)
    && ready == ReadyBytes(queues) && upcoming == UpcomingBytes(queues)
    && Fifo(submitted, outgoing, queues)
  }

  /** The byte counters are right, and messages go out in the order of their queue. */
  ghost predicate Waiting(queues: seq<CommandQueue>, ready: int, upcoming: int,
                          submitted: seq<Entry>, outgoing: seq<Entry>)
  {
    forall seal :: QueueFacts(seal, queues, ready, upcoming, submitted, outgoing)
  }

  lemma {:induction false} WaitingBytes(queues: seq<CommandQueue>, ready: int, upcoming: int, submitted: seq<Entry>,
                                        outgoing: seq<Entry>)
    requires Waiting(queues, ready, upcoming, submitted, outgoing)
    ensures QueuesOk(queues) && ready == ReadyBytes(queues) && upcoming == UpcomingBytes(queues)
  {
    assert QueueFacts(Whole, queues, ready, upcoming, submitted, outgoing);
  }

  lemma {:induction false} WaitingPop(queues: seq<CommandQueue>, ready: int, upcoming: int, submitted: seq<Entry>,
                                      outgoing: seq<Entry>, k: nat)
    requires Waiting(queues, ready, upcoming, submitted, outgoing) && k < |queues| && queues[k].ready != []
    ensures var m := queues[k].ready[0];
            && Waiting(Popped(queues, k), ready - |m.msg|, upcoming, submitted, outgoing + [Entry(queues[k].id, m)])
            && Sendable(m)
    ensures ReadyCount(Popped(queues, k)) < ReadyCount(queues)
  {
    assert QueueFacts(Whole, queues, ready, upcoming, submitted, outgoing);
    PoppedFacts(queues, k, 0);
    PoppedCount(queues, k);
    FifoPop(submitted, outgoing, queues, k);
  }

  lemma {:induction false} WaitingPromote(queues: seq<CommandQueue>, ready: int, upcoming: int, submitted: seq<Entry>,
                                          outgoing: seq<Entry>, k: nat, ackClock: int)
    requires Waiting(queues, ready, upcoming, submitted, outgoing) && k < |queues|
    ensures var q := Promoted(queues[k], ackClock);
            var moved := MessageBytes(queues[k].upcoming) - MessageBytes(q.upcoming);
            Waiting(queues[k := q], ready + moved, upcoming - moved, submitted, outgoing)
  {
    assert QueueFacts(Whole, queues, ready, upcoming, submitted, outgoing);
    PromotedFacts(queues, k, ackClock, 0);
    FifoPromote(submitted, outgoing, queues, k, ackClock);
  }

  lemma {:induction false} WaitingAdd(queues: seq<CommandQueue>, ready: int, upcoming: int, submitted: seq<Entry>,
                                      outgoing: seq<Entry>, id: nat, msgs: seq<QueueMessage>)
    requires Waiting(queues, ready, upcoming, submitted, outgoing) && AllSendable(msgs)
    ensures Waiting(Added(queues, id, msgs), ready, upcoming + MessageBytes(msgs), submitted + Entries(id, msgs), outgoing)
  {
    assert QueueFacts(Whole, queues, ready, upcoming, submitted, outgoing);
    AddedFacts(queues, id, msgs, 0);
    FifoAdd(submitted, outgoing, queues, id, msgs);
  }

  lemma {:induction false} WaitingStart()
    ensures Waiting([], 0, 0, [], [])
  {
    forall id: nat ensures InOrderFor(id, [], [], []) {
    }
  }

  class SerialQueue {
    const receiveWindow: nat
    const isCan: bool
    const bittimeAdjust: real
    var idleTime: real
    var estimate: ClockEstimate
    var lastReceiveSentTime: real
    // Retransmit support
    var sendSeq: nat
    var receiveSeq: nat
    var ignoreNakSeq: nat
    var lastAckSeq: nat
    var retransmitSeq: nat
    var rttSampleSeq: nat
    var sentQueue: seq<SentBlock>
    var rtt: Rtt
    var retransmitTimer: Timer
    var commandTimer: Timer
    // Pending transmission message queues
    var pendingQueues: seq<CommandQueue>
    var readyBytes: int
    var upcomingBytes: int
    var needAckBytes: int
    var lastAckBytes: nat
    var needKickClock: int
    var notifyQueue: seq<Notify>
    // Received messages
    var receiveQueue: seq<Received>
    // Stats
    var bytesWrite: nat
    var bytesRead: nat
    var bytesRetransmit: nat
    var bytesInvalid: nat
    // Every block built, every message submitted, every message put in a block, and in which one;
    // every notification made, and whether one was made before the first acknowledgement
    ghost var log: Log
    ghost var submitted: seq<Entry>
    ghost var outgoing: seq<Entry>
    ghost var contents: seq<seq<Entry>>
    ghost var reported: seq<Notify>
    ghost var early: bool

    ghost predicate Valid()
      reads this`receiveSeq, this`sendSeq, this`retransmitSeq, this`sentQueue, this`log, this`needAckBytes,
            this`pendingQueues, this`readyBytes, this`upcomingBytes, this`submitted, this`outgoing, this`rtt,
            this`rttSampleSeq, this`lastReceiveSentTime, this`contents, this`reported, this`notifyQueue, this`early,
            this`lastAckSeq, this`ignoreNakSeq, this`retransmitTimer
    {
      && 1 <= receiveSeq <= sendSeq <= receiveSeq + MAX_PENDING_BLOCKS && |sentQueue| == sendSeq - receiveSeq
      && |log.blocks| == sendSeq - 1 && lastAckSeq <= receiveSeq
      && forall seal :: ValidFacts(seal)
    }

    ghost predicate ValidFacts(seal: Seal)
      reads this`receiveSeq, this`sendSeq, this`retransmitSeq, this`sentQueue, this`log, this`needAckBytes,
            this`pendingQueues, this`readyBytes, this`upcomingBytes, this`submitted, this`outgoing, this`rtt,
            this`rttSampleSeq, this`lastReceiveSentTime, this`contents, this`reported, this`notifyQueue, this`early,
            this`ignoreNakSeq, this`retransmitTimer
    {
      && ValidSent() && ValidQueues() && ValidRtt() && ValidCarried()
      && ignoreNakSeq <= sendSeq && (sentQueue == [] <==> retransmitTimer == Never)
    }

    ghost predicate ValidSent()
      reads this`receiveSeq, this`sendSeq, this`retransmitSeq, this`sentQueue, this`log, this`needAckBytes
    {
      && SentOk(receiveSeq, sendSeq, retransmitSeq, sentQueue, log)
      && 1 <= receiveSeq <= sendSeq && |sentQueue| == sendSeq - receiveSeq
      && needAckBytes == BlockBytes(sentQueue)
      && (receiveWindow > 0 ==> needAckBytes <= if receiveWindow > MESSAGE_MAX then receiveWindow else MESSAGE_MAX)
    }

    ghost predicate ValidQueues()
      reads this`pendingQueues, this`readyBytes, this`upcomingBytes, this`submitted, this`outgoing
    {
      Waiting(pendingQueues, readyBytes, upcomingBytes, submitted, outgoing)
    }

    /** A round-trip sample will be taken only from blocks sent once, and the time of the last
        acknowledged block is that of its last transmission if it was sent once. */
    ghost predicate ValidRtt()
      reads this`rtt, this`rttSampleSeq, this`retransmitSeq, this`sendSeq, this`receiveSeq, this`log,
            this`lastReceiveSentTime
    {
      && MIN_RTO <= rtt.rto <= MAX_RTO
      && (rttSampleSeq != 0 ==> retransmitSeq <= rttSampleSeq < sendSeq)
      && (receiveSeq > 1 ==> receiveSeq - 2 < |log.times| && lastReceiveSentTime == log.times[receiveSeq - 2])
    }

    /** Every block carries the messages logged for it, and every notification asked for is waiting
        or was made, once its block was acknowledged. */
    ghost predicate ValidCarried()
      reads this`log, this`outgoing, this`contents, this`reported, this`notifyQueue, this`early, this`receiveSeq
    {
      && CarriedOk(log.blocks, contents, outgoing) && Told(reported, notifyQueue, contents, [])
      && (early || AllBelow(reported, receiveSeq))
    }

    /** The host of the protocol. */
    ghost function Host(): GoBackN.Host<seq<byte>>
      reads this`receiveSeq, this`log
    {
      GoBackN.Host(receiveSeq, log.blocks)
    }

    /** serialqueue_alloc, with the two ends' numbers in step */
    constructor (receiveWindow: nat, isCan: bool, bittimeAdjust: real, estimate: ClockEstimate)
      ensures Valid() && Host() == GoBackN.Host(1, []) && submitted == outgoing == []
    {
      this.receiveWindow, this.isCan, this.bittimeAdjust, this.estimate := receiveWindow, isCan, bittimeAdjust, estimate;
      idleTime, lastReceiveSentTime := 0.0, 0.0;
      sendSeq, receiveSeq, ignoreNakSeq, lastAckSeq, retransmitSeq, rttSampleSeq := 1, 1, 0, 0, 0, 0;
      sentQueue, rtt, retransmitTimer, commandTimer := [], Rtt(0.0, 0.0, MIN_RTO), Never, Never;
      pendingQueues, readyBytes, upcomingBytes, needAckBytes, lastAckBytes := [], 0, 0, 0, 0;
      needKickClock, notifyQueue, receiveQueue := MAX_CLOCK, [], [];
      bytesWrite, bytesRead, bytesRetransmit, bytesInvalid := 0, 0, 0, 0;
      log, submitted, outgoing, contents, reported, early := Log([], [], []), [], [], [], [], false;
      new;
      WaitingStart();
      assert SentOk(receiveSeq, sendSeq, retransmitSeq, sentQueue, log);
      ToldStart();
      assert CarriedOk(log.blocks, contents, outgoing);
    }

    // ----- Acknowledgements -----

    /** Take the oldest block off the sent queue. */
    method RemoveOldest() returns (sent: SentBlock)
      requires ValidSent() && receiveSeq < sendSeq
      modifies this`receiveSeq, this`sentQueue, this`needAckBytes
      ensures ValidSent() && receiveSeq == old(receiveSeq) + 1 && sentQueue == old(sentQueue)[1..]
      ensures receiveSeq - 2 < |log.times| == |log.sends| && sent.receiveTime == log.times[receiveSeq - 2]
      ensures receiveSeq - 1 >= retransmitSeq <==> log.sends[receiveSeq - 2] == 1
    {
      SentDrop(receiveSeq, sendSeq, retransmitSeq, sentQueue, log);
      SentBounds(receiveSeq, sendSeq, retransmitSeq, sentQueue, log);
      sent := sentQueue[0];
      needAckBytes := needAckBytes - |sent.msg|;
      sentQueue := sentQueue[1..];
      receiveSeq := receiveSeq + 1;
    }

    /** The first part of update_receive_seq: take acknowledged blocks off the sent queue. */
    method RemoveAcknowledged(rseq: nat)
      requires ValidSent() && receiveSeq < rseq <= sendSeq
      modifies this`receiveSeq, this`sentQueue, this`needAckBytes, this`lastReceiveSentTime, this`lastAckBytes
      ensures ValidSent() && receiveSeq == rseq && sentQueue == old(sentQueue)[rseq - old(receiveSeq)..]
      ensures rseq - 2 < |log.times| == |log.sends| && lastReceiveSentTime == log.times[rseq - 2]
      ensures rseq - 1 >= retransmitSeq <==> log.sends[rseq - 2] == 1
    {
      ghost var start, queue := receiveSeq, sentQueue;
      while true
        invariant ValidSent() && start <= receiveSeq < rseq && sentQueue == queue[receiveSeq - start..]
        decreases rseq - receiveSeq
      {
        var sent := RemoveOldest();
        if rseq == receiveSeq {
          lastReceiveSentTime := sent.receiveTime;
          lastAckBytes := |sent.msg|;
          break;
        }
      }
    }

    /** When the retransmit timer fires after an acknowledgement. */
    function Rearmed(eventTime: real): Timer
      reads this`sentQueue, this`rtt
    {
      if sentQueue == [] then Never
      else At(eventTime + rtt.rto + BitTime(isCan, bittimeAdjust, |sentQueue[0].msg|))
    }

    /** While blocks wait, they are not sent again before the timeout; else never. */
    lemma {:induction false} RearmedWaits(eventTime: real)
      requires Valid() && bittimeAdjust >= 0.0
      ensures match Rearmed(eventTime)
              case At(time) => sentQueue != [] && time >= eventTime + rtt.rto >= eventTime + MIN_RTO
              case Never => sentQueue == []
              case Now => false
    {
      hide BitTime;
      assert ValidFacts(Whole);
      if sentQueue != [] {
        SentIsUnacked();
        assert SentFacts(Whole, receiveSeq, sendSeq, retransmitSeq, sentQueue, log);
        assert IsNumbered(log.blocks[receiveSeq - 1], receiveSeq) && |sentQueue[0].msg| >= 1;
        BitTimeIsNotNegative(isCan, bittimeAdjust, |sentQueue[0].msg|);
      }
    }

    /** update_receive_seq: a round-trip sample is taken only from a block that was sent once. */
    method UpdateReceiveSeq(eventTime: real, rseq: nat)
      requires ValidSent() && ValidRtt() && receiveSeq < rseq <= sendSeq
      modifies this`receiveSeq, this`sentQueue, this`needAckBytes, this`lastReceiveSentTime, this`lastAckBytes,
               this`commandTimer, this`rtt, this`rttSampleSeq, this`retransmitTimer
      ensures ValidSent() && ValidRtt() && receiveSeq == rseq && sentQueue == old(sentQueue)[rseq - old(receiveSeq)..]
      ensures commandTimer == Now && retransmitTimer == Rearmed(eventTime)
      ensures rseq - 2 < |log.times| == |log.sends| && lastReceiveSentTime == log.times[rseq - 2]
      ensures (rtt, rttSampleSeq) ==
              RttAfter(old(rtt), old(rttSampleSeq), old(receiveSeq), rseq, eventTime, log.times[rseq - 2])
      ensures rttSampleSeq != old(rttSampleSeq) ==> log.sends[rseq - 2] == 1
      ensures LastAckedOnce() <==> rseq > retransmitSeq
    {
      RemoveAcknowledged(rseq);
      commandTimer := Now;
      TakeSample(eventTime);
      ArmRetransmit(eventTime);
    }

    method TakeSample(eventTime: real)
      requires ValidRtt()
      modifies this`rtt, this`rttSampleSeq
      ensures ValidRtt()
      ensures forall before: nat :: before < receiveSeq ==>
                (rtt, rttSampleSeq) ==
                RttAfter(old(rtt), old(rttSampleSeq), before, receiveSeq, eventTime, lastReceiveSentTime)
      ensures rttSampleSeq != old(rttSampleSeq) ==> old(rttSampleSeq) < receiveSeq
    {
      if rttSampleSeq != 0 && receiveSeq > rttSampleSeq && lastReceiveSentTime != 0.0 {
        rtt := Sampled(rtt, eventTime - lastReceiveSentTime);
        rttSampleSeq := 0;
      }
    }

    method ArmRetransmit(eventTime: real)
      modifies this`retransmitTimer
      ensures retransmitTimer == Rearmed(eventTime)
    {
      if sentQueue == [] {
        retransmitTimer := Never;
      } else {
        retransmitTimer := At(eventTime + rtt.rto + BitTime(isCan, bittimeAdjust, |sentQueue[0].msg|));
      }
    }

    /** The block acknowledged last was sent exactly once. */
    ghost predicate LastAckedOnce()
      reads this`receiveSeq, this`log
    {
      2 <= receiveSeq <= |log.sends| + 1 && log.sends[receiveSeq - 2] == 1
    }

    /** The time that goes with a notification is that of the block acknowledged last; a message
        with content gets it only if that block is known to have been sent once, and otherwise 0. */
    lemma {:induction false} ReportedTimeIsExact()
      requires Valid() && receiveSeq > 1
      ensures receiveSeq - 2 < |log.times| == |log.sends| && lastReceiveSentTime == log.times[receiveSeq - 2]
      ensures ReportedTime() == if receiveSeq > retransmitSeq then log.times[receiveSeq - 2] else 0.0
      ensures receiveSeq > retransmitSeq ==> LastAckedOnce()
    {
      assert ValidFacts(Whole);
      SentOnceFrom(receiveSeq, sendSeq, retransmitSeq, sentQueue, log);
      SentBounds(receiveSeq, sendSeq, retransmitSeq, sentQueue, log);
    }

    /** The loop over the notify queue: report what wakeSeq allows, in order. */
    method ReleaseNotifies(eventTime: real, wakeSeq: int)
      modifies this`notifyQueue, this`receiveQueue
      ensures var n := DueNotifies(old(notifyQueue), wakeSeq);
              && notifyQueue == old(notifyQueue)[n..]
              && receiveQueue == old(receiveQueue) + Reports(old(notifyQueue)[..n], lastReceiveSentTime, eventTime)
    {
      ghost var queue, before := notifyQueue, receiveQueue;
      ghost var i := 0;
      assert queue[..0] == [];
      assert before + [] == before;
      while notifyQueue != []
        invariant 0 <= i <= DueNotifies(queue, wakeSeq) && notifyQueue == queue[i..]
        invariant receiveQueue == before + Reports(queue[..i], lastReceiveSentTime, eventTime)
        decreases |notifyQueue|
      {
        var qm := notifyQueue[0];
        DueNotifiesFrom(queue, wakeSeq, i);
        if qm.sentSeq > wakeSeq {
          break;
        }
        ReportsMore(before, queue, i, lastReceiveSentTime, eventTime);
        receiveQueue := receiveQueue + [Notified(qm.id, lastReceiveSentTime, eventTime)];
        notifyQueue := notifyQueue[1..];
        i := i + 1;
      }
    }

    /** Make the notifications that a message of len bytes allows. */
    method MakeNotifies(eventTime: real, len: nat)
      requires ValidCarried() && 1 <= receiveSeq && |log.blocks| < receiveSeq + MAX_PENDING_BLOCKS
      modifies this`notifyQueue, this`receiveQueue, this`reported, this`early
      ensures ValidCarried() && NoneBelow(notifyQueue, ReleaseBelow(receiveSeq, len))
      ensures forall content :: Box().(received := receiveQueue + content) ==
                                Handled(old(Box()), receiveSeq, len, lastReceiveSentTime, eventTime, content)
    {
      hide Told, CarriedOk, WakeSeq, AllBelow, NoneBelow, ReleaseBelow, Early;
      ghost var n := DueNotifies(notifyQueue, WakeSeq(receiveSeq, len));
      CarriedLength(log.blocks, contents, outgoing);
      ReleasedAreBelow(reported, notifyQueue, contents, receiveSeq, len);
      ToldRelease(reported, notifyQueue, contents, [], n);
      ghost var released := notifyQueue[..n];
      early := early || Early(receiveSeq, len, notifyQueue);
      if !early {
        BelowMore(reported, released, receiveSeq);
      }
      ReleaseNotifies(eventTime, WakeSeq(receiveSeq, len));
      reported := reported + released;
    }

    /** Notifications and messages on their way to the rest of the program. */
    ghost function Box(): Inbox
      reads this`notifyQueue, this`reported, this`receiveQueue, this`early
    {
      Inbox(notifyQueue, reported, receiveQueue, early)
    }

    /** What is passed on of a message: nothing of one without content; the send time is that of
        the block acknowledged last, if known. */
    function Arrival(block: seq<byte>, now: real): seq<Received>
      reads this`receiveSeq, this`retransmitSeq, this`lastReceiveSentTime
    {
      if |block| == MESSAGE_MIN then []
      else [Data(block, ReportedTime(), now - BitTime(isCan, bittimeAdjust, |block|))]
    }

    /** The send time that goes with a message: that of the block acknowledged last, if known. */
    function ReportedTime(): real
      reads this`receiveSeq, this`retransmitSeq, this`lastReceiveSentTime
    {
      if receiveSeq > retransmitSeq then lastReceiveSentTime else 0.0
    }

    /** The last part of handle_message: an acknowledgement seen before is a request to send
        again; a message with content is passed on. */
    method ProcessMessage(block: seq<byte>, now: real)
      requires lastAckSeq <= receiveSeq
      modifies this`lastAckSeq, this`retransmitTimer, this`receiveQueue
      ensures lastAckSeq == if |block| == MESSAGE_MIN then receiveSeq else old(lastAckSeq)
      ensures retransmitTimer == if IsNak(block, old(lastAckSeq)) then Now else old(retransmitTimer)
      ensures receiveQueue == old(receiveQueue) + Arrival(block, now)
    {
      var rseq := receiveSeq;
      if |block| == MESSAGE_MIN {
        if lastAckSeq < rseq {
          lastAckSeq := rseq;
        } else if rseq > ignoreNakSeq && sentQueue != [] {
          retransmitTimer := Now;
        }
      } else {
        receiveQueue := receiveQueue + [Data(block, ReportedTime(), now - BitTime(isCan, bittimeAdjust, |block|))];
      }
    }

    /** An acknowledgement seen before, of blocks that may be sent again because of it. */
    ghost predicate IsNak(block: seq<byte>, seen: nat)
      reads this`receiveSeq, this`ignoreNakSeq, this`sentQueue
    {
      |block| == MESSAGE_MIN && seen == receiveSeq && receiveSeq > ignoreNakSeq && sentQueue != []
    }

    /** The first part of handle_message: take in the sequence number. */
    method TakeSequence(eventTime: real, low: nat) returns (ok: bool)
      requires Valid()
      requires receiveSeq == 1 ==> GoBackN.Reconstruct(receiveSeq, low) <= sendSeq
      modifies this`receiveSeq, this`sentQueue, this`needAckBytes, this`lastReceiveSentTime, this`lastAckBytes,
               this`commandTimer, this`rtt, this`rttSampleSeq, this`retransmitTimer
      ensures Valid()
      ensures ok == (GoBackN.Reconstruct(old(receiveSeq), low) <= sendSeq)
      ensures receiveSeq == if ok then GoBackN.Reconstruct(old(receiveSeq), low) else old(receiveSeq)
      ensures sentQueue == old(sentQueue)[receiveSeq - old(receiveSeq)..]
      ensures retransmitTimer == if receiveSeq == old(receiveSeq) then old(retransmitTimer) else Rearmed(eventTime)
      ensures (rtt, rttSampleSeq) ==
              RttAfter(old(rtt), old(rttSampleSeq), old(receiveSeq), receiveSeq, eventTime, lastReceiveSentTime)
      ensures receiveSeq != old(receiveSeq) ==> (LastAckedOnce() <==> receiveSeq > retransmitSeq)
    {
      hide ValidQueues;
      assert ValidFacts(Whole);
      var rseq := receiveSeq + (low - receiveSeq) % 16;
      ok := true;
      if rseq != receiveSeq {
        if rseq > sendSeq {
          ok := false;
          return;
        }
        BelowLater(early, reported, receiveSeq, rseq);
        UpdateReceiveSeq(eventTime, rseq);
      }
    }

    /** handle_message, for ends whose numbers are in step: an acknowledgement of a block that was
        never sent does not arrive before the first acknowledgement. */
    method HandleMessage(eventTime: real, block: seq<byte>, now: real) returns (ghost ok: bool)
      requires Valid() && |block| >= MESSAGE_MIN
      requires receiveSeq == 1 ==> GoBackN.Reconstruct(receiveSeq, block[1] as int % 16) <= sendSeq
      modifies this`receiveSeq, this`sentQueue, this`needAckBytes, this`lastReceiveSentTime, this`lastAckBytes,
               this`commandTimer, this`rtt, this`rttSampleSeq, this`retransmitTimer, this`bytesInvalid,
               this`bytesRead, this`notifyQueue, this`lastAckSeq, this`receiveQueue, this`reported, this`early
      ensures Valid() && Host() == GoBackN.Acknowledge(old(Host()), block[1] as int % 16)
      ensures ok == (GoBackN.Reconstruct(old(receiveSeq), block[1] as int % 16) <= sendSeq)
      // Acknowledged blocks leave the sent queue
      ensures sentQueue == old(sentQueue)[receiveSeq - old(receiveSeq)..]
      ensures (rtt, rttSampleSeq) ==
              RttAfter(old(rtt), old(rttSampleSeq), old(receiveSeq), receiveSeq, eventTime, lastReceiveSentTime)
      // A new acknowledgement is of a block sent once exactly if nothing was sent again since
      ensures receiveSeq != old(receiveSeq) ==> (LastAckedOnce() <==> receiveSeq > retransmitSeq)
      // An acknowledgement seen before asks for a fast retransmission
      ensures retransmitTimer == if ok && IsNak(block, old(lastAckSeq)) then Now
                                 else if receiveSeq == old(receiveSeq) then old(retransmitTimer) else Rearmed(eventTime)
      ensures lastAckSeq == if ok && |block| == MESSAGE_MIN then receiveSeq else old(lastAckSeq)
      // Notifications due are made, and content is passed on
      ensures Box() == if ok then Handled(old(Box()), receiveSeq, |block|, lastReceiveSentTime, eventTime, Arrival(block, now))
                       else old(Box())
      // None that is due keeps waiting: an acknowledgement leaves none of an acknowledged block
      ensures ok ==> NoneBelow(notifyQueue, ReleaseBelow(receiveSeq, |block|))
      ensures bytesRead + bytesInvalid == old(bytesRead + bytesInvalid) + |block|
      ensures (ok <==> bytesInvalid == old(bytesInvalid))
    {
      hide Rearmed, RttAfter, Handled, Arrival, IsNak, Reports, ValidFacts, LastAckedOnce, NoneBelow,
           GoBackN.Reconstruct;
      var inStep := TakeSequence(eventTime, block[1] as int % 16);
      ok := inStep;
      if !inStep {
        bytesInvalid := bytesInvalid + |block|;
        return;
      }
      bytesRead := bytesRead + |block|;
      TakeMessage(eventTime, block, now);
    }

    /** The rest of handle_message. */
    method TakeMessage(eventTime: real, block: seq<byte>, now: real)
      requires Valid()
      modifies this`retransmitTimer, this`notifyQueue, this`lastAckSeq, this`receiveQueue, this`reported, this`early
      ensures Valid()
      ensures retransmitTimer == if IsNak(block, old(lastAckSeq)) then Now else old(retransmitTimer)
      ensures lastAckSeq == if |block| == MESSAGE_MIN then receiveSeq else old(lastAckSeq)
      ensures Box() == Handled(old(Box()), receiveSeq, |block|, lastReceiveSentTime, eventTime, Arrival(block, now))
      ensures NoneBelow(notifyQueue, ReleaseBelow(receiveSeq, |block|))
    {
      hide ValidSent, ValidQueues, ValidRtt, Handled, Arrival, Rearmed, NoneBelow, ReleaseBelow;
      assert ValidFacts(Whole);
      MakeNotifies(eventTime, |block|);
      ProcessMessage(block, now);
    }

    /** Every notification made names a block that is acknowledged, that carried a message asking
        for it, and whose bytes are those of its messages; unless a message with content came
        before the first acknowledgement. */
    lemma {:induction false} ReportedAreAcknowledged(i: nat)
      requires Valid() && !early && i < |reported|
      ensures var q := reported[i];
              && 1 <= q.sentSeq < receiveSeq && AskedIn(q, contents)
              && q.sentSeq <= |log.blocks| && Carries(log.blocks[q.sentSeq - 1], q.sentSeq, contents[q.sentSeq - 1])
    {
      assert ValidFacts(Whole);
      ToldAt(reported, notifyQueue, contents);
      CarriedLength(log.blocks, contents, outgoing);
      assert CarriedFacts(Whole, log.blocks, contents, outgoing);
      assert AskedIn(reported[i], contents);
    }

    /** Whoever asked is told: once an acknowledgement has been handled, every message that asks
        for a notification and was in an acknowledged block has had it made. */
    lemma {:induction false} AcknowledgedAreTold(k: nat, e: Entry)
      requires Valid() && NoneBelow(notifyQueue, receiveSeq)
      requires 1 <= k < receiveSeq && k <= |contents| && e in contents[k - 1] && e.message.notifyId != 0
      ensures Notify(e.message.notifyId, k) in reported
    {
      assert ValidFacts(Whole);
      AskedAreMade(reported, notifyQueue, contents, receiveSeq, k, e);
    }

    // ----- Retransmission -----

    /** retransmit_event: SYNC and every block not yet acknowledged, again. */
    method RetransmitEvent(eventTime: real) returns (buf: seq<byte>)
      requires Valid() && sentQueue != []
      modifies this`bytesRetransmit, this`rtt, this`ignoreNakSeq, this`retransmitSeq, this`rttSampleSeq, this`log,
               this`idleTime, this`retransmitTimer
      ensures Valid() && Host() == old(Host())
      ensures buf == [MESSAGE_SYNC] + SentBytes(sentQueue)
      ensures retransmitSeq == sendSeq && rttSampleSeq == 0
      ensures log.sends == Resent(old(log.sends), receiveSeq)
      ensures rtt.rto == if old(retransmitTimer) == Now then old(rtt.rto)
                         else if 2.0 * old(rtt.rto) > MAX_RTO then MAX_RTO else 2.0 * old(rtt.rto)
      ensures ignoreNakSeq == if old(retransmitTimer) != Now then sendSeq
                              else if receiveSeq < old(retransmitSeq) then old(retransmitSeq) else receiveSeq
      // The line is busy until all of it is written; the next retransmission waits for the timeout
      // after SYNC and the first block, and never comes at once
      ensures idleTime == eventTime + BitTime(isCan, bittimeAdjust, |buf|)
      ensures retransmitTimer == At(eventTime + rtt.rto + BitTime(isCan, bittimeAdjust, 1 + |sentQueue[0].msg|))
      ensures bittimeAdjust >= 0.0 ==> idleTime >= eventTime && retransmitTimer.time >= eventTime + rtt.rto
      ensures rtt.rto >= MIN_RTO
      // Nor do further copies of the same acknowledgement bring it about
      ensures forall block, seen :: !IsNak(block, seen)
    {
      hide ValidFacts, Resent, SentBytes, BitTime;
      buf := SendAgain();
      bytesRetransmit := bytesRetransmit + |buf|;
      UpdateTimeout();
      MarkResent();
      Rearm(eventTime, |buf|);
    }

    method Rearm(eventTime: real, bufLen: nat)
      requires Valid() && sentQueue != [] && bufLen >= 1
      modifies this`idleTime, this`retransmitTimer
      ensures Valid() && rtt.rto >= MIN_RTO
      ensures idleTime == eventTime + BitTime(isCan, bittimeAdjust, bufLen)
      ensures retransmitTimer == At(eventTime + rtt.rto + BitTime(isCan, bittimeAdjust, 1 + |sentQueue[0].msg|))
      ensures bittimeAdjust >= 0.0 ==> idleTime >= eventTime && retransmitTimer.time >= eventTime + rtt.rto
    {
      hide BitTime;
      assert ValidFacts(Whole);
      if bittimeAdjust >= 0.0 {
        BitTimeIsNotNegative(isCan, bittimeAdjust, bufLen);
        BitTimeIsNotNegative(isCan, bittimeAdjust, 1 + |sentQueue[0].msg|);
      }
      idleTime := eventTime + BitTime(isCan, bittimeAdjust, bufLen);
      retransmitTimer := At(eventTime + rtt.rto + BitTime(isCan, bittimeAdjust, 1 + |sentQueue[0].msg|));
    }

    /** The timeout doubles unless the receiver asked; the next duplicate request may be ignored. */
    method UpdateTimeout()
      requires Valid()
      modifies this`rtt, this`ignoreNakSeq
      ensures Valid()
      ensures rtt.rto == if retransmitTimer == Now then old(rtt.rto)
                         else if 2.0 * old(rtt.rto) > MAX_RTO then MAX_RTO else 2.0 * old(rtt.rto)
      ensures ignoreNakSeq == if retransmitTimer != Now then sendSeq
                              else if receiveSeq < retransmitSeq then retransmitSeq else receiveSeq
    {
      assert ValidFacts(Whole);
      SentBounds(receiveSeq, sendSeq, retransmitSeq, sentQueue, log);
      if retransmitTimer == Now {
        ignoreNakSeq := receiveSeq;
        if receiveSeq < retransmitSeq {
          ignoreNakSeq := retransmitSeq;
        }
      } else {
        rtt := rtt.(rto := rtt.rto * 2.0);
        if rtt.rto > MAX_RTO {
          rtt := rtt.(rto := MAX_RTO);
        }
        ignoreNakSeq := sendSeq;
      }
    }

    /** No round-trip time is taken from blocks sent more than once. */
    method MarkResent()
      requires Valid()
      modifies this`retransmitSeq, this`rttSampleSeq, this`log
      ensures Valid() && retransmitSeq == sendSeq && rttSampleSeq == 0
      ensures log == old(log).(sends := Resent(old(log.sends), receiveSeq))
    {
      assert ValidFacts(Whole);
      SentAgain(receiveSeq, sendSeq, retransmitSeq, sentQueue, log);
      retransmitSeq := sendSeq;
      rttSampleSeq := 0;
      log := log.(sends := Resent(log.sends, receiveSeq));
    }

    method SendAgain() returns (buf: seq<byte>)
      ensures buf == [MESSAGE_SYNC] + SentBytes(sentQueue)
    {
      buf := [MESSAGE_SYNC];
      for i := 0 to |sentQueue|
        invariant buf == [MESSAGE_SYNC] + SentBytes(sentQueue[..i])
      {
        assert sentQueue[..i + 1][..i] == sentQueue[..i];
        buf := buf + sentQueue[i].msg;
      }
      assert sentQueue[..|sentQueue|] == sentQueue;
    }

    /** What is sent again are the protocol's unacknowledged packets. */
    lemma {:induction false} SentIsUnacked()
      requires Valid()
      ensures 1 <= receiveSeq <= Host().SendSeq() == sendSeq
      ensures |GoBackN.Unacked(Host())| == |sentQueue|
      ensures forall i :: 0 <= i < |sentQueue| ==>
                GoBackN.Unacked(Host())[i] == GoBackN.Packet(receiveSeq + i, sentQueue[i].msg)
    {
      assert ValidFacts(Whole);
      assert SentFacts(Whole, receiveSeq, sendSeq, retransmitSeq, sentQueue, log);
    }

    /** End to end: for a state of the protocol with this host, each block accepted by the receiver
        carries the messages logged for its number, and the messages of every queue so far
        delivered are the first of those submitted to it, in order, none missing or twice. */
    lemma {:induction false} DeliveredInOrder(s: GoBackN.State<seq<byte>>, id: nat)
      requires Valid() && GoBackN.Inv(s) && s.host == Host()
      ensures |s.accepted| == s.mcuNext - 1 <= |contents|
      ensures forall k :: 0 <= k < |s.accepted| ==> Carries(s.accepted[k], k + 1, contents[k])
      ensures For(AllEntries(contents[..s.mcuNext - 1]), id) <= For(submitted, id)
      ensures s.mcuNext == sendSeq && PendingFor(pendingQueues, id) == [] ==>
                For(AllEntries(contents[..s.mcuNext - 1]), id) == For(submitted, id)
    {
      hide GoBackN.Inv, SentOk, Waiting, CarriedOk, Told, Carries, For, AllEntries;
      assert ValidFacts(Whole);
      PrefixAccepted(s);
      PrefixCarried(log.blocks, contents, outgoing, s.accepted);
      PrefixSubmitted(contents, outgoing, log.blocks, submitted, pendingQueues, readyBytes, upcomingBytes,
                      |s.accepted|, id);
    }

    // ----- New blocks -----

    /** The protocol and the receiver's buffer allow another block. */
    ghost predicate MayBuild()
      reads this`sendSeq, this`receiveSeq, this`sentQueue, this`needAckBytes
    {
      && sendSeq - receiveSeq < MAX_PENDING_BLOCKS
      && (receiveWindow == 0 || sentQueue == [] || needAckBytes + MESSAGE_MAX <= receiveWindow)
    }

    /** An acknowledgement is needed before anything more is sent. */
    ghost predicate WindowClosed()
      reads this`sendSeq, this`receiveSeq, this`needAckBytes, this`lastAckSeq, this`lastAckBytes
    {
      || sendSeq - receiveSeq >= MAX_PENDING_BLOCKS
      || (sendSeq > receiveSeq && receiveWindow != 0 &&
          needAckBytes + MESSAGE_MAX + (if lastAckSeq < receiveSeq then lastAckBytes else 0) > receiveWindow)
    }

    /** The loop of build_and_send_command: the most urgent messages, until the next does not fit. */
    method BuildPayload() returns (payload: seq<byte>, ghost taken: seq<Entry>)
      requires ValidQueues() && Told(reported, notifyQueue, contents, []) && |contents| + 1 == sendSeq
      modifies this`pendingQueues, this`readyBytes, this`notifyQueue, this`outgoing
      ensures ValidQueues() && Told(reported, notifyQueue, contents, taken)
      ensures BlockOf(old(pendingQueues), taken, pendingQueues)
      ensures payload == Payload(taken) && |payload| <= MESSAGE_PAYLOAD_MAX && outgoing == old(outgoing) + taken
    {
      assert Payload([]) == [];
      hide Waiting, Told, BuildsOn, BlockOf, Payload, ReadyBytes, ReadyCount, QueuesOk;
      payload, taken := [], [];
      ghost var queues := pendingQueues;
      BuildStart(queues);
      while readyBytes != 0
        invariant ValidQueues() && Told(reported, notifyQueue, contents, taken)
        invariant payload == Payload(taken) && |payload| <= MESSAGE_PAYLOAD_MAX && outgoing == old(outgoing) + taken
        invariant BuildsOn(queues, taken, pendingQueues, MESSAGE_PAYLOAD_MAX - |payload|)
        decreases ReadyCount(pendingQueues)
      {
        var full;
        payload, taken, full := BuildOne(queues, payload, taken);
        if full {
          return;
        }
      }
      WaitingBytes(pendingQueues, readyBytes, upcomingBytes, submitted, outgoing);
      BuildEnd(queues, taken, pendingQueues, MESSAGE_PAYLOAD_MAX - |payload|);
    }

    /** One turn of that loop: the most urgent message, unless it does not fit. */
    method BuildOne(ghost queues: seq<CommandQueue>, payload: seq<byte>, ghost taken: seq<Entry>)
      returns (more: seq<byte>, ghost all: seq<Entry>, full: bool)
      requires ValidQueues() && Told(reported, notifyQueue, contents, taken) && |contents| + 1 == sendSeq
      requires readyBytes != 0 && payload == Payload(taken) && |payload| <= MESSAGE_PAYLOAD_MAX
      requires BuildsOn(queues, taken, pendingQueues, MESSAGE_PAYLOAD_MAX - |payload|)
      modifies this`pendingQueues, this`readyBytes, this`notifyQueue, this`outgoing
      ensures ValidQueues() && Told(reported, notifyQueue, contents, all)
      ensures more == Payload(all) && |more| <= MESSAGE_PAYLOAD_MAX
      ensures taken <= all && outgoing == old(outgoing) + all[|taken|..]
      ensures if full then all == taken && BlockOf(queues, all, pendingQueues)
              else BuildsOn(queues, all, pendingQueues, MESSAGE_PAYLOAD_MAX - |more|)
                   && ReadyCount(pendingQueues) < old(ReadyCount(pendingQueues))
    {
      hide Waiting, Told, BuildsOn, BlockOf, Payload, Popped, ReadyBytes, ReadyCount, QueuesOk;
      more, all, full := payload, taken, false;
      WaitingBytes(pendingQueues, readyBytes, upcomingBytes, submitted, outgoing);
      var k := MostUrgent(pendingQueues);
      var id, qm := pendingQueues[k].id, pendingQueues[k].ready[0];
      BuildStep(queues, taken, pendingQueues, MESSAGE_PAYLOAD_MAX - |payload|, k);
      if MESSAGE_HEADER_SIZE + |payload| + |qm.msg| > MESSAGE_MAX - MESSAGE_TRAILER_SIZE {
        full := true;
        return;
      }
      PayloadMore(taken, Entry(id, qm));
      AppendMessage(k, taken);
      more := payload + qm.msg;
      all := taken + [Entry(id, qm)];
    }

    /** Take the most urgent message. */
    method AppendMessage(k: nat, ghost taken: seq<Entry>)
      requires ValidQueues() && Told(reported, notifyQueue, contents, taken) && |contents| + 1 == sendSeq
      requires IsMostUrgent(pendingQueues, k)
      modifies this`pendingQueues, this`readyBytes, this`notifyQueue, this`outgoing
      ensures var e := Entry(old(pendingQueues[k].id), old(pendingQueues[k].ready[0]));
              ValidQueues() && outgoing == old(outgoing) + [e] && Told(reported, notifyQueue, contents, taken + [e])
      ensures pendingQueues == Popped(old(pendingQueues), k)
      ensures ReadyCount(pendingQueues) < old(ReadyCount(pendingQueues))
    {
      WaitingPop(pendingQueues, readyBytes, upcomingBytes, submitted, outgoing, k);
      var id, qm := pendingQueues[k].id, pendingQueues[k].ready[0];
      ToldTake(reported, notifyQueue, contents, taken, Entry(id, qm));
      pendingQueues := Popped(pendingQueues, k);
      readyBytes := readyBytes - |qm.msg|;
      outgoing := outgoing + [Entry(id, qm)];
      assert notifyQueue + [] == notifyQueue;
      if qm.notifyId != 0 {
        notifyQueue := notifyQueue + [Notify(qm.notifyId, sendSeq)];
      }
    }

    /** build_and_send_command: one more block, with the next number, filled with the most urgent
        messages that are ready. */
    method BuildAndSendCommand(pending: nat, eventTime: real) returns (block: seq<byte>, ghost taken: seq<Entry>)
      requires Valid() && MayBuild()
      modifies this`pendingQueues, this`readyBytes, this`notifyQueue, this`outgoing, this`contents,
               this`retransmitTimer,
               this`rttSampleSeq, this`sendSeq, this`needAckBytes, this`sentQueue, this`log
      ensures Valid() && Host() == GoBackN.Build(old(Host()), block) && sendSeq == old(sendSeq) + 1
      ensures contents == old(contents) + [taken] && BlockOf(old(pendingQueues), taken, pendingQueues)
      ensures Carries(block, old(sendSeq), taken)
      // It waits for its acknowledgement, timed from when it will have gone out, and is sampled
      // if no other block is
      ensures Stored(old(sentQueue), old(retransmitTimer), block, eventTime, DueTime(pending + |block|, eventTime))
      ensures rttSampleSeq == if old(rttSampleSeq) == 0 then old(sendSeq) else old(rttSampleSeq)
    {
      hide BlockOf, ValidSent, ValidQueues, ValidRtt, CarriedOk, Told, Carries, IsNumbered, Stored, DueTime, AllBelow;
      assert ValidFacts(Whole);
      block, taken := FillBlock();
      contents := contents + [taken];
      StoreBlock(block, pending, eventTime);
      assert ValidCarried();
    }

    /** The first part of build_and_send_command: the bytes of the next block. */
    method FillBlock() returns (block: seq<byte>, ghost taken: seq<Entry>)
      requires ValidQueues() && ValidCarried() && |log.blocks| == sendSeq - 1
      modifies this`pendingQueues, this`readyBytes, this`notifyQueue, this`outgoing
      ensures ValidQueues() && Told(reported, notifyQueue, contents + [taken], [])
      ensures CarriedOk(log.blocks + [block], contents + [taken], outgoing)
      ensures BlockOf(old(pendingQueues), taken, pendingQueues) && Carries(block, sendSeq, taken)
      ensures IsNumbered(block, sendSeq)
    {
      hide BlockOf, Payload, Frame, ValidQueues, CarriedOk, Told;
      CarriedLength(log.blocks, contents, outgoing);
      ghost var gone := outgoing;
      var payload;
      payload, taken := BuildPayload();
      block := MsgBlock.BuildBlock(sendSeq, payload);
      FrameIsBlock(sendSeq, payload);
      CarriedMore(log.blocks, contents, gone, block, taken);
      ToldBuilt(reported, notifyQueue, contents, taken);
    }

    /** When so many bytes more have gone over the line. */
    function DueTime(bytes: nat, eventTime: real): real
      reads this`idleTime
    {
      Max(eventTime, idleTime) + BitTime(isCan, bittimeAdjust, bytes)
    }

    /** The block waits for its acknowledgement behind the others, with its times; the first of
        them sets the retransmit timer. */
    ghost predicate Stored(before: seq<SentBlock>, timer: Timer, block: seq<byte>, eventTime: real, due: real)
      reads this`sentQueue, this`retransmitTimer, this`rtt
    {
      && sentQueue == before + [SentBlock(block, eventTime, due)]
      && retransmitTimer == if before == [] then At(due + rtt.rto) else timer
    }

    /** The last part of build_and_send_command: store the block until it is acknowledged. */
    method StoreBlock(block: seq<byte>, pending: nat, eventTime: real)
      requires ValidSent() && ValidRtt() && MayBuild() && IsNumbered(block, sendSeq) && ignoreNakSeq <= sendSeq
      requires sentQueue == [] <==> retransmitTimer == Never
      modifies this`retransmitTimer, this`rttSampleSeq, this`sendSeq, this`needAckBytes, this`sentQueue, this`log
      ensures ValidSent() && ValidRtt() && sendSeq == old(sendSeq) + 1
      ensures sentQueue != [] && |sentQueue| == old(|sentQueue|) + 1 && retransmitTimer != Never
      ensures log.blocks == old(log.blocks) + [block]
      ensures Stored(old(sentQueue), old(retransmitTimer), block, eventTime, DueTime(pending + |block|, eventTime))
      ensures rttSampleSeq == if old(rttSampleSeq) == 0 then old(sendSeq) else old(rttSampleSeq)
    {
      SentBounds(receiveSeq, sendSeq, retransmitSeq, sentQueue, log);
      var idle := DueTime(pending + |block|, eventTime);
      var out := SentBlock(block, eventTime, idle);
      SentMore(receiveSeq, sendSeq, retransmitSeq, sentQueue, log, out);
      BlockBytesMore(sentQueue, out);
      if sentQueue == [] {
        retransmitTimer := At(idle + rtt.rto);
      }
      if rttSampleSeq == 0 {
        rttSampleSeq := sendSeq;
      }
      sendSeq := sendSeq + 1;
      needAckBytes := needAckBytes + |block|;
      sentQueue := sentQueue + [out];
      log := Log(log.blocks + [block], log.times + [idle], log.sends + [1]);
    }

    /** Make ready what queue k may send by the given clock; returns the clock that the next
        message waits for. */
    method PromoteQueue(k: nat, ackClock: int) returns (stalled: int)
      requires ValidQueues() && k < |pendingQueues|
      modifies this`pendingQueues, this`readyBytes, this`upcomingBytes
      ensures ValidQueues() && pendingQueues == old(pendingQueues)[k := Promoted(old(pendingQueues)[k], ackClock)]
      ensures stalled == if pendingQueues[k].upcoming == [] then MAX_CLOCK
                         else pendingQueues[k].upcoming[0].minClock
      ensures pendingQueues[k].upcoming != [] ==> stalled > ackClock
    {
      var q, moved := pendingQueues[k], 0;
      ghost var q0 := q;
      while q.upcoming != [] && ackClock >= q.upcoming[0].minClock
        invariant ValidQueues() && pendingQueues == old(pendingQueues)
        invariant Promoted(q, ackClock) == Promoted(q0, ackClock)
        invariant moved + MessageBytes(q.upcoming) == MessageBytes(q0.upcoming)
        decreases |q.upcoming|
      {
        var qm := q.upcoming[0];
        PromoteOneMore(q, ackClock);
        q := CommandQueue(q.id, q.upcoming[1..], q.ready + [qm]);
        moved := moved + |qm.msg|;
      }
      NothingDue(q, ackClock);
      WaitingPromote(pendingQueues, readyBytes, upcomingBytes, submitted, outgoing, k, ackClock);
      pendingQueues := pendingQueues[k := q];
      upcomingBytes := upcomingBytes - moved;
      readyBytes := readyBytes + moved;
      stalled := if q.upcoming == [] then MAX_CLOCK else q.upcoming[0].minClock;
    }

    /** The loop of check_send_command over the queues. */
    method PromoteAll(ackClock: int, background: int) returns (minStalledClock: int, minReadyClock: int)
      requires ValidQueues()
      modifies this`pendingQueues, this`readyBytes, this`upcomingBytes
      ensures ValidQueues() && pendingQueues == PromotedAll(old(pendingQueues), ackClock)
      ensures minStalledClock == LeastStalled(pendingQueues, |pendingQueues|)
      ensures minReadyClock == LeastAsked(pendingQueues, |pendingQueues|, background)
    {
      minStalledClock, minReadyClock := MAX_CLOCK, MAX_CLOCK;
      ghost var queues := pendingQueues;
      PromotedStart(queues, ackClock);
      for i := 0 to |pendingQueues|
        invariant ValidQueues() && |pendingQueues| == |queues|
        invariant PromotedUpTo(queues, i, ackClock, pendingQueues)
        invariant minStalledClock == LeastStalled(pendingQueues, i) <= MAX_CLOCK
        invariant minReadyClock == LeastAsked(pendingQueues, i, background)
      {
        ghost var now := pendingQueues;
        PromotedNext(queues, i, ackClock, pendingQueues);
        var stalled := PromoteQueue(i, ackClock);
        LeastUnchanged(now, pendingQueues, i, background);
        if stalled < minStalledClock {
          minStalledClock := stalled;
        }
        LeastStep(pendingQueues, i, background);
        if pendingQueues[i].ready != [] {
          var reqClock := pendingQueues[i].ready[0].reqClock;
          if reqClock == BACKGROUND_PRIORITY_CLOCK {
            reqClock := background;
          }
          if reqClock < minReadyClock {
            minReadyClock := reqClock;
          }
        }
      }
      PromotedEnd(queues, ackClock, pendingQueues);
    }

    /** A block is wanted now: one can be filled, or, while the clock is known, a ready message
        asks for a clock less than a quarter of a second after the block's arrival. */
    ghost predicate WantsBlock(ackClock: int, background: int)
      reads this`estimate, this`pendingQueues, this`readyBytes
    {
      || readyBytes >= MESSAGE_PAYLOAD_MAX
      || (estimate.estFreq == 0.0 && readyBytes != 0)
      || (estimate.estFreq != 0.0 &&
          LeastAsked(pendingQueues, |pendingQueues|, background) <= ackClock + LeadTicks(estimate))
    }

    /** The clock to wake up at: the lead before the first clock a ready message asks for, or the
        first earliest clock of a message not ready, whichever is earlier. */
    ghost function KickClock(background: int): (clock: int)
      reads this`estimate, this`pendingQueues
    {
      Kick(estimate, pendingQueues, background)
    }

    /** check_send_command: it asks for a block only when the window and the receiver's buffer
        allow one, makes messages ready only when the block would arrive at or after their
        earliest clocks, and never sleeps past the earliest clock of one that waits. */
    method CheckSendCommand(pending: nat, eventTime: real)
      returns (wake: Timer, ghost arrival: real, ghost ackClock: int, ghost background: int)
      requires Valid()
      modifies this`pendingQueues, this`readyBytes, this`upcomingBytes, this`needKickClock
      ensures Valid() && (wake == Now ==> MayBuild())
      ensures IsArrival(LinkAt(eventTime, idleTime), pending, arrival)
      ensures ArrivesAt(LinkAt(eventTime, idleTime), pending, ackClock)
      ensures AsksAt(LinkAt(eventTime, idleTime), pending, background)
      ensures WindowClosed() ==>
                wake == Never && pendingQueues == old(pendingQueues) && needKickClock == old(needKickClock)
      ensures !WindowClosed() ==>
                pendingQueues == PromotedAll(old(pendingQueues), ackClock) && Chosen(wake, arrival, ackClock, background)
      ensures !WindowClosed() ==>
                (wake == Now <==> WantedAt(LinkAt(eventTime, idleTime), pending, pendingQueues, ackClock))
    {
      hide Max, LeadTicks, BitTime, ClockFromTime, KickClock, ValidFacts, WantsBlock, LinkAt, WantedAt, AsksAt;
      var idle, arrivalClock, asked := Clocks(pending, eventTime);
      arrival, ackClock, background := idle, arrivalClock, asked;
      wake := CheckWindow(idle, arrivalClock, asked);
      WantsMeans(eventTime, pending, arrivalClock, asked);
    }

    lemma {:induction false} WantsMeans(eventTime: real, pending: nat, ackClock: int, background: int)
      requires Valid() && AsksAt(LinkAt(eventTime, idleTime), pending, background)
      ensures WantsBlock(ackClock, background) <==>
              WantedAt(LinkAt(eventTime, idleTime), pending, pendingQueues, ackClock)
    {
      hide ValidSent, ValidRtt, ValidCarried, LeadTicks, LeastAsked, BackgroundClock;
      assert ValidFacts(Whole);
      WaitingBytes(pendingQueues, readyBytes, upcomingBytes, submitted, outgoing);
      var link := LinkAt(eventTime, idleTime);
      assert AskFacts(Whole, link, pending, background);
      if WantedAt(link, pending, pendingQueues, ackClock) {
        assert WantedFacts(Whole, link, pending, pendingQueues, ackClock);
      }
    }

    /** When the next block would arrive, and the clocks that go with it. */
    method Clocks(pending: nat, eventTime: real) returns (idle: real, ackClock: int, background: int)
      ensures IsArrival(LinkAt(eventTime, idleTime), pending, idle)
      ensures ArrivesAt(LinkAt(eventTime, idleTime), pending, ackClock)
      ensures AsksAt(LinkAt(eventTime, idleTime), pending, background)
    {
      idle := Max(eventTime, idleTime) + BitTime(isCan, bittimeAdjust, pending + MESSAGE_MIN);
      ackClock := ClockFromTime(estimate, idle);
      var bgTime := if pending != 0 then idle else idleTime;
      background := ClockFromTime(estimate, bgTime + (MIN_REQTIME_DELTA + MIN_BACKGROUND_DELTA));
    }

    /** check_send_command from the window on. */
    method CheckWindow(idle: real, ackClock: int, background: int) returns (wake: Timer)
      requires Valid()
      modifies this`pendingQueues, this`readyBytes, this`upcomingBytes, this`needKickClock
      ensures Valid() && (wake == Now ==> MayBuild())
      ensures WindowClosed() ==>
                wake == Never && pendingQueues == old(pendingQueues) && needKickClock == old(needKickClock)
      ensures !WindowClosed() ==>
                pendingQueues == PromotedAll(old(pendingQueues), ackClock) && Chosen(wake, idle, ackClock, background)
    {
      hide ValidQueues, ValidRtt, ValidCarried, Chosen, PromotedAll, SentOk;
      assert ValidFacts(Whole);
      if sendSeq - receiveSeq >= MAX_PENDING_BLOCKS {
        return Never;
      }
      if sendSeq > receiveSeq && receiveWindow != 0 {
        var need := needAckBytes + MESSAGE_MAX;
        if lastAckSeq < receiveSeq {
          need := need + lastAckBytes;
        }
        if need > receiveWindow {
          return Never;
        }
      }
      wake := CheckQueues(idle, ackClock, background);
    }

    /** What check_send_command decides while the window is open. */
    ghost predicate Chosen(wake: Timer, arrival: real, ackClock: int, background: int)
      reads this`estimate, this`pendingQueues, this`readyBytes, this`needKickClock
    {
      && (wake == Now <==> WantsBlock(ackClock, background))
      && (wake == Never <==> estimate.estFreq == 0.0 && !WantsBlock(ackClock, background))
      && (wake == Never ==> needKickClock == MAX_CLOCK)
      && (wake.At? ==> needKickClock == KickClock(background) && NoneBefore(pendingQueues, |pendingQueues|, needKickClock) &&
                       Sleeps(estimate, arrival, needKickClock - ackClock, wake.time))
    }

    /** check_send_command from the queues on. */
    method CheckQueues(idle: real, ackClock: int, background: int) returns (wake: Timer)
      requires ValidQueues()
      modifies this`pendingQueues, this`readyBytes, this`upcomingBytes, this`needKickClock
      ensures ValidQueues() && pendingQueues == PromotedAll(old(pendingQueues), ackClock)
      ensures Chosen(wake, idle, ackClock, background)
    {
      hide LeadTicks, Sleeps, ValidQueues, PromotedAll, LeastStalled, LeastAsked, NoneBefore;
      var minStalledClock, minReadyClock := PromoteAll(ackClock, background);
      if readyBytes >= MESSAGE_PAYLOAD_MAX {
        return Now;
      }
      if estimate.estFreq == 0.0 {
        if readyBytes != 0 {
          return Now;
        }
        needKickClock := MAX_CLOCK;
        return Never;
      }
      var reqClockDelta := LeadTicks(estimate);
      if minReadyClock <= ackClock + reqClockDelta {
        return Now;
      }
      var wantClock := minReadyClock - reqClockDelta;
      if minStalledClock < wantClock {
        wantClock := minStalledClock;
      }
      needKickClock := wantClock;
      NoneBeforeLeast(pendingQueues, wantClock);
      var time := SleepTime(idle, wantClock - ackClock);
      return At(time);
    }

    method SleepTime(idle: real, ticks: int) returns (time: real)
      requires estimate.estFreq != 0.0
      ensures Sleeps(estimate, idle, ticks, time)
    {
      time := idle + ticks as real / estimate.estFreq;
    }

    /** command_event: blocks are built while the window is open and one is wanted, each filled
        with the most urgent of the messages whose earliest clock its arrival meets; they are
        written at once, and the buffer of twelve blocks is never too small. */
    method CommandEvent(eventTime: real)
      returns (writes: seq<seq<byte>>, wake: Timer, ghost clocks: seq<int>, ghost arrival: real, ghost ackClock: int,
               ghost background: int)
      requires Valid()
      modifies this`pendingQueues, this`readyBytes, this`upcomingBytes, this`needKickClock, this`notifyQueue,
               this`outgoing, this`contents, this`retransmitTimer, this`rttSampleSeq, this`sendSeq, this`needAckBytes,
               this`sentQueue, this`log, this`bytesWrite, this`idleTime
      ensures Valid() && old(log.blocks) <= log.blocks
      // What goes into the blocks, and what stays
      ensures Filled(old(pendingQueues), old(contents), contents, clocks)
      ensures var link, built := LinkAt(eventTime, old(idleTime)), log.blocks[|old(log.blocks)|..];
              && Arrivals(link, built, clocks) && AllWanted(link, old(pendingQueues), built, clocks)
              && ArrivesAt(link, |Concat(built)|, ackClock)
              && pendingQueues == if WindowClosed() then Rounds(old(pendingQueues), clocks)
                                  else PromotedAll(Rounds(old(pendingQueues), clocks), ackClock)
      // All blocks are written, at once
      ensures var bytes := Concat(log.blocks[|old(log.blocks)|..]);
              && writes == (if bytes == [] then [] else [bytes]) && bytesWrite == old(bytesWrite) + |bytes|
              && idleTime == (if bytes == [] then old(idleTime)
                              else Max(eventTime, old(idleTime)) + BitTime(isCan, bittimeAdjust, |bytes|))
      // When to look again
      ensures wake != Now && (wake == Never <==> WindowClosed() || estimate.estFreq == 0.0)
      ensures var link, bytes := LinkAt(eventTime, old(idleTime)), |Concat(log.blocks[|old(log.blocks)|..])|;
              && IsArrival(link, bytes, arrival) && AsksAt(link, bytes, background)
              && (!WindowClosed() ==> !WantedAt(link, bytes, pendingQueues, ackClock)
                                      && Chosen(wake, arrival, ackClock, background))
      ensures !WindowClosed() ==> readyBytes < MESSAGE_PAYLOAD_MAX && (estimate.estFreq == 0.0 ==> readyBytes == 0)
      ensures wake.At? ==> NoneBefore(pendingQueues, |pendingQueues|, needKickClock)
    {
      hide Max, BitTime, LinkAt, ArrivesAt, AsksAt, IsArrival, Sleeps, Rounds, PromotedAll, Filled, Arrivals,
           EventOk, Concat, AllWanted, WantedAt,
           ValidFacts, KickClock, LeastAsked, LeadTicks, NoneBefore, MayBuild;
      var buf: seq<byte> := [];
      writes, clocks := [], [];
      ghost var link, first := LinkAt(eventTime, idleTime), Progress(pendingQueues, contents, log.blocks);
      EventStart(link, first);
      while true
        invariant Valid() && EventOk(link, first, Progress(pendingQueues, contents, log.blocks), clocks, buf)
        invariant idleTime == old(idleTime) && bytesWrite == old(bytesWrite) && writes == []
        invariant |buf| <= MESSAGE_MAX * |clocks| && |clocks| <= sendSeq - receiveSeq <= MAX_PENDING_BLOCKS
        decreases receiveSeq + MAX_PENDING_BLOCKS - sendSeq
      {
        ghost var last := Progress(pendingQueues, contents, log.blocks);
        wake, arrival, ackClock, background := CheckSendCommand(|buf|, eventTime);
        if wake != Now || |buf| + MESSAGE_MAX > MESSAGE_MAX * MAX_PENDING_BLOCKS {
          EventEnd(link, first, last, clocks, buf);
          if buf != [] {
            writes := writes + [buf];
            WriteOut(|buf|, eventTime);
            buf := [];
          }
          if wake != Now {
            break;
          }
        }
        buf := BuildMore(link, first, last, clocks, ackClock, buf, eventTime);
        clocks := clocks + [ackClock];
      }
    }

    /** The delays and the clock estimate of blocks written at the given time. */
    ghost function LinkAt(eventTime: real, idle: real): Link
      reads this`estimate
    {
      Link(estimate, isCan, bittimeAdjust, Max(eventTime, idle), idle)
    }

    /** One more block in the buffer. */
    method BuildMore(ghost link: Link, ghost first: Progress, ghost last: Progress, ghost clocks: seq<int>,
                     ghost clock: int, buf: seq<byte>, eventTime: real)
      returns (more: seq<byte>)
      requires Valid() && MayBuild() && EventOk(link, first, last, clocks, buf)
      requires last.contents == contents && last.blocks == log.blocks
      requires pendingQueues == PromotedAll(last.queues, clock) && ArrivesAt(link, |buf|, clock)
      requires WantedAt(link, |buf|, pendingQueues, clock)
      modifies this`pendingQueues, this`readyBytes, this`notifyQueue, this`outgoing, this`contents,
               this`retransmitTimer,
               this`rttSampleSeq, this`sendSeq, this`needAckBytes, this`sentQueue, this`log
      ensures Valid() && EventOk(link, first, Progress(pendingQueues, contents, log.blocks), clocks + [clock], more)
      ensures |more| <= |buf| + MESSAGE_MAX && sendSeq == old(sendSeq) + 1
    {
      var block;
      ghost var taken;
      block, taken := BuildAndSendCommand(|buf|, eventTime);
      FrameLength(block, sendSeq - 1, taken);
      EventStep(link, first, last, clocks, buf, block, clock, taken, pendingQueues);
      more := buf + block;
    }

    /** One write, and its bookkeeping. */
    method WriteOut(bufLen: nat, eventTime: real)
      modifies this`bytesWrite, this`idleTime
      ensures bytesWrite == old(bytesWrite) + bufLen
      ensures idleTime == Max(eventTime, old(idleTime)) + BitTime(isCan, bittimeAdjust, bufLen)
    {
      bytesWrite := bytesWrite + bufLen;
      idleTime := Max(eventTime, idleTime) + BitTime(isCan, bittimeAdjust, bufLen);
    }

    /** serialqueue_send_batch: the batch waits behind what its queue already holds, with earliest
        clocks only raised. */
    method SendBatch(id: nat, msgs: seq<QueueMessage>) returns (mustWake: bool)
      requires Valid() && AllSendable(msgs)
      modifies this`pendingQueues, this`upcomingBytes, this`submitted, this`needKickClock
      ensures Valid()
      ensures pendingQueues == if MessageBytes(msgs) == 0 then old(pendingQueues)
                               else Added(old(pendingQueues), id, RaisedAll(msgs))
      ensures submitted == old(submitted) + if MessageBytes(msgs) == 0 then [] else Entries(id, RaisedAll(msgs))
      ensures mustWake == (MessageBytes(msgs) != 0 && RaisedAll(msgs)[0].minClock < old(needKickClock))
      ensures needKickClock == if mustWake then 0 else old(needKickClock)
      // A sleeper that is not woken misses nothing
      ensures !mustWake && NoneBefore(old(pendingQueues), |old(pendingQueues)|, needKickClock) ==>
                NoneBefore(pendingQueues, |pendingQueues|, needKickClock)
    {
      hide ValidQueues, ValidSent, ValidRtt, ValidCarried, Added, AllSendable, Entries, MessageBytes, NoneBefore;
      assert ValidFacts(Whole);
      var raised, len := RaiseAll(msgs);
      mustWake := false;
      if len == 0 {
        return;
      }
      RaisedBytes(msgs);
      Submit(id, raised, len);
      if raised[0].minClock < needKickClock {
        needKickClock := 0;
        mustWake := true;
      } else {
        NoneBeforeAdded(old(pendingQueues), id, raised, needKickClock);
      }
    }

    method Submit(id: nat, msgs: seq<QueueMessage>, len: nat)
      requires ValidQueues() && AllSendable(msgs) && len == MessageBytes(msgs)
      modifies this`pendingQueues, this`upcomingBytes, this`submitted
      ensures ValidQueues() && pendingQueues == Added(old(pendingQueues), id, msgs)
      ensures submitted == old(submitted) + Entries(id, msgs)
    {
      WaitingAdd(pendingQueues, readyBytes, upcomingBytes, submitted, outgoing, id, msgs);
      pendingQueues := Added(pendingQueues, id, msgs);
      upcomingBytes := upcomingBytes + len;
      submitted := submitted + Entries(id, msgs);
    }
  }

  method RaiseAll(msgs: seq<QueueMessage>) returns (raised: seq<QueueMessage>, len: nat)
    requires AllSendable(msgs)
    ensures raised == RaisedAll(msgs) && AllSendable(raised) && len == MessageBytes(msgs)
    ensures len > 0 ==> raised != []
  {
    raised, len := [], 0;
    for i := 0 to |msgs|
      invariant raised == RaisedAll(msgs[..i]) && len == MessageBytes(msgs[..i])
    {
      assert msgs[..i + 1] == msgs[..i] + [msgs[i]];
      BytesConcat(msgs[..i], [msgs[i]]);
      assert [msgs[i]][1..] == [];
      raised := raised + [Raised(msgs[i])];
      len := len + |msgs[i].msg|;
    }
    assert msgs[..|msgs|] == msgs;
    forall i | 0 <= i < |raised| ensures Sendable(raised[i]) {
      assert Sendable(msgs[i]);
    }
  }

  lemma {:induction false} ConcatMore(blocks: seq<seq<byte>>, b: seq<byte>)
    ensures Concat(blocks + [b]) == Concat(blocks) + b
  {
    if blocks == [] {
      assert ([] + [b])[1..] == [] && b + [] == b;
    } else {
      assert (blocks + [b])[1..] == blocks[1..] + [b];
      ConcatMore(blocks[1..], b);
    }
  }

  // ----- A run of command_event -----

  /** What decides when a block arrives: the clock estimate, the line, when it may start, and when
      the line is idle. */
  datatype Link = Link(estimate: ClockEstimate, isCan: bool, bittimeAdjust: real, start: real, idle: real)

  datatype Progress = Progress(queues: seq<CommandQueue>, contents: seq<seq<Entry>>, blocks: seq<seq<byte>>)

  /** The time at which a block behind `pending` other bytes arrives, at the least. */
  function ArrivalTime(link: Link, pending: nat): real {
    link.start + BitTime(link.isCan, link.bittimeAdjust, pending + MESSAGE_MIN)
  }

  ghost predicate IsArrival(link: Link, pending: nat, time: real) {
    forall seal :: ArrivalTimeFacts(seal, link, pending, time)
  }

  ghost predicate ArrivalTimeFacts(seal: Seal, link: Link, pending: nat, time: real) {
    time == ArrivalTime(link, pending)
  }

  /** The clock at which a block behind `pending` other bytes arrives. */
  ghost predicate ArrivesAt(link: Link, pending: nat, clock: int) {
    forall seal :: ArrivalFacts(seal, link, pending, clock)
  }

  ghost predicate ArrivalFacts(seal: Seal, link: Link, pending: nat, clock: int) {
    clock == ClockFromTime(link.estimate, ArrivalTime(link, pending))
  }

  /** The clock that background messages ask for: just out of the way of others. */
  function BackgroundClock(link: Link, pending: nat): int {
    ClockFromTime(link.estimate, (if pending != 0 then ArrivalTime(link, pending) else link.idle) +
                                 (MIN_REQTIME_DELTA + MIN_BACKGROUND_DELTA))
  }

  ghost predicate AsksAt(link: Link, pending: nat, clock: int) {
    forall seal :: AskFacts(seal, link, pending, clock)
  }

  ghost predicate AskFacts(seal: Seal, link: Link, pending: nat, clock: int) {
    clock == BackgroundClock(link, pending)
  }

  /** A block that arrives at the given clock is wanted: it can be filled, or, while the clock rate
      is known, a ready message asks for a clock less than a quarter of a second later. */
  ghost predicate Wanted(e: ClockEstimate, queues: seq<CommandQueue>, ackClock: int, background: int) {
    || ReadyBytes(queues) >= MESSAGE_PAYLOAD_MAX
    || (e.estFreq == 0.0 && ReadyBytes(queues) != 0)
    || (e.estFreq != 0.0 && LeastAsked(queues, |queues|, background) <= ackClock + LeadTicks(e))
  }

  ghost predicate WantedAt(link: Link, pending: nat, queues: seq<CommandQueue>, ackClock: int) {
    forall seal :: WantedFacts(seal, link, pending, queues, ackClock)
  }

  ghost predicate WantedFacts(seal: Seal, link: Link, pending: nat, queues: seq<CommandQueue>, ackClock: int) {
    Wanted(link.estimate, queues, ackClock, BackgroundClock(link, pending))
  }

  /** Every block was wanted at its turn. */
  ghost predicate AllWanted(link: Link, queues: seq<CommandQueue>, built: seq<seq<byte>>, clocks: seq<int>) {
    |built| == |clocks| && forall k :: 0 <= k < |clocks| ==>
      WantedAt(link, |Concat(built[..k])|, PromotedAll(Rounds(queues, clocks[..k]), clocks[k]), clocks[k])
  }

  lemma {:induction false} WantedMore(link: Link, queues: seq<CommandQueue>, built: seq<seq<byte>>, clocks: seq<int>,
                                      block: seq<byte>, clock: int)
    requires AllWanted(link, queues, built, clocks)
    requires WantedAt(link, |Concat(built)|, PromotedAll(Rounds(queues, clocks), clock), clock)
    ensures AllWanted(link, queues, built + [block], clocks + [clock])
  {
    hide WantedAt, Rounds, PromotedAll, Concat;
    var more := clocks + [clock];
    forall k | 0 <= k < |more|
      ensures WantedAt(link, |Concat((built + [block])[..k])|, PromotedAll(Rounds(queues, more[..k]), more[k]), more[k])
    {
      assert (built + [block])[..k] == built[..k] && more[..k] == clocks[..k];
      assert built[..|built|] == built && clocks[..|clocks|] == clocks;
    }
  }

  /** The time so many ticks after the given one. */
  ghost predicate Sleeps(e: ClockEstimate, start: real, ticks: int, time: real) {
    forall seal :: SleepFacts(seal, e, start, ticks, time)
  }

  ghost predicate SleepFacts(seal: Seal, e: ClockEstimate, start: real, ticks: int, time: real) {
    e.estFreq != 0.0 && time == start + ticks as real / e.estFreq
  }

  /** A quarter of a second, in ticks. */
  function LeadTicks(e: ClockEstimate): int {
    Truncated(MIN_REQTIME_DELTA * e.estFreq)
  }

  /** One block takes its messages from the queues. */
  ghost predicate BlockOf(queues: seq<CommandQueue>, taken: seq<Entry>, rest: seq<CommandQueue>) {
    forall seal :: BlockFacts(seal, queues, taken, rest)
  }

  ghost predicate BlockFacts(seal: Seal, queues: seq<CommandQueue>, taken: seq<Entry>, rest: seq<CommandQueue>) {
    taken == Selected(queues, MESSAGE_PAYLOAD_MAX) && rest == Remaining(queues, MESSAGE_PAYLOAD_MAX)
  }

  /** The queues after a round for each clock: messages due by the clock become ready, then one
      block takes the most urgent ones. */
  function Rounds(queues: seq<CommandQueue>, clocks: seq<int>): seq<CommandQueue> {
    if clocks == [] then queues
    else
      var n := |clocks| - 1;
      Remaining(PromotedAll(Rounds(queues, clocks[..n]), clocks[n]), MESSAGE_PAYLOAD_MAX)
  }

  /** The block of each round holds the messages selected in it. */
  ghost predicate Filled(queues: seq<CommandQueue>, before: seq<seq<Entry>>, after: seq<seq<Entry>>, clocks: seq<int>) {
    && before <= after && |after| == |before| + |clocks|
    && forall k :: 0 <= k < |clocks| ==>
         after[|before|..][k] == Selected(PromotedAll(Rounds(queues, clocks[..k]), clocks[k]), MESSAGE_PAYLOAD_MAX)
  }

  /** The clock of each round is that of its block's arrival. */
  ghost predicate Arrivals(link: Link, built: seq<seq<byte>>, clocks: seq<int>) {
    |built| == |clocks| && forall k :: 0 <= k < |clocks| ==> ArrivesAt(link, |Concat(built[..k])|, clocks[k])
  }

  ghost predicate EventOk(link: Link, first: Progress, now: Progress, clocks: seq<int>, buf: seq<byte>) {
    forall seal :: EventFacts(seal, link, first, now, clocks, buf)
  }

  ghost predicate EventFacts(seal: Seal, link: Link, first: Progress, now: Progress, clocks: seq<int>, buf: seq<byte>) {
    && first.blocks <= now.blocks && buf == Concat(now.blocks[|first.blocks|..])
    && now.queues == Rounds(first.queues, clocks)
    && Filled(first.queues, first.contents, now.contents, clocks)
    && Arrivals(link, now.blocks[|first.blocks|..], clocks)
    && AllWanted(link, first.queues, now.blocks[|first.blocks|..], clocks)
  }

  lemma {:induction false} EventStart(link: Link, first: Progress)
    ensures EventOk(link, first, first, [], [])
  {
  }

  lemma {:induction false} EventStep(link: Link, first: Progress, last: Progress, clocks: seq<int>, buf: seq<byte>,
                                     block: seq<byte>, clock: int, taken: seq<Entry>, rest: seq<CommandQueue>)
    requires EventOk(link, first, last, clocks, buf) && ArrivesAt(link, |buf|, clock)
    requires BlockOf(PromotedAll(last.queues, clock), taken, rest)
    requires WantedAt(link, |buf|, PromotedAll(last.queues, clock), clock)
    ensures EventOk(link, first, Progress(rest, last.contents + [taken], last.blocks + [block]), clocks + [clock], buf + block)
  {
    hide Rounds, PromotedAll, Filled, Arrivals, Concat, Selected, Remaining, AllWanted, WantedAt;
    assert EventFacts(Whole, link, first, last, clocks, buf);
    assert BlockFacts(Whole, PromotedAll(last.queues, clock), taken, rest);
    var built := last.blocks[|first.blocks|..];
    assert (last.blocks + [block])[|first.blocks|..] == built + [block];
    ConcatMore(built, block);
    RoundsMore(first.queues, clocks, clock);
    FilledMore(first.queues, first.contents, last.contents, clocks, clock);
    ArrivalsMore(link, built, clocks, block, clock);
    WantedMore(link, first.queues, built, clocks, block, clock);
  }

  lemma {:induction false} RoundsMore(queues: seq<CommandQueue>, clocks: seq<int>, clock: int)
    ensures Rounds(queues, clocks + [clock]) ==
            Remaining(PromotedAll(Rounds(queues, clocks), clock), MESSAGE_PAYLOAD_MAX)
  {
    assert (clocks + [clock])[..|clocks|] == clocks;
  }

  lemma {:induction false} FilledMore(queues: seq<CommandQueue>, before: seq<seq<Entry>>, after: seq<seq<Entry>>,
                                      clocks: seq<int>, clock: int)
    requires Filled(queues, before, after, clocks)
    ensures Filled(queues, before,
                   after + [Selected(PromotedAll(Rounds(queues, clocks), clock), MESSAGE_PAYLOAD_MAX)], clocks + [clock])
  {
    hide Rounds, PromotedAll, Selected;
    var chosen := Selected(PromotedAll(Rounds(queues, clocks), clock), MESSAGE_PAYLOAD_MAX);
    assert (after + [chosen])[|before|..] == after[|before|..] + [chosen];
    var more := clocks + [clock];
    forall k | 0 <= k < |more|
      ensures (after + [chosen])[|before|..][k] ==
              Selected(PromotedAll(Rounds(queues, more[..k]), more[k]), MESSAGE_PAYLOAD_MAX)
    {
      assert more[..k] == clocks[..k];
      assert clocks[..|clocks|] == clocks;
    }
  }

  lemma {:induction false} ArrivalsMore(link: Link, built: seq<seq<byte>>, clocks: seq<int>, block: seq<byte>,
                                        clock: int)
    requires Arrivals(link, built, clocks) && ArrivesAt(link, |Concat(built)|, clock)
    ensures Arrivals(link, built + [block], clocks + [clock])
  {
    var more := clocks + [clock];
    forall k | 0 <= k < |more| ensures ArrivesAt(link, |Concat((built + [block])[..k])|, more[k]) {
      assert (built + [block])[..k] == built[..k];
      assert built[..|built|] == built;
    }
  }

  lemma {:induction false} EventEnd(link: Link, first: Progress, last: Progress, clocks: seq<int>, buf: seq<byte>)
    requires EventOk(link, first, last, clocks, buf)
    ensures first.blocks <= last.blocks && buf == Concat(last.blocks[|first.blocks|..])
    ensures last.queues == Rounds(first.queues, clocks)
    ensures Filled(first.queues, first.contents, last.contents, clocks)
    ensures Arrivals(link, last.blocks[|first.blocks|..], clocks)
    ensures AllWanted(link, first.queues, last.blocks[|first.blocks|..], clocks)
  {
    assert EventFacts(Whole, link, first, last, clocks, buf);
  }

  lemma {:induction false} FrameLength(block: seq<byte>, num: nat, entries: seq<Entry>)
    requires Carries(block, num, entries)
    ensures |block| <= MESSAGE_MAX
  {
    FrameIsBlock(num, Payload(entries));
  }

  // ----- What the receiver gets -----

  lemma {:induction false} PrefixAccepted(s: GoBackN.State<seq<byte>>)
    requires GoBackN.Inv(s)
    ensures 1 <= s.mcuNext <= |s.host.built| + 1 && s.accepted == s.host.built[..s.mcuNext - 1]
  {
  }

  lemma {:induction false} PrefixCarried(blocks: seq<seq<byte>>, contents: seq<seq<Entry>>, outgoing: seq<Entry>,
                                         first: seq<seq<byte>>)
    requires CarriedOk(blocks, contents, outgoing) && first <= blocks
    ensures |first| <= |contents| == |blocks|
    ensures forall k :: 0 <= k < |first| ==> Carries(first[k], k + 1, contents[k])
  {
    hide Carries;
    assert CarriedFacts(Whole, blocks, contents, outgoing);
  }

  lemma {:induction false} PrefixSubmitted(contents: seq<seq<Entry>>, outgoing: seq<Entry>, blocks: seq<seq<byte>>,
                                           submitted: seq<Entry>, queues: seq<CommandQueue>, ready: int, upcoming: int,
                                           n: nat, id: nat)
    requires CarriedOk(blocks, contents, outgoing) && Waiting(queues, ready, upcoming, submitted, outgoing)
    requires n <= |contents|
    ensures For(AllEntries(contents[..n]), id) <= For(submitted, id)
    ensures n == |contents| && PendingFor(queues, id) == [] ==>
              For(AllEntries(contents[..n]), id) == For(submitted, id)
  {
    hide Carries, For, AllEntries;
    assert CarriedFacts(Whole, blocks, contents, outgoing);
    assert QueueFacts(Whole, queues, ready, upcoming, submitted, outgoing);
    assert InOrderFor(id, submitted, outgoing, queues);
    EntriesPrefix(contents, n, id);
    assert contents[..|contents|] == contents;
  }

  // ----- Taking messages -----

  /** Messages taken so far, and what the rest of the loop will take. */
  ghost predicate BuildsOn(queues: seq<CommandQueue>, taken: seq<Entry>, now: seq<CommandQueue>, room: int) {
    forall seal :: BuildFacts(seal, queues, taken, now, room)
  }

  ghost predicate BuildFacts(seal: Seal, queues: seq<CommandQueue>, taken: seq<Entry>, now: seq<CommandQueue>,
                             room: int) {
    && Selected(queues, MESSAGE_PAYLOAD_MAX) == taken + Selected(now, room)
    && Remaining(queues, MESSAGE_PAYLOAD_MAX) == Remaining(now, room)
  }

  lemma {:induction false} BuildStart(queues: seq<CommandQueue>)
    ensures BuildsOn(queues, [], queues, MESSAGE_PAYLOAD_MAX)
  {
  }

  lemma {:induction false} BuildStep(queues: seq<CommandQueue>, taken: seq<Entry>, now: seq<CommandQueue>, room: int,
                                     k: nat)
    requires BuildsOn(queues, taken, now, room) && ReadyBytes(now) > 0 && IsMostUrgent(now, k)
    ensures var m := now[k].ready[0];
            if |m.msg| <= room then BuildsOn(queues, taken + [Entry(now[k].id, m)], Popped(now, k), room - |m.msg|)
            else BlockOf(queues, taken, now)
  {
    assert BuildFacts(Whole, queues, taken, now, room);
    UrgentIsUnique(now, k);
    var m := now[k].ready[0];
    if |m.msg| <= room {
      var rest := Selected(Popped(now, k), room - |m.msg|);
      assert Selected(now, room) == [Entry(now[k].id, m)] + rest;
      assert taken + Selected(now, room) == (taken + [Entry(now[k].id, m)]) + rest;
    } else {
      assert taken + [] == taken;
    }
  }

  lemma {:induction false} BuildEnd(queues: seq<CommandQueue>, taken: seq<Entry>, now: seq<CommandQueue>, room: int)
    requires BuildsOn(queues, taken, now, room) && ReadyBytes(now) == 0
    ensures BlockOf(queues, taken, now)
  {
    assert BuildFacts(Whole, queues, taken, now, room);
    assert taken + [] == taken;
  }

  // ----- When to look again -----

  /** The first earliest clock of a message of the first n queues that is not ready. */
  function LeastStalled(queues: seq<CommandQueue>, n: nat): int
    requires n <= |queues|
  {
    if n == 0 then MAX_CLOCK
    else
      var least := LeastStalled(queues, n - 1);
      if queues[n - 1].upcoming != [] && queues[n - 1].upcoming[0].minClock < least
      then queues[n - 1].upcoming[0].minClock else least
  }

  /** The clock a message asks for. */
  function Asked(m: QueueMessage, background: int): int {
    if m.reqClock == BACKGROUND_PRIORITY_CLOCK then background else m.reqClock
  }

  /** The first clock that a ready message of the first n queues asks for. */
  function LeastAsked(queues: seq<CommandQueue>, n: nat, background: int): int
    requires n <= |queues|
  {
    if n == 0 then MAX_CLOCK
    else
      var least := LeastAsked(queues, n - 1, background);
      if queues[n - 1].ready != [] && Asked(queues[n - 1].ready[0], background) < least
      then Asked(queues[n - 1].ready[0], background) else least
  }

  lemma {:induction false} LeastStalledIsLeast(queues: seq<CommandQueue>, n: nat)
    requires n <= |queues|
    ensures NoneBefore(queues, n, LeastStalled(queues, n)) && LeastStalled(queues, n) <= MAX_CLOCK
    ensures LeastStalled(queues, n) == MAX_CLOCK ||
            exists i :: 0 <= i < n && queues[i].upcoming != [] && LeastStalled(queues, n) == queues[i].upcoming[0].minClock
  {
    if n > 0 {
      LeastStalledIsLeast(queues, n - 1);
    }
  }

  lemma {:induction false} NoneBeforeAdded(queues: seq<CommandQueue>, id: nat, msgs: seq<QueueMessage>, clock: int)
    requires msgs != [] && clock <= msgs[0].minClock
    ensures NoneBefore(queues, |queues|, clock) ==>
            NoneBefore(Added(queues, id, msgs), |Added(queues, id, msgs)|, clock)
  {
  }

  lemma {:induction false} NoneBeforeLeast(queues: seq<CommandQueue>, clock: int)
    requires clock <= LeastStalled(queues, |queues|)
    ensures NoneBefore(queues, |queues|, clock)
  {
    LeastStalledIsLeast(queues, |queues|);
  }

  lemma {:induction false} LeastAskedIsLeast(queues: seq<CommandQueue>, n: nat, background: int)
    requires n <= |queues|
    ensures var clock := LeastAsked(queues, n, background);
            && clock <= MAX_CLOCK
            && (forall i :: 0 <= i < n && queues[i].ready != [] ==> clock <= Asked(queues[i].ready[0], background))
            && (clock == MAX_CLOCK ||
                exists i :: 0 <= i < n && queues[i].ready != [] && clock == Asked(queues[i].ready[0], background))
  {
    if n > 0 {
      LeastAskedIsLeast(queues, n - 1, background);
    }
  }

  function Kick(e: ClockEstimate, queues: seq<CommandQueue>, background: int): int {
    var want := LeastAsked(queues, |queues|, background) - LeadTicks(e);
    var stalled := LeastStalled(queues, |queues|);
    if stalled < want then stalled else want
  }

  /** That clock is exact: from it on, and not before, there is something to do, be it a message
      that becomes ready or a block that is wanted. */
  lemma {:induction false} KickIsExact(e: ClockEstimate, queues: seq<CommandQueue>, background: int, clock: int)
    requires e.estFreq != 0.0 && ReadyBytes(queues) < MESSAGE_PAYLOAD_MAX && clock < MAX_CLOCK
    ensures Kick(e, queues, background) <= clock <==>
            Wanted(e, queues, clock, background) || PromotedAll(queues, clock) != queues
  {
    hide LeastAsked, LeastStalled, LeadTicks, PromotedAll, ReadyBytes;
    StalledIsExact(queues, clock);
  }

  lemma {:induction false} StalledIsExact(queues: seq<CommandQueue>, clock: int)
    requires clock < MAX_CLOCK
    ensures LeastStalled(queues, |queues|) <= clock <==> PromotedAll(queues, clock) != queues
  {
    hide LeastStalled, PromotedAll;
    LeastStalledIsLeast(queues, |queues|);
    if LeastStalled(queues, |queues|) <= clock {
      var i :| 0 <= i < |queues| && queues[i].upcoming != [] && LeastStalled(queues, |queues|) == queues[i].upcoming[0].minClock;
      SomePromoted(queues[i], clock);
      assert PromotedAll(queues, clock)[i] != queues[i];
    } else {
      forall i | 0 <= i < |queues| ensures PromotedAll(queues, clock)[i] == queues[i] {
        NothingDue(queues[i], clock);
      }
    }
  }

  lemma {:induction false} SomePromoted(q: CommandQueue, clock: int)
    requires q.upcoming != [] && q.upcoming[0].minClock <= clock
    ensures Promoted(q, clock) != q
  {
    var n := DueCount(q.upcoming, clock);
    assert n >= 1 && |Promoted(q, clock).upcoming| == |q.upcoming| - n;
  }

  /** And it is the clock that a block would arrive at when the timer fires, for a conversion point
      in the past; later it is no earlier. */
  lemma {:induction false} WakeReachesKick(e: ClockEstimate, arrival: real, kick: int, time: real, later: real)
    requires e.estFreq > 0.0 && e.convTime <= arrival && ClockFromTime(e, arrival) <= kick
    requires Sleeps(e, arrival, kick - ClockFromTime(e, arrival), time) && time <= later
    ensures ClockFromTime(e, time) == kick <= ClockFromTime(e, later)
  {
    hide Ticks;
    var ticks := kick - ClockFromTime(e, arrival);
    assert SleepFacts(Whole, e, arrival, ticks, time);
    TicksOn(e, arrival, ticks, time);
    ClockFromTimeMonotone(e, time, later);
  }

  lemma {:induction false} TicksOn(e: ClockEstimate, start: real, ticks: int, time: real)
    requires e.estFreq > 0.0 && e.convTime <= start && time == start + ticks as real / e.estFreq
    ensures Ticks(e, time) == Ticks(e, start) + ticks as real && Ticks(e, start) >= 0.0
  {
    var d := ticks as real / e.estFreq;
    ScaledBack(ticks as real, e.estFreq);
    Distributed(start - e.convTime, d, e.estFreq);
    NotNegative(start - e.convTime, e.estFreq);
  }

  lemma {:induction false} Distributed(x: real, y: real, f: real)
    ensures (x + y) * f == x * f + y * f
  {
  }

  lemma {:induction false} LeastStep(queues: seq<CommandQueue>, n: nat, background: int)
    requires n < |queues|
    ensures LeastAsked(queues, n + 1, background) ==
            if queues[n].ready != [] && Asked(queues[n].ready[0], background) < LeastAsked(queues, n, background)
            then Asked(queues[n].ready[0], background) else LeastAsked(queues, n, background)
  {
  }

  lemma {:induction false} LeastUnchanged(a: seq<CommandQueue>, b: seq<CommandQueue>, n: nat, background: int)
    requires n <= |a| == |b| && a[..n] == b[..n]
    ensures LeastStalled(a, n) == LeastStalled(b, n) && LeastAsked(a, n, background) == LeastAsked(b, n, background)
  {
    if n > 0 {
      assert a[n - 1] == a[..n][n - 1] && b[n - 1] == b[..n][n - 1];
      assert a[..n - 1] == a[..n][..n - 1] && b[..n - 1] == b[..n][..n - 1];
      LeastUnchanged(a, b, n - 1, background);
    }
  }

  lemma {:induction false} PromoteOneMore(q: CommandQueue, ackClock: int)
    requires q.upcoming != [] && ackClock >= q.upcoming[0].minClock
    ensures Promoted(CommandQueue(q.id, q.upcoming[1..], q.ready + [q.upcoming[0]]), ackClock) == Promoted(q, ackClock)
  {
    var n := DueCount(q.upcoming[1..], ackClock);
    assert q.upcoming[..n + 1] == [q.upcoming[0]] + q.upcoming[1..][..n];
    assert q.upcoming[n + 1..] == q.upcoming[1..][n..];
    Regrouped(q.ready, [q.upcoming[0]], q.upcoming[1..][..n]);
  }

  lemma {:induction false} NothingDue(q: CommandQueue, ackClock: int)
    requires q.upcoming == [] || ackClock < q.upcoming[0].minClock
    ensures Promoted(q, ackClock) == q
  {
    assert q.ready + [] == q.ready;
  }

  function PromotedAll(queues: seq<CommandQueue>, ackClock: int): (r: seq<CommandQueue>)
    ensures |r| == |queues| && forall i :: 0 <= i < |queues| ==> r[i] == Promoted(queues[i], ackClock)
  {
    seq(|queues|, i requires 0 <= i < |queues| => Promoted(queues[i], ackClock))
  }

  /** No message of the first n queues that is not ready waits for an earlier clock. */
  ghost predicate NoneBefore(queues: seq<CommandQueue>, n: nat, clock: int) {
    forall j :: 0 <= j < n && j < |queues| && queues[j].upcoming != [] ==> clock <= queues[j].upcoming[0].minClock
  }

  /** The first n queues have been dealt with. */
  ghost predicate PromotedUpTo(queues: seq<CommandQueue>, n: nat, ackClock: int, now: seq<CommandQueue>) {
    forall seal :: PromotedSoFar(seal, queues, n, ackClock, now)
  }

  ghost predicate PromotedSoFar(seal: Seal, queues: seq<CommandQueue>, n: nat, ackClock: int, now: seq<CommandQueue>) {
    && |now| == |queues|
    && forall j :: 0 <= j < |queues| ==> now[j] == if j < n then Promoted(queues[j], ackClock) else queues[j]
  }

  lemma {:induction false} PromotedStart(queues: seq<CommandQueue>, ackClock: int)
    ensures PromotedUpTo(queues, 0, ackClock, queues)
  {
  }

  lemma {:induction false} PromotedNext(queues: seq<CommandQueue>, i: nat, ackClock: int, now: seq<CommandQueue>)
    requires PromotedUpTo(queues, i, ackClock, now) && i < |queues| == |now|
    ensures PromotedUpTo(queues, i + 1, ackClock, now[i := Promoted(now[i], ackClock)])
  {
    assert PromotedSoFar(Whole, queues, i, ackClock, now);
  }

  lemma {:induction false} PromotedEnd(queues: seq<CommandQueue>, ackClock: int, now: seq<CommandQueue>)
    requires PromotedUpTo(queues, |queues|, ackClock, now)
    ensures now == PromotedAll(queues, ackClock)
  {
    assert PromotedSoFar(Whole, queues, |queues|, ackClock, now);
  }

  /** A message is made ready only at or after its earliest clock, and once it waits for its turn
      so do those behind it. */
  lemma {:induction false} PromotedWaited(q: CommandQueue, ackClock: int)
    ensures var p := Promoted(q, ackClock);
            && q.ready <= p.ready && p.ready + p.upcoming == q.ready + q.upcoming
            && (forall i :: |q.ready| <= i < |p.ready| ==> p.ready[i].minClock <= ackClock)
            && (p.upcoming != [] ==> p.upcoming[0].minClock > ackClock)
  {
    var n := DueCount(q.upcoming, ackClock);
    assert q.upcoming == q.upcoming[..n] + q.upcoming[n..];
    Regrouped(q.ready, q.upcoming[..n], q.upcoming[n..]);
  }

  function Messages(sent: seq<SentBlock>): (blocks: seq<seq<byte>>)
    ensures |blocks| == |sent| && forall i :: 0 <= i < |sent| ==> blocks[i] == sent[i].msg
  {
    seq(|sent|, i requires 0 <= i < |sent| => sent[i].msg)
  }

  lemma {:induction false} SentBytesConcat(sent: seq<SentBlock>)
    ensures SentBytes(sent) == Concat(Messages(sent))
  {
    if sent != [] {
      var n := |sent| - 1;
      SentBytesConcat(sent[..n]);
      ConcatMore(Messages(sent[..n]), sent[n].msg);
      assert Messages(sent) == Messages(sent[..n]) + [sent[n].msg];
    }
  }

  /** What retransmit_event writes reaches a receiver with an empty buffer, in step or not, as
      exactly the blocks not yet acknowledged. */
  lemma {:induction false} RetransmissionArrives(receiveSeq: nat, sendSeq: nat, retransmitSeq: nat,
                                                 sent: seq<SentBlock>, log: Log, needSync: bool)
    requires SentOk(receiveSeq, sendSeq, retransmitSeq, sent, log) && sent != []
    ensures Deliveries(needSync, [MESSAGE_SYNC] + SentBytes(sent)) == Messages(sent)
  {
    assert SentFacts(Whole, receiveSeq, sendSeq, retransmitSeq, sent, log);
    SentBytesConcat(sent);
    forall i | 0 <= i < |sent| ensures IsBlock(Messages(sent)[i]) {
      assert IsNumbered(log.blocks[receiveSeq - 1 + i], receiveSeq + i);
    }
    RetransmitDelivers(needSync, Messages(sent));
  }

  lemma {:induction false} SentOnceFrom(receiveSeq: nat, sendSeq: nat, retransmitSeq: nat, sent: seq<SentBlock>,
                                        log: Log)
    requires SentOk(receiveSeq, sendSeq, retransmitSeq, sent, log)
    ensures |log.sends| == sendSeq - 1
    ensures forall k :: 0 <= k < |log.sends| && k + 1 >= retransmitSeq ==> log.sends[k] == 1
  {
    assert SentFacts(Whole, receiveSeq, sendSeq, retransmitSeq, sent, log);
  }

  datatype Inbox = Inbox(waiting: seq<Notify>, reported: seq<Notify>, received: seq<Received>, early: bool)

  /** A message came that acknowledges the blocks below rseq: the notifications due are made, then
      the content is passed on.  Early notifications are remembered. */
  ghost function Handled(box: Inbox, rseq: nat, len: nat, sentTime: real, eventTime: real,
                         content: seq<Received>): Inbox {
    var n := DueNotifies(box.waiting, WakeSeq(rseq, len));
    Inbox(box.waiting[n..], box.reported + box.waiting[..n],
          box.received + Reports(box.waiting[..n], sentTime, eventTime) + content,
          box.early || Early(rseq, len, box.waiting))
  }

  function Reports(notify: seq<Notify>, sentTime: real, receiveTime: real): seq<Received> {
    seq(|notify|, i requires 0 <= i < |notify| => Notified(notify[i].id, sentTime, receiveTime))
  }

  lemma {:induction false} ReportsMore(before: seq<Received>, notify: seq<Notify>, i: nat, sentTime: real,
                                       receiveTime: real)
    requires i < |notify|
    ensures before + Reports(notify[..i + 1], sentTime, receiveTime) ==
            before + Reports(notify[..i], sentTime, receiveTime) + [Notified(notify[i].id, sentTime, receiveTime)]
  {
  }
}
