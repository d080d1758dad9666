/**
  The command queues of serialqueue.c (struct command_queue): messages wait in `upcoming` for
  their earliest clock, then in `ready` to be put into a block.
*/
module CommandQueues {
  import opened Common
  import opened Vlq

  const BACKGROUND_PRIORITY_CLOCK := 0x7fff_ffff_0000_0000

  datatype QueueMessage = QueueMessage(msg: seq<byte>, minClock: int, reqClock: int, notifyId: nat)

  datatype CommandQueue = CommandQueue(id: nat, upcoming: seq<QueueMessage>, ready: seq<QueueMessage>)

  /** A message and the queue it went through. */
  datatype Entry = Entry(id: nat, message: QueueMessage)

  function MessageBytes(msgs: seq<QueueMessage>): nat {
    if msgs == [] then 0 else |msgs[0].msg| + MessageBytes(msgs[1..])
  }

  lemma {:induction false} BytesConcat(a: seq<QueueMessage>, b: seq<QueueMessage>)
    ensures MessageBytes(a + b) == MessageBytes(a) + MessageBytes(b)
  {
    if a == [] {
      assert a + b == b;
    } else {
      assert (a + b)[1..] == a[1..] + b;
      BytesConcat(a[1..], b);
    }
  }

  function ReadyBytes(queues: seq<CommandQueue>): nat {
    if queues == [] then 0 else MessageBytes(queues[0].ready) + ReadyBytes(queues[1..])
  }

  function UpcomingBytes(queues: seq<CommandQueue>): nat {
    if queues == [] then 0 else MessageBytes(queues[0].upcoming) + UpcomingBytes(queues[1..])
  }

  /** The messages of one queue that are not yet in a block, in order. */
  function PendingFor(queues: seq<CommandQueue>, id: nat): seq<QueueMessage> {
    if queues == [] then []
    else (if queues[0].id == id then queues[0].ready + queues[0].upcoming else []) + PendingFor(queues[1..], id)
  }

  lemma {:induction false} QueueBytesConcat(a: seq<CommandQueue>, b: seq<CommandQueue>)
    ensures ReadyBytes(a + b) == ReadyBytes(a) + ReadyBytes(b)
    ensures UpcomingBytes(a + b) == UpcomingBytes(a) + UpcomingBytes(b)
  {
    if a == [] {
      assert a + b == b;
    } else {
      assert (a + b)[1..] == a[1..] + b;
      QueueBytesConcat(a[1..], b);
    }
  }

  lemma {:induction false} QueuesConcat(a: seq<CommandQueue>, b: seq<CommandQueue>, id: nat)
    ensures ReadyBytes(a + b) == ReadyBytes(a) + ReadyBytes(b)
    ensures UpcomingBytes(a + b) == UpcomingBytes(a) + UpcomingBytes(b)
    ensures PendingFor(a + b, id) == PendingFor(a, id) + PendingFor(b, id)
  {
    QueueBytesConcat(a, b);
    if a == [] {
      assert a + b == b;
    } else {
      assert (a + b)[1..] == a[1..] + b;
      QueuesConcat(a[1..], b, id);
      Regrouped(if a[0].id == id then a[0].ready + a[0].upcoming else [], PendingFor(a[1..], id), PendingFor(b, id));
    }
  }

  lemma {:induction false} Regrouped(a: seq<QueueMessage>, b: seq<QueueMessage>, c: seq<QueueMessage>)
    ensures (a + b) + c == a + (b + c)
  {
  }

  ghost predicate Sendable(m: QueueMessage) {
    |m.msg| <= MESSAGE_PAYLOAD_MAX && m.reqClock < MAX_CLOCK
  }

  ghost predicate AllSendable(msgs: seq<QueueMessage>) {
    forall i :: 0 <= i < |msgs| ==> Sendable(msgs[i])
  }

  ghost predicate QueueOk(q: CommandQueue) {
    AllSendable(q.ready) && AllSendable(q.upcoming)
  }

  ghost predicate QueuesOk(queues: seq<CommandQueue>) {
    && (forall i :: 0 <= i < |queues| ==> QueueOk(queues[i]))
    && (forall i, j :: 0 <= i < j < |queues| ==> queues[i].id != queues[j].id)
  }

  lemma {:induction false} OtherQueues(queues: seq<CommandQueue>, id: nat)
    requires forall i :: 0 <= i < |queues| ==> queues[i].id != id
    ensures PendingFor(queues, id) == []
  {
    if queues != [] {
      OtherQueues(queues[1..], id);
    }
  }

  /** Queue k replaced by another state of it, or taken off the list. */
  function Replaced(queues: seq<CommandQueue>, k: nat, q: seq<CommandQueue>): seq<CommandQueue>
    requires k < |queues|
  {
    queues[..k] + q + queues[k + 1..]
  }

  lemma {:induction false} ReplacedFacts(queues: seq<CommandQueue>, k: nat, q: seq<CommandQueue>, id: nat)
    requires k < |queues| && QueuesOk(queues)
    requires |q| <= 1 && (q != [] ==> q[0].id == queues[k].id && QueueOk(q[0]))
    ensures QueuesOk(Replaced(queues, k, q))
    ensures ReadyBytes(Replaced(queues, k, q)) == ReadyBytes(queues) - MessageBytes(queues[k].ready) + ReadyBytes(q)
    ensures UpcomingBytes(Replaced(queues, k, q)) ==
            UpcomingBytes(queues) - MessageBytes(queues[k].upcoming) + UpcomingBytes(q)
    ensures PendingFor(Replaced(queues, k, q), id) ==
            if id == queues[k].id then PendingFor(q, id) else PendingFor(queues, id)
    ensures id == queues[k].id ==> PendingFor(queues, id) == queues[k].ready + queues[k].upcoming
  {
    ReplacedOne(queues, k, q, id);
    ReplacedOne(queues, k, [queues[k]], id);
    assert Replaced(queues, k, [queues[k]]) == queues;
    assert [queues[k]][1..] == [];
    if id != queues[k].id && q != [] {
      assert q[1..] == [];
    }
    ReplacedOk(queues, k, q);
  }

  lemma {:induction false} ReplacedOne(queues: seq<CommandQueue>, k: nat, q: seq<CommandQueue>, id: nat)
    requires k < |queues| && QueuesOk(queues)
    ensures var r := Replaced(queues, k, q);
            && ReadyBytes(r) == ReadyBytes(queues[..k]) + ReadyBytes(q) + ReadyBytes(queues[k + 1..])
            && UpcomingBytes(r) == UpcomingBytes(queues[..k]) + UpcomingBytes(q) + UpcomingBytes(queues[k + 1..])
            && PendingFor(r, id) == PendingFor(queues[..k], id) + PendingFor(q, id) + PendingFor(queues[k + 1..], id)
            && (id == queues[k].id ==> PendingFor(r, id) == PendingFor(q, id))
  {
    QueuesConcat(queues[..k] + q, queues[k + 1..], id);
    QueuesConcat(queues[..k], q, id);
    if id == queues[k].id {
      OtherQueues(queues[..k], id);
      OtherQueues(queues[k + 1..], id);
      assert [] + PendingFor(q, id) + [] == PendingFor(q, id);
    }
  }

  lemma {:induction false} ReplacedOk(queues: seq<CommandQueue>, k: nat, q: seq<CommandQueue>)
    requires k < |queues| && QueuesOk(queues)
    requires |q| <= 1 && (q != [] ==> q[0].id == queues[k].id && QueueOk(q[0]))
    ensures QueuesOk(Replaced(queues, k, q))
  {
    var r := Replaced(queues, k, q);
    if q != [] {
      assert r == queues[k := q[0]];
    } else {
      forall i, j | 0 <= i < j < |r| ensures r[i].id != r[j].id {
        assert r[i] == queues[if i < k then i else i + 1] && r[j] == queues[if j < k then j else j + 1];
      }
      forall i | 0 <= i < |r| ensures QueueOk(r[i]) {
        assert r[i] == queues[if i < k then i else i + 1];
      }
    }
  }

  // ----- Taking the most urgent message -----

  /** Take the first ready message of queue k; a queue left empty is taken off the list. */
  function Popped(queues: seq<CommandQueue>, k: nat): seq<CommandQueue>
    requires k < |queues| && queues[k].ready != []
  {
    var q := queues[k].(ready := queues[k].ready[1..]);
    Replaced(queues, k, Kept(q))
  }

  lemma {:induction false} PoppedFacts(queues: seq<CommandQueue>, k: nat, id: nat)
    requires QueuesOk(queues) && k < |queues| && queues[k].ready != []
    ensures QueuesOk(Popped(queues, k)) && Sendable(queues[k].ready[0])
    ensures ReadyBytes(Popped(queues, k)) == ReadyBytes(queues) - |queues[k].ready[0].msg|
    ensures UpcomingBytes(Popped(queues, k)) == UpcomingBytes(queues)
    ensures PendingFor(queues, id) ==
            (if id == queues[k].id then [queues[k].ready[0]] else []) + PendingFor(Popped(queues, k), id)
  {
    var q := queues[k].(ready := queues[k].ready[1..]);
    assert QueueOk(queues[k]) && QueueOk(q);
    ReplacedFacts(queues, k, Kept(q), id);
    KeptFacts(q, id);
    assert queues[k].ready == [queues[k].ready[0]] + q.ready;
    Regrouped([queues[k].ready[0]], q.ready, q.upcoming);
  }

  function Kept(q: CommandQueue): seq<CommandQueue> {
    if q.ready == [] && q.upcoming == [] then [] else [q]
  }

  lemma {:induction false} KeptFacts(q: CommandQueue, id: nat)
    ensures ReadyBytes(Kept(q)) == MessageBytes(q.ready) && UpcomingBytes(Kept(q)) == MessageBytes(q.upcoming)
    ensures PendingFor(Kept(q), id) == if id == q.id then q.ready + q.upcoming else []
  {
    assert [q][1..] == [];
    assert q.ready + q.upcoming + [] == q.ready + q.upcoming;
  }

  function ReadyCount(queues: seq<CommandQueue>): nat {
    if queues == [] then 0 else |queues[0].ready| + ReadyCount(queues[1..])
  }

  lemma {:induction false} ReadyCountConcat(a: seq<CommandQueue>, b: seq<CommandQueue>)
    ensures ReadyCount(a + b) == ReadyCount(a) + ReadyCount(b)
  {
    if a == [] {
      assert a + b == b;
    } else {
      assert (a + b)[1..] == a[1..] + b;
      ReadyCountConcat(a[1..], b);
    }
  }

  lemma {:induction false} CountAround(queues: seq<CommandQueue>, k: nat, q: seq<CommandQueue>)
    requires k < |queues|
    ensures ReadyCount(Replaced(queues, k, q)) == ReadyCount(queues[..k]) + ReadyCount(q) + ReadyCount(queues[k + 1..])
  {
    ReadyCountConcat(queues[..k] + q, queues[k + 1..]);
    ReadyCountConcat(queues[..k], q);
  }

  lemma {:induction false} CountOfOne(q: CommandQueue)
    ensures ReadyCount([q]) == ReadyCount(Kept(q)) == |q.ready|
  {
    assert [q][1..] == [];
  }

  lemma {:induction false} PoppedCount(queues: seq<CommandQueue>, k: nat)
    requires k < |queues| && queues[k].ready != []
    ensures ReadyCount(Popped(queues, k)) == ReadyCount(queues) - 1
  {
    CountAround(queues, k, [queues[k]]);
    assert Replaced(queues, k, [queues[k]]) == queues;
    CountOfOne(queues[k]);
    var q := queues[k].(ready := queues[k].ready[1..]);
    CountAround(queues, k, Kept(q));
    CountOfOne(q);
  }

  /** The queue whose first ready message has the lowest request clock; of equals, the first. */
  ghost predicate IsMostUrgent(queues: seq<CommandQueue>, k: nat) {
    && k < |queues| && queues[k].ready != []
    && (forall i :: 0 <= i < |queues| && queues[i].ready != [] ==>
          queues[k].ready[0].reqClock <= queues[i].ready[0].reqClock)
    && (forall i :: 0 <= i < k && queues[i].ready != [] ==>
          queues[k].ready[0].reqClock < queues[i].ready[0].reqClock)
  }

  lemma {:induction false} SomethingIsReady(queues: seq<CommandQueue>)
    requires ReadyBytes(queues) > 0
    ensures exists i :: 0 <= i < |queues| && queues[i].ready != []
  {
    if queues[0].ready == [] {
      SomethingIsReady(queues[1..]);
      var i :| 0 <= i < |queues[1..]| && queues[1..][i].ready != [];
      assert queues[i + 1].ready != [];
    }
  }

  /** The search of build_and_send_command. */
  method MostUrgent(queues: seq<CommandQueue>) returns (k: nat)
    requires QueuesOk(queues) && ReadyBytes(queues) > 0
    ensures IsMostUrgent(queues, k)
  {
    SomethingIsReady(queues);
    var minClock, found := MAX_CLOCK, false;
    k := 0;
    for i := 0 to |queues|
      invariant found ==> k < i && queues[k].ready != [] && minClock == queues[k].ready[0].reqClock
      invariant !found ==> minClock == MAX_CLOCK
      invariant forall j :: 0 <= j < i && queues[j].ready != [] ==> found && minClock <= queues[j].ready[0].reqClock
      invariant found ==> forall j :: 0 <= j < k && queues[j].ready != [] ==> minClock < queues[j].ready[0].reqClock
    {
      var q := queues[i];
      assert QueueOk(q);
      if q.ready != [] {
        var m := q.ready[0];
        assert Sendable(m);
        if m.reqClock < minClock {
          minClock, k, found := m.reqClock, i, true;
        }
      }
    }
  }

  lemma {:induction false} UpdatedFacts(queues: seq<CommandQueue>, k: nat, q: CommandQueue, id: nat)
    requires QueuesOk(queues) && k < |queues| && q.id == queues[k].id && QueueOk(q)
    ensures QueuesOk(queues[k := q])
    ensures ReadyBytes(queues[k := q]) == ReadyBytes(queues) - MessageBytes(queues[k].ready) + MessageBytes(q.ready)
    ensures UpcomingBytes(queues[k := q]) ==
            UpcomingBytes(queues) - MessageBytes(queues[k].upcoming) + MessageBytes(q.upcoming)
    ensures PendingFor(queues[k := q], id) == if id == q.id then q.ready + q.upcoming else PendingFor(queues, id)
    ensures id == q.id ==> PendingFor(queues, id) == queues[k].ready + queues[k].upcoming
  {
    ReplacedFacts(queues, k, [q], id);
    assert Replaced(queues, k, [q]) == queues[k := q];
    assert [q][1..] == [];
    assert q.ready + q.upcoming + [] == q.ready + q.upcoming;
  }

  // ----- What goes into a block -----

  /** The first of the first n queues whose ready message has the lowest request clock, or -1. */
  function UrgentAmong(queues: seq<CommandQueue>, n: nat): (k: int)
    requires n <= |queues|
    ensures -1 <= k < n
    ensures k < 0 ==> forall i :: 0 <= i < n ==> queues[i].ready == []
    ensures k >= 0 ==> queues[k].ready != []
    ensures k >= 0 ==> forall i :: 0 <= i < n && queues[i].ready != [] ==>
                         queues[k].ready[0].reqClock <= queues[i].ready[0].reqClock
    ensures k >= 0 ==> forall i :: 0 <= i < k && queues[i].ready != [] ==>
                         queues[k].ready[0].reqClock < queues[i].ready[0].reqClock
  {
    if n == 0 then -1
    else
      var k := UrgentAmong(queues, n - 1);
      if queues[n - 1].ready == [] then k
      else if k < 0 || queues[n - 1].ready[0].reqClock < queues[k].ready[0].reqClock then n - 1
      else k
  }

  function Urgent(queues: seq<CommandQueue>): (k: nat)
    requires ReadyBytes(queues) > 0
    ensures IsMostUrgent(queues, k)
  {
    SomethingIsReady(queues);
    UrgentAmong(queues, |queues|)
  }

  lemma {:induction false} UrgentIsUnique(queues: seq<CommandQueue>, k: nat)
    requires ReadyBytes(queues) > 0 && IsMostUrgent(queues, k)
    ensures k == Urgent(queues)
  {
    var u := Urgent(queues);
    assert queues[k].ready[0].reqClock == queues[u].ready[0].reqClock;
  }

  /** The messages for a block with `room` bytes left: always the most urgent one, until it does
      not fit. */
  function Selected(queues: seq<CommandQueue>, room: int): seq<Entry>
    decreases ReadyCount(queues)
  {
    if ReadyBytes(queues) == 0 then []
    else
      var k := Urgent(queues);
      var m := queues[k].ready[0];
      if |m.msg| > room then []
      else
        PoppedCount(queues, k);
        [Entry(queues[k].id, m)] + Selected(Popped(queues, k), room - |m.msg|)
  }

  /** The queues without those messages. */
  function Remaining(queues: seq<CommandQueue>, room: int): seq<CommandQueue>
    decreases ReadyCount(queues)
  {
    if ReadyBytes(queues) == 0 then queues
    else
      var k := Urgent(queues);
      var m := queues[k].ready[0];
      if |m.msg| > room then queues
      else
        PoppedCount(queues, k);
        Remaining(Popped(queues, k), room - |m.msg|)
  }

  function EntryBytes(log: seq<Entry>): nat {
    if log == [] then 0 else |log[0].message.msg| + EntryBytes(log[1..])
  }

  /** A block is filled: it ends only when nothing is ready or the most urgent message does not
      fit. */
  lemma {:induction false} SelectionFills(queues: seq<CommandQueue>, room: nat)
    ensures var taken, rest := Selected(queues, room), Remaining(queues, room);
            && EntryBytes(taken) <= room
            && (ReadyBytes(rest) > 0 ==> EntryBytes(taken) + |rest[Urgent(rest)].ready[0].msg| > room)
    decreases ReadyCount(queues)
  {
    if ReadyBytes(queues) > 0 {
      var k := Urgent(queues);
      var m := queues[k].ready[0];
      if |m.msg| <= room {
        PoppedCount(queues, k);
        SelectionFills(Popped(queues, k), room - |m.msg|);
        assert Selected(queues, room)[1..] == Selected(Popped(queues, k), room - |m.msg|);
      }
    }
  }

  /** If anything is ready, a new block carries something. */
  lemma {:induction false} SelectionProgresses(queues: seq<CommandQueue>)
    requires QueuesOk(queues) && ReadyBytes(queues) > 0
    ensures Selected(queues, MESSAGE_PAYLOAD_MAX) != []
  {
    var k := Urgent(queues);
    assert QueueOk(queues[k]) && Sendable(queues[k].ready[0]);
  }

  // ----- Messages that become ready -----

  /** The number of upcoming messages that may go at the given clock. */
  function DueCount(upcoming: seq<QueueMessage>, ackClock: int): (n: nat)
    ensures n <= |upcoming|
    ensures forall i :: 0 <= i < n ==> upcoming[i].minClock <= ackClock
    ensures n < |upcoming| ==> ackClock < upcoming[n].minClock
  {
    if upcoming == [] || ackClock < upcoming[0].minClock then 0 else 1 + DueCount(upcoming[1..], ackClock)
  }

  function Promoted(q: CommandQueue, ackClock: int): CommandQueue {
    var n := DueCount(q.upcoming, ackClock);
    CommandQueue(q.id, q.upcoming[n..], q.ready + q.upcoming[..n])
  }

  lemma {:induction false} PromotedFacts(queues: seq<CommandQueue>, k: nat, ackClock: int, id: nat)
    requires QueuesOk(queues) && k < |queues|
    ensures var q := Promoted(queues[k], ackClock);
            && QueuesOk(queues[k := q])
            && ReadyBytes(queues[k := q]) == ReadyBytes(queues) + MessageBytes(queues[k].upcoming) - MessageBytes(q.upcoming)
            && UpcomingBytes(queues[k := q]) == UpcomingBytes(queues) - MessageBytes(queues[k].upcoming) + MessageBytes(q.upcoming)
            && PendingFor(queues[k := q], id) == PendingFor(queues, id)
  {
    var q := Promoted(queues[k], ackClock);
    assert QueueOk(queues[k]);
    PromotedOne(queues[k], ackClock);
    UpdatedFacts(queues, k, q, id);
  }

  lemma {:induction false} PromotedOne(q: CommandQueue, ackClock: int)
    requires QueueOk(q)
    ensures var p := Promoted(q, ackClock);
            && QueueOk(p) && p.ready + p.upcoming == q.ready + q.upcoming
            && MessageBytes(p.ready) + MessageBytes(p.upcoming) == MessageBytes(q.ready) + MessageBytes(q.upcoming)
  {
    var n := DueCount(q.upcoming, ackClock);
    assert q.upcoming == q.upcoming[..n] + q.upcoming[n..];
    Regrouped(q.ready, q.upcoming[..n], q.upcoming[n..]);
    RegroupedBytes(q.ready, q.upcoming[..n], q.upcoming[n..]);
    SendableParts(q.upcoming[..n], q.upcoming[n..]);
    SendableBoth(q.ready, q.upcoming[..n]);
  }

  lemma {:induction false} RegroupedBytes(a: seq<QueueMessage>, b: seq<QueueMessage>, c: seq<QueueMessage>)
    ensures MessageBytes(a + b) + MessageBytes(c) == MessageBytes(a) + MessageBytes(b + c)
  {
    BytesConcat(a, b);
    BytesConcat(b, c);
  }

  lemma {:induction false} SendableParts(b: seq<QueueMessage>, c: seq<QueueMessage>)
    requires AllSendable(b + c)
    ensures AllSendable(b) && AllSendable(c)
  {
    forall i | 0 <= i < |b| ensures Sendable(b[i]) {
      assert b[i] == (b + c)[i];
    }
    forall i | 0 <= i < |c| ensures Sendable(c[i]) {
      assert c[i] == (b + c)[|b| + i];
    }
  }

  lemma {:induction false} SendableBoth(a: seq<QueueMessage>, b: seq<QueueMessage>)
    requires AllSendable(a) && AllSendable(b)
    ensures AllSendable(a + b)
  {
  }

  // ----- Batches of new messages -----

  /** serialqueue_send_batch raises the earliest clock to no more than 2^31 ticks before the
      requested one. */
  function Raised(m: QueueMessage): (r: QueueMessage)
    ensures r.minClock >= m.minClock && r.msg == m.msg && r.reqClock == m.reqClock && r.notifyId == m.notifyId
    ensures m.reqClock != BACKGROUND_PRIORITY_CLOCK ==> r.reqClock - r.minClock <= 0x8000_0000
    ensures r == m || (m.reqClock != BACKGROUND_PRIORITY_CLOCK && r.reqClock - r.minClock == 0x8000_0000)
  {
    if m.minClock + 0x8000_0000 < m.reqClock && m.reqClock != BACKGROUND_PRIORITY_CLOCK
    then m.(minClock := m.reqClock - 0x8000_0000) else m
  }

  function RaisedAll(msgs: seq<QueueMessage>): (r: seq<QueueMessage>)
    ensures |r| == |msgs| && forall i :: 0 <= i < |msgs| ==> r[i] == Raised(msgs[i])
  {
    seq(|msgs|, i requires 0 <= i < |msgs| => Raised(msgs[i]))
  }

  lemma {:induction false} RaisedBytes(msgs: seq<QueueMessage>)
    ensures MessageBytes(RaisedAll(msgs)) == MessageBytes(msgs)
  {
    if msgs != [] {
      RaisedBytes(msgs[1..]);
      assert RaisedAll(msgs)[1..] == RaisedAll(msgs[1..]);
    }
  }

  /** The position of a queue on the list, or the length of the list. */
  function Find(queues: seq<CommandQueue>, id: nat): (k: nat)
    ensures k <= |queues| && (k < |queues| ==> queues[k].id == id)
    ensures k == |queues| ==> forall i :: 0 <= i < |queues| ==> queues[i].id != id
  {
    if queues == [] || queues[0].id == id then 0 else 1 + Find(queues[1..], id)
  }

  function Added(queues: seq<CommandQueue>, id: nat, msgs: seq<QueueMessage>): seq<CommandQueue> {
    var k := Find(queues, id);
    if k < |queues| then queues[k := queues[k].(upcoming := queues[k].upcoming + msgs)]
    else queues + [CommandQueue(id, msgs, [])]
  }

  lemma {:induction false} AddedFacts(queues: seq<CommandQueue>, id: nat, msgs: seq<QueueMessage>, other: nat)
    requires QueuesOk(queues) && AllSendable(msgs)
    ensures QueuesOk(Added(queues, id, msgs))
    ensures ReadyBytes(Added(queues, id, msgs)) == ReadyBytes(queues)
    ensures UpcomingBytes(Added(queues, id, msgs)) == UpcomingBytes(queues) + MessageBytes(msgs)
    ensures PendingFor(Added(queues, id, msgs), other) ==
            PendingFor(queues, other) + if other == id then msgs else []
  {
    var k := Find(queues, id);
    if k < |queues| {
      var q := queues[k].(upcoming := queues[k].upcoming + msgs);
      assert QueueOk(queues[k]);
      SendableBoth(queues[k].upcoming, msgs);
      UpdatedFacts(queues, k, q, other);
      BytesConcat(queues[k].upcoming, msgs);
      Regrouped(q.ready, queues[k].upcoming, msgs);
    } else {
      NewQueue(queues, CommandQueue(id, msgs, []), other);
    }
  }

  lemma {:induction false} NewQueue(queues: seq<CommandQueue>, q: CommandQueue, other: nat)
    requires QueuesOk(queues) && QueueOk(q) && q.ready == []
    requires forall i :: 0 <= i < |queues| ==> queues[i].id != q.id
    ensures QueuesOk(queues + [q])
    ensures ReadyBytes(queues + [q]) == ReadyBytes(queues)
    ensures UpcomingBytes(queues + [q]) == UpcomingBytes(queues) + MessageBytes(q.upcoming)
    ensures PendingFor(queues + [q], other) == PendingFor(queues, other) + if other == q.id then q.upcoming else []
  {
    QueuesConcat(queues, [q], other);
    assert [q][1..] == [];
    assert [] + q.upcoming + [] == q.upcoming;
  }

  // ----- First in, first out -----

  function For(log: seq<Entry>, id: nat): seq<QueueMessage> {
    if log == [] then []
    else For(log[..|log| - 1], id) + if log[|log| - 1].id == id then [log[|log| - 1].message] else []
  }

  lemma {:induction false} ForConcat(a: seq<Entry>, b: seq<Entry>, id: nat)
    ensures For(a + b, id) == For(a, id) + For(b, id)
  {
    if b == [] {
      assert a + b == a;
    } else {
      assert (a + b)[..|a + b| - 1] == a + b[..|b| - 1];
      ForConcat(a, b[..|b| - 1], id);
    }
  }

  ghost predicate InOrderFor(id: nat, submitted: seq<Entry>, outgoing: seq<Entry>, queues: seq<CommandQueue>) {
    For(submitted, id) == For(outgoing, id) + PendingFor(queues, id)
  }

  /** The messages of each queue go into blocks in the order in which they were submitted, none
      lost, none twice. */
  ghost predicate Fifo(submitted: seq<Entry>, outgoing: seq<Entry>, queues: seq<CommandQueue>) {
    forall id: nat :: InOrderFor(id, submitted, outgoing, queues)
  }

  lemma {:induction false} FifoPop(submitted: seq<Entry>, outgoing: seq<Entry>, queues: seq<CommandQueue>, k: nat)
    requires QueuesOk(queues) && k < |queues| && queues[k].ready != [] && Fifo(submitted, outgoing, queues)
    ensures Fifo(submitted, outgoing + [Entry(queues[k].id, queues[k].ready[0])], Popped(queues, k))
  {
    var e := Entry(queues[k].id, queues[k].ready[0]);
    forall id: nat ensures InOrderFor(id, submitted, outgoing + [e], Popped(queues, k)) {
      assert InOrderFor(id, submitted, outgoing, queues);
      PoppedFacts(queues, k, id);
      ForOne(outgoing, e, id);
      Regrouped(For(outgoing, id), if id == e.id then [e.message] else [], PendingFor(Popped(queues, k), id));
    }
  }

  lemma {:induction false} ForOne(log: seq<Entry>, e: Entry, id: nat)
    ensures For(log + [e], id) == For(log, id) + if id == e.id then [e.message] else []
  {
    assert (log + [e])[..|log|] == log;
  }

  lemma {:induction false} FifoPromote(submitted: seq<Entry>, outgoing: seq<Entry>, queues: seq<CommandQueue>, k: nat,
                                       ackClock: int)
    requires QueuesOk(queues) && k < |queues| && Fifo(submitted, outgoing, queues)
    ensures Fifo(submitted, outgoing, queues[k := Promoted(queues[k], ackClock)])
  {
    var next := queues[k := Promoted(queues[k], ackClock)];
    forall id: nat ensures InOrderFor(id, submitted, outgoing, next) {
      assert InOrderFor(id, submitted, outgoing, queues);
      PromotedFacts(queues, k, ackClock, id);
    }
  }

  function Entries(id: nat, msgs: seq<QueueMessage>): (log: seq<Entry>)
    ensures |log| == |msgs| && forall i :: 0 <= i < |msgs| ==> log[i] == Entry(id, msgs[i])
  {
    seq(|msgs|, i requires 0 <= i < |msgs| => Entry(id, msgs[i]))
  }

  lemma {:induction false} ForEntries(id: nat, msgs: seq<QueueMessage>, other: nat)
    ensures For(Entries(id, msgs), other) == if other == id then msgs else []
  {
    if msgs != [] {
      ForEntries(id, msgs[..|msgs| - 1], other);
      assert Entries(id, msgs)[..|msgs| - 1] == Entries(id, msgs[..|msgs| - 1]);
    }
  }

  lemma {:induction false} FifoAdd(submitted: seq<Entry>, outgoing: seq<Entry>, queues: seq<CommandQueue>, id: nat,
                                   msgs: seq<QueueMessage>)
    requires QueuesOk(queues) && AllSendable(msgs) && Fifo(submitted, outgoing, queues)
    ensures Fifo(submitted + Entries(id, msgs), outgoing, Added(queues, id, msgs))
  {
    forall other: nat ensures InOrderFor(other, submitted + Entries(id, msgs), outgoing, Added(queues, id, msgs)) {
      assert InOrderFor(other, submitted, outgoing, queues);
      AddedFacts(queues, id, msgs, other);
      ForConcat(submitted, Entries(id, msgs), other);
      ForEntries(id, msgs, other);
    }
  }
}
