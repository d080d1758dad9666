/**
  Which block carried which messages, and who is to be told when it is acknowledged
  (the notify_queue of serialqueue.c).
*/
module Notifications {
  import opened Common
  import opened Vlq
  import opened MsgBlock
  import opened CommandQueues

  /** A message whose sender wants to know when the block it was in is acknowledged. */
  datatype Notify = Notify(id: nat, sentSeq: nat)

  /** The notification that a message in block num asks for. */
  function NotifyOf(m: QueueMessage, num: nat): seq<Notify> {
    if m.notifyId == 0 then [] else [Notify(m.notifyId, num)]
  }

  function NotifiesOf(entries: seq<Entry>, num: nat): seq<Notify> {
    if entries == [] then []
    else NotifiesOf(entries[..|entries| - 1], num) + NotifyOf(entries[|entries| - 1].message, num)
  }

  /** The notifications that all blocks built ask for; contents[k] went into block k + 1. */
  function AllNotifies(contents: seq<seq<Entry>>): seq<Notify> {
    if contents == [] then []
    else AllNotifies(contents[..|contents| - 1]) + NotifiesOf(contents[|contents| - 1], |contents|)
  }

  /** What was reported and what waits are all the notifications asked for, in order; `taken` is
      what has been put so far into the block being built. */
  ghost predicate Told(reported: seq<Notify>, waiting: seq<Notify>, contents: seq<seq<Entry>>, taken: seq<Entry>) {
    forall seal :: ToldFacts(seal, reported, waiting, contents, taken)
  }

  ghost predicate ToldFacts(seal: Seal, reported: seq<Notify>, waiting: seq<Notify>, contents: seq<seq<Entry>>,
                            taken: seq<Entry>)
  {
    reported + waiting == AllNotifies(contents) + NotifiesOf(taken, |contents| + 1)
  }

  lemma {:induction false} ToldStart()
    ensures Told([], [], [], [])
  {
  }

  lemma {:induction false} ToldTake(reported: seq<Notify>, waiting: seq<Notify>, contents: seq<seq<Entry>>,
                                    taken: seq<Entry>, e: Entry)
    requires Told(reported, waiting, contents, taken)
    ensures Told(reported, waiting + NotifyOf(e.message, |contents| + 1), contents, taken + [e])
  {
    assert ToldFacts(Whole, reported, waiting, contents, taken);
    assert (taken + [e])[..|taken|] == taken;
    var more := NotifyOf(e.message, |contents| + 1);
    assert reported + (waiting + more) == (reported + waiting) + more;
  }

  lemma {:induction false} ToldBuilt(reported: seq<Notify>, waiting: seq<Notify>, contents: seq<seq<Entry>>,
                                     taken: seq<Entry>)
    requires Told(reported, waiting, contents, taken)
    ensures Told(reported, waiting, contents + [taken], [])
  {
    assert ToldFacts(Whole, reported, waiting, contents, taken);
    assert (contents + [taken])[..|contents|] == contents;
  }

  lemma {:induction false} ToldRelease(reported: seq<Notify>, waiting: seq<Notify>, contents: seq<seq<Entry>>,
                                       taken: seq<Entry>, n: nat)
    requires Told(reported, waiting, contents, taken) && n <= |waiting|
    ensures Told(reported + waiting[..n], waiting[n..], contents, taken)
  {
    assert ToldFacts(Whole, reported, waiting, contents, taken);
    assert (reported + waiting[..n]) + waiting[n..] == reported + waiting;
  }

  /** A message that asks for the notification was in the block the notification names. */
  ghost predicate AskedIn(q: Notify, contents: seq<seq<Entry>>) {
    && 1 <= q.sentSeq <= |contents| && q.id != 0
    && exists e :: e in contents[q.sentSeq - 1] && e.message.notifyId == q.id
  }

  lemma {:induction false} NotifiesOfAt(entries: seq<Entry>, num: nat, i: nat)
    requires i < |NotifiesOf(entries, num)|
    ensures var q := NotifiesOf(entries, num)[i];
            q.sentSeq == num && q.id != 0 && exists e :: e in entries && e.message.notifyId == q.id
  {
    var n := |entries| - 1;
    if i < |NotifiesOf(entries[..n], num)| {
      NotifiesOfAt(entries[..n], num, i);
    } else {
      assert entries[n] in entries;
    }
  }

  lemma {:induction false} AllNotifiesAt(contents: seq<seq<Entry>>, i: nat)
    requires i < |AllNotifies(contents)|
    ensures AskedIn(AllNotifies(contents)[i], contents)
  {
    var n := |contents| - 1;
    if i < |AllNotifies(contents[..n])| {
      AllNotifiesAt(contents[..n], i);
    } else {
      NotifiesOfAt(contents[n], |contents|, i - |AllNotifies(contents[..n])|);
    }
  }

  lemma {:induction false} AllNotifiesSorted(contents: seq<seq<Entry>>, i: nat, j: nat)
    requires i <= j < |AllNotifies(contents)|
    ensures AllNotifies(contents)[i].sentSeq <= AllNotifies(contents)[j].sentSeq
  {
    var n := |contents| - 1;
    var m := |AllNotifies(contents[..n])|;
    if j < m {
      AllNotifiesSorted(contents[..n], i, j);
    } else {
      NotifiesOfAt(contents[n], |contents|, j - m);
      AllNotifiesAt(contents, i);
    }
  }

  /** Notifications name a block that carried their message, reported ones no later a block than
      waiting ones. */
  lemma {:induction false} ToldAt(reported: seq<Notify>, waiting: seq<Notify>, contents: seq<seq<Entry>>)
    requires Told(reported, waiting, contents, [])
    ensures forall i :: 0 <= i < |reported| ==> AskedIn(reported[i], contents)
    ensures forall i :: 0 <= i < |waiting| ==> AskedIn(waiting[i], contents)
    ensures forall i, j :: 0 <= i < j < |waiting| ==> waiting[i].sentSeq <= waiting[j].sentSeq
  {
    assert ToldFacts(Whole, reported, waiting, contents, []);
    var all := AllNotifies(contents);
    assert reported + waiting == all;
    forall i | 0 <= i < |reported| ensures AskedIn(reported[i], contents) {
      AllNotifiesAt(contents, i);
      assert reported[i] == all[i];
    }
    forall i | 0 <= i < |waiting| ensures AskedIn(waiting[i], contents) {
      AllNotifiesAt(contents, |reported| + i);
      assert waiting[i] == all[|reported| + i];
    }
    forall i, j | 0 <= i < j < |waiting| ensures waiting[i].sentSeq <= waiting[j].sentSeq {
      AllNotifiesSorted(contents, |reported| + i, |reported| + j);
      assert waiting[i] == all[|reported| + i] && waiting[j] == all[|reported| + j];
    }
  }

  // ----- What a block carries -----

  /** The payload made of a run of messages. */
  function Payload(log: seq<Entry>): seq<byte> {
    if log == [] then [] else Payload(log[..|log| - 1]) + log[|log| - 1].message.msg
  }

  lemma {:induction false} PayloadMore(log: seq<Entry>, e: Entry)
    ensures Payload(log + [e]) == Payload(log) + e.message.msg
  {
    assert (log + [e])[..|log|] == log;
  }

  ghost predicate Carries(block: seq<byte>, num: nat, entries: seq<Entry>) {
    |Payload(entries)| <= MESSAGE_PAYLOAD_MAX && block == Frame(num, Payload(entries))
  }

  function AllEntries(contents: seq<seq<Entry>>): seq<Entry> {
    if contents == [] then [] else AllEntries(contents[..|contents| - 1]) + contents[|contents| - 1]
  }

  /** What is in the first blocks goes out first. */
  lemma {:induction false} EntriesPrefix(contents: seq<seq<Entry>>, n: nat, id: nat)
    requires n <= |contents|
    ensures For(AllEntries(contents[..n]), id) <= For(AllEntries(contents), id)
  {
    var last := |contents| - 1;
    if n == |contents| {
      assert contents[..n] == contents;
    } else {
      EntriesPrefix(contents[..last], n, id);
      assert contents[..last][..n] == contents[..n];
      ForConcat(AllEntries(contents[..last]), contents[last], id);
    }
  }

  /** Block k + 1 frames the messages contents[k], and together these are all messages taken, in
      the order taken. */
  ghost predicate CarriedOk(blocks: seq<seq<byte>>, contents: seq<seq<Entry>>, outgoing: seq<Entry>) {
    forall seal :: CarriedFacts(seal, blocks, contents, outgoing)
  }

  ghost predicate CarriedFacts(seal: Seal, blocks: seq<seq<byte>>, contents: seq<seq<Entry>>, outgoing: seq<Entry>) {
    && |blocks| == |contents| && outgoing == AllEntries(contents)
    && forall k :: 0 <= k < |blocks| ==> Carries(blocks[k], k + 1, contents[k])
  }

  lemma {:induction false} CarriedMore(blocks: seq<seq<byte>>, contents: seq<seq<Entry>>, outgoing: seq<Entry>,
                                       block: seq<byte>, taken: seq<Entry>)
    requires CarriedOk(blocks, contents, outgoing) && Carries(block, |blocks| + 1, taken)
    ensures CarriedOk(blocks + [block], contents + [taken], outgoing + taken)
  {
    assert CarriedFacts(Whole, blocks, contents, outgoing);
    assert (contents + [taken])[..|contents|] == contents;
  }

  lemma {:induction false} CarriedLength(blocks: seq<seq<byte>>, contents: seq<seq<Entry>>, outgoing: seq<Entry>)
    requires CarriedOk(blocks, contents, outgoing)
    ensures |blocks| == |contents|
  {
    assert CarriedFacts(Whole, blocks, contents, outgoing);
  }

  // ----- Release -----

  /** `rseq - 1 - (len > MESSAGE_MIN ? 1 : 0)`, in unsigned 64-bit arithmetic */
  function WakeSeq(rseq: nat, len: nat): int {
    var wake := rseq - 1 - if len > MESSAGE_MIN then 1 else 0;
    if wake < 0 then wake + 0x1_0000_0000_0000_0000 else wake
  }

  /** How many of the waiting notifications are released. */
  function DueNotifies(notify: seq<Notify>, wakeSeq: int): (n: nat)
    ensures n <= |notify|
    ensures forall i :: 0 <= i < n ==> notify[i].sentSeq <= wakeSeq
    ensures n < |notify| ==> notify[n].sentSeq > wakeSeq
  {
    if notify == [] || notify[0].sentSeq > wakeSeq then 0 else 1 + DueNotifies(notify[1..], wakeSeq)
  }

  lemma {:induction false} DueNotifiesFrom(notify: seq<Notify>, wakeSeq: int, i: nat)
    requires i <= DueNotifies(notify, wakeSeq) && i < |notify|
    ensures notify[i].sentSeq <= wakeSeq <==> i < DueNotifies(notify, wakeSeq)
  {
  }

  ghost predicate AllBelow(notify: seq<Notify>, seqNum: int) {
    forall i :: 0 <= i < |notify| ==> notify[i].sentSeq < seqNum
  }

  /** No notification of a block below seqNum is waiting. */
  ghost predicate NoneBelow(notify: seq<Notify>, seqNum: int) {
    forall i :: 0 <= i < |notify| ==> notify[i].sentSeq >= seqNum
  }

  /** The blocks whose notifications a message of len bytes releases are those below: the
      acknowledged ones, for a message with content without the last of them. */
  function ReleaseBelow(rseq: nat, len: nat): int {
    if len > MESSAGE_MIN then rseq - 1 else rseq
  }

  /** Before anything was acknowledged, a message with content releases what waits. */
  ghost predicate Early(rseq: nat, len: nat, waiting: seq<Notify>) {
    rseq == 1 && len > MESSAGE_MIN && waiting != []
  }

  /** What is released names blocks below that number only, exactly if this is not a message with
      content before the first acknowledgement; what waits on names no such block. */
  lemma {:induction false} ReleasedAreBelow(reported: seq<Notify>, waiting: seq<Notify>, contents: seq<seq<Entry>>,
                                            rseq: nat, len: nat)
    requires Told(reported, waiting, contents, []) && 1 <= rseq
    requires rseq == 1 ==> |contents| < 0x1_0000_0000_0000_0000
    ensures var n := DueNotifies(waiting, WakeSeq(rseq, len));
            && (AllBelow(waiting[..n], rseq) <==> !Early(rseq, len, waiting))
            && (AllBelow(waiting[..n], ReleaseBelow(rseq, len)) <==> !Early(rseq, len, waiting))
            && NoneBelow(waiting[n..], ReleaseBelow(rseq, len))
  {
    ToldAt(reported, waiting, contents);
    hide Told;
    var n := DueNotifies(waiting, WakeSeq(rseq, len));
    if Early(rseq, len, waiting) {
      assert AskedIn(waiting[0], contents);
      assert waiting[..n][0].sentSeq >= rseq;
    } else {
      DueAreBelow(waiting, rseq, len);
    }
    hide AskedIn, Early, AllBelow;
    forall i | n <= i < |waiting| ensures waiting[i].sentSeq > WakeSeq(rseq, len) {
      assert n == i || waiting[n].sentSeq <= waiting[i].sentSeq;
    }
  }

  lemma {:induction false} DueAreBelow(waiting: seq<Notify>, rseq: nat, len: nat)
    requires 1 <= rseq && !Early(rseq, len, waiting)
    ensures AllBelow(waiting[..DueNotifies(waiting, WakeSeq(rseq, len))], rseq)
    ensures AllBelow(waiting[..DueNotifies(waiting, WakeSeq(rseq, len))], ReleaseBelow(rseq, len))
  {
  }

  /** A block with one message, not acknowledged: a message with content before the first
      acknowledgement releases its notification. */
  lemma {:induction false} EarlyRelease()
    ensures var waiting := [Notify(1, 1)];
            && Told([], waiting, [[Entry(0, QueueMessage([5], 0, 0, 1))]], [])
            && DueNotifies(waiting, WakeSeq(1, 6)) == 1 && !AllBelow(waiting, 1)
  {
    var entries: seq<Entry> := [Entry(0, QueueMessage([5], 0, 0, 1))];
    var contents := [entries];
    assert entries[..0] == [] && contents[..0] == [];
    assert NotifiesOf([], 1) == [] && NotifiesOf(entries, 1) == [Notify(1, 1)];
    assert AllNotifies([]) == [] && AllNotifies(contents) == [Notify(1, 1)];
    assert NotifiesOf([], 2) == [];
    assert [Notify(1, 1)][1..] == [] && DueNotifies([], WakeSeq(1, 6)) == 0;
    assert [Notify(1, 1)][0].sentSeq == 1;
  }

  /** If no notification of an early block waits, every one that its messages ask for was made. */
  lemma {:induction false} AskedAreMade(reported: seq<Notify>, waiting: seq<Notify>, contents: seq<seq<Entry>>,
                                        seqNum: int, k: nat, e: Entry)
    requires Told(reported, waiting, contents, []) && NoneBelow(waiting, seqNum)
    requires 1 <= k <= |contents| && k < seqNum && e in contents[k - 1] && e.message.notifyId != 0
    ensures Notify(e.message.notifyId, k) in reported
  {
    var q := Notify(e.message.notifyId, k);
    assert ToldFacts(Whole, reported, waiting, contents, []);
    AskedIsListed(contents, k, e);
    assert q in reported + waiting;
  }

  lemma {:induction false} AskedIsListed(contents: seq<seq<Entry>>, k: nat, e: Entry)
    requires 1 <= k <= |contents| && e in contents[k - 1] && e.message.notifyId != 0
    ensures Notify(e.message.notifyId, k) in AllNotifies(contents)
  {
    if k == |contents| {
      EntryIsListed(contents[k - 1], k, e);
    } else {
      AskedIsListed(contents[..|contents| - 1], k, e);
    }
  }

  lemma {:induction false} EntryIsListed(entries: seq<Entry>, num: nat, e: Entry)
    requires e in entries && e.message.notifyId != 0
    ensures Notify(e.message.notifyId, num) in NotifiesOf(entries, num)
  {
    if e != entries[|entries| - 1] {
      EntryIsListed(entries[..|entries| - 1], num, e);
    }
  }

  lemma {:induction false} BelowLater(early: bool, notify: seq<Notify>, before: int, after: int)
    requires (early || AllBelow(notify, before)) && before <= after
    ensures early || AllBelow(notify, after)
  {
  }

  lemma {:induction false} BelowMore(a: seq<Notify>, b: seq<Notify>, seqNum: int)
    requires AllBelow(a, seqNum) && AllBelow(b, seqNum)
    ensures AllBelow(a + b, seqNum)
  {
  }
}
