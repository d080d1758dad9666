/**
  The sliding-window protocol of serialqueue.c as a transition system: a host, two channels that
  keep the order of what they do not lose, and a receiver.

  The micro-controller's side is not in the repository.  It is taken to accept a block if and
  only if the low four bits of its number are those of the next number expected, and to answer
  every block, and to send at will, messages that carry the low four bits of that next number.
  Packets and replies below are tagged with their full numbers, but receiver and host look only
  at the low four bits.
*/
module GoBackN {
  import opened Common

  const WINDOW := 12   // MAX_PENDING_BLOCKS
  const SEQ_SPAN := 16

  /** Blocks are numbered from 1; those below receiveSeq are acknowledged. */
  datatype Host<T> = Host(receiveSeq: nat, built: seq<T>) {
    function SendSeq(): nat {
      |built| + 1
    }
  }

  datatype Packet<T> = Packet(num: nat, data: T)

  ghost predicate MayBuild<T>(h: Host<T>) {
    h.SendSeq() - h.receiveSeq < WINDOW
  }

  function Build<T>(h: Host<T>, data: T): Host<T> {
    h.(built := h.built + [data])
  }

  function Unacked<T>(h: Host<T>): seq<Packet<T>>
    requires 1 <= h.receiveSeq <= h.SendSeq()
  {
    seq(h.SendSeq() - h.receiveSeq, i requires 0 <= i < h.SendSeq() - h.receiveSeq =>
      Packet(h.receiveSeq + i, h.built[h.receiveSeq - 1 + i]))
  }

  /** The number that a reply's low four bits stand for. */
  function Reconstruct(receiveSeq: nat, low: int): nat {
    receiveSeq + (low - receiveSeq) % SEQ_SPAN
  }

  /** handle_message: an acknowledgement of a block that was never sent is ignored. */
  function Acknowledge<T>(h: Host<T>, low: int): Host<T> {
    var rseq := Reconstruct(h.receiveSeq, low);
    if rseq > h.SendSeq() then h else h.(receiveSeq := rseq)
  }

  datatype State<T> = State(host: Host<T>, toMcu: seq<Packet<T>>, toHost: seq<nat>,
                            mcuNext: nat, accepted: seq<T>)

  ghost predicate Init<T>(s: State<T>) {
    s == State(Host(1, []), [], [], 1, [])
  }

  // ----- Steps -----

  function HostSends<T>(s: State<T>, data: T): State<T> {
    s.(host := Build(s.host, data), toMcu := s.toMcu + [Packet(s.host.SendSeq(), data)])
  }

  function Retransmit<T>(s: State<T>): State<T>
    requires 1 <= s.host.receiveSeq <= s.host.SendSeq()
  {
    s.(toMcu := s.toMcu + Unacked(s.host))
  }

  function McuSays<T>(s: State<T>): State<T> {
    s.(toHost := s.toHost + [s.mcuNext])
  }

  function McuReceives<T>(s: State<T>): State<T>
    requires s.toMcu != []
  {
    var p := s.toMcu[0];
    var t := s.(toMcu := s.toMcu[1..]);
    McuSays(if p.num % SEQ_SPAN == s.mcuNext % SEQ_SPAN
            then t.(mcuNext := s.mcuNext + 1, accepted := s.accepted + [p.data]) else t)
  }

  function HostReceives<T>(s: State<T>): State<T>
    requires s.toHost != []
  {
    s.(host := Acknowledge(s.host, s.toHost[0] % SEQ_SPAN), toHost := s.toHost[1..])
  }

  function Drop<T>(ch: seq<T>, i: nat): seq<T>
    requires i < |ch|
  {
    ch[..i] + ch[i + 1..]
  }

  ghost predicate Next<T(!new)>(s: State<T>, t: State<T>) {
    || (MayBuild(s.host) && exists data :: t == HostSends(s, data))
    || (1 <= s.host.receiveSeq <= s.host.SendSeq() && t == Retransmit(s))
    || t == McuSays(s)
    || (s.toMcu != [] && t == McuReceives(s))
    || (s.toHost != [] && t == HostReceives(s))
    || (exists i: nat :: i < |s.toMcu| && t == s.(toMcu := Drop(s.toMcu, i)))
    || (exists i: nat :: i < |s.toHost| && t == s.(toHost := Drop(s.toHost, i)))
  }

  // ----- Invariant -----

  /** A packet is a copy of the block with its number, and not so old that its low four bits
      could be mistaken. */
  ghost predicate GoodPacket<T>(s: State<T>, p: Packet<T>) {
    1 <= p.num < s.host.SendSeq() && p.data == s.host.built[p.num - 1] && s.mcuNext <= p.num + WINDOW
  }

  ghost predicate PacketsOk<T>(s: State<T>) {
    && (forall i :: 0 <= i < |s.toMcu| ==> GoodPacket(s, s.toMcu[i]))
    && (forall i, j :: 0 <= i < j < |s.toMcu| ==> s.toMcu[i].num < s.toMcu[j].num + WINDOW)
  }

  ghost predicate RepliesOk<T>(s: State<T>) {
    && (forall i :: 0 <= i < |s.toHost| ==> s.host.receiveSeq <= s.toHost[i] <= s.mcuNext)
    && (forall i, j :: 0 <= i < j < |s.toHost| ==> s.toHost[i] <= s.toHost[j])
  }

  /** The window, and delivery: what the receiver has accepted is a prefix of what was built. */
  ghost predicate Inv<T>(s: State<T>) {
    && 1 <= s.host.receiveSeq <= s.mcuNext <= s.host.SendSeq() <= s.host.receiveSeq + WINDOW
    && s.accepted == s.host.built[..s.mcuNext - 1]
    && PacketsOk(s) && RepliesOk(s)
  }

  lemma {:induction false} SameResidue(a: int, b: int)
    requires a % SEQ_SPAN == b % SEQ_SPAN && -SEQ_SPAN < a - b < SEQ_SPAN
    ensures a == b
  {
    assert a - b == SEQ_SPAN * (a / SEQ_SPAN - b / SEQ_SPAN);
  }

  /** The four-bit reconstruction of an acknowledgement is exact. */
  lemma {:induction false} AckIsExact<T>(s: State<T>)
    requires Inv(s) && s.toHost != []
    ensures Reconstruct(s.host.receiveSeq, s.toHost[0] % SEQ_SPAN) == s.toHost[0] <= s.host.SendSeq()
  {
    Unwrap(s.host.receiveSeq, s.toHost[0]);
  }

  lemma {:induction false} Unwrap(r: nat, a: nat)
    requires r <= a < r + SEQ_SPAN
    ensures Reconstruct(r, a % SEQ_SPAN) == a
  {
    var k := a / SEQ_SPAN;
    assert a % SEQ_SPAN - r == a - r - k * SEQ_SPAN;
    Periodic(a - r, k);
  }

  lemma {:induction false} Periodic(x: int, k: int)
    ensures (x - k * SEQ_SPAN) % SEQ_SPAN == x % SEQ_SPAN
  {
  }

  /** A block is accepted if and only if it is the next one. */
  lemma {:induction false} AcceptsOnlyNext<T>(s: State<T>)
    requires Inv(s) && s.toMcu != []
    ensures s.toMcu[0].num % SEQ_SPAN == s.mcuNext % SEQ_SPAN <==> s.toMcu[0].num == s.mcuNext
  {
    assert GoodPacket(s, s.toMcu[0]);
    if s.toMcu[0].num % SEQ_SPAN == s.mcuNext % SEQ_SPAN {
      SameResidue(s.toMcu[0].num, s.mcuNext);
    }
  }

  lemma {:induction false} InvInit<T>(s: State<T>)
    requires Init(s)
    ensures Inv(s)
  {
  }

  lemma {:induction false} InvHostSends<T>(s: State<T>, data: T)
    requires Inv(s) && MayBuild(s.host)
    ensures Inv(HostSends(s, data))
  {
    var t := HostSends(s, data);
    forall i | 0 <= i < |t.toMcu| ensures GoodPacket(t, t.toMcu[i]) {
      if i < |s.toMcu| {
        assert GoodPacket(s, s.toMcu[i]);
      }
    }
    forall i, j | 0 <= i < j < |t.toMcu| ensures t.toMcu[i].num < t.toMcu[j].num + WINDOW {
      assert GoodPacket(t, t.toMcu[i]);
    }
  }

  lemma {:induction false} InvRetransmit<T>(s: State<T>)
    requires Inv(s)
    ensures Inv(Retransmit(s))
  {
    var t := Retransmit(s);
    forall i | 0 <= i < |t.toMcu| ensures GoodPacket(t, t.toMcu[i]) {
      if i < |s.toMcu| {
        assert GoodPacket(s, s.toMcu[i]);
      }
    }
    forall i, j | 0 <= i < j < |t.toMcu| ensures t.toMcu[i].num < t.toMcu[j].num + WINDOW {
      assert GoodPacket(t, t.toMcu[i]);
    }
  }

  lemma {:induction false} InvMcuReceives<T>(s: State<T>)
    requires Inv(s) && s.toMcu != []
    ensures Inv(McuReceives(s))
  {
    var t := McuReceives(s);
    AcceptsOnlyNext(s);
    assert GoodPacket(s, s.toMcu[0]);
    forall i | 0 <= i < |t.toMcu| ensures GoodPacket(t, t.toMcu[i]) {
      assert GoodPacket(s, s.toMcu[i + 1]);
    }
  }

  lemma {:induction false} InvHostReceives<T>(s: State<T>)
    requires Inv(s) && s.toHost != []
    ensures Inv(HostReceives(s)) && HostReceives(s).host.receiveSeq == s.toHost[0]
  {
    AckIsExact(s);
    var t := HostReceives(s);
    forall i | 0 <= i < |t.toMcu| ensures GoodPacket(t, t.toMcu[i]) {
      assert GoodPacket(s, s.toMcu[i]);
    }
  }

  lemma {:induction false} InvLosePacket<T>(s: State<T>, k: nat)
    requires Inv(s) && k < |s.toMcu|
    ensures Inv(s.(toMcu := Drop(s.toMcu, k)))
  {
    var t := s.(toMcu := Drop(s.toMcu, k));
    forall i | 0 <= i < |t.toMcu| ensures GoodPacket(t, t.toMcu[i]) {
      assert GoodPacket(s, s.toMcu[if i < k then i else i + 1]);
    }
  }

  lemma {:induction false} InvMcuSays<T>(s: State<T>)
    requires Inv(s)
    ensures Inv(McuSays(s))
  {
    var t := McuSays(s);
    forall i | 0 <= i < |t.toMcu| ensures GoodPacket(t, t.toMcu[i]) {
      assert GoodPacket(s, s.toMcu[i]);
    }
  }

  lemma {:induction false} InvLoseReply<T>(s: State<T>, k: nat)
    requires Inv(s) && k < |s.toHost|
    ensures Inv(s.(toHost := Drop(s.toHost, k)))
  {
    var t := s.(toHost := Drop(s.toHost, k));
    forall i | 0 <= i < |t.toMcu| ensures GoodPacket(t, t.toMcu[i]) {
      assert GoodPacket(s, s.toMcu[i]);
    }
  }

  /** Sealed, so that the case split of a step does not see the invariant. */
  ghost predicate SealedInv<T>(s: State<T>) {
    forall seal :: InvFacts(seal, s)
  }

  ghost predicate InvFacts<T>(seal: Seal, s: State<T>) {
    Inv(s)
  }

  lemma {:induction false} InvNext<T(!new)>(s: State<T>, t: State<T>)
    requires SealedInv(s) && Next(s, t)
    ensures SealedInv(t)
  {
    assert InvFacts(Whole, s);
    if MayBuild(s.host) && exists data :: t == HostSends(s, data) {
      var data :| t == HostSends(s, data);
      InvHostSends(s, data);
    } else if t == Retransmit(s) {
      InvRetransmit(s);
    } else if t == McuSays(s) {
      InvMcuSays(s);
    } else if s.toMcu != [] && t == McuReceives(s) {
      InvMcuReceives(s);
    } else if s.toHost != [] && t == HostReceives(s) {
      InvHostReceives(s);
    } else if exists i: nat :: i < |s.toMcu| && t == s.(toMcu := Drop(s.toMcu, i)) {
      var i: nat :| i < |s.toMcu| && t == s.(toMcu := Drop(s.toMcu, i));
      InvLosePacket(s, i);
    } else {
      var i: nat :| i < |s.toHost| && t == s.(toHost := Drop(s.toHost, i));
      InvLoseReply(s, i);
    }
  }

  /** A run of the system. */
  ghost predicate IsRun<T(!new)>(run: seq<State<T>>) {
    && run != [] && Init(run[0])
    && forall i, j {:trigger Next(run[i], run[j])} :: 0 <= i < j < |run| && j == i + 1 ==> Next(run[i], run[j])
  }

  lemma {:induction false} Reachable<T(!new)>(run: seq<State<T>>, i: nat)
    requires IsRun(run) && i < |run|
    ensures SealedInv(run[i])
  {
    if i == 0 {
      InvInit(run[0]);
    } else {
      Reachable(run, i - 1);
      assert Next(run[i - 1], run[i]);
      InvNext(run[i - 1], run[i]);
    }
  }

  /** Go-back-N delivery: in every state of every run, the window holds, every acknowledgement
      on its way is understood exactly, and the receiver has accepted the first blocks built,
      in order, without gap or duplicate. */
  lemma {:induction false} Delivery<T(!new)>(run: seq<State<T>>, i: nat)
    requires IsRun(run) && i < |run|
    ensures var s := run[i];
            && 1 <= s.host.receiveSeq <= s.mcuNext <= s.host.SendSeq() <= s.host.receiveSeq + WINDOW
            && s.accepted == s.host.built[..s.mcuNext - 1]
            && (s.toHost != [] ==> Acknowledge(s.host, s.toHost[0] % SEQ_SPAN).receiveSeq == s.toHost[0])
            && Inv(s)
  {
    Reachable(run, i);
    assert InvFacts(Whole, run[i]);
    if run[i].toHost != [] {
      AckIsExact(run[i]);
    }
  }

  // ----- Recovery -----

  function McuReceivesAll<T>(s: State<T>): State<T>
    decreases |s.toMcu|
  {
    if s.toMcu == [] then s else McuReceivesAll(McuReceives(s))
  }

  function HostReceivesAll<T>(s: State<T>): State<T>
    decreases |s.toHost|
  {
    if s.toHost == [] then s else HostReceivesAll(HostReceives(s))
  }

  /** The channel ends with packets from..to-1. */
  ghost predicate EndsWith<T>(ch: seq<Packet<T>>, from: nat, to: nat)
    requires from <= to
  {
    var start := |ch| - (to - from);
    0 <= start && forall i :: start <= i < |ch| ==> ch[i].num == from + (i - start)
  }

  /** If the packets on their way end with blocks from..SendSeq-1 in order, and the receiver does
      not need older ones, then it ends up with all blocks, and says so last. */
  lemma {:induction false} McuCatchesUp<T>(s: State<T>, from: nat)
    requires Inv(s) && 1 <= from <= s.mcuNext && from < s.host.SendSeq()
    requires EndsWith(s.toMcu, from, s.host.SendSeq())
    ensures var t := McuReceivesAll(s);
            && Inv(t) && t.host == s.host && t.mcuNext == s.host.SendSeq()
            && t.toHost != [] && t.toHost[|t.toHost| - 1] == t.mcuNext
    decreases |s.toMcu|
  {
    var n, t := s.host.SendSeq() - from, McuReceives(s);
    AcceptsOnlyNext(s);
    InvMcuReceives(s);
    if |s.toMcu| > n {
      McuCatchesUp(t, from);
    } else if n > 1 {
      assert s.toMcu[0].num == from;
      McuCatchesUp(t, from + 1);
    } else {
      assert s.toMcu[0].num == from;
      assert McuReceivesAll(t) == t;
    }
  }

  /** The last reply decides what is acknowledged. */
  lemma {:induction false} HostCatchesUp<T>(s: State<T>)
    requires Inv(s)
    ensures var t := HostReceivesAll(s);
            && Inv(t) && t.toHost == [] && t.host.built == s.host.built && t.accepted == s.accepted
            && t.host.receiveSeq == if s.toHost == [] then s.host.receiveSeq else s.toHost[|s.toHost| - 1]
    decreases |s.toHost|
  {
    if s.toHost != [] {
      InvHostReceives(s);
      HostCatchesUp(HostReceives(s));
    }
  }

  lemma {:induction false} McuKeepsReplies<T>(s: State<T>)
    requires Inv(s)
    ensures var t := McuReceivesAll(s); Inv(t) && t.host == s.host && t.toMcu == [] && s.mcuNext <= t.mcuNext
    decreases |s.toMcu|
  {
    if s.toMcu != [] {
      InvMcuReceives(s);
      McuKeepsReplies(McuReceives(s));
    }
  }

  /** From any state, whatever is still on its way, one retransmission that is received without
      loss, and answered without loss, gets every block accepted and acknowledged. */
  lemma {:induction false} Recovery<T>(s: State<T>)
    requires Inv(s)
    ensures var t := HostReceivesAll(McuReceivesAll(Retransmit(s)));
            && Inv(t) && t.host.receiveSeq == t.host.SendSeq() && Unacked(t.host) == []
            && t.accepted == t.host.built == s.host.built
  {
    var r := Retransmit(s);
    InvRetransmit(s);
    McuKeepsReplies(r);
    var m := McuReceivesAll(r);
    if s.host.receiveSeq < s.host.SendSeq() {
      McuCatchesUp(r, s.host.receiveSeq);
    }
    HostCatchesUp(m);
  }
}
