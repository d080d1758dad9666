/**
  Message blocks: encoding a message, framing it, checking a received block, decoding it
  (msgblock.c, the framing part of build_and_send_command in serialqueue.c, and
  check_packet in msgproto.py), and the receive loop of input_event.
*/
module MsgBlock {
  import opened Common
  import opened Vlq
  import Crc16
  import CrcBytes

  const MESSAGE_MIN := 5
  const MESSAGE_MAX := 64
  const MESSAGE_HEADER_SIZE := 2
  const MESSAGE_TRAILER_SIZE := 3
  const MESSAGE_DEST := 0x10
  const MESSAGE_SYNC: byte := 0x7E

  // ----- Encoding and decoding the integers of a message -----

  function EncodeWords(words: seq<uint32>): seq<byte> {
    if words == [] then [] else EncodeWords(words[..|words| - 1]) + EncodeInt(words[|words| - 1])
  }

  /** message_alloc_and_encode: an over-long message becomes an empty one.  The buffer of
      MESSAGE_MAX bytes is never overrun. */
  method EncodeMessage(words: seq<uint32>) returns (msg: seq<byte>)
    ensures msg == if |EncodeWords(words)| <= MESSAGE_PAYLOAD_MAX then EncodeWords(words) else []
  {
    msg := [];
    var i := 0;
    while i < |words|
      invariant 0 <= i <= |words| && msg == EncodeWords(words[..i]) && |msg| <= MESSAGE_PAYLOAD_MAX
    {
      msg := msg + EncodeInt(words[i]);
      assert |msg| <= MESSAGE_MAX;
      assert words[..i + 1][..i] == words[..i];
      i := i + 1;
      if |msg| > MESSAGE_PAYLOAD_MAX {
        EncodeGrows(words, i);
        return [];
      }
    }
    assert words[..|words|] == words;
  }

  lemma {:induction false} EncodeGrows(words: seq<uint32>, i: nat)
    requires i <= |words|
    ensures |EncodeWords(words[..i])| <= |EncodeWords(words)|
  {
    if i == |words| {
      assert words[..i] == words;
    } else {
      EncodeGrows(words[..|words| - 1], i);
      assert words[..|words| - 1][..i] == words[..i];
    }
  }

  /** parse_int with its 32-bit register. */
  method ParseIntAt(buf: seq<byte>, pos: nat) returns (v: uint32, next: nat)
    requires pos <= |buf| && Terminated(buf[pos..])
    ensures (v, next - pos) == ParseInt(buf[pos..]) && next <= |buf|
  {
    TerminatedTail(buf[pos..]);
    assert buf[pos..][1..] == buf[pos + 1..];
    hide Terminated;
    var c := buf[pos];
    next := pos + 1;
    v := (c as int) % 128;
    if v >= 96 {
      v := v % 32 + 0xffff_ffe0;
    }
    ghost var wide := FirstGroup(c);
    assert v == wide % 0x1_0000_0000;
    while c >= 128
      invariant pos < next <= |buf| && c == buf[next - 1] && v == wide % 0x1_0000_0000
      invariant c >= 128 ==> Terminated(buf[next..])
      invariant c >= 128 ==>
                  ParseWide(buf[pos..]) == (ParseRest(buf[next..], wide).0, ParseRest(buf[next..], wide).1 + next - pos)
      invariant c < 128 ==> ParseWide(buf[pos..]) == (wide, next - pos)
      decreases |buf| - next
    {
      TerminatedTail(buf[next..]);
      assert buf[next..][1..] == buf[next + 1..];
      c := buf[next];
      next := next + 1;
      ShiftIn(wide, (c as int) % 128);
      v := (v * 128 + (c as int) % 128) % 0x1_0000_0000;
      wide := wide * 128 + (c as int) % 128;
    }
  }

  lemma {:induction false} TerminatedTail(s: seq<byte>)
    requires Terminated(s)
    ensures s != [] && (s[0] >= 128 ==> Terminated(s[1..]))
  {
    var i :| 0 <= i < |s| && s[i] < 128;
    if s[0] >= 128 {
      assert s[1..][i - 1] == s[i];
    }
  }

  lemma {:induction false} ShiftIn(w: int, g: int)
    ensures ((w % 0x1_0000_0000) * 128 + g) % 0x1_0000_0000 == (w * 128 + g) % 0x1_0000_0000
  {
    var q := w / 0x1_0000_0000;
    assert w * 128 + g == (w % 0x1_0000_0000) * 128 + g + (128 * q) * 0x1_0000_0000;
  }

  /** A received block ends with SYNC, which has no continuation bit, so that no number runs
      past its end. */
  ghost predicate Closed(msg: seq<byte>) {
    MESSAGE_MIN <= |msg| && msg[|msg| - 1] < 128
  }

  lemma {:induction false} ClosedTerminates(msg: seq<byte>, p: nat)
    requires Closed(msg) && p < |msg|
    ensures Terminated(msg[p..])
  {
    assert msg[p..][|msg| - 1 - p] == msg[|msg| - 1];
  }

  /** The next n integers of a block from position p, which must end at the trailer. */
  ghost function DecodeFrom(n: nat, msg: seq<byte>, p: nat): Option<seq<uint32>>
    requires Closed(msg)
    decreases n
  {
    var end := |msg| - MESSAGE_TRAILER_SIZE;
    if n == 0 then
      if p == end then Some([]) else None
    else if p >= end then None
    else
      ClosedTerminates(msg, p);
      var (v, k) := ParseInt(msg[p..]);
      Prepend([v], DecodeFrom(n - 1, msg, p + k))
  }

  function Prepend(front: seq<uint32>, rest: Option<seq<uint32>>): Option<seq<uint32>> {
    match rest
    case None => None
    case Some(words) => Some(front + words)
  }

  /** msgblock_decode */
  method MsgblockDecode(dataLen: nat, msg: seq<byte>) returns (data: Option<seq<uint32>>)
    requires Closed(msg)
    ensures data == DecodeFrom(dataLen, msg, MESSAGE_HEADER_SIZE)
  {
    var p: nat, end := MESSAGE_HEADER_SIZE, |msg| - MESSAGE_TRAILER_SIZE;
    var words: seq<uint32> := [];
    PrependNone(DecodeFrom(dataLen, msg, p));
    var n: nat := dataLen;
    while n > 0
      invariant 0 <= n <= dataLen && MESSAGE_HEADER_SIZE <= p <= |msg|
      invariant DecodeFrom(dataLen, msg, MESSAGE_HEADER_SIZE) == Prepend(words, DecodeFrom(n, msg, p))
    {
      n := n - 1;
      if p >= end {
        return None;
      }
      ClosedTerminates(msg, p);
      ghost var rest := DecodeFrom(n + 1, msg, p);
      var v, next := ParseIntAt(msg, p);
      PrependTwice(words, v, DecodeFrom(n, msg, next));
      words := words + [v];
      p := next;
    }
    if p != end {
      return None;
    }
    assert words + [] == words;
    return Some(words);
  }

  lemma {:induction false} PrependNone(rest: Option<seq<uint32>>)
    ensures Prepend([], rest) == rest
  {
    if rest.Some? {
      assert [] + rest.value == rest.value;
    }
  }

  lemma {:induction false} PrependTwice(front: seq<uint32>, v: uint32, rest: Option<seq<uint32>>)
    ensures Prepend(front, Prepend([v], rest)) == Prepend(front + [v], rest)
  {
    if rest.Some? {
      assert front + ([v] + rest.value) == front + [v] + rest.value;
    }
  }

  lemma {:induction false} EncodeWordsFirst(words: seq<uint32>)
    requires words != []
    ensures EncodeWords(words) == EncodeInt(words[0]) + EncodeWords(words[1..])
  {
    if |words| > 1 {
      EncodeWordsFirst(words[..|words| - 1]);
      assert words[..|words| - 1][1..] == words[1..][..|words| - 2];
    } else {
      assert words[..0] == [] && words[1..] == [];
    }
  }

  lemma {:induction false} DecodeOne(n: nat, msg: seq<byte>, p: nat, word: uint32, rest: seq<byte>)
    requires Closed(msg) && p <= |msg| && msg[p..] == EncodeInt(word) + rest && |rest| >= MESSAGE_TRAILER_SIZE
    ensures DecodeFrom(n + 1, msg, p) == Prepend([word], DecodeFrom(n, msg, p + |EncodeInt(word)|))
  {
    RoundTrip(word, rest);
    assert p < |msg| - MESSAGE_TRAILER_SIZE;
  }

  /** Decoding what was encoded gives the same integers back, and any other count is refused. */
  lemma {:induction false} DecodeEncoded(n: nat, head: seq<byte>, words: seq<uint32>, trailer: seq<byte>)
    requires |head| >= MESSAGE_HEADER_SIZE && |trailer| == MESSAGE_TRAILER_SIZE && trailer[2] < 128
    ensures Closed(head + EncodeWords(words) + trailer)
    ensures DecodeFrom(n, head + EncodeWords(words) + trailer, |head|) ==
            if n == |words| then Some(words) else None
    decreases n
  {
    var msg := head + EncodeWords(words) + trailer;
    assert msg[|msg| - 1] == trailer[2];
    hide ParseInt;
    if words == [] || n == 0 {
      DecodeNothing(n, head, words, trailer);
    } else {
      EncodeWordsFirst(words);
      hide EncodeInt, EncodeWords, DecodeFrom, Closed;
      var e, rest := EncodeInt(words[0]), EncodeWords(words[1..]);
      DecodeEncoded(n - 1, head + e, words[1..], trailer);
      Regroup(head, e, rest, trailer);
      DecodeOne(n - 1, msg, |head|, words[0], rest + trailer);
      assert [words[0]] + words[1..] == words;
    }
  }

  lemma {:induction false} DecodeNothing(n: nat, head: seq<byte>, words: seq<uint32>, trailer: seq<byte>)
    requires Closed(head + EncodeWords(words) + trailer) && |trailer| == MESSAGE_TRAILER_SIZE
    requires words == [] || n == 0
    ensures DecodeFrom(n, head + EncodeWords(words) + trailer, |head|) == if n == |words| then Some([]) else None
  {
    if words != [] {
      EncodeWordsFirst(words);
    }
  }

  lemma {:induction false} Regroup(head: seq<byte>, e: seq<byte>, rest: seq<byte>, trailer: seq<byte>)
    ensures head + (e + rest) + trailer == head + e + rest + trailer
    ensures (head + (e + rest) + trailer)[|head|..] == e + (rest + trailer)
  {
  }

  // ----- Framing and checking blocks -----

  function Bits(buf: seq<byte>): (bits: seq<bv8>)
    ensures |bits| == |buf|
  {
    seq(|buf|, i requires 0 <= i < |buf| => buf[i] as bv8)
  }

  ghost predicate HasCrc(seal: Seal, crc: int, buf: seq<byte>) {
    crc == Crc16.SerialCrc(Bits(buf)) as int
  }

  ghost predicate IsCrc(crc: int, buf: seq<byte>) {
    forall seal :: HasCrc(seal, crc, buf)
  }

  /** The CRC of a buffer as a number; its bits sit behind a quantifier, so that proofs about
      blocks see only that a buffer has one CRC. */
  ghost function CrcOf(buf: seq<byte>): (crc: int)
    ensures 0 <= crc < 0x1_0000
  {
    assert IsCrc(Crc16.SerialCrc(Bits(buf)) as int, buf);
    var crc :| IsCrc(crc, buf);
    CrcIs(crc, buf);
    crc
  }

  lemma {:induction false} CrcIs(crc: int, buf: seq<byte>)
    requires IsCrc(crc, buf)
    ensures crc == Crc16.SerialCrc(Bits(buf)) as int
  {
    assert HasCrc(Whole, crc, buf);
  }

  lemma {:induction false} CrcValue(buf: seq<byte>)
    ensures CrcOf(buf) == Crc16.SerialCrc(Bits(buf)) as int
  {
    assert IsCrc(Crc16.SerialCrc(Bits(buf)) as int, buf);
    CrcIs(CrcOf(buf), buf);
  }

  method ComputeCrc(buf: seq<byte>) returns (crc: int)
    ensures crc == CrcOf(buf)
  {
    var c := Crc16.MsgblockCrc16Ccitt(Bits(buf));
    CrcValue(buf);
    crc := c as int;
  }

  method ComputeCrcPython(buf: seq<byte>) returns (hi: int, lo: int)
    ensures hi * 256 + lo == CrcOf(buf) && 0 <= hi < 256 && 0 <= lo < 256
  {
    var h, l := Crc16.Crc16CcittPython(Bits(buf));
    CrcValue(buf);
    CrcBytes.Halves(Crc16.SerialCrc(Bits(buf)));
    hi, lo := h as int, l as int;
  }

  /** The block that carries a payload under a sequence number. */
  ghost function Frame(sendSeq: nat, payload: seq<byte>): (block: seq<byte>)
    requires |payload| <= MESSAGE_PAYLOAD_MAX
    ensures |block| == |payload| + MESSAGE_MIN
  {
    var body := [(|payload| + MESSAGE_MIN) as byte, (MESSAGE_DEST + sendSeq % 16) as byte] + payload;
    body + [(CrcOf(body) / 256) as byte, (CrcOf(body) % 256) as byte, MESSAGE_SYNC]
  }

  /** The framing part of build_and_send_command. */
  method BuildBlock(sendSeq: nat, payload: seq<byte>) returns (block: seq<byte>)
    requires |payload| <= MESSAGE_PAYLOAD_MAX
    ensures block == Frame(sendSeq, payload)
  {
    var len := |payload| + MESSAGE_MIN;
    block := [len as byte, (MESSAGE_DEST + sendSeq % 16) as byte] + payload;
    var crc := ComputeCrc(block);
    block := block + [(crc / 256) as byte, (crc % 256) as byte, MESSAGE_SYNC];
  }

  /** A well-formed block. */
  ghost predicate IsBlock(b: seq<byte>) {
    && MESSAGE_MIN <= |b| <= MESSAGE_MAX
    && b[0] as int == |b|
    && b[1] as int / 16 * 16 == MESSAGE_DEST
    && b[|b| - 1] == MESSAGE_SYNC
    && b[|b| - 3] as int * 256 + b[|b| - 2] as int == CrcOf(b[..|b| - MESSAGE_TRAILER_SIZE])
  }

  lemma {:induction false} FrameIsBlock(sendSeq: nat, payload: seq<byte>)
    requires |payload| <= MESSAGE_PAYLOAD_MAX
    ensures IsBlock(Frame(sendSeq, payload)) && Frame(sendSeq, payload)[1] as int % 16 == sendSeq % 16
  {
    var body := [(|payload| + MESSAGE_MIN) as byte, (MESSAGE_DEST + sendSeq % 16) as byte] + payload;
    var b := Frame(sendSeq, payload);
    assert b[..|b| - MESSAGE_TRAILER_SIZE] == body;
  }

  /** Encode, frame, decode: the same words, for every sequence of words that fits a block. */
  lemma {:induction false} MessageRoundTrip(n: nat, sendSeq: nat, words: seq<uint32>)
    requires |EncodeWords(words)| <= MESSAGE_PAYLOAD_MAX
    ensures var b := Frame(sendSeq, EncodeWords(words));
            && Closed(b)
            && DecodeFrom(n, b, MESSAGE_HEADER_SIZE) == if n == |words| then Some(words) else None
  {
    var b := Frame(sendSeq, EncodeWords(words));
    var len := |EncodeWords(words)| + MESSAGE_MIN;
    DecodeEncoded(n, b[..2], words, b[len - 3..]);
    assert b == b[..2] + EncodeWords(words) + b[len - 3..];
  }

  datatype Verdict = NeedMore | Block(len: nat) | Skip(count: nat, needSync: bool)

  function FirstSync(buf: seq<byte>): (i: nat)
    ensures i <= |buf|
    ensures i < |buf| ==> buf[i] == MESSAGE_SYNC
    ensures forall j :: 0 <= j < i ==> buf[j] != MESSAGE_SYNC
  {
    if buf == [] || buf[0] == MESSAGE_SYNC then 0 else 1 + FirstSync(buf[1..])
  }

  /** The error exit of msgblock_check: discard up to the next SYNC. */
  function Resync(buf: seq<byte>): Verdict {
    var i := FirstSync(buf);
    if i < |buf| then Skip(i + 1, false) else Skip(|buf|, true)
  }

  /** The rules of msgblock_check. */
  ghost function Rules(needSync: bool, buf: seq<byte>): Verdict {
    if |buf| < MESSAGE_MIN then NeedMore
    else if needSync then Resync(buf)
    else
      var len := buf[0] as int;
      if len < MESSAGE_MIN || len > MESSAGE_MAX then Resync(buf)
      else if buf[1] as int / 16 * 16 != MESSAGE_DEST then Resync(buf)
      else if |buf| < len then NeedMore
      else if buf[len - 1] != MESSAGE_SYNC then Resync(buf)
      else if buf[len - 3] as int * 256 + buf[len - 2] as int != CrcOf(buf[..len - MESSAGE_TRAILER_SIZE]) then Resync(buf)
      else Block(len)
  }

  ghost predicate Obeys(seal: Seal, v: Verdict, needSync: bool, buf: seq<byte>) {
    v == Rules(needSync, buf)
  }

  ghost predicate IsVerdict(v: Verdict, needSync: bool, buf: seq<byte>) {
    forall seal :: Obeys(seal, v, needSync, buf)
  }

  /** The verdict of msgblock_check.  The rules sit behind a quantifier so that proofs about the
      receive loop do not see them; CheckRules brings them in. */
  ghost function Check(needSync: bool, buf: seq<byte>): (v: Verdict)
    ensures v.Block? ==> MESSAGE_MIN <= v.len <= |buf|
    ensures v.Skip? ==> 0 < v.count <= |buf|
  {
    assert IsVerdict(Rules(needSync, buf), needSync, buf);
    var v :| IsVerdict(v, needSync, buf);
    assert Obeys(Whole, v, needSync, buf);
    v
  }

  lemma {:induction false} CheckRules(needSync: bool, buf: seq<byte>)
    ensures Check(needSync, buf) == Rules(needSync, buf)
  {
    assert Obeys(Whole, Check(needSync, buf), needSync, buf);
  }

  /** msgblock_check, with memchr as a loop. */
  method MsgblockCheck(needSync: bool, buf: seq<byte>) returns (verdict: Verdict)
    ensures verdict == Check(needSync, buf)
  {
    CheckRules(needSync, buf);
    if |buf| < MESSAGE_MIN {
      return NeedMore;
    }
    if !needSync {
      var len := buf[0] as int;
      if MESSAGE_MIN <= len <= MESSAGE_MAX && buf[1] as int / 16 * 16 == MESSAGE_DEST {
        if |buf| < len {
          return NeedMore;
        }
        if buf[len - 1] == MESSAGE_SYNC {
          var msgCrc := buf[len - 3] as int * 256 + buf[len - 2] as int;
          var crc := ComputeCrc(buf[..len - MESSAGE_TRAILER_SIZE]);
          if crc == msgCrc {
            return Block(len);
          }
        }
      }
    }
    var i := 0;
    while i < |buf| && buf[i] != MESSAGE_SYNC
      invariant 0 <= i <= FirstSync(buf)
    {
      i := i + 1;
    }
    verdict := if i < |buf| then Skip(i + 1, false) else Skip(|buf|, true);
  }

  ghost predicate StartsBlock(buf: seq<byte>, len: nat) {
    && MESSAGE_MIN <= len <= MESSAGE_MAX && len <= |buf|
    && buf[0] as int == len && buf[1] as int / 16 * 16 == MESSAGE_DEST
    && buf[len - 1] == MESSAGE_SYNC
    && buf[len - 3] as int * 256 + buf[len - 2] as int == CrcOf(buf[..len - MESSAGE_TRAILER_SIZE])
  }

  lemma {:induction false} CheckFinds(buf: seq<byte>, len: nat)
    ensures Check(false, buf) == Block(len) <==> StartsBlock(buf, len)
  {
    CheckRules(false, buf);
  }

  lemma {:induction false} BlockPrefix(buf: seq<byte>, len: nat)
    requires len <= |buf|
    ensures IsBlock(buf[..len]) <==> StartsBlock(buf, len)
  {
    if MESSAGE_MIN <= len {
      var b := buf[..len];
      assert b[..|b| - MESSAGE_TRAILER_SIZE] == buf[..len - MESSAGE_TRAILER_SIZE];
      assert b[0] == buf[0] && b[1] == buf[1];
      assert b[len - 1] == buf[len - 1] && b[len - 2] == buf[len - 2] && b[len - 3] == buf[len - 3];
    }
  }

  /** A block is accepted exactly when the buffer starts with a well-formed one. */
  lemma {:induction false} CheckAccepts(buf: seq<byte>, len: nat)
    ensures Check(false, buf) == Block(len) <==> len <= |buf| && IsBlock(buf[..len])
  {
    CheckFinds(buf, len);
    if len <= |buf| {
      BlockPrefix(buf, len);
    }
  }

  /** check_packet of msgproto.py gives the same verdict on a buffer that is in sync. */
  method CheckPacket(s: seq<byte>) returns (r: int)
    ensures r > 0 <==> Check(false, s).Block?
    ensures r > 0 ==> Check(false, s).len == r
    ensures r == 0 <==> Check(false, s) == NeedMore
    ensures r < 0 <==> Check(false, s).Skip?
  {
    CheckRules(false, s);
    if |s| < MESSAGE_MIN {
      return 0;
    }
    var len := s[0] as int;
    if len < MESSAGE_MIN || len > MESSAGE_MAX {
      return -1;
    }
    if s[1] as int / 16 * 16 != MESSAGE_DEST {
      return -1;
    }
    if |s| < len {
      return 0;
    }
    if s[len - 1] != MESSAGE_SYNC {
      return -1;
    }
    var hi, lo := ComputeCrcPython(s[..len - MESSAGE_TRAILER_SIZE]);
    if hi != s[len - 3] as int || lo != s[len - 2] as int {
      return -1;
    }
    return len;
  }

  // ----- The receive loop of input_event -----

  datatype Piece = Delivered(bytes: seq<byte>) | Dropped(bytes: seq<byte>)

  datatype Scanned = Scanned(pieces: seq<Piece>, needSync: bool, rest: seq<byte>)

  /** All that the loop does with the bytes it has. */
  ghost function Scan(needSync: bool, buf: seq<byte>): Scanned
    decreases |buf|
  {
    match Check(needSync, buf)
    case NeedMore => Scanned([], needSync, buf)
    case Block(len) =>
      var s := Scan(needSync, buf[len..]);
      s.(pieces := [Delivered(buf[..len])] + s.pieces)
    case Skip(count, sync) =>
      var s := Scan(sync, buf[count..]);
      s.(pieces := [Dropped(buf[..count])] + s.pieces)
  }

  function Blocks(pieces: seq<Piece>): seq<seq<byte>> {
    if pieces == [] then []
    else (if pieces[0].Delivered? then [pieces[0].bytes] else []) + Blocks(pieces[1..])
  }

  function Flat(pieces: seq<Piece>): seq<byte> {
    if pieces == [] then [] else pieces[0].bytes + Flat(pieces[1..])
  }

  lemma {:induction false} Cons(p: Piece, ps: seq<Piece>)
    ensures Blocks([p] + ps) == (if p.Delivered? then [p.bytes] else []) + Blocks(ps)
    ensures Flat([p] + ps) == p.bytes + Flat(ps)
  {
    assert ([p] + ps)[1..] == ps;
  }

  lemma {:induction false} StepBlock(needSync: bool, buf: seq<byte>, n: nat)
    requires Check(needSync, buf) == Block(n)
    ensures var s, t := Scan(needSync, buf), Scan(needSync, buf[n..]);
            && s.rest == t.rest && s.needSync == t.needSync
            && Blocks(s.pieces) == [buf[..n]] + Blocks(t.pieces)
            && Flat(s.pieces) == buf[..n] + Flat(t.pieces)
  {
    Cons(Delivered(buf[..n]), Scan(needSync, buf[n..]).pieces);
  }

  lemma {:induction false} StepSkip(needSync: bool, buf: seq<byte>, n: nat, sync: bool)
    requires Check(needSync, buf) == Skip(n, sync)
    ensures var s, t := Scan(needSync, buf), Scan(sync, buf[n..]);
            && s.rest == t.rest && s.needSync == t.needSync
            && Blocks(s.pieces) == Blocks(t.pieces)
            && Flat(s.pieces) == buf[..n] + Flat(t.pieces)
  {
    Cons(Dropped(buf[..n]), Scan(sync, buf[n..]).pieces);
  }

  /** Every byte is in exactly one delivered block, dropped as invalid, or still buffered,
      in order; and the buffer never fills up. */
  lemma {:induction false} ScanAccounts(needSync: bool, buf: seq<byte>)
    ensures var s := Scan(needSync, buf); Flat(s.pieces) + s.rest == buf && |s.rest| < MESSAGE_MAX
    decreases |buf|
  {
    match Check(needSync, buf)
    case NeedMore =>
      NeedMoreIsShort(needSync, buf);
    case Block(n) =>
      StepBlock(needSync, buf, n);
      ScanAccounts(needSync, buf[n..]);
      Reattach(buf, n, Flat(Scan(needSync, buf[n..]).pieces), Scan(needSync, buf[n..]).rest);
    case Skip(n, sync) =>
      StepSkip(needSync, buf, n, sync);
      ScanAccounts(sync, buf[n..]);
      Reattach(buf, n, Flat(Scan(sync, buf[n..]).pieces), Scan(sync, buf[n..]).rest);
  }

  lemma {:induction false} Reattach(buf: seq<byte>, n: nat, flat: seq<byte>, rest: seq<byte>)
    requires n <= |buf| && flat + rest == buf[n..]
    ensures (buf[..n] + flat) + rest == buf
  {
    assert (buf[..n] + flat) + rest == buf[..n] + (flat + rest);
  }

  /** Only well-formed blocks are delivered. */
  lemma {:induction false} DeliveredAreBlocks(needSync: bool, buf: seq<byte>)
    ensures forall b :: b in Deliveries(needSync, buf) ==> IsBlock(b)
    decreases |buf|
  {
    match Check(needSync, buf)
    case NeedMore =>
    case Block(n) =>
      StepBlock(needSync, buf, n);
      DeliveredAreBlocks(needSync, buf[n..]);
      CheckAccepts(buf, n);
      OutOfSyncDeliversNothing(needSync, buf);
    case Skip(n, sync) =>
      StepSkip(needSync, buf, n, sync);
      DeliveredAreBlocks(sync, buf[n..]);
  }

  lemma {:induction false} OutOfSyncDeliversNothing(needSync: bool, buf: seq<byte>)
    ensures Check(needSync, buf).Block? ==> !needSync
  {
    CheckRules(needSync, buf);
  }

  /** The blocks delivered from a byte stream that arrives in one read. */
  ghost function Deliveries(needSync: bool, stream: seq<byte>): seq<seq<byte>> {
    Blocks(Scan(needSync, stream).pieces)
  }

  lemma {:induction false} FirstSyncExtends(a: seq<byte>, b: seq<byte>)
    ensures FirstSync(a + b) == if FirstSync(a) < |a| then FirstSync(a) else |a| + FirstSync(b)
  {
    var i, j := FirstSync(a), FirstSync(a + b);
    if i < |a| {
      assert (a + b)[i] == MESSAGE_SYNC;
      assert forall k :: 0 <= k < i ==> (a + b)[k] == a[k];
    } else {
      var k := FirstSync(b);
      assert forall x :: 0 <= x < |a| ==> (a + b)[x] == a[x];
      assert forall x :: 0 <= x < k ==> (a + b)[|a| + x] == b[x];
      if k < |b| {
        assert (a + b)[|a| + k] == b[k];
      }
    }
  }

  lemma {:induction false} SkipDelivers(needSync: bool, stream: seq<byte>)
    requires Check(needSync, stream).Skip?
    ensures var v := Check(needSync, stream); Deliveries(needSync, stream) == Deliveries(v.needSync, stream[v.count..])
  {
    var v := Check(needSync, stream);
    StepSkip(needSync, stream, v.count, v.needSync);
  }

  lemma {:induction false} BlockDelivers(needSync: bool, stream: seq<byte>)
    requires Check(needSync, stream).Block?
    ensures var n := Check(needSync, stream).len;
            Deliveries(needSync, stream) == [stream[..n]] + Deliveries(needSync, stream[n..])
  {
    StepBlock(needSync, stream, Check(needSync, stream).len);
  }

  /** More bytes do not change a verdict already reached, save that a skip may find its SYNC. */
  lemma {:induction false} CheckExtends(needSync: bool, a: seq<byte>, b: seq<byte>)
    ensures Check(needSync, a).Block? ==> Check(needSync, a + b) == Check(needSync, a)
    ensures Check(needSync, a).Skip? ==>
              |a| >= MESSAGE_MIN && Check(needSync, a) == Resync(a) && Check(needSync, a + b) == Resync(a + b)
  {
    CheckRules(needSync, a);
    CheckRules(needSync, a + b);
    if |a| >= MESSAGE_MIN && !needSync {
      var len := a[0] as int;
      if MESSAGE_MIN <= len <= |a| {
        assert (a + b)[..len - MESSAGE_TRAILER_SIZE] == a[..len - MESSAGE_TRAILER_SIZE];
      }
    }
  }

  /** A stream without a complete block's worth of bytes after its first SYNC delivers nothing. */
  lemma {:induction false} TooShort(needSync: bool, stream: seq<byte>)
    requires |stream| < MESSAGE_MIN
    ensures Deliveries(needSync, stream) == [] && Check(needSync, stream) == NeedMore
  {
    CheckRules(needSync, stream);
  }

  lemma {:induction false} CheckWaiting(buf: seq<byte>)
    requires |buf| >= MESSAGE_MIN
    ensures Check(true, buf) == Resync(buf)
  {
    CheckRules(true, buf);
  }

  lemma {:induction false} NeedMoreIsShort(needSync: bool, buf: seq<byte>)
    ensures Check(needSync, buf) == NeedMore ==> |buf| < MESSAGE_MAX
  {
    CheckRules(needSync, buf);
  }

  /** Waiting for SYNC: bytes before it make no difference. */
  lemma {:induction false} LookForSync(noise: seq<byte>, more: seq<byte>)
    requires FirstSync(noise) == |noise| && |noise + more| >= MESSAGE_MIN
    ensures Deliveries(true, more) ==
            var v := Resync(noise + more); Deliveries(v.needSync, (noise + more)[v.count..])
  {
    hide Check, Scan, Deliveries, FirstSync;
    FirstSyncExtends(noise, more);
    var i := FirstSync(more);
    if i < |more| {
      assert (noise + more)[|noise| + i + 1..] == more[i + 1..];
      if |more| < MESSAGE_MIN {
        TooShort(true, more);
        TooShort(false, more[i + 1..]);
      } else {
        CheckWaiting(more);
        SkipDelivers(true, more);
      }
    } else {
      assert (noise + more)[|noise + more|..] == [];
      TooShort(true, []);
      if |more| < MESSAGE_MIN {
        TooShort(true, more);
      } else {
        CheckWaiting(more);
        SkipDelivers(true, more);
        assert more[|more|..] == [];
      }
    }
  }

  lemma {:induction false} SliceOfSum(a: seq<byte>, b: seq<byte>, n: nat)
    requires n <= |a|
    ensures (a + b)[..n] == a[..n] && (a + b)[n..] == a[n..] + b
  {
  }

  /** What the loop decides on the bytes at hand stands when more bytes follow. */
  lemma {:induction false} BlockStands(needSync: bool, a: seq<byte>, n: nat, b: seq<byte>)
    requires Check(needSync, a) == Block(n)
    ensures Deliveries(needSync, a + b) == [a[..n]] + Deliveries(needSync, a[n..] + b)
  {
    CheckExtends(needSync, a, b);
    BlockDelivers(needSync, a + b);
    SliceOfSum(a, b, n);
  }

  lemma {:induction false} SkipStands(needSync: bool, a: seq<byte>, n: nat, sync: bool, b: seq<byte>)
    requires Check(needSync, a) == Skip(n, sync)
    ensures Deliveries(needSync, a + b) == Deliveries(sync, a[n..] + b)
  {
    CheckExtends(needSync, a, b);
    SkipDelivers(needSync, a + b);
    FirstSyncExtends(a, b);
    if sync {
      assert a[n..] + b == b;
      LookForSync(a, b);
    } else {
      SliceOfSum(a, b, n);
    }
  }

  /** Reading a stream in two parts delivers the same blocks as reading it at once. */
  lemma {:induction false} SplitRead(needSync: bool, a: seq<byte>, b: seq<byte>)
    ensures var s := Scan(needSync, a);
            Deliveries(needSync, a + b) == Blocks(s.pieces) + Deliveries(s.needSync, s.rest + b)
    decreases |a|
  {
    match Check(needSync, a)
    case NeedMore =>
    case Block(n) =>
      StepBlock(needSync, a, n);
      BlockStands(needSync, a, n, b);
      SplitRead(needSync, a[n..], b);
      var t := Scan(needSync, a[n..]);
      Associate([a[..n]], Blocks(t.pieces), Deliveries(t.needSync, t.rest + b));
    case Skip(n, sync) =>
      StepSkip(needSync, a, n, sync);
      SkipStands(needSync, a, n, sync, b);
      SplitRead(sync, a[n..], b);
  }

  lemma {:induction false} Associate(x: seq<seq<byte>>, y: seq<seq<byte>>, z: seq<seq<byte>>)
    ensures x + (y + z) == (x + y) + z
  {
  }

  /** The blocks delivered from a byte stream that arrives in the given reads. */
  ghost function ReadAll(needSync: bool, buf: seq<byte>, chunks: seq<seq<byte>>): seq<seq<byte>>
    decreases |chunks|
  {
    if chunks == [] then []
    else
      var s := Scan(needSync, buf + chunks[0]);
      Blocks(s.pieces) + ReadAll(s.needSync, s.rest, chunks[1..])
  }

  /** Chunking independence: however a stream is split into reads, the blocks delivered are
      those of the whole stream. */
  lemma {:induction false} ChunkingIndependence(needSync: bool, buf: seq<byte>, chunks: seq<seq<byte>>)
    requires Check(needSync, buf) == NeedMore
    ensures ReadAll(needSync, buf, chunks) == Deliveries(needSync, buf + Concat(chunks))
    decreases |chunks|
  {
    assert Deliveries(needSync, buf) == [];
    hide Check, Scan, Deliveries, Blocks;
    if chunks == [] {
      assert buf + [] == buf;
    } else {
      var s := Scan(needSync, buf + chunks[0]);
      ScanExhausts(needSync, buf + chunks[0]);
      ChunkingIndependence(s.needSync, s.rest, chunks[1..]);
      SplitRead(needSync, buf + chunks[0], Concat(chunks[1..]));
      assert buf + Concat(chunks) == buf + chunks[0] + Concat(chunks[1..]);
    }
  }

  lemma {:induction false} ScanExhausts(needSync: bool, buf: seq<byte>)
    ensures var s := Scan(needSync, buf); Check(s.needSync, s.rest) == NeedMore
    decreases |buf|
  {
    match Check(needSync, buf)
    case NeedMore =>
    case Block(n) => ScanExhausts(needSync, buf[n..]);
    case Skip(n, sync) => ScanExhausts(sync, buf[n..]);
  }

  ghost predicate Agrees(more: seq<byte>, stream: seq<byte>, received: seq<seq<byte>>, needSync: bool, buf: seq<byte>) {
    Deliveries(false, stream + more) == received + Deliveries(needSync, buf + more)
  }

  /** The state of a receiver that has read `stream` and delivered `received`: whatever comes
      next, the deliveries will be those of the whole stream. */
  ghost predicate InStep(stream: seq<byte>, received: seq<seq<byte>>, needSync: bool, buf: seq<byte>) {
    forall more :: Agrees(more, stream, received, needSync, buf)
  }

  lemma {:induction false} StepStart()
    ensures InStep([], [], false, [])
  {
    forall more: seq<byte> ensures Agrees(more, [], [], false, []) {
      assert [] + more == more;
    }
  }

  lemma {:induction false} StepRead(stream: seq<byte>, received: seq<seq<byte>>, needSync: bool, buf: seq<byte>,
                                    data: seq<byte>)
    requires InStep(stream, received, needSync, buf)
    ensures InStep(stream + data, received, needSync, buf + data)
  {
    forall more: seq<byte> ensures Agrees(more, stream + data, received, needSync, buf + data) {
      assert Agrees(data + more, stream, received, needSync, buf);
      assert stream + data + more == stream + (data + more) && buf + data + more == buf + (data + more);
    }
  }

  lemma {:induction false} StepDeliver(stream: seq<byte>, received: seq<seq<byte>>, needSync: bool, buf: seq<byte>,
                                       n: nat)
    requires InStep(stream, received, needSync, buf) && Check(needSync, buf) == Block(n)
    ensures InStep(stream, received + [buf[..n]], needSync, buf[n..])
  {
    forall more: seq<byte> ensures Agrees(more, stream, received + [buf[..n]], needSync, buf[n..]) {
      assert Agrees(more, stream, received, needSync, buf);
      BlockStands(needSync, buf, n, more);
      Associate(received, [buf[..n]], Deliveries(needSync, buf[n..] + more));
    }
  }

  lemma {:induction false} StepDiscard(stream: seq<byte>, received: seq<seq<byte>>, needSync: bool, buf: seq<byte>,
                                       n: nat, sync: bool)
    requires InStep(stream, received, needSync, buf) && Check(needSync, buf) == Skip(n, sync)
    ensures InStep(stream, received, sync, buf[n..])
  {
    forall more: seq<byte> ensures Agrees(more, stream, received, sync, buf[n..]) {
      assert Agrees(more, stream, received, needSync, buf);
      SkipStands(needSync, buf, n, sync, more);
    }
  }

  lemma {:induction false} StepRest(stream: seq<byte>, received: seq<seq<byte>>, needSync: bool, buf: seq<byte>)
    requires InStep(stream, received, needSync, buf) && Check(needSync, buf) == NeedMore
    ensures received == Deliveries(false, stream) && |buf| < MESSAGE_MAX
  {
    NeedMoreIsShort(needSync, buf);
    assert Agrees([], stream, received, needSync, buf);
    assert stream + [] == stream && buf + [] == buf && received + [] == received;
  }

  /** The input half of struct serialqueue. */
  class Receiver {
    var needSync: bool
    var inputBuf: seq<byte>
    var received: seq<seq<byte>>   // the blocks passed to handle_message
    var bytesInvalid: nat
    // All bytes read so far
    ghost var stream: seq<byte>

    ghost predicate Valid()
      reads this
    {
      && InStep(stream, received, needSync, inputBuf)
      && Check(needSync, inputBuf) == NeedMore
      && |stream| == Total(received) + bytesInvalid + |inputBuf|
    }

    constructor ()
      ensures Valid() && stream == [] && received == [] && inputBuf == []
    {
      needSync, inputBuf, received, bytesInvalid, stream := false, [], [], 0, [];
      new;
      StepStart();
      TooShort(false, []);
    }

    /** input_event, for a read that fits the input buffer: however the stream was split into
        reads, the blocks delivered are those of the whole stream, every byte is in one of
        them, counted as invalid, or still in the buffer, and the buffer never fills up. */
    method InputEvent(data: seq<byte>)
      requires Valid() && |inputBuf| + |data| <= 4096
      modifies this
      ensures Valid() && stream == old(stream) + data
      ensures received == Deliveries(false, stream)
      ensures |stream| == Total(received) + bytesInvalid + |inputBuf| && |inputBuf| < MESSAGE_MAX
    {
      StepRead(stream, received, needSync, inputBuf, data);
      inputBuf := inputBuf + data;
      stream := stream + data;
      while true
        invariant InStep(stream, received, needSync, inputBuf)
        invariant |stream| == Total(received) + bytesInvalid + |inputBuf|
        invariant stream == old(stream) + data
        decreases |inputBuf|
      {
        var verdict := MsgblockCheck(needSync, inputBuf);
        match verdict
        case NeedMore =>
          break;
        case Block(len) =>
          StepDeliver(stream, received, needSync, inputBuf, len);
          TotalAppend(received, inputBuf[..len]);
          received := received + [inputBuf[..len]];
          inputBuf := inputBuf[len..];
        case Skip(count, sync) =>
          StepDiscard(stream, received, needSync, inputBuf, count, sync);
          bytesInvalid := bytesInvalid + count;
          needSync := sync;
          inputBuf := inputBuf[count..];
      }
      StepRest(stream, received, needSync, inputBuf);
    }
  }

  function Total(blocks: seq<seq<byte>>): nat {
    if blocks == [] then 0 else Total(blocks[..|blocks| - 1]) + |blocks[|blocks| - 1]|
  }

  lemma {:induction false} TotalAppend(blocks: seq<seq<byte>>, b: seq<byte>)
    ensures Total(blocks + [b]) == Total(blocks) + |b|
  {
    assert (blocks + [b])[..|blocks|] == blocks;
  }

  // ----- What a sender's blocks become -----

  function Concat(blocks: seq<seq<byte>>): seq<byte> {
    if blocks == [] then [] else blocks[0] + Concat(blocks[1..])
  }

  /** A stream of well-formed blocks is delivered block by block. */
  lemma {:induction false} StreamOfBlocks(blocks: seq<seq<byte>>)
    requires forall i :: 0 <= i < |blocks| ==> IsBlock(blocks[i])
    ensures Deliveries(false, Concat(blocks)) == blocks
  {
    if blocks == [] {
      TooShort(false, []);
    } else {
      var stream := Concat(blocks);
      StreamOfBlocks(blocks[1..]);
      assert stream[..|blocks[0]|] == blocks[0] && stream[|blocks[0]|..] == Concat(blocks[1..]);
      CheckAccepts(stream, |blocks[0]|);
      BlockDelivers(false, stream);
    }
  }

  /** Resynchronisation: after a damaged block, noise up to the next SYNC is all that is lost. */
  lemma {:induction false} ResyncDelivers(noise: seq<byte>, blocks: seq<seq<byte>>)
    requires FirstSync(noise) == |noise| && blocks != []
    requires forall i :: 0 <= i < |blocks| ==> IsBlock(blocks[i])
    ensures Deliveries(true, noise + [MESSAGE_SYNC] + Concat(blocks)) == blocks
  {
    var stream := noise + [MESSAGE_SYNC] + Concat(blocks);
    assert |Concat(blocks)| >= |blocks[0]| >= MESSAGE_MIN;
    FirstSyncExtends(noise, [MESSAGE_SYNC] + Concat(blocks));
    assert stream == noise + ([MESSAGE_SYNC] + Concat(blocks));
    CheckWaiting(stream);
    SkipDelivers(true, stream);
    assert stream[|noise| + 1..] == Concat(blocks);
    StreamOfBlocks(blocks);
  }

  /** A SYNC in front is skipped. */
  lemma {:induction false} SyncFirst(needSync: bool, more: seq<byte>)
    requires |more| >= MESSAGE_MIN
    ensures Deliveries(needSync, [MESSAGE_SYNC] + more) == Deliveries(false, more)
  {
    var stream := [MESSAGE_SYNC] + more;
    assert stream[0] == MESSAGE_SYNC && FirstSync(stream) == 0;
    CheckRules(needSync, stream);
    SkipDelivers(needSync, stream);
    assert stream[1..] == more;
  }

  // ----- A receiver with something in its buffer -----

  ghost predicate SpellsBlock(buf: seq<byte>) {
    exists n {:trigger buf[..n]} :: 0 <= n <= |buf| && IsBlock(buf[..n])
  }

  /** A place at which a receiver that has delivered nothing looks for a block: the front of its
      buffer, if it is in step, and behind every SYNC. */
  ghost predicate Reached(needSync: bool, junk: seq<byte>, p: nat) {
    p <= |junk| && if p == 0 then !needSync else junk[p - 1] == MESSAGE_SYNC
  }

  /** No well-formed block starts where the receiver looks before the tail. */
  ghost predicate NoFalseBlock(needSync: bool, junk: seq<byte>, tail: seq<byte>) {
    forall p: nat :: Reached(needSync, junk, p) ==> !SpellsBlock((junk + [MESSAGE_SYNC] + tail)[p..])
  }

  /** The header of a block longer than what is there. */
  predicate Announces(buf: seq<byte>) {
    && |buf| >= MESSAGE_MIN && MESSAGE_MIN <= buf[0] as int <= MESSAGE_MAX
    && buf[1] as int / 16 * 16 == MESSAGE_DEST
    && |buf| < buf[0] as int
  }

  /** The receiver comes to a header that announces more than follows. */
  ghost predicate Stuck(needSync: bool, junk: seq<byte>, tail: seq<byte>) {
    exists p: nat :: Reached(needSync, junk, p) && Announces((junk + [MESSAGE_SYNC] + tail)[p..])
  }

  lemma {:induction false} AnnouncedIsAwaited(needSync: bool, buf: seq<byte>)
    requires |buf| >= MESSAGE_MIN
    ensures Check(needSync, buf) == NeedMore <==> !needSync && Announces(buf)
  {
    CheckRules(needSync, buf);
  }

  /** Where the receiver looks behind the first SYNC, and before it. */
  lemma {:induction false} ReachedLater(needSync: bool, junk: seq<byte>, i: nat, p: nat)
    requires i < |junk| && i == FirstSync(junk)
    ensures Reached(needSync, junk, i + 1 + p) <==> Reached(false, junk[i + 1..], p)
    ensures 0 < p <= i ==> !Reached(needSync, junk, p)
  {
    assert p > 0 && i + 1 + p <= |junk| ==> junk[i + 1..][p - 1] == junk[i + 1 + p - 1];
  }

  lemma {:induction false} LaterStream(junk: seq<byte>, tail: seq<byte>, i: nat, p: nat)
    requires i < |junk| && p <= |junk| - i - 1
    ensures (junk + [MESSAGE_SYNC] + tail)[i + 1 + p..] == (junk[i + 1..] + [MESSAGE_SYNC] + tail)[p..]
  {
  }

  lemma {:induction false} NoFalseLater(needSync: bool, junk: seq<byte>, tail: seq<byte>, i: nat)
    requires NoFalseBlock(needSync, junk, tail) && i < |junk| && i == FirstSync(junk)
    ensures NoFalseBlock(false, junk[i + 1..], tail)
  {
    var later := junk[i + 1..];
    forall p: nat | Reached(false, later, p) ensures !SpellsBlock((later + [MESSAGE_SYNC] + tail)[p..])
    {
      ReachedLater(needSync, junk, i, p);
      LaterStream(junk, tail, i, p);
    }
  }

  lemma {:induction false} StuckLater(needSync: bool, junk: seq<byte>, tail: seq<byte>, i: nat)
    requires i < |junk| && i == FirstSync(junk) && (needSync || !Announces(junk + [MESSAGE_SYNC] + tail))
    ensures Stuck(needSync, junk, tail) <==> Stuck(false, junk[i + 1..], tail)
  {
    hide FirstSync, Announces;
    var stream, later := junk + [MESSAGE_SYNC] + tail, junk[i + 1..] + [MESSAGE_SYNC] + tail;
    if Stuck(needSync, junk, tail) {
      var p: nat :| Reached(needSync, junk, p) && Announces(stream[p..]);
      assert stream[0..] == stream;
      ReachedLater(needSync, junk, i, p);
      assert p > i;
      ReachedLater(needSync, junk, i, p - i - 1);
      LaterStream(junk, tail, i, p - i - 1);
      assert Reached(false, junk[i + 1..], p - i - 1) && Announces(later[p - i - 1..]);
    }
    if Stuck(false, junk[i + 1..], tail) {
      var p: nat :| Reached(false, junk[i + 1..], p) && Announces(later[p..]);
      ReachedLater(needSync, junk, i, p);
      LaterStream(junk, tail, i, p);
      assert Reached(needSync, junk, i + 1 + p) && Announces(stream[i + 1 + p..]);
    }
  }

  /** Whatever is in the buffer, in step or not: the receiver is in step behind a SYNC, unless
      it is stuck, or the buffer and what follows spell a block. */
  lemma {:induction false} RealignDelivers(needSync: bool, junk: seq<byte>, tail: seq<byte>)
    requires |tail| >= MESSAGE_MIN && NoFalseBlock(needSync, junk, tail)
    ensures Deliveries(needSync, junk + [MESSAGE_SYNC] + tail) ==
            if Stuck(needSync, junk, tail) then [] else Deliveries(false, tail)
    decreases |junk|
  {
    hide Check, Scan, Announces, SpellsBlock;
    var stream := junk + [MESSAGE_SYNC] + tail;
    assert stream[0..] == stream;
    if !needSync && Announces(stream) {
      assert Reached(needSync, junk, 0);
      Awaiting(needSync, stream);
      return;
    }
    SkipJunk(needSync, junk, tail);
    SkipDelivers(needSync, stream);
    var i := FirstSync(stream);
    FirstSyncExtends(junk, [MESSAGE_SYNC] + tail);
    assert stream == junk + ([MESSAGE_SYNC] + tail);
    if i == |junk| {
      assert stream[i + 1..] == tail;
      assert forall p: nat :: Reached(needSync, junk, p) ==> p == 0 && !needSync;
    } else {
      assert stream[i + 1..] == junk[i + 1..] + [MESSAGE_SYNC] + tail;
      NoFalseLater(needSync, junk, tail, i);
      StuckLater(needSync, junk, tail, i);
      RealignDelivers(false, junk[i + 1..], tail);
    }
  }

  lemma {:induction false} Awaiting(needSync: bool, buf: seq<byte>)
    requires !needSync && Announces(buf)
    ensures Deliveries(needSync, buf) == []
  {
    AnnouncedIsAwaited(needSync, buf);
  }

  lemma {:induction false} SkipJunk(needSync: bool, junk: seq<byte>, tail: seq<byte>)
    requires |tail| >= MESSAGE_MIN && NoFalseBlock(needSync, junk, tail)
    requires needSync || !Announces(junk + [MESSAGE_SYNC] + tail)
    ensures var stream := junk + [MESSAGE_SYNC] + tail;
            FirstSync(stream) <= |junk| && Check(needSync, stream) == Skip(FirstSync(stream) + 1, false)
  {
    hide Scan, Announces, SpellsBlock;
    var stream := junk + [MESSAGE_SYNC] + tail;
    assert stream[|junk|] == MESSAGE_SYNC;
    AnnouncedIsAwaited(needSync, stream);
    CheckExtends(needSync, stream, []);
    assert stream[0..] == stream;
    assert needSync || !SpellsBlock(stream) by {
      if !needSync {
        assert Reached(needSync, junk, 0);
      }
    }
    NotTaken(needSync, stream);
  }

  lemma {:induction false} NotTaken(needSync: bool, buf: seq<byte>)
    ensures Check(needSync, buf).Block? ==> !needSync && SpellsBlock(buf)
  {
    OutOfSyncDeliversNothing(needSync, buf);
    if Check(needSync, buf).Block? {
      CheckAccepts(buf, Check(needSync, buf).len);
    }
  }

  /** A receiver is never stuck before a SYNC followed by the longest block's worth of bytes, nor
      with an empty buffer. */
  lemma {:induction false} NotStuck(needSync: bool, junk: seq<byte>, tail: seq<byte>)
    requires |tail| >= MESSAGE_MAX || junk == []
    ensures !Stuck(needSync, junk, tail)
    ensures junk == [] ==> NoFalseBlock(needSync, junk, tail)
  {
    var stream := junk + [MESSAGE_SYNC] + tail;
    forall p: nat | Reached(needSync, junk, p) ensures !Announces(stream[p..]) {
    }
    if junk == [] {
      assert stream[0..] == stream && stream[0] == MESSAGE_SYNC;
      forall n | 0 <= n <= |stream| ensures !IsBlock(stream[..n]) {
        if n > 0 {
          assert stream[..n][0] == MESSAGE_SYNC;
        }
      }
    }
  }

  /** One retransmission reaches a receiver, whatever is in its buffer, if and only if it is not
      stuck; if it is, nothing arrives. */
  lemma {:induction false} OneRetransmission(needSync: bool, junk: seq<byte>, blocks: seq<seq<byte>>)
    requires blocks != [] && forall i :: 0 <= i < |blocks| ==> IsBlock(blocks[i])
    requires NoFalseBlock(needSync, junk, Concat(blocks))
    ensures var got := Deliveries(needSync, junk + [MESSAGE_SYNC] + Concat(blocks));
            && (got == blocks <==> !Stuck(needSync, junk, Concat(blocks)))
            && (got == [] <==> Stuck(needSync, junk, Concat(blocks)))
  {
    hide Deliveries, NoFalseBlock, Stuck;
    assert |Concat(blocks)| >= |blocks[0]| >= MESSAGE_MIN;
    RealignDelivers(needSync, junk, Concat(blocks));
    StreamOfBlocks(blocks);
  }

  /** The SYNC byte in front of a retransmission brings a receiver with an empty buffer
      back in step, in either state. */
  lemma {:induction false} RetransmitDelivers(needSync: bool, blocks: seq<seq<byte>>)
    requires blocks != [] && forall i :: 0 <= i < |blocks| ==> IsBlock(blocks[i])
    ensures Deliveries(needSync, [MESSAGE_SYNC] + Concat(blocks)) == blocks
  {
    hide Deliveries, NoFalseBlock, Stuck;
    NotStuck(needSync, [], Concat(blocks));
    OneRetransmission(needSync, [], blocks);
    assert [] + [MESSAGE_SYNC] == [MESSAGE_SYNC];
  }

  /** The blocks, and n times SYNC and the blocks again. */
  function Repeated(blocks: seq<seq<byte>>, n: nat): seq<byte> {
    Concat(blocks) + if n == 0 then [] else [MESSAGE_SYNC] + Repeated(blocks, n - 1)
  }

  function Times(blocks: seq<seq<byte>>, n: nat): seq<seq<byte>> {
    if n == 0 then [] else blocks + Times(blocks, n - 1)
  }

  /** Retransmissions on end are delivered one after the other. */
  lemma {:induction false} RepeatedDelivers(blocks: seq<seq<byte>>, n: nat)
    requires blocks != [] && forall i :: 0 <= i < |blocks| ==> IsBlock(blocks[i])
    ensures Deliveries(false, Repeated(blocks, n)) == Times(blocks, n + 1)
  {
    hide Check, Scan, Deliveries, Concat, IsBlock;
    if n == 0 {
      StreamOfBlocks(blocks);
      assert Repeated(blocks, 0) == Concat(blocks) && Times(blocks, 1) == blocks + Times(blocks, 0) == blocks;
    } else {
      var more := Repeated(blocks, n - 1);
      StreamThen(blocks, [MESSAGE_SYNC] + more);
      RepeatedLength(blocks, n - 1);
      SyncFirst(false, more);
      RepeatedDelivers(blocks, n - 1);
      assert Times(blocks, n + 1) == blocks + Times(blocks, n);
    }
  }

  /** Blocks in front of any other bytes. */
  lemma {:induction false} StreamThen(blocks: seq<seq<byte>>, more: seq<byte>)
    requires forall i :: 0 <= i < |blocks| ==> IsBlock(blocks[i])
    ensures Deliveries(false, Concat(blocks) + more) == blocks + Deliveries(false, more)
  {
    hide Check, Scan, Deliveries;
    if blocks == [] {
      assert Concat(blocks) + more == more;
    } else {
      var stream := Concat(blocks) + more;
      StreamThen(blocks[1..], more);
      assert stream[..|blocks[0]|] == blocks[0] && stream[|blocks[0]|..] == Concat(blocks[1..]) + more;
      CheckAccepts(stream, |blocks[0]|);
      BlockDelivers(false, stream);
      assert [blocks[0]] + (blocks[1..] + Deliveries(false, more)) == blocks + Deliveries(false, more);
    }
  }

  lemma {:induction false} RepeatedLength(blocks: seq<seq<byte>>, n: nat)
    requires blocks != [] && forall i :: 0 <= i < |blocks| ==> IsBlock(blocks[i])
    ensures |Repeated(blocks, n)| >= MESSAGE_MIN * (n + 1)
  {
    assert |Concat(blocks)| >= |blocks[0]| >= MESSAGE_MIN;
    if n > 0 {
      RepeatedLength(blocks, n - 1);
    }
  }

  /** Retransmissions on end: all of them arrive, or none while the receiver is stuck; and
      thirteen bring any receiver back in step. */
  lemma {:induction false} RetransmissionsRealign(needSync: bool, junk: seq<byte>, blocks: seq<seq<byte>>, n: nat)
    requires blocks != [] && forall i :: 0 <= i < |blocks| ==> IsBlock(blocks[i])
    requires NoFalseBlock(needSync, junk, Repeated(blocks, n))
    ensures Deliveries(needSync, junk + [MESSAGE_SYNC] + Repeated(blocks, n)) ==
            if Stuck(needSync, junk, Repeated(blocks, n)) then [] else Times(blocks, n + 1)
    ensures n >= 12 ==> !Stuck(needSync, junk, Repeated(blocks, n))
  {
    hide Deliveries, NoFalseBlock, Stuck, Repeated;
    RepeatedLength(blocks, n);
    RealignDelivers(needSync, junk, Repeated(blocks, n));
    RepeatedDelivers(blocks, n);
    if n >= 12 {
      NotStuck(needSync, junk, Repeated(blocks, n));
    }
  }

  /** With two bytes of a longer block in the buffer, one short block is not yet enough. */
  lemma {:induction false} BufferedStart()
    ensures forall block :: IsBlock(block) && |block| == MESSAGE_MIN ==>
              Stuck(false, [64, 0x10], block) && Deliveries(false, [64, 0x10] + [MESSAGE_SYNC] + block) == []
  {
    forall block | IsBlock(block) && |block| == MESSAGE_MIN
      ensures Stuck(false, [64, 0x10], block) && Deliveries(false, [64, 0x10] + [MESSAGE_SYNC] + block) == []
    {
      var stream := [64, 0x10] + [MESSAGE_SYNC] + block;
      assert stream[0..] == stream && Reached(false, [64, 0x10], 0) && Announces(stream[0..]);
      Awaiting(false, stream);
    }
  }
}
