/**
  The checksum of a message block: msgblock_crc16_ccitt in msgblock.c and crc16_ccitt
  in msgproto.py, against the bit-serial register of the FCS in RFC 1662, appendix C.2
  (without its final complement).
*/
/** One step of the checksum register. */
module CrcStep {

  // ----- The reference: one bit at a time -----

  function BitStep(crc: bv16): bv16 {
    if crc & 1 == 1 then (crc >> 1) ^ 0x8408 else crc >> 1
  }

  function NibbleStep(crc: bv16): bv16 {
    BitStep(BitStep(BitStep(BitStep(crc))))
  }

  function SerialStep(crc: bv16, data: bv8): bv16 {
    NibbleStep(NibbleStep(crc ^ (data as bv16)))
  }

  // ----- The byte-at-a-time form of the source -----

  function High(crc: bv16): bv16 {
    crc >> 8
  }

  /** The byte that a step mixes in: data combined with the low byte of the register. */
  function LowByte(crc: bv16, data: bv8): bv16 {
    (data as bv16) ^ (crc & 0xff)
  }

  /** data ^= data << 4, in a byte. */
  function Spread(z: bv16): bv16 {
    (z ^ (z << 4)) & 0xff
  }

  function Combine(d: bv16, top: bv16): bv16 {
    ((d << 8) | top) ^ (d >> 4) ^ (d << 3)
  }

  function ByteStep(crc: bv16, data: bv8): bv16 {
    Combine(Spread(LowByte(crc, data)), High(crc))
  }

  /** The Python form masks before the shift instead of after it. */
  function PythonSpread(z: bv16): bv16 {
    z ^ ((z & 0x0f) << 4)
  }

  function PythonStep(crc: bv16, data: bv8): bv16 {
    Combine(PythonSpread(LowByte(crc, data)), High(crc))
  }

  // ----- Both forms agree -----

  function BitForm(crc: bv16): bv16 {
    (crc >> 1) ^ ((crc & 1) << 15) ^ ((crc & 1) << 10) ^ ((crc & 1) << 3)
  }

  function NibbleForm(crc: bv16): bv16 {
    var n := crc & 0xf;
    (crc >> 4) ^ (n << 12) ^ (n << 7) ^ n
  }

  lemma {:induction false} BitStepForm(crc: bv16)
    ensures BitStep(crc) == BitForm(crc)
  {
    var b := crc & 1;
    assert b == 0 || b == 1;
  }

  lemma {:induction false} FourBits(crc: bv16)
    ensures BitForm(BitForm(BitForm(BitForm(crc)))) == NibbleForm(crc)
  {
  }

  lemma {:induction false} NibbleStepForm(crc: bv16)
    ensures NibbleStep(crc) == NibbleForm(crc)
  {
    var c1 := BitForm(crc);
    var c2 := BitForm(c1);
    BitStepForm(crc);
    BitStepForm(c1);
    BitStepForm(c2);
    BitStepForm(BitForm(c2));
    FourBits(crc);
  }

  lemma {:induction false} TwoNibbles(crc: bv16, data: bv8)
    ensures ByteStep(crc, data) == NibbleForm(NibbleForm(crc ^ (data as bv16)))
  {
  }

  lemma {:induction false} ByteStepIsSerial(crc: bv16, data: bv8)
    ensures ByteStep(crc, data) == SerialStep(crc, data)
  {
    TwoNibbles(crc, data);
    NibbleStepForm(crc ^ (data as bv16));
    NibbleStepForm(NibbleForm(crc ^ (data as bv16)));
  }

  lemma {:induction false} MaskedShift(z: bv16)
    requires z <= 0xff
    ensures PythonSpread(z) == Spread(z)
  {
  }

  lemma {:induction false} PythonStepIsByteStep(crc: bv16, data: bv8)
    ensures PythonStep(crc, data) == ByteStep(crc, data)
  {
    assert LowByte(crc, data) <= 0xff;
    MaskedShift(LowByte(crc, data));
  }

  // ----- A step loses nothing -----

  /** Recovers the mixed-in byte from the register after a step. */
  function Undo(r: bv16): bv16 {
    var d := (r >> 8) ^ (r >> 13);
    (d ^ (d << 4)) & 0xff
  }

  lemma {:induction false} UndoStep(crc: bv16, data: bv8)
    ensures Undo(ByteStep(crc, data)) == LowByte(crc, data)
  {
  }

  lemma {:induction false} Unmix(d: bv16, top: bv16)
    requires d <= 0xff && top <= 0xff
    ensures Combine(d, top) ^ Combine(d, 0) == top
  {
    assert (d << 8) | top == (d << 8) ^ top;
  }

  lemma {:induction false} PartsAreBytes(crc: bv16, z: bv16)
    ensures High(crc) <= 0xff && Spread(z) <= 0xff
  {
  }

  lemma {:induction false} UnmixStep(crc: bv16, data: bv8)
    ensures ByteStep(crc, data) ^ Combine(Spread(LowByte(crc, data)), 0) == High(crc)
  {
    PartsAreBytes(crc, LowByte(crc, data));
    Unmix(Spread(LowByte(crc, data)), High(crc));
  }

  lemma {:induction false} HighFixesUndo(r: bv16, s: bv16)
    requires High(r) == High(s)
    ensures Undo(r) == Undo(s)
  {
  }

  lemma {:induction false} SameHalves(c: bv16, d: bv16, x: bv8)
    requires High(c) == High(d) && LowByte(c, x) == LowByte(d, x)
    ensures c == d
  {
  }

  lemma {:induction false} SameData(c: bv16, x: bv8, y: bv8)
    requires LowByte(c, x) == LowByte(c, y)
    ensures x == y
  {
  }

  lemma {:induction false} StepInjective(c: bv16, d: bv16, x: bv8, y: bv8)
    requires ByteStep(c, x) == ByteStep(d, y)
    ensures High(c) == High(d) && LowByte(c, x) == LowByte(d, y)
  {
    UndoStep(c, x);
    UndoStep(d, y);
    UnmixStep(c, x);
    UnmixStep(d, y);
  }

  lemma {:induction false} RegisterInjective(c: bv16, d: bv16, x: bv8)
    requires ByteStep(c, x) == ByteStep(d, x)
    ensures c == d
  {
    StepInjective(c, d, x, x);
    SameHalves(c, d, x);
  }

  lemma {:induction false} ByteInjective(c: bv16, x: bv8, y: bv8)
    requires High(ByteStep(c, x)) == High(ByteStep(c, y))
    ensures x == y
  {
    HighFixesUndo(ByteStep(c, x), ByteStep(c, y));
    UndoStep(c, x);
    UndoStep(c, y);
    SameData(c, x, y);
  }

  lemma {:induction false} TwoBytesInjective(c: bv16, x: bv8, y: bv8, x': bv8, y': bv8)
    requires ByteStep(ByteStep(c, x), y) == ByteStep(ByteStep(c, x'), y')
    ensures x == x' && y == y'
  {
    StepInjective(ByteStep(c, x), ByteStep(c, x'), y, y');
    ByteInjective(c, x, x');
    SameData(ByteStep(c, x), y, y');
  }
}

/** The checksum of a buffer. */
module Crc16 {
  import opened CrcStep

  /** How a register takes in a byte. */
  type Step = (bv16, bv8) -> bv16

  /** Feed a buffer through a register that starts at 0xffff. */
  function Fold(step: Step, buf: seq<bv8>): bv16 {
    if buf == [] then 0xffff else step(Fold(step, buf[..|buf| - 1]), buf[|buf| - 1])
  }

  function SerialCrc(buf: seq<bv8>): bv16 {
    Fold(SerialStep, buf)
  }

  method MsgblockCrc16Ccitt(buf: seq<bv8>) returns (crc: bv16)
    ensures crc == SerialCrc(buf)
  {
    crc := RunLoop(ByteStep, buf);
    forall c: bv16, d: bv8 ensures ByteStep(c, d) == SerialStep(c, d) {
      ByteStepIsSerial(c, d);
    }
    SameFold(ByteStep, SerialStep, buf);
  }

  method Crc16CcittPython(buf: seq<bv8>) returns (hi: bv16, lo: bv16)
    ensures hi == SerialCrc(buf) >> 8 && lo == SerialCrc(buf) & 0xff
  {
    var crc := RunLoop(PythonStep, buf);
    forall c: bv16, d: bv8 ensures PythonStep(c, d) == SerialStep(c, d) {
      PythonStepIsByteStep(c, d);
      ByteStepIsSerial(c, d);
    }
    SameFold(PythonStep, SerialStep, buf);
    hi, lo := crc >> 8, crc & 0xff;
  }

  /** The loop over the buffer, for either way to update the register. */
  method RunLoop(step: Step, buf: seq<bv8>) returns (crc: bv16)
    ensures crc == Fold(step, buf)
  {
    crc := 0xffff;
    var i := 0;
    while i < |buf|
      invariant 0 <= i <= |buf| && crc == Fold(step, buf[..i])
    {
      crc := step(crc, buf[i]);
      assert buf[..i + 1][..i] == buf[..i];
      i := i + 1;
    }
    assert buf[..|buf|] == buf;
  }

  lemma {:induction false} SameFold(f: Step, g: Step, buf: seq<bv8>)
    requires forall c, d :: f(c, d) == g(c, d)
    ensures Fold(f, buf) == Fold(g, buf)
  {
    if buf != [] {
      SameFold(f, g, buf[..|buf| - 1]);
    }
  }

  // ----- Error detection -----

  /** A step that never merges two registers, and spreads a damaged byte. */
  ghost predicate Spreads(step: Step) {
    && (forall c, d, x :: step(c, x) == step(d, x) ==> c == d)
    && (forall c, x, y, x', y' :: step(step(c, x), y) == step(step(c, x'), y') ==> x == x' && y == y')
  }

  lemma {:induction false} ByteStepSpreads()
    ensures Spreads(ByteStep)
  {
    forall c: bv16, d: bv16, x: bv8 | ByteStep(c, x) == ByteStep(d, x) ensures c == d {
      RegisterInjective(c, d, x);
    }
    forall c: bv16, x: bv8, y: bv8, x': bv8, y': bv8 | ByteStep(ByteStep(c, x), y) == ByteStep(ByteStep(c, x'), y')
      ensures x == x' && y == y'
    {
      TwoBytesInjective(c, x, y, x', y');
    }
  }

  lemma {:induction false} Separate(step: Step, c: bv16, d: bv16, x: bv8)
    requires Spreads(step) && c != d
    ensures step(c, x) != step(d, x)
  {
  }

  lemma {:induction false} FoldLast(step: Step, x: seq<bv8>, tail: seq<bv8>)
    requires tail != []
    ensures Fold(step, x + tail) == step(Fold(step, x + tail[..|tail| - 1]), tail[|tail| - 1])
  {
    assert (x + tail)[..|x + tail| - 1] == x + tail[..|tail| - 1];
    assert (x + tail)[|x + tail| - 1] == tail[|tail| - 1];
  }

  /** Once two registers differ, the same further bytes never bring them together. */
  lemma {:induction false} DifferenceStays(step: Step, x: seq<bv8>, y: seq<bv8>, tail: seq<bv8>)
    requires Spreads(step) && Fold(step, x) != Fold(step, y)
    ensures Fold(step, x + tail) != Fold(step, y + tail)
  {
    if tail == [] {
      assert x + tail == x && y + tail == y;
    } else {
      var front := tail[..|tail| - 1];
      DifferenceStays(step, x, y, front);
      FoldLast(step, x, tail);
      FoldLast(step, y, tail);
      Separate(step, Fold(step, x + front), Fold(step, y + front), tail[|tail| - 1]);
    }
  }

  lemma {:induction false} FoldTwo(step: Step, head: seq<bv8>, a: bv8, b: bv8)
    ensures Fold(step, head + [a, b]) == step(step(Fold(step, head), a), b)
  {
    assert (head + [a, b])[..|head| + 1] == head + [a];
    assert (head + [a])[..|head|] == head;
  }

  /** Any damage within two neighbouring bytes changes the checksum, whatever surrounds it. */
  lemma {:induction false} DamageDetected(head: seq<bv8>, a: bv8, b: bv8, a': bv8, b': bv8, tail: seq<bv8>)
    requires a != a' || b != b'
    ensures SerialCrc(head + [a, b] + tail) != SerialCrc(head + [a', b'] + tail)
  {
    ByteStepSpreads();
    AsByteSteps(head + [a, b] + tail);
    AsByteSteps(head + [a', b'] + tail);
    SpreadingDetects(ByteStep, head, a, b, a', b', tail);
  }

  lemma {:induction false} AsByteSteps(buf: seq<bv8>)
    ensures SerialCrc(buf) == Fold(ByteStep, buf)
  {
    forall c: bv16, d: bv8 ensures ByteStep(c, d) == SerialStep(c, d) {
      ByteStepIsSerial(c, d);
    }
    SameFold(ByteStep, SerialStep, buf);
  }

  lemma {:induction false} SpreadingDetects(step: Step, head: seq<bv8>, a: bv8, b: bv8, a': bv8, b': bv8,
                                            tail: seq<bv8>)
    requires Spreads(step) && (a != a' || b != b')
    ensures Fold(step, head + [a, b] + tail) != Fold(step, head + [a', b'] + tail)
  {
    FoldTwo(step, head, a, b);
    FoldTwo(step, head, a', b');
    DifferenceStays(step, head + [a, b], head + [a', b'], tail);
  }

  /** Two buffers that differ in exactly one byte never share a checksum. */
  lemma {:induction false} OneByteDetected(x: seq<bv8>, y: seq<bv8>, i: nat)
    requires |x| == |y| && i < |x| && x[i] != y[i]
    requires forall j :: 0 <= j < |x| && j != i ==> x[j] == y[j]
    ensures SerialCrc(x) != SerialCrc(y)
  {
    if |x| == 1 {
      SingleByte(x[0], y[0]);
      assert x == [x[0]] && y == [y[0]];
    } else {
      var k := if i + 1 < |x| then i else i - 1;
      assert x == x[..k] + [x[k], x[k + 1]] + x[k + 2..];
      assert y == x[..k] + [y[k], y[k + 1]] + x[k + 2..];
      DamageDetected(x[..k], x[k], x[k + 1], y[k], y[k + 1], x[k + 2..]);
    }
  }

  lemma {:induction false} SingleByte(a: bv8, b: bv8)
    requires a != b
    ensures SerialCrc([a]) != SerialCrc([b])
  {
    AsByteSteps([a]);
    AsByteSteps([b]);
    var empty: seq<bv8> := [];
    assert [a][..0] == empty && [b][..0] == empty;
    assert Fold(ByteStep, empty) == 0xffff;
    if ByteStep(0xffff, a) == ByteStep(0xffff, b) {
      ByteInjective(0xffff, a, b);
    }
  }
}

module CrcBytes {
  /** The two bytes of a CRC, as numbers. */
  lemma {:induction false} Halves(crc: bv16)
    ensures (crc >> 8) as int * 256 + (crc & 0xff) as int == crc as int
    ensures (crc >> 8) as int < 256 && (crc & 0xff) as int < 256
  {
  }
}
