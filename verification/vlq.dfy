/**
  The variable length integers of the wire protocol: encode_int, parse_int and
  message_alloc_and_encode in msgblock.c, PT_uint32 in msgproto.py.

  A 32-bit word is a number below 2^32.  Bytes are numbers below 256, and the shifts and
  masks of the source are written as divisions and remainders by powers of two.
*/
module Vlq {
  newtype byte = x: int | 0 <= x < 256
  type uint32 = x: int | 0 <= x < 0x1_0000_0000

  const MESSAGE_PAYLOAD_MAX := 59

  /** int32_t sv = v */
  function Signed(v: uint32): int {
    if v < 0x8000_0000 then v else v - 0x1_0000_0000
  }

  const P1 := 0x80
  const P2 := 0x4000
  const P3 := 0x20_0000
  const P4 := 0x1000_0000
  const P5 := 0x8_0000_0000

  /** (v >> k) & 0x7f where p is 2^k, for any integer v. */
  function Group(v: int, p: int): (g: int)
    requires 0 < p
    ensures 0 <= g < 128
  {
    (v / p) % 128
  }

  /** A group with the continuation bit. */
  function More(g: int): byte
    requires 0 <= g < 128
  {
    (g + 128) as byte
  }

  function Last(g: int): byte
    requires 0 <= g < 128
  {
    g as byte
  }

  /** encode_int: the C encoder chooses the length by the signed value; v>>28 needs no mask. */
  function EncodeInt(v: uint32): (out: seq<byte>)
    ensures 1 <= |out| <= 5
  {
    var sv := Signed(v);
    var f4 := [Last(Group(v, 1))];
    if -0x20 <= sv < 0x60 then f4 else
    var f3 := [More(Group(v, P1))] + f4;
    if -0x1000 <= sv < 0x3000 then f3 else
    var f2 := [More(Group(v, P2))] + f3;
    if -0x80000 <= sv < 0x180000 then f2 else
    var f1 := [More(Group(v, P3))] + f2;
    if -0x4000000 <= sv < 0xc000000 then f1 else
    [More(v / P4)] + f1
  }

  /** PT_uint32.encode: the Python encoder takes any integer. */
  function EncodePython(v: int): (out: seq<byte>)
    ensures 1 <= |out| <= 5
  {
    (if v >= 0xc000000 || v < -0x4000000 then [More(Group(v, P4))] else [])
    + (if v >= 0x180000 || v < -0x80000 then [More(Group(v, P3))] else [])
    + (if v >= 0x3000 || v < -0x1000 then [More(Group(v, P2))] else [])
    + (if v >= 0x60 || v < -0x20 then [More(Group(v, P1))] else [])
    + [Last(Group(v, 1))]
  }

  // ----- Parsing -----

  /** v = c & 0x7f, sign-extended when both bits 0x60 are set. */
  function FirstGroup(c: byte): int {
    var g := (c as int) % 128;
    if g >= 96 then g - 128 else g
  }

  /** The rest of a number: keep shifting in groups while the top bit is set. */
  function ParseRest(s: seq<byte>, v: int): (r: (int, nat))
    requires exists i :: 0 <= i < |s| && s[i] < 128
    ensures 0 < r.1 <= |s|
  {
    var v' := v * 128 + (s[0] as int) % 128;
    if s[0] < 128 then (v', 1)
    else
      assert exists i :: 0 <= i < |s[1..]| && s[1..][i] < 128 by {
        var i :| 0 <= i < |s| && s[i] < 128;
        assert s[1..][i - 1] == s[i];
      }
      var (w, n) := ParseRest(s[1..], v');
      (w, n + 1)
  }

  /** The integer at the start of s, before reduction to 32 bits, and its length. */
  function ParseWide(s: seq<byte>): (r: (int, nat))
    requires Terminated(s)
    ensures 0 < r.1 <= |s|
  {
    if s[0] < 128 then (FirstGroup(s[0]), 1)
    else
      assert exists i :: 0 <= i < |s[1..]| && s[1..][i] < 128 by {
        var i :| 0 <= i < |s| && s[i] < 128;
        assert s[1..][i - 1] == s[i];
      }
      var (w, n) := ParseRest(s[1..], FirstGroup(s[0]));
      (w, n + 1)
  }

  /** Some byte ends a number, so that parsing stays inside s. */
  ghost predicate Terminated(s: seq<byte>) {
    exists i :: 0 <= i < |s| && s[i] < 128
  }

  lemma {:induction false} HeadMore(g: int, s: seq<byte>)
    requires 0 <= g < 128 && Terminated(s)
    ensures Terminated([More(g)] + s)
    ensures var (w, n) := ParseRest(s, FirstGroup(More(g))); ParseWide([More(g)] + s) == (w, n + 1)
  {
    var t := [More(g)] + s;
    var i :| 0 <= i < |s| && s[i] < 128;
    assert t[i + 1] == s[i] && t[1..] == s;
  }

  lemma {:induction false} RestMore(g: int, s: seq<byte>, v: int)
    requires 0 <= g < 128 && Terminated(s)
    ensures Terminated([More(g)] + s)
    ensures var (w, n) := ParseRest(s, v * 128 + g); ParseRest([More(g)] + s, v) == (w, n + 1)
  {
    var t := [More(g)] + s;
    var i :| 0 <= i < |s| && s[i] < 128;
    assert t[i + 1] == s[i] && t[1..] == s;
  }

  lemma {:induction false} TerminatedLast(g: int, s: seq<byte>)
    requires 0 <= g < 128
    ensures Terminated([Last(g)] + s)
  {
    assert ([Last(g)] + s)[0] < 128;
  }

  /** The number that n + 1 groups stand for, most significant first. */
  function Horner(g: seq<int>, v: int): int {
    if g == [] then v else Horner(g[1..], v * 128 + g[0])
  }

  ghost predicate Groups(g: seq<int>) {
    forall i :: 0 <= i < |g| ==> 0 <= g[i] < 128
  }

  function Bytes(g: seq<int>): seq<byte>
    requires g != [] && Groups(g)
  {
    if |g| == 1 then [Last(g[0])] else [More(g[0])] + Bytes(g[1..])
  }

  lemma {:induction false} RestOfBytes(g: seq<int>, v: int, s: seq<byte>)
    requires g != [] && Groups(g)
    ensures Terminated(Bytes(g) + s)
    ensures ParseRest(Bytes(g) + s, v) == (Horner(g, v), |g|)
  {
    if |g| == 1 {
      TerminatedLast(g[0], s);
      assert g[1..] == [];
    } else {
      RestOfBytes(g[1..], v * 128 + g[0], s);
      RestMore(g[0], Bytes(g[1..]) + s, v);
      assert Bytes(g) + s == [More(g[0])] + (Bytes(g[1..]) + s);
    }
  }

  function SignExtend(g: int): int {
    if g >= 96 then g - 128 else g
  }

  lemma {:induction false} FirstOf(g: int)
    requires 0 <= g < 128
    ensures FirstGroup(More(g)) == SignExtend(g) && FirstGroup(Last(g)) == SignExtend(g)
  {
    assert (More(g) as int) % 128 == g && (Last(g) as int) % 128 == g;
  }

  lemma {:induction false} ParseLast(g: int, s: seq<byte>)
    requires 0 <= g < 128
    ensures Terminated([Last(g)] + s) && ParseWide([Last(g)] + s) == (SignExtend(g), 1)
  {
    TerminatedLast(g, s);
    FirstOf(g);
    assert ([Last(g)] + s)[0] == Last(g) < 128;
  }

  lemma {:induction false} ParseMore(g: int, rest: seq<int>, s: seq<byte>)
    requires 0 <= g < 128 && rest != [] && Groups(rest)
    ensures Terminated([More(g)] + (Bytes(rest) + s))
    ensures ParseWide([More(g)] + (Bytes(rest) + s)) == (Horner(rest, SignExtend(g)), |rest| + 1)
  {
    FirstOf(g);
    RestOfBytes(rest, SignExtend(g), s);
    HeadMore(g, Bytes(rest) + s);
  }

  lemma {:induction false} ParseBytes(g: seq<int>, s: seq<byte>)
    requires g != [] && Groups(g)
    ensures Terminated(Bytes(g) + s)
    ensures ParseWide(Bytes(g) + s) == (Horner(g[1..], SignExtend(g[0])), |g|)
  {
    if |g| == 1 {
      ParseLast(g[0], s);
      assert g[1..] == [];
    } else {
      ParseMore(g[0], g[1..], s);
      BytesFirst(g, s);
    }
  }

  lemma {:induction false} BytesFirst(g: seq<int>, s: seq<byte>)
    requires |g| > 1 && Groups(g)
    ensures Bytes(g) + s == [More(g[0])] + (Bytes(g[1..]) + s)
  {
  }

  // ----- Round trips -----

  /** 128 to the power k. */
  function Place(k: nat): (p: int)
    requires k <= 5
    ensures 0 < p
  {
    if k == 0 then 1 else if k == 1 then P1 else if k == 2 then P2 else if k == 3 then P3
    else if k == 4 then P4 else P5
  }

  /** The groups of v, n of them, most significant first. */
  function GroupsOf(v: int, n: nat): (g: seq<int>)
    requires n <= 5
    ensures |g| == n && Groups(g)
  {
    if n == 0 then [] else [Group(v, Place(n - 1))] + GroupsOf(v, n - 1)
  }

  /** How many groups the encoders use for a signed value. */
  function Count(v: int): (n: nat)
    ensures 1 <= n <= 5
  {
    if -0x20 <= v < 0x60 then 1
    else if -0x1000 <= v < 0x3000 then 2
    else if -0x80000 <= v < 0x180000 then 3
    else if -0x4000000 <= v < 0xc000000 then 4
    else 5
  }

  lemma {:induction false} BytesMore(g: int, s: seq<int>)
    requires Groups([g] + s) && s != []
    ensures Groups(s) && 0 <= g < 128
    ensures Bytes([g] + s) == [More(g)] + Bytes(s)
  {
    assert ([g] + s)[0] == g && ([g] + s)[1..] == s;
    forall i | 0 <= i < |s| ensures 0 <= s[i] < 128 {
      assert ([g] + s)[i + 1] == s[i];
    }
  }

  /** n groups of v, spelled out as the encoders write them. */
  function Spelled(v: int, n: nat): seq<byte>
    requires 1 <= n <= 5
  {
    if n == 1 then [Last(Group(v, 1))] else [More(Group(v, Place(n - 1)))] + Spelled(v, n - 1)
  }

  lemma {:induction false} SpelledIsBytes(v: int, n: nat)
    requires 1 <= n <= 5
    ensures Spelled(v, n) == Bytes(GroupsOf(v, n))
  {
    if n > 1 {
      SpelledIsBytes(v, n - 1);
      BytesMore(Group(v, Place(n - 1)), GroupsOf(v, n - 1));
    } else {
      assert GroupsOf(v, 0) == [];
    }
  }

  lemma {:induction false} EncodeIntIsSpelled(v: uint32)
    ensures EncodeInt(v) == Spelled(v, Count(Signed(v)))
  {
    assert v / P4 == Group(v, P4);
    SpelledUpTo(v);
  }

  lemma {:induction false} SpelledUpTo(v: int)
    ensures Spelled(v, 1) == [Last(Group(v, 1))]
    ensures Spelled(v, 2) == [More(Group(v, P1))] + Spelled(v, 1)
    ensures Spelled(v, 3) == [More(Group(v, P2))] + Spelled(v, 2)
    ensures Spelled(v, 4) == [More(Group(v, P3))] + Spelled(v, 3)
    ensures Spelled(v, 5) == [More(Group(v, P4))] + Spelled(v, 4)
  {
  }

  lemma {:induction false} EncodePythonIsSpelled(v: int)
    ensures EncodePython(v) == Spelled(v, Count(v))
  {
    SpelledUpTo(v);
  }

  lemma {:induction false} SplitMod(v: int, k: nat)
    requires k < 5
    ensures v % Place(k + 1) == Group(v, Place(k)) * Place(k) + v % Place(k)
  {
  }

  lemma {:induction false} HornerGroups(v: int, n: nat, a: int)
    requires n <= 5
    ensures Horner(GroupsOf(v, n), a) == a * Place(n) + v % Place(n)
  {
    if n > 0 {
      var g, p := Group(v, Place(n - 1)), Place(n - 1);
      assert Place(n) == 128 * p;
      assert ([g] + GroupsOf(v, n - 1))[1..] == GroupsOf(v, n - 1);
      hide Place, Group;
      HornerGroups(v, n - 1, a * 128 + g);
      SplitMod(v, n - 1);
      Distribute(a, g, p);
    }
  }

  lemma {:induction false} Distribute(a: int, g: int, p: int)
    ensures (a * 128 + g) * p == a * (128 * p) + g * p
  {
  }

  /** What any parser reassembles from n groups of v: the top group sign-extended. */
  function Reassembled(v: int, n: nat): int
    requires 1 <= n <= 5
  {
    SignExtend(Group(v, Place(n - 1))) * Place(n - 1) + v % Place(n - 1)
  }

  lemma {:induction false} ParseSpelled(v: int, n: nat, s: seq<byte>)
    requires 1 <= n <= 5
    ensures Terminated(Spelled(v, n) + s)
    ensures ParseWide(Spelled(v, n) + s) == (Reassembled(v, n), n)
  {
    SpelledIsBytes(v, n);
    ParseBytes(GroupsOf(v, n), s);
    assert GroupsOf(v, n)[1..] == GroupsOf(v, n - 1);
    HornerGroups(v, n - 1, SignExtend(Group(v, Place(n - 1))));
  }

  lemma {:induction false} ReassembleSmall(v: int, n: nat)
    requires 1 <= n <= 5 && -32 * Place(n - 1) <= v < 96 * Place(n - 1)
    ensures Reassembled(v, n) == v
  {
    hide Place;
    var p := Place(n - 1);
    TopGroup(v, p);
    assert v == v / p * p + v % p;
  }

  lemma {:induction false} TopGroup(v: int, p: int)
    requires p > 0 && -32 * p <= v < 96 * p
    ensures SignExtend(Group(v, p)) == v / p
  {
    QuotientBounds(v, p, -32, 96);
  }

  lemma {:induction false} QuotientBounds(v: int, p: int, lo: int, hi: int)
    requires p > 0 && lo * p <= v < hi * p
    ensures lo <= v / p < hi
  {
    var q := v / p;
    QuotientOf(v, p);
    if q < lo {
      ScaledUp(q + 1, lo, p);
    }
    if q >= hi {
      ScaledUp(hi, q, p);
    }
  }

  lemma {:induction false} QuotientOf(v: int, p: int)
    requires p > 0
    ensures v / p * p <= v < (v / p + 1) * p
  {
  }

  lemma {:induction false} ScaledUp(x: int, y: int, p: int)
    requires p > 0 && x <= y
    ensures x * p <= y * p
  {
  }

  lemma {:induction false} ReassembleWide(v: int)
    ensures (Reassembled(v, 5) - v) % 0x8_0000_0000 == 0
  {
  }

  // ----- The four combinations of encoder and parser -----

  /** parse_int: the value modulo 2^32, and the number of bytes read. */
  function ParseInt(s: seq<byte>): (r: (uint32, nat))
    requires Terminated(s)
    ensures 0 < r.1 <= |s|
  {
    var (w, n) := ParseWide(s);
    (w % 0x1_0000_0000, n)
  }

  /** C to C: every word comes back, and what follows is not touched. */
  lemma {:induction false} RoundTrip(v: uint32, s: seq<byte>)
    ensures Terminated(EncodeInt(v) + s) && ParseInt(EncodeInt(v) + s) == (v, |EncodeInt(v)|)
  {
    EncodeIntIsSpelled(v);
    ParseSpelled(v, Count(Signed(v)), s);
    SpelledLength(v, Count(Signed(v)));
    WordFromGroups(v);
  }

  lemma {:induction false} SpelledLength(v: int, n: nat)
    requires 1 <= n <= 5
    ensures |Spelled(v, n)| == n
  {
    if n > 1 {
      SpelledLength(v, n - 1);
    }
  }

  lemma {:induction false} ShiftedGroup(v: uint32, k: nat)
    requires k <= 3 && v >= 0x8000_0000
    ensures Group(v, Place(k)) == Group(v - 0x1_0000_0000, Place(k))
    ensures v % Place(k) == (v - 0x1_0000_0000) % Place(k)
  {
    var w := v - 0x1_0000_0000;
    if k == 0 {
      assert v / 1 == w / 1 + 0x1_0000_0000;
    } else if k == 1 {
      assert v / P1 == w / P1 + 0x200_0000;
    } else if k == 2 {
      assert v / P2 == w / P2 + 0x4_0000;
    } else {
      assert v / P3 == w / P3 + 0x800;
    }
  }

  /** Up to four groups, a word and its signed value look the same. */
  lemma {:induction false} SignedGroups(v: uint32, n: nat)
    requires 1 <= n <= 4
    ensures Reassembled(v, n) == Reassembled(Signed(v), n)
  {
    if v >= 0x8000_0000 {
      ShiftedGroup(v, n - 1);
    }
  }

  lemma {:induction false} CountFits(v: int)
    ensures Count(v) < 5 ==> -32 * Place(Count(v) - 1) <= v < 96 * Place(Count(v) - 1)
  {
  }

  /** What comes out of the groups the C encoder writes. */
  lemma {:induction false} WordFromGroups(v: uint32)
    ensures Count(Signed(v)) < 5 ==> Reassembled(v, Count(Signed(v))) == Signed(v)
    ensures Count(Signed(v)) == 5 ==> Reassembled(v, 5) == v
    ensures Reassembled(v, Count(Signed(v))) % 0x1_0000_0000 == v
  {
    hide Place, Group, Reassembled, Count;
    var n := Count(Signed(v));
    SignedWord(v);
    if n < 5 {
      SignedGroups(v, n);
      CountFits(Signed(v));
      ReassembleSmall(Signed(v), n);
    } else {
      WordFits(v);
      ReassembleSmall(v, 5);
    }
  }

  lemma {:induction false} SignedWord(v: uint32)
    ensures Signed(v) % 0x1_0000_0000 == v % 0x1_0000_0000 == v
  {
  }

  lemma {:induction false} WordFits(v: uint32)
    ensures -32 * Place(4) <= v < 96 * Place(4)
  {
  }

  /** What comes out of the groups the Python encoder writes. */
  lemma {:induction false} IntFromGroups(v: int)
    ensures Count(v) < 5 ==> Reassembled(v, Count(v)) == v
    ensures -0x2_0000_0000 <= v < 0x6_0000_0000 ==> Reassembled(v, Count(v)) == v
    ensures Reassembled(v, Count(v)) % 0x1_0000_0000 == v % 0x1_0000_0000
  {
    if Count(v) < 5 {
      CountFits(v);
      ReassembleSmall(v, Count(v));
    } else {
      ReassembleWide(v);
      SameWord(Reassembled(v, 5), v);
      if -0x2_0000_0000 <= v < 0x6_0000_0000 {
        ReassembleSmall(v, 5);
      }
    }
  }

  lemma {:induction false} SameWord(w: int, v: int)
    requires (w - v) % 0x8_0000_0000 == 0
    ensures w % 0x1_0000_0000 == v % 0x1_0000_0000
  {
    var k := (w - v) / 0x8_0000_0000;
    assert w == v + (8 * k) * 0x1_0000_0000;
  }

  lemma {:induction false} PythonSpells(v: int, s: seq<byte>)
    ensures Terminated(EncodePython(v) + s) && |EncodePython(v)| == Count(v)
    ensures ParseWide(EncodePython(v) + s) == (Reassembled(v, Count(v)), Count(v))
  {
    EncodePythonIsSpelled(v);
    ParseSpelled(v, Count(v), s);
    SpelledLength(v, Count(v));
  }

  /** Python to C: any integer arrives modulo 2^32. */
  lemma {:induction false} PythonToC(v: int, s: seq<byte>)
    ensures Terminated(EncodePython(v) + s)
    ensures ParseInt(EncodePython(v) + s) == (v % 0x1_0000_0000, |EncodePython(v)|)
  {
    PythonSpells(v, s);
    IntFromGroups(v);
  }

  /** PT_uint32.parse, and the signed variants that skip the final mask. */
  function ParsePython(s: seq<byte>, signed: bool): (r: (int, nat))
    requires Terminated(s)
  {
    var (w, n) := ParseWide(s);
    (if signed then w else w % 0x1_0000_0000, n)
  }

  lemma {:induction false} FiveGroupsRange(v: int)
    ensures -0x2_0000_0000 <= Reassembled(v, 5) < 0x6_0000_0000
  {
  }

  /** Python to Python: a signed parser returns exactly the integers that fit five groups, an
      unsigned one exactly the words. */
  lemma {:induction false} PythonRoundTrip(v: int, s: seq<byte>, signed: bool)
    ensures Terminated(EncodePython(v) + s) && ParsePython(EncodePython(v) + s, signed).1 == |EncodePython(v)|
    ensures ParsePython(EncodePython(v) + s, signed).0 == v <==>
            if signed then -0x2_0000_0000 <= v < 0x6_0000_0000 else 0 <= v < 0x1_0000_0000
  {
    PythonSpells(v, s);
    PythonReturns(v, signed);
  }

  lemma {:induction false} PythonReturns(v: int, signed: bool)
    ensures var w := Reassembled(v, Count(v));
            (if signed then w else w % 0x1_0000_0000) == v <==>
            if signed then -0x2_0000_0000 <= v < 0x6_0000_0000 else 0 <= v < 0x1_0000_0000
  {
    IntFromGroups(v);
    FiveGroupsRange(v);
  }

  /** C to Python: the unsigned parser returns the word, the signed one its signed value,
      except that a five-byte encoding loses the sign. */
  lemma {:induction false} CToPython(v: uint32, s: seq<byte>, signed: bool)
    ensures Terminated(EncodeInt(v) + s)
    ensures ParsePython(EncodeInt(v) + s, signed) ==
            (if signed && |EncodeInt(v)| < 5 then Signed(v) else v, |EncodeInt(v)|)
  {
    EncodeIntIsSpelled(v);
    ParseSpelled(v, Count(Signed(v)), s);
    SpelledLength(v, Count(Signed(v)));
    WordFromGroups(v);
  }

  /** A signed Python parser understands a word of the C encoder as the signed number meant if and
      only if that is not below -0x4000000. */
  lemma {:induction false} SignKept(v: uint32, s: seq<byte>)
    ensures Terminated(EncodeInt(v) + s)
    ensures ParsePython(EncodeInt(v) + s, true).0 == Signed(v) <==> -0x4000000 <= Signed(v)
  {
    CToPython(v, s, true);
  }

  /** The lowest 32-bit number is encoded in five bytes and comes out positive. */
  lemma {:induction false} SignLost(s: seq<byte>)
    ensures EncodeInt(0x8000_0000) == [0x88, 0x80, 0x80, 0x80, 0x00] && Signed(0x8000_0000) == -0x8000_0000
    ensures Terminated([0x88, 0x80, 0x80, 0x80, 0x00] + s)
    ensures ParsePython([0x88, 0x80, 0x80, 0x80, 0x00] + s, true) == (0x8000_0000, 5)
  {
    CToPython(0x8000_0000, s, true);
  }
}
