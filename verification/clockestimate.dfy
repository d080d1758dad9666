/**
  Clock estimates (the end of msgblock.c): between 32-bit clocks, 64-bit clocks and times.
*/
module ClockEstimates {
  import opened Common

  /** struct clock_estimate */
  datatype ClockEstimate = ClockEstimate(lastClock: int, convClock: int, convTime: real, estFreq: real)

  /** clock_from_clock32 */
  function ClockFromClock32(ce: ClockEstimate, clock32: int): int {
    ce.lastClock + AsInt32(clock32 - ce.lastClock)
  }

  /** clock_to_time */
  function ClockToTime(ce: ClockEstimate, clock: int): real
    requires ce.estFreq > 0.0
  {
    ce.convTime + (clock - ce.convClock) as real / ce.estFreq
  }

  /** clock_from_time */
  function ClockFromTime(ce: ClockEstimate, time: real): int {
    Truncated(Ticks(ce, time) + 0.5) + ce.convClock
  }

  function Ticks(ce: ClockEstimate, time: real): real {
    (time - ce.convTime) * ce.estFreq
  }

  /** The low 32 bits of a clock give it back if and only if it is within 2^31 ticks of the last
      clock known. */
  lemma {:induction false} Clock32IsExact(ce: ClockEstimate, clock: int)
    ensures ClockFromClock32(ce, clock % WORD) == clock <==> -0x8000_0000 <= clock - ce.lastClock < 0x8000_0000
  {
    var d := clock - ce.lastClock;
    var k := clock / WORD;
    assert clock % WORD - ce.lastClock == d - k * WORD;
    Wraps(d, k);
    Wraps(d, d / WORD);
  }

  lemma {:induction false} Wraps(d: int, k: int)
    ensures (d - k * WORD) % WORD == d % WORD
  {
  }

  /** A clock converted to a time and back is the same clock from the conversion point on, and
      only there: the conversion rounds towards it, so an earlier clock comes back one tick late. */
  lemma {:induction false} TimeRoundTrip(ce: ClockEstimate, clock: int)
    requires ce.estFreq > 0.0
    ensures ClockFromTime(ce, ClockToTime(ce, clock)) == clock <==> clock >= ce.convClock
    ensures clock < ce.convClock ==> ClockFromTime(ce, ClockToTime(ce, clock)) == clock + 1
  {
    var n := clock - ce.convClock;
    var x := n as real;
    ScaledBack(x, ce.estFreq);
    assert ClockToTime(ce, clock) - ce.convTime == x / ce.estFreq;
    HalfUp(n);
  }

  lemma {:induction false} ScaledBack(x: real, f: real)
    requires f > 0.0
    ensures x / f * f == x
  {
  }

  lemma {:induction false} HalfUp(n: int)
    ensures Truncated(n as real + 0.5) == if n >= 0 then n else n + 1
  {
    if n >= 0 {
      FloorIs(n as real + 0.5, n);
    } else {
      FloorIs(-(n as real + 0.5), -n - 1);
    }
  }

  lemma {:induction false} FloorIs(x: real, n: int)
    requires n as real <= x < n as real + 1.0
    ensures x.Floor == n
  {
  }

  /** An earlier time is no later a clock. */
  lemma {:induction false} ClockFromTimeMonotone(ce: ClockEstimate, s: real, t: real)
    requires ce.estFreq > 0.0 && s <= t
    ensures ClockFromTime(ce, s) <= ClockFromTime(ce, t)
  {
    hide Ticks;
    TicksMonotone(ce, s, t);
    TruncatedMonotone(Ticks(ce, s) + 0.5, Ticks(ce, t) + 0.5);
  }

  lemma {:induction false} TicksMonotone(ce: ClockEstimate, s: real, t: real)
    requires ce.estFreq > 0.0 && s <= t
    ensures Ticks(ce, s) <= Ticks(ce, t)
  {
    assert Ticks(ce, t) - Ticks(ce, s) == (t - s) * ce.estFreq;
  }
}
