/**
  Small things that several modules use.
*/
module Common {
  datatype Option<+T> = None | Some(value: T)

  /** Predicates with much behind them are sealed by a quantifier over this type, so that only
      the lemmas that name `Whole` see inside. */
  datatype Seal = Whole

  function Min(x: real, y: real): real {
    if x <= y then x else y
  }

  function Max(x: real, y: real): real {
    if x <= y then y else x
  }

  function Abs(x: real): real {
    if x < 0.0 then -x else x
  }

  const WORD := 0x1_0000_0000
  const HALF_WORD := 0x8000_0000
  const UINT64_MAX := 0xffff_ffff_ffff_ffff
  const MAX_CLOCK := 0x7fff_ffff_ffff_ffff

  /** The low 32 bits of a number as a signed one. */
  function AsInt32(x: int): (r: int)
    ensures 0 <= x < HALF_WORD ==> r == x
    ensures HALF_WORD <= x < WORD ==> r == x - WORD
  {
    if x % WORD >= HALF_WORD then x % WORD - WORD else x % WORD
  }

  /** A C cast from double to an integer type. */
  function Truncated(x: real): int {
    if x >= 0.0 then x.Floor else -(-x).Floor
  }

  lemma {:induction false} TruncatedMonotone(x: real, y: real)
    requires x <= y
    ensures Truncated(x) <= Truncated(y)
  {
  }
}
