/** Python's `round` over exact reals. */
module Rounding {
  /** Round half to even. */
  function RoundInt(x: real): int {
    var down := x.Floor;
    var part := x - down as real;
    if part < 0.5 || (part == 0.5 && down % 2 == 0) then down else down + 1
  }

  /** To two decimals. */
  function Round2(x: real): real {
    RoundInt(x * 100.0) as real / 100.0
  }

  /** To four decimals. */
  function Round4(x: real): real {
    RoundInt(x * 10000.0) as real / 10000.0
  }

  /** The nearest integer, and of two nearest the even one. */
  lemma RoundNearest(x: real)
    ensures -0.5 <= RoundInt(x) as real - x <= 0.5
    ensures RoundInt(x) as real - x == 0.5 || RoundInt(x) as real - x == -0.5 ==> RoundInt(x) % 2 == 0
  {
  }

  lemma RoundMonotone(x: real, y: real)
    requires x <= y
    ensures RoundInt(x) <= RoundInt(y)
  {
  }

  lemma Round2Monotone(x: real, y: real)
    requires x <= y
    ensures Round2(x) <= Round2(y)
  {
    RoundMonotone(x * 100.0, y * 100.0);
  }
}
