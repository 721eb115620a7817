/** Python's round(): to the nearest value, ties to the even one, on exact reals. */
module Rounding {
  function RoundHalfEven(x: real): int {
    var below := x.Floor;
    var rest := x - below as real;
    if rest < 0.5 then below
    else if rest > 0.5 then below + 1
    else if below % 2 == 0 then below else below + 1
  }

  function Round2(x: real): real {
    RoundHalfEven(x * 100.0) as real / 100.0
  }

  function Round4(x: real): real {
    RoundHalfEven(x * 10000.0) as real / 10000.0
  }

  lemma RoundMonotone(x: real, y: real)
    requires x <= y
    ensures RoundHalfEven(x) <= RoundHalfEven(y)
  {
    assert x.Floor <= y.Floor;
  }

  lemma RoundIsNearest(x: real)
    ensures -0.5 <= RoundHalfEven(x) as real - x <= 0.5
    ensures RoundHalfEven(x) as real - x in {-0.5, 0.5} ==> RoundHalfEven(x) % 2 == 0
  {
  }

  lemma RoundOfInt(n: int)
    ensures RoundHalfEven(n as real) == n
  {
  }

  lemma Round4Monotone(x: real, y: real)
    requires x <= y
    ensures Round4(x) <= Round4(y)
  {
    RoundMonotone(x * 10000.0, y * 10000.0);
  }

  /** A value that already has four decimals is not moved by rounding to four decimals. */
  lemma Round4Fixed(x: real, n: int)
    requires x * 10000.0 == n as real
    ensures Round4(x) == x
  {
    RoundOfInt(n);
  }

  /** Rounding a value of [0,1] to four decimals stays in [0,1]. */
  lemma Round4Unit(x: real)
    requires 0.0 <= x <= 1.0
    ensures 0.0 <= Round4(x) <= 1.0
  {
    RoundOfInt(0);
    RoundOfInt(10000);
    RoundMonotone(0.0, x * 10000.0);
    RoundMonotone(x * 10000.0, 10000.0);
  }

  /** Comparing a quotient with a bound, without division. */
  lemma QuotientBound(c: real, t: real, bound: real)
    requires t > 0.0
    ensures c / t <= bound <==> c <= bound * t
    ensures c / t >= bound <==> c >= bound * t
    ensures c >= 0.0 ==> c / t >= 0.0
  {
    var q := c / t;
    assert q * t == c;
    if q <= bound {
      assert (bound - q) * t >= 0.0;
    } else {
      assert (q - bound) * t > 0.0;
    }
    if q < 0.0 {
      assert (-q) * t > 0.0;
    }
  }
}
