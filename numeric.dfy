/** Arithmetic helpers shared by the engines: `Math.min` and `+x.toFixed(2)` on reals. */
module Numeric {

  /** `Math.min(x, y)` */
  function Min(x: real, y: real): (m: real)
    ensures m <= x && m <= y
    ensures m == x || m == y
  {
    if x <= y then x else y
  }

  /** Rounds a non-negative value to the nearest hundredth; a tie goes to the larger hundredth. */
  function RoundHalfUp2(x: real): real
  {
    ((x * 100.0 + 0.5).Floor as real) / 100.0
  }

  /**
   * `+x.toFixed(2)` on a mathematical real: the hundredth nearest to x, ties away from
   * zero (toFixed rounds the magnitude and puts the sign back).
   */
  function Round2(x: real): (r: real)
    ensures x - 0.005 <= r <= x + 0.005
    ensures 0.0 <= x ==> 0.0 <= r
    ensures x <= 0.0 ==> r <= 0.0
  {
    var y := if x < 0.0 then -x else x;
    var f := (y * 100.0 + 0.5).Floor;
    assert (f as real) <= y * 100.0 + 0.5 < (f as real) + 1.0;
    if x < 0.0 then -RoundHalfUp2(-x) else RoundHalfUp2(x)
  }

  /** `n / 100`: a whole number of hundredths. */
  function Hundredths(n: int): real
  {
    n as real / 100.0
  }

  function Abs(x: real): (r: real)
    ensures 0.0 <= r && (r == x || r == -x)
  {
    if x < 0.0 then -x else x
  }

  /** The rounded value is a whole number of hundredths. */
  lemma {:induction false} RoundIsHundredths(x: real)
    ensures exists n: int :: Round2(x) == Hundredths(n)
  {
    var y := if x < 0.0 then -x else x;
    var f := (y * 100.0 + 0.5).Floor;
    if x < 0.0 {
      assert Round2(x) == Hundredths(-f);
    } else {
      assert Round2(x) == Hundredths(f);
    }
  }

  /** No whole number of hundredths lies nearer to x than its rounding does. */
  lemma {:induction false} RoundNearest(x: real, n: int)
    ensures Abs(Round2(x) - x) <= Abs(Hundredths(n) - x)
  {
    RoundIsHundredths(x);
    var m :| Round2(x) == Hundredths(m);
    if n != m {
      assert n <= m - 1 || m + 1 <= n;
      assert Abs(Hundredths(n) - Hundredths(m)) >= 0.01;
    }
  }

  /** Rounding never reorders two values. */
  lemma {:induction false} RoundMonotone(x: real, y: real)
    requires x <= y
    ensures Round2(x) <= Round2(y)
  {
    if 0.0 <= x {
      HalfUpMonotone(x, y);
    } else if y < 0.0 {
      HalfUpMonotone(-y, -x);
    }
  }

  lemma {:induction false} HalfUpMonotone(x: real, y: real)
    requires 0.0 <= x <= y
    ensures RoundHalfUp2(x) <= RoundHalfUp2(y)
  {
    var fx, fy := (x * 100.0 + 0.5).Floor, (y * 100.0 + 0.5).Floor;
    assert (fx as real) <= x * 100.0 + 0.5 <= y * 100.0 + 0.5 < (fy as real) + 1.0;
    assert fx <= fy;
    assert (fx as real) / 100.0 <= (fy as real) / 100.0;
  }

  /** A value that already has at most two decimals is left as it is. */
  lemma {:induction false} RoundHundredths(n: int)
    ensures Round2(n as real / 100.0) == n as real / 100.0
  {
    var x := n as real / 100.0;
    if n >= 0 {
      assert x * 100.0 + 0.5 == n as real + 0.5;
      assert (x * 100.0 + 0.5).Floor == n;
    } else {
      assert -x * 100.0 + 0.5 == (-n) as real + 0.5;
      assert (-x * 100.0 + 0.5).Floor == -n;
    }
  }

  /** A percentage in [0, 100] stays in [0, 100] after rounding. */
  lemma {:induction false} RoundPercentInRange(x: real)
    requires 0.0 <= x <= 100.0
    ensures 0.0 <= Round2(x) <= 100.0
  {
    RoundMonotone(x, 100.0);
    RoundHundredths(10000);
  }

  /** A value and its complement to 100, each rounded, add up to 100 within 0.01, and exactly when x has two decimals. */
  lemma {:induction false} RoundComplement(x: real, n: int)
    ensures 99.99 <= Round2(x) + Round2(100.0 - x) <= 100.01
    ensures x == n as real / 100.0 ==> Round2(x) + Round2(100.0 - x) == 100.0
  {
    if x == n as real / 100.0 {
      RoundHundredths(n);
      assert 100.0 - x == (10000 - n) as real / 100.0;
      RoundHundredths(10000 - n);
    }
  }
}
