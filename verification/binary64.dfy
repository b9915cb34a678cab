/** IEEE 754 binary64 (`double`) as far as the model needs it: rounding a
    real to the nearest double, ties to even, as `Convert.ToDouble` does
    to a `decimal` and as the C# compiler does to a `double` literal.
    Decimal magnitudes lie between 1e-28 and 2^96, far inside the normal
    range of doubles, so neither subnormals nor overflow arise, and every
    positive real is a power of two times a value in [1, 2). */
module Binary64 {

  /** The number of steps between doubles in [1, 2): 2^52. */
  const TwoTo52: real := 4503599627370496.0

  /** The unit roundoff 2^-53: half the spacing of doubles in [1, 2). */
  const UnitRoundoff: real := 1.0 / 9007199254740992.0

  function Abs(a: real): real {
    if a < 0.0 then -a else a
  }

  /** A positive real that a double represents exactly: a power of two
      times an integer significand in [2^52, 2^53), that is, a real that
      scaled by powers of two into [1, 2) is a multiple of 2^-52. */
  predicate PositiveDouble(r: real)
    requires r > 0.0
    decreases BinadeDistance(r)
  {
    if r < 1.0 then PositiveDouble(2.0 * r)
    else if r < 2.0 then (r * TwoTo52).Floor as real == r * TwoTo52
    else PositiveDouble(r / 2.0)
  }

  /** A real that some finite double represents exactly. */
  predicate IsDouble(r: real) {
    r == 0.0 || (r > 0.0 && PositiveDouble(r)) || (r < 0.0 && PositiveDouble(-r))
  }

  /** The integer nearest to `q`, the even one on a tie. */
  function RoundHalfEven(q: real): (n: int)
    ensures -0.5 <= n as real - q <= 0.5
    ensures (n as real - q == 0.5 || q - n as real == 0.5) ==> n % 2 == 0
  {
    var f := q.Floor;
    var d := q - f as real;
    if d < 0.5 then f
    else if d > 0.5 then f + 1
    else if f % 2 == 0 then f
    else f + 1
  }

  /** No integer lies closer to `q` than the rounded one. */
  lemma RoundHalfEvenNearest(q: real, m: int)
    ensures Abs(RoundHalfEven(q) as real - q) <= Abs(m as real - q)
  {
    var n := RoundHalfEven(q);
    assert Abs(n as real - q) <= 0.5;
    if m > n {
      assert m as real >= n as real + 1.0;
      assert m as real - q >= 0.5;
    } else if m < n {
      assert m as real <= n as real - 1.0;
      assert q - m as real >= 0.5;
    }
  }

  lemma RoundHalfEvenMonotone(p: real, q: real)
    requires p <= q
    ensures RoundHalfEven(p) <= RoundHalfEven(q)
  {
  }

  /** Rounding a real in [1, 2) to the nearest double: a multiple of
      2^-52, possibly 2 itself. */
  function RoundUnitBinade(x: real): (r: real)
    requires 1.0 <= x < 2.0
    ensures 1.0 <= r <= 2.0
    ensures -UnitRoundoff <= r - x <= UnitRoundoff
    ensures (r * TwoTo52).Floor as real == r * TwoTo52
    ensures PositiveDouble(r)
  {
    var n := RoundHalfEven(x * TwoTo52);
    assert TwoTo52 <= n as real <= 2.0 * TwoTo52;
    assert n as real / TwoTo52 * TwoTo52 == n as real;
    assert n as real / TwoTo52 == 2.0 ==> PositiveDouble(2.0) by {
      assert PositiveDouble(2.0) == PositiveDouble(1.0);
    }
    n as real / TwoTo52
  }

  /** Within [1, 2) the rounded value is at least as close to `x` as any
      multiple of 2^-52, the spacing of doubles there. */
  lemma RoundUnitBinadeNearest(x: real, m: int)
    requires 1.0 <= x < 2.0
    ensures Abs(RoundUnitBinade(x) - x) <= Abs(m as real / TwoTo52 - x)
  {
    RoundHalfEvenNearest(x * TwoTo52, m);
  }

  lemma RoundUnitBinadeMonotone(x: real, y: real)
    requires 1.0 <= x <= y < 2.0
    ensures RoundUnitBinade(x) <= RoundUnitBinade(y)
  {
    RoundHalfEvenMonotone(x * TwoTo52, y * TwoTo52);
  }

  /** How many doublings or halvings bring a positive real into [1, 2):
      the magnitude of its binary exponent. */
  function BinadeDistance(x: real): nat
    requires x > 0.0
    decreases x < 1.0, if x >= 1.0 then x.Floor else (1.0 / x).Floor
  {
    if x < 1.0 then
      assert 2.0 * x < 1.0 ==> (1.0 / (2.0 * x)).Floor < (1.0 / x).Floor by {
        var y := 1.0 / x;
        assert 1.0 / (2.0 * x) == y / 2.0;
        assert 2.0 * x < 1.0 ==> y > 2.0;
      }
      1 + BinadeDistance(2.0 * x)
    else if x < 2.0 then 0
    else 1 + BinadeDistance(x / 2.0)
  }

  /** Rounding a positive real to the nearest double: scale it by powers
      of two into [1, 2), round there, and scale back, which is exact. */
  function RoundPositive(x: real): (r: real)
    requires x > 0.0
    ensures r > 0.0
    decreases BinadeDistance(x)
  {
    if x < 1.0 then
      RoundPositive(2.0 * x) / 2.0
    else if x < 2.0 then
      RoundUnitBinade(x)
    else
      2.0 * RoundPositive(x / 2.0)
  }

  /** Halving or doubling a positive real keeps it a double or not. */
  lemma PositiveDoubleHalf(d: real)
    requires d > 0.0
    ensures PositiveDouble(d / 2.0) == PositiveDouble(d)
  {
    if d < 2.0 {
      assert 2.0 * (d / 2.0) == d;
    }
  }

  /** A positive real rounds to a double, within a factor 1 ± 2^-53 of
      it: half a step in [1, 2), scaled by the same power of two. */
  lemma {:induction false} RoundPositiveError(x: real)
    requires x > 0.0
    ensures PositiveDouble(RoundPositive(x))
    ensures x * (1.0 - UnitRoundoff) <= RoundPositive(x) <= x * (1.0 + UnitRoundoff)
    decreases BinadeDistance(x)
  {
    if x < 1.0 {
      RoundPositiveError(2.0 * x);
      PositiveDoubleHalf(RoundPositive(2.0 * x));
    } else if x >= 2.0 {
      RoundPositiveError(x / 2.0);
      var y := RoundPositive(x / 2.0);
      PositiveDoubleHalf(2.0 * y);
      assert 2.0 * y / 2.0 == y;
    }
  }

  /** A double rounds to itself. */
  lemma {:induction false} RoundPositiveFixesDoubles(d: real)
    requires d > 0.0 && PositiveDouble(d)
    ensures RoundPositive(d) == d
    decreases BinadeDistance(d)
  {
    if d < 1.0 {
      RoundPositiveFixesDoubles(2.0 * d);
    } else if d < 2.0 {
      var k := (d * TwoTo52).Floor;
      assert RoundHalfEven(d * TwoTo52) == k;
    } else {
      RoundPositiveFixesDoubles(d / 2.0);
    }
  }

  /** Reals below 1 round to at most 1, and reals from 1 on to at least 1:
      1 is a double. */
  lemma {:induction false} RoundPositiveAroundOne(x: real)
    requires x > 0.0
    ensures x < 1.0 ==> RoundPositive(x) <= 1.0
    ensures x >= 1.0 ==> RoundPositive(x) >= 1.0
    decreases BinadeDistance(x)
  {
    if x < 1.0 {
      if 2.0 * x < 1.0 {
        RoundPositiveAroundOne(2.0 * x);
      }
    } else if x >= 2.0 {
      RoundPositiveAroundOne(x / 2.0);
    }
  }

  /** Rounding never reverses the order of two positive reals. */
  lemma {:induction false} RoundPositiveMonotone(x: real, y: real)
    requires 0.0 < x <= y
    ensures RoundPositive(x) <= RoundPositive(y)
    decreases BinadeDistance(x)
  {
    if y < 1.0 {
      RoundPositiveMonotone(2.0 * x, 2.0 * y);
    } else if x < 1.0 {
      RoundPositiveAroundOne(x);
      RoundPositiveAroundOne(y);
    } else if y < 2.0 {
      RoundUnitBinadeMonotone(x, y);
    } else if x < 2.0 {
      RoundPositiveAroundOne(y / 2.0);
    } else {
      RoundPositiveMonotone(x / 2.0, y / 2.0);
    }
  }

  /** `(double)x`: the double nearest to `x`, ties to even, with the sign
      of `x`. */
  function ToDouble(x: real): (r: real)
  {
    if x > 0.0 then RoundPositive(x)
    else if x == 0.0 then 0.0
    else -RoundPositive(-x)
  }

  /** The conversion yields a double, keeps the sign and errs by at most
      2^-53 of the magnitude. */
  lemma ToDoubleError(x: real)
    ensures IsDouble(ToDouble(x))
    ensures x > 0.0 <==> ToDouble(x) > 0.0
    ensures x == 0.0 <==> ToDouble(x) == 0.0
    ensures x >= 0.0 ==> x * (1.0 - UnitRoundoff) <= ToDouble(x) <= x * (1.0 + UnitRoundoff)
    ensures x < 0.0 ==> x * (1.0 + UnitRoundoff) <= ToDouble(x) <= x * (1.0 - UnitRoundoff)
  {
    if x > 0.0 {
      RoundPositiveError(x);
    } else if x < 0.0 {
      RoundPositiveError(-x);
    }
  }

  /** Converting a double again changes nothing. */
  lemma ToDoubleIdempotent(x: real)
    ensures ToDouble(ToDouble(x)) == ToDouble(x)
  {
    ToDoubleError(x);
    if x > 0.0 {
      RoundPositiveFixesDoubles(ToDouble(x));
    } else if x < 0.0 {
      RoundPositiveFixesDoubles(-ToDouble(x));
    }
  }

  /** The conversion is monotone, so comparisons that hold between reals
      still hold, perhaps as equalities, between their doubles. */
  lemma ToDoubleMonotone(x: real, y: real)
    requires x <= y
    ensures ToDouble(x) <= ToDouble(y)
  {
    if 0.0 < x {
      RoundPositiveMonotone(x, y);
    } else if y < 0.0 {
      RoundPositiveMonotone(-y, -x);
    }
  }
}
