/** The float64 quotients of the part planners: `math.Ceil(float64(a) / float64(b))`. */
module Float64 {
  /** 2^53: every integer up to here is a float64. */
  const EXACT: int := 9007199254740992
  /** 2^63: the first integer beyond int64. */
  const INT64_END: int := 9223372036854775808
  /** 2^-53, the largest relative error of rounding to nearest (IEEE 754-2019, section 4.3.1). */
  const UNIT: real := 1.0 / 9007199254740992.0

  /** What is assumed of the rounding: exact on the integers up to 2^53, and relative error at most
      2^-53 on a range far from overflow and underflow. */
  ghost predicate Rounding(rnd: real -> real) {
    && (forall n: int {:trigger rnd(n as real)} :: 0 <= n <= EXACT ==> rnd(n as real) == n as real)
    && (forall x: real :: 1.0 <= x * 18446744073709551616.0 && x <= 18446744073709551616.0 ==>
          x - x * UNIT <= rnd(x) <= x + x * UNIT)
  }

  function Ceil(x: real): int { -(-x).Floor }

  /** Exact integer division, rounded up. */
  function CeilDiv(a: int, b: int): (c: int)
    requires b > 0
    ensures (c - 1) * b < a <= c * b
  {
    (a + b - 1) / b
  }

  /** The Go expression, each conversion and the division rounded. */
  function CeilQuotient(rnd: real -> real, a: int, b: int): int
    requires rnd(b as real) != 0.0
  {
    Ceil(rnd(rnd(a as real) / rnd(b as real)))
  }

  lemma RoundedPositive(rnd: real -> real, b: int)
    requires Rounding(rnd) && 0 < b < INT64_END
    ensures rnd(b as real) > 0.0
  {
    var x := b as real;
    assert 1.0 <= x <= 9223372036854775808.0;
  }

  lemma CeilBetween(x: real, c: int)
    requires (c - 1) as real < x <= c as real
    ensures Ceil(x) == c
  {
  }

  lemma Multiples(x: int, y: int, b: int)
    requires x <= y && b >= 0
    ensures x * b <= y * b
  {
  }

  lemma CeilDivUnique(a: int, b: int, c: int)
    requires b > 0 && (c - 1) * b < a <= c * b
    ensures CeilDiv(a, b) == c
  {
    var d := CeilDiv(a, b);
    if d < c {
      Multiples(d, c - 1, b);
    } else if d > c {
      Multiples(c, d - 1, b);
    }
  }

  /** For every size below 2^53 and every positive int64 divisor the float computation is exact
      ceiling division. */
  lemma {:induction false} CeilQuotientExact(rnd: real -> real, a: int, b: int)
    requires Rounding(rnd) && 0 <= a < EXACT && 0 < b < INT64_END
    ensures rnd(b as real) != 0.0 && CeilQuotient(rnd, a, b) == CeilDiv(a, b)
  {
    RoundedPositive(rnd, b);
    if b > EXACT {
      HugeDivisor(rnd, a, b);
    } else {
      assert rnd(a as real) == a as real && rnd(b as real) == b as real;
      CeilOfQuotient(rnd, a, 1, b);
    }
  }

  lemma TimesBack(a: real, b: real)
    requires b > 0.0
    ensures a / b * b == a
  {
  }

  lemma Cancel(x: real, y: real, b: real)
    requires b > 0.0
    ensures x * b < y * b ==> x < y
    ensures x * b <= y * b ==> x <= y
  {
  }

  lemma Scale(x: real, y: real, b: real)
    requires b >= 0.0 && x <= y
    ensures x * b <= y * b
  {
  }

  lemma Swap(q: real, k: real, b: real)
    ensures q * k * b == q * b * k
  {
  }

  lemma QuotientRange(a: real, b: real)
    requires 1.0 <= a <= 18446744073709551616.0 && 1.0 <= b <= 18446744073709551616.0
    ensures 1.0 <= a / b * 18446744073709551616.0 && a / b <= 18446744073709551616.0
  {
    TimesBack(a, b);
    QuotientLow(a, b, a / b, 18446744073709551616.0);
    Scale(1.0, b, 18446744073709551616.0);
    Cancel(a / b, 18446744073709551616.0, b);
  }

  lemma QuotientLow(a: real, b: real, q: real, k: real)
    requires q * b == a && 1.0 <= a && 0.0 < b <= k
    ensures 1.0 <= q * k
  {
    Scale(1.0, a, k);
    Swap(q, k, b);
    Cancel(1.0, q * k, b);
  }

  /** A rounded quotient is on the same side of a whole number as the exact one, provided that the dividend
      and the product to compare it with are whole multiples of a gap above the dividend's precision. */
  lemma Compare(rnd: real -> real, a: int, gap: int, b: int, t: int)
    requires Rounding(rnd) && gap >= 1 && 0 < a < EXACT * gap && a <= INT64_END && 0 < b <= EXACT && 0 <= t <= EXACT
    requires a % gap == 0 && t * b % gap == 0
    ensures rnd(a as real / b as real) <= t as real <==> a <= t * b
    ensures rnd(a as real / b as real) < t as real <==> a < t * b
  {
    var A, B, T, G := a as real, b as real, t as real, gap as real;
    assert (t * b) as real == T * B;
    if a == t * b {
      RoundedExact(rnd, A, B, t);
    } else {
      Apart(a, t * b, gap);
      CompareReals(rnd, A, B, T, G, A / B);
    }
  }

  lemma Apart(x: int, y: int, gap: int)
    requires gap >= 1 && x % gap == 0 && y % gap == 0 && x != y
    ensures x <= y - gap || x >= y + gap
  {
    var i, j := x / gap, y / gap;
    assert x == gap * i && y == gap * j;
    if i < j {
      Multiples(i, j - 1, gap);
    } else {
      Multiples(j, i - 1, gap);
    }
  }

  lemma RoundedExact(rnd: real -> real, a: real, b: real, c: int)
    requires Rounding(rnd) && b > 0.0 && 0 <= c <= EXACT && a == c as real * b
    ensures rnd(a / b) == c as real
  {
    TimesBack(a, b);
    Same(a / b, c as real, b);
    assert rnd(c as real) == c as real;
  }

  lemma Same(x: real, y: real, b: real)
    requires b > 0.0 && x * b == y * b
    ensures x == y
  {
  }

  lemma CompareReals(rnd: real -> real, a: real, b: real, t: real, gap: real, q: real)
    requires Rounding(rnd) && 1.0 <= b <= 9007199254740992.0 && q == a / b
    requires 1.0 <= a <= 9223372036854775808.0 && a < 9007199254740992.0 * gap && gap >= 1.0
    requires a <= t * b - gap || a >= t * b + gap
    ensures rnd(q) < t <==> a < t * b
    ensures rnd(q) == t ==> a == t * b
  {
    TimesBack(a, b);
    QuotientRange(a, b);
    NearQuotient(a, b, q, rnd(q), gap);
    if a <= t * b - gap {
      Below(a, b, t, rnd(q), gap);
    } else {
      Above(a, b, t, rnd(q), gap);
    }
  }

  lemma Below(a: real, b: real, t: real, r: real, gap: real)
    requires b > 0.0 && gap >= 1.0 && a <= t * b - gap && r * b < a + gap
    ensures r < t && a < t * b
  {
    Cancel(r, t, b);
  }

  lemma Above(a: real, b: real, t: real, r: real, gap: real)
    requires b > 0.0 && gap >= 1.0 && a >= t * b + gap && a - gap < r * b
    ensures t < r && t * b < a
  {
    Cancel(t, r, b);
  }

  /** The ceiling of such a quotient is exact. */
  lemma CeilOfQuotient(rnd: real -> real, a: int, gap: int, b: int)
    requires Rounding(rnd) && gap >= 1 && 0 <= a < EXACT * gap && a <= INT64_END && 0 < b <= EXACT
    requires a % gap == 0 && b % gap == 0
    ensures Ceil(rnd(a as real / b as real)) == CeilDiv(a, b)
  {
    var c := CeilDiv(a, b);
    if a == 0 {
      assert rnd(0 as real) == 0 as real && 0 as real / b as real == 0.0;
      CeilDivUnique(a, b, 0);
    } else {
      CeilFits(a, gap, b);
      WholeProduct(c, b, gap);
      WholeProduct(c - 1, b, gap);
      Compare(rnd, a, gap, b, c);
      Compare(rnd, a, gap, b, c - 1);
      CeilBetween(rnd(a as real / b as real), c);
    }
  }

  lemma WholeProduct(t: int, b: int, gap: int)
    requires gap >= 1 && b % gap == 0
    ensures t * b % gap == 0
  {
    var k := b / gap;
    assert t * b == gap * (t * k);
    WholeMultiple(gap, t * k);
  }

  lemma WholeMultiple(gap: int, i: int)
    requires gap >= 1
    ensures gap * i % gap == 0
  {
    var q, r := gap * i / gap, gap * i % gap;
    assert gap * i == gap * q + r && 0 <= r < gap;
    if q < i {
      Multiples(q, i - 1, gap);
    } else if q > i {
      Multiples(i, q - 1, gap);
    }
  }

  lemma CeilFits(a: int, gap: int, b: int)
    requires 0 < a < EXACT * gap && gap >= 1 && 0 < b && b % gap == 0
    ensures 1 <= CeilDiv(a, b) <= EXACT
  {
    var c := CeilDiv(a, b);
    assert b >= gap;
    if c > EXACT {
      Multiples(EXACT, c - 1, b);
      Multiples(gap, b, EXACT);
    } else if c < 1 {
      Multiples(c, 0, b);
    }
  }

  lemma Distribute(x: real, y: real, b: real)
    ensures (x + y) * b == x * b + y * b && (x - y) * b == x * b - y * b
  {
  }

  lemma NearProduct(q: real, u: real, b: real, r: real)
    requires b > 0.0 && q - u <= r <= q + u
    ensures q * b - u * b <= r * b <= q * b + u * b
  {
    Scale(r, q + u, b);
    Scale(q - u, r, b);
    Distribute(q, u, b);
  }

  lemma Near(a: real, p: real, e: real, x: real, gap: real)
    requires p == a && 0.0 <= a < 9007199254740992.0 * gap && e == p * UNIT && p - e <= x <= p + e
    ensures a - gap < x < a + gap
  {
  }

  /** Scaled back by the divisor, a rounded quotient is less than a gap away from the dividend. */
  lemma NearQuotient(a: real, b: real, q: real, r: real, gap: real)
    requires b > 0.0 && q * b == a && 0.0 <= a < 9007199254740992.0 * gap
    requires q - q * UNIT <= r <= q + q * UNIT
    ensures a - gap < r * b < a + gap
  {
    NearProduct(q, q * UNIT, b, r);
    Swap(q, UNIT, b);
    Near(a, q * b, q * UNIT * b, r * b, gap);
  }

  lemma HugeDivisor(rnd: real -> real, a: int, b: int)
    requires Rounding(rnd) && 0 <= a < EXACT < b < INT64_END
    ensures rnd(b as real) > 0.0 && CeilQuotient(rnd, a, b) == CeilDiv(a, b)
  {
    var A, B := a as real, rnd(b as real);
    RoundedPositive(rnd, b);
    assert rnd(A) == A;
    var x := b as real;
    assert x >= 9007199254740993.0 && x - x * UNIT <= B <= x + x * UNIT;
    if a == 0 {
      assert A / B == 0.0;
      assert rnd(0 as real) == 0 as real;
      CeilDivUnique(a, b, 0);
    } else {
      assert A + A * UNIT <= B <= 18446744073709551616.0;
      var q := A / B;
      TimesBack(A, B);
      QuotientRange(A, B);
      AtMostOne(A, B, q, rnd(q));
      CeilBetween(rnd(q), 1);
      CeilDivUnique(a, b, 1);
    }
  }

  lemma AtMostOne(a: real, b: real, q: real, r: real)
    requires 0.0 < a && a + a * UNIT <= b && q * b == a
    requires q - q * UNIT <= r <= q + q * UNIT
    ensures 0.0 < r <= 1.0
  {
    Swap(q, UNIT, b);
    assert (q + q * UNIT) * b == a + a * UNIT <= 1.0 * b;
    Cancel(q + q * UNIT, 1.0, b);
    Cancel(0.0, q, b);
    assert q * UNIT < q;
  }
}
