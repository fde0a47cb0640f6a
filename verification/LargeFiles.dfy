/** The part plan for files of 2^53 bytes and more, which a raised size limit lets through, and for
    negative sizes: what the float64 conversion of the size does to it. */
module LargeFiles {
  import opened Float64
  import opened PartPlan

  /** The spacings of float64 below 2^64, from 2^53 up. */
  predicate IsGap(g: int) {
    g == 1 || g == 2 || g == 4 || g == 8 || g == 16 || g == 32 || g == 64 || g == 128 || g == 256 || g == 512
    || g == 1024 || g == 2048
  }

  /** An integer with a 53-bit significand. */
  ghost predicate IsFloat(y: int) { exists g :: IsGap(g) && y % g == 0 && -EXACT * g < y < EXACT * g }

  /** Rounding to nearest (IEEE 754-2019, section 4.3.1), however ties are broken: monotone, symmetric,
      and on int64 sizes landing on floats and leaving floats alone. */
  ghost predicate Nearest(rnd: real -> real) {
    && Rounding(rnd)
    && (forall x, y :: x <= y ==> rnd(x) <= rnd(y))
    && (forall x, y :: x + y == 0.0 ==> rnd(x) + rnd(y) == 0.0)
    && (forall n: int {:trigger rnd(n as real)} :: 0 <= n <= INT64_END ==>
          rnd(n as real) == rnd(n as real).Floor as real && IsFloat(rnd(n as real).Floor))
    && (forall n: int {:trigger rnd(n as real)} :: 0 <= n <= INT64_END && IsFloat(n) ==> rnd(n as real) == n as real)
  }

  /** float64(n) for a size. */
  ghost function Rounded(rnd: real -> real, n: int): int { rnd(n as real).Floor }

  lemma RoundedFacts(rnd: real -> real, n: int)
    requires Nearest(rnd) && 0 <= n <= INT64_END
    ensures rnd(n as real) == Rounded(rnd, n) as real && IsFloat(Rounded(rnd, n))
    ensures 0 <= Rounded(rnd, n) <= INT64_END
    ensures n <= EXACT ==> Rounded(rnd, n) == n
    ensures n >= EXACT ==> Rounded(rnd, n) >= EXACT
  {
    assert IsGap(2048);
    assert IsFloat(INT64_END);
    assert rnd(INT64_END as real) == INT64_END as real;
    assert rnd(EXACT as real) == EXACT as real && rnd(0 as real) == 0 as real;
    assert 0 as real <= n as real <= INT64_END as real;
  }

  lemma GapDivides(g: int, n: int)
    requires IsGap(g) && n % 2048 == 0
    ensures n % g == 0
  {
    var h := if g == 1 then 2048 else if g == 2 then 1024 else if g == 4 then 512 else if g == 8 then 256
      else if g == 16 then 128 else if g == 32 then 64 else if g == 64 then 32 else if g == 128 then 16
      else if g == 256 then 8 else if g == 512 then 4 else if g == 1024 then 2 else 1;
    assert g * h == 2048;
    Factor(g, h, n / 2048);
  }

  lemma Factor(g: int, h: int, i: int)
    requires g >= 1 && g * h == 2048
    ensures 2048 * i % g == 0
  {
    assert 2048 * i == g * (h * i);
    WholeMultiple(g, h * i);
  }

  lemma WholeMiBIsWhole(t: int)
    requires t % MIB == 0
    ensures t % 2048 == 0
  {
    assert t == 2048 * (512 * (t / MIB));
  }

  /** Multiples of 2 KiB are floats, so rounding cannot step over them. */
  lemma KeepsMultiples(rnd: real -> real, n: int, k: int)
    requires Nearest(rnd) && 0 <= k < n < INT64_END && k % 2048 == 0
    ensures k <= Rounded(rnd, n)
  {
    assert IsGap(2048);
    assert IsFloat(k);
    assert rnd(k as real) == k as real;
    assert k as real <= n as real;
    RoundedFacts(rnd, n);
  }

  /** Dividing by a part size of whole 2 KiB: the ceiling is exact, for the rounded size. */
  lemma CountOfRounded(rnd: real -> real, n: int, p: int)
    requires Nearest(rnd) && 0 <= n < INT64_END && 0 < p <= EXACT && p % 2048 == 0
    ensures rnd(p as real) != 0.0 && CeilQuotient(rnd, n, p) == CeilDiv(Rounded(rnd, n), p)
  {
    RoundedFacts(rnd, n);
    var s := Rounded(rnd, n);
    var g :| IsGap(g) && s % g == 0 && -EXACT * g < s < EXACT * g;
    GapDivides(g, p);
    assert rnd(p as real) == p as real;
    CeilOfQuotient(rnd, s, g, p);
  }

  /** So the first quotient, rounded up to whole MiB, is what exact arithmetic makes of the rounded size. */
  lemma PartSizeOfRounded(rnd: real -> real, n: int)
    requires Nearest(rnd) && 0 < n < INT64_END
    ensures rnd(PART_LIMIT as real) == PART_LIMIT as real
    ensures WholeMiB(CeilQuotient(rnd, n, PART_LIMIT)) == WholeMiB(CeilDiv(Rounded(rnd, n), PART_LIMIT))
  {
    RawBound(rnd, n);
    RoundedFacts(rnd, n);
    var s, raw := Rounded(rnd, n), CeilQuotient(rnd, n, PART_LIMIT);
    var exact := CeilDiv(s, PART_LIMIT);
    var u, v := WholeMiB(raw), WholeMiB(exact);
    AtLeastOne(rnd, n);
    PartsSuffice(s, PART_LIMIT, v);
    PartsSuffice(s, PART_LIMIT, u);
    PartsSuffice(s, PART_LIMIT, 1000000000000000);
    CompareWhole(rnd, n, u);
    CompareWhole(rnd, n, v);
    assert raw <= v && exact <= u;
    WholeMiBLeast(raw, v);
    WholeMiBLeast(exact, u);
  }

  lemma AtLeastOne(rnd: real -> real, n: int)
    requires Nearest(rnd) && 0 < n <= INT64_END
    ensures Rounded(rnd, n) >= 1
  {
    assert rnd(1 as real) == 1 as real;
    assert 1 as real <= n as real;
  }

  lemma WholeMiBLeast(n: int, m: int)
    requires n <= m && m % MIB == 0
    ensures WholeMiB(n) <= m
  {
  }

  /** The first quotient is at most a whole number of MiB exactly when the rounded size fits. */
  lemma CompareWhole(rnd: real -> real, n: int, t: int)
    requires Nearest(rnd) && 0 < n < INT64_END && 0 <= t <= EXACT && t % MIB == 0
    requires rnd(PART_LIMIT as real) == PART_LIMIT as real
    ensures CeilQuotient(rnd, n, PART_LIMIT) <= t <==> Rounded(rnd, n) <= t * PART_LIMIT
  {
    RoundedFacts(rnd, n);
    AtLeastOne(rnd, n);
    var s := Rounded(rnd, n);
    var g :| IsGap(g) && s % g == 0 && -EXACT * g < s < EXACT * g;
    WholeMiBIsWhole(t);
    GapDivides(g, t);
    WholeProduct(PART_LIMIT, t, g);
    Compare(rnd, s, g, PART_LIMIT, t);
    CeilAtMost(rnd(s as real / PART_LIMIT as real), t);
  }

  lemma CeilAtMost(x: real, t: int)
    ensures Ceil(x) <= t <==> x <= t as real
  {
  }

  // ----- When a plan is too short

  /** A minimum that cannot decide the part size of a file of 2^53 bytes: 858993 MiB. */
  const MODEST := 858993 * MIB

  /** The part size in exact arithmetic, given a size and what the size rounds to. */
  function RoundedPartSize(min: nat, n: nat, s: int): (p: nat)
    requires min > 0
    ensures p >= min
  {
    if n < 10 * min then min
    else
      var whole := WholeMiB(CeilDiv(s, PART_LIMIT));
      if whole < min then min else whole
  }

  /** Minimums the theorem covers: modest ones, and larger ones of whole 2 KiB. */
  predicate Covered(min: nat) { min <= MODEST || (min % 2048 == 0 && min <= EXACT) }

  lemma WholeBound(rnd: real -> real, n: int)
    requires Nearest(rnd) && 0 < n < INT64_END
    ensures WholeMiB(CeilDiv(Rounded(rnd, n), PART_LIMIT)) <= EXACT
    ensures n >= EXACT ==> WholeMiB(CeilDiv(Rounded(rnd, n), PART_LIMIT)) > MODEST
    ensures WholeMiB(CeilDiv(Rounded(rnd, n), PART_LIMIT)) % 2048 == 0
  {
    RoundedFacts(rnd, n);
    var s := Rounded(rnd, n);
    WholeMiBIsWhole(WholeMiB(CeilDiv(s, PART_LIMIT)));
    PartsSuffice(s, PART_LIMIT, 1000000000000000);
    PartsSuffice(s, PART_LIMIT, MODEST);
  }

  /** The code's part size before anything is known about the rounding. */
  ghost function CodePartSize(rnd: real -> real, configured: nat, n: int): int
    requires rnd(PART_LIMIT as real) != 0.0
  {
    var min := MinPartSize(configured);
    if n < 10 * min then min
    else if WholeMiB(CeilQuotient(rnd, n, PART_LIMIT)) < min then min
    else WholeMiB(CeilQuotient(rnd, n, PART_LIMIT))
  }

  lemma PlanUnfolds(rnd: real -> real, configured: nat, n: int, p: int)
    requires Rounding(rnd) && Configurable(configured) && -INT64_END <= n < INT64_END
    requires rnd(PART_LIMIT as real) != 0.0 && p == CodePartSize(rnd, configured, n)
    ensures rnd(p as real) != 0.0 ==> CalculateOptimalPartSize(rnd, configured, n) == (p, CeilQuotient(rnd, n, p))
  {
  }

  /** The plan is the exact plan of the rounded size. */
  lemma PlanOfRounded(rnd: real -> real, configured: nat, n: nat)
    requires Nearest(rnd) && Configurable(configured) && n < INT64_END
    requires Covered(MinPartSize(configured)) && (n >= EXACT || MinPartSize(configured) % 2048 == 0)
    ensures
      var p := RoundedPartSize(MinPartSize(configured), n, Rounded(rnd, n));
      && p % 2048 == 0 && p <= EXACT
      && CalculateOptimalPartSize(rnd, configured, n) == (p, CeilDiv(Rounded(rnd, n), p))
  {
    var p := RoundedPartSize(MinPartSize(configured), n, Rounded(rnd, n));
    assert rnd(10000 as real) == 10000 as real;
    if n >= 10 * MinPartSize(configured) {
      PartSizeOfRounded(rnd, n);
      WholeBound(rnd, n);
    }
    CountOfRounded(rnd, n, p);
    PlanUnfolds(rnd, configured, n, p);
  }

  /** Parts of whole 2 KiB hold fewer bytes than the file exactly when its size was rounded down onto a
      multiple of the part size. */
  lemma ShortWhen(rnd: real -> real, n: nat, p: int)
    requires Nearest(rnd) && n < INT64_END && p > 0 && p % 2048 == 0
    ensures CeilDiv(Rounded(rnd, n), p) * p < n <==> Rounded(rnd, n) < n && Rounded(rnd, n) % p == 0
  {
    RoundedFacts(rnd, n);
    var s := Rounded(rnd, n);
    ExactCeil(s, p);
    var all := CeilDiv(s, p) * p;
    if all < n {
      WholeProduct(CeilDiv(s, p), p, 2048);
      KeepsMultiples(rnd, n, all);
    }
  }

  lemma ExactCeil(s: int, p: int)
    requires p > 0
    ensures CeilDiv(s, p) * p == s <==> s % p == 0
  {
    var k := CeilDiv(s, p);
    if k * p == s {
      assert s == p * k;
      WholeMultiple(p, k);
    }
    if s % p == 0 {
      var i := s / p;
      assert s == i * p && (i - 1) * p == i * p - p;
      CeilDivUnique(s, p, i);
    }
  }

  /** Above 2^53 the part size of a modest minimum divides the rounded size exactly when 10000 MiB does. */
  lemma TenThousand(s: nat)
    requires EXACT <= s
    ensures
      var p := WholeMiB(CeilDiv(s, PART_LIMIT));
      p > MODEST ==> (s % p == 0 <==> s % (PART_LIMIT * MIB) == 0)
  {
    var p := WholeMiB(CeilDiv(s, PART_LIMIT));
    if p > MODEST && s % p == 0 {
      DividedByPart(s, p, p / MIB, s / p);
    }
    if s % (PART_LIMIT * MIB) == 0 {
      DividesByPart(s, p, s / (PART_LIMIT * MIB));
    }
  }

  lemma DividedByPart(s: int, p: int, m: int, k: int)
    requires p == MIB * m && p > MODEST && s == p * k && PART_LIMIT * (p - MIB) < s <= PART_LIMIT * p
    ensures s % (PART_LIMIT * MIB) == 0
  {
    FullCount(p, k);
    assert s == PART_LIMIT * MIB * m;
  }

  lemma DividesByPart(s: nat, p: int, m: int)
    requires s > 0 && s == PART_LIMIT * MIB * m && p == WholeMiB(CeilDiv(s, PART_LIMIT))
    ensures p > 0 && s % p == 0
  {
    CeilDivUnique(s, PART_LIMIT, MIB * m);
    assert p == MIB * m && s == p * PART_LIMIT;
    WholeMultiple(p, PART_LIMIT);
  }

  lemma FullCount(p: int, k: int)
    requires p > MODEST && PART_LIMIT * (p - MIB) < p * k <= PART_LIMIT * p
    ensures k == PART_LIMIT
  {
    if k < PART_LIMIT {
      Multiples(k, PART_LIMIT - 1, p);
    } else if k > PART_LIMIT {
      Multiples(PART_LIMIT + 1, k, p);
    }
  }

  /** When the planner plans too few bytes. For every int64 size, a plan is shorter than its file if and
      only if float64 rounds the size down onto a multiple of the part size; unless the minimum is above
      858993 MiB that means onto a multiple of 10000 MiB. */
  lemma PlanTooShort(rnd: real -> real, configured: nat, n: nat)
    requires Nearest(rnd) && Configurable(configured) && n < INT64_END && Covered(MinPartSize(configured))
    ensures
      var (p, count) := CalculateOptimalPartSize(rnd, configured, n);
      var s := Rounded(rnd, n);
      && (count * p < n <==> s < n && s % p == 0)
      && (MinPartSize(configured) <= MODEST ==> (count * p < n <==> s < n && s % (PART_LIMIT * MIB) == 0))
  {
    RoundedFacts(rnd, n);
    if n >= EXACT {
      PlanOfRounded(rnd, configured, n);
      var p := RoundedPartSize(MinPartSize(configured), n, Rounded(rnd, n));
      ShortWhen(rnd, n, p);
      WholeBound(rnd, n);
      TenThousand(Rounded(rnd, n));
    }
  }

  /** Where the plan is understood: below 2^53, or with a minimum the theorem above covers. */
  ghost predicate Understood(rnd: real -> real, configured: nat, n: nat) {
    && Rounding(rnd) && Configurable(configured) && n < INT64_END
    && (n < EXACT || (Nearest(rnd) && Covered(MinPartSize(configured))))
  }

  /** The rounding takes bytes off the plan. */
  ghost predicate Shortened(rnd: real -> real, configured: nat, n: nat) {
    var min, s := MinPartSize(configured), Rounded(rnd, n);
    n >= EXACT && s < n && s % (if min <= MODEST then PART_LIMIT * MIB else RoundedPartSize(min, n, s)) == 0
  }

  /** Multiples of 2 KiB are floats, from above. */
  lemma StaysBelow(rnd: real -> real, n: int, k: int)
    requires Nearest(rnd) && 0 <= n <= k <= INT64_END && k % 2048 == 0
    ensures Rounded(rnd, n) <= k
  {
    assert IsGap(2048);
    assert IsFloat(k);
    assert rnd(k as real) == k as real;
    assert n as real <= k as real;
    RoundedFacts(rnd, n);
  }

  /** What the code's plan is good for: at most 10000 parts, none of them past the end of the file, and all
      of the file in them unless the rounding took bytes off. */
  lemma CodePlan(rnd: real -> real, configured: nat, n: nat)
    requires Understood(rnd, configured, n) && n >= 1
    ensures
      var (p, count) := CalculateOptimalPartSize(rnd, configured, n);
      && p > 0 && 1 <= count <= PART_LIMIT && (count - 1) * p < n
      && (count * p < n <==> Shortened(rnd, configured, n))
  {
    if n < EXACT {
      PlanIsValid(configured, n);
    } else {
      PlanTooShort(rnd, configured, n);
      PlanOfRounded(rnd, configured, n);
      LargeCount(rnd, configured, n);
    }
  }

  /** How many parts that is. */
  ghost function PlannedParts(rnd: real -> real, configured: nat, n: nat): (count: nat)
    requires Understood(rnd, configured, n) && n >= 1
    ensures count == CalculateOptimalPartSize(rnd, configured, n).1 && 1 <= count <= PART_LIMIT
  {
    CodePlan(rnd, configured, n);
    CalculateOptimalPartSize(rnd, configured, n).1
  }

  lemma LargeCount(rnd: real -> real, configured: nat, n: nat)
    requires Nearest(rnd) && Configurable(configured) && EXACT <= n < INT64_END && Covered(MinPartSize(configured))
    ensures
      var s := Rounded(rnd, n);
      var p := RoundedPartSize(MinPartSize(configured), n, s);
      1 <= CeilDiv(s, p) <= PART_LIMIT && (CeilDiv(s, p) - 1) * p < n
  {
    var min, s := MinPartSize(configured), Rounded(rnd, n);
    var p := RoundedPartSize(min, n, s);
    RoundedFacts(rnd, n);
    PlanOfRounded(rnd, configured, n);
    if n < 10 * min {
      TenMinimums(rnd, n, min);
    }
    CountInLimit(min, n, s);
    StartsInside(rnd, n, p, CeilDiv(s, p) - 1);
  }

  lemma CountInLimit(min: nat, n: nat, s: int)
    requires min > 0 && s >= 1 && (n < 10 * min ==> s <= 11 * min)
    ensures 1 <= CeilDiv(s, RoundedPartSize(min, n, s)) <= PART_LIMIT
  {
    var p := RoundedPartSize(min, n, s);
    PartsSuffice(s, p, 0);
    if n < 10 * min {
      PartsSuffice(s, p, 11);
    } else {
      PartsSuffice(s, PART_LIMIT, p);
      PartsSuffice(s, p, PART_LIMIT);
    }
  }

  lemma StartsInside(rnd: real -> real, n: nat, p: int, k: nat)
    requires Nearest(rnd) && n < INT64_END && p > 0 && p % 2048 == 0 && k * p < Rounded(rnd, n)
    ensures k * p < n
  {
    RoundedFacts(rnd, n);
    WholeProduct(k, p, 2048);
    if k * p >= n {
      StaysBelow(rnd, n, k * p);
    }
  }

  lemma TenMinimums(rnd: real -> real, n: nat, min: nat)
    requires Nearest(rnd) && EXACT <= n < 10 * min && n < INT64_END
    ensures Rounded(rnd, n) <= 11 * min
  {
    RoundedFacts(rnd, n);
    HalfAgainTight(n as real, rnd(n as real));
  }

  lemma HalfAgainTight(x: real, r: real)
    requires x > 0.0 && r <= x + x * UNIT
    ensures r <= x + x / 10.0
  {
  }

  /** Every plan up to here is long enough: 10000 parts of 858994 MiB. */
  const SAFE_SIZE := 9007204925440000

  lemma SufficientUpTo(rnd: real -> real, configured: nat, n: nat)
    requires Nearest(rnd) && Configurable(configured) && MinPartSize(configured) <= MODEST && n <= SAFE_SIZE
    ensures
      var (p, count) := CalculateOptimalPartSize(rnd, configured, n);
      count * p >= n
  {
    PlanTooShort(rnd, configured, n);
    RoundedFacts(rnd, n);
    if n > EXACT && Rounded(rnd, n) % (PART_LIMIT * MIB) == 0 {
      FirstMultiple(Rounded(rnd, n));
    }
  }

  lemma FirstMultiple(s: int)
    requires s >= EXACT && s % 10485760000 == 0
    ensures s >= SAFE_SIZE
  {
    var m := s / 10485760000;
    assert s == 10485760000 * m;
  }

  /** The next size is the first to fail. With ties to even it rounds down to SAFE_SIZE, and 10000 parts
      of 858994 MiB hold one byte less than the file. */
  lemma FirstLosingSize(rnd: real -> real)
    requires Nearest(rnd) && rnd((SAFE_SIZE + 1) as real) == SAFE_SIZE as real
    ensures CalculateOptimalPartSize(rnd, 0, SAFE_SIZE + 1) == (858994 * MIB, PART_LIMIT)
    ensures PART_LIMIT * (858994 * MIB) == SAFE_SIZE
  {
    assert Rounded(rnd, SAFE_SIZE + 1) == SAFE_SIZE;
    PlanOfRounded(rnd, 0, SAFE_SIZE + 1);
    SafePlan();
  }

  lemma SafePlan()
    ensures RoundedPartSize(MIN_PART_SIZE, SAFE_SIZE + 1, SAFE_SIZE) == 858994 * MIB
    ensures CeilDiv(SAFE_SIZE, 858994 * MIB) == PART_LIMIT
  {
  }

  /** A negative size keeps the minimum part size, and its part count is negative exactly when it is at
      least a whole part below zero; allocating that many URLs is a Go panic. */
  lemma NegativePlan(rnd: real -> real, configured: nat, n: int)
    requires Nearest(rnd) && Configurable(configured) && -INT64_END <= n < 0 && MinPartSize(configured) <= EXACT
    ensures
      var (p, count) := CalculateOptimalPartSize(rnd, configured, n);
      p == MinPartSize(configured) && count <= 0 && (count < 0 <==> n <= -p)
  {
    var min := MinPartSize(configured);
    NegativeCount(rnd, n, min);
    assert rnd(10000 as real) == 10000 as real;
    PlanUnfolds(rnd, configured, n, min);
  }

  lemma NegativeCount(rnd: real -> real, n: int, min: int)
    requires Nearest(rnd) && -INT64_END <= n < 0 && 0 < min <= EXACT
    ensures rnd(min as real) != 0.0
    ensures CeilQuotient(rnd, n, min) <= 0 && (CeilQuotient(rnd, n, min) < 0 <==> n <= -min)
  {
    var s := Rounded(rnd, -n);
    assert rnd(min as real) == min as real;
    AtLeastOne(rnd, -n);
    RoundedFacts(rnd, -n);
    SameSide(rnd, -n, min);
    AroundOne(rnd, s, min);
    NegativeCeil(rnd, n, s, min);
    CeilSigns(rnd(s as real / min as real));
  }

  /** Rounding and division are symmetric. */
  lemma NegativeCeil(rnd: real -> real, n: int, s: int, min: int)
    requires Nearest(rnd) && rnd((-n) as real) == s as real && 0 < min && rnd(min as real) == min as real
    ensures CeilQuotient(rnd, n, min) == Ceil(-rnd(s as real / min as real))
  {
    assert rnd(n as real) == -(s as real) by {
      assert n as real + (-n) as real == 0.0;
    }
    var q := s as real / min as real;
    NegativeQuotient(s as real, min as real);
    assert rnd(-q) == -rnd(q) by {
      assert -q + q == 0.0;
    }
  }

  lemma CeilSigns(x: real)
    requires x >= 0.0
    ensures Ceil(-x) <= 0 && (Ceil(-x) < 0 <==> x >= 1.0)
  {
  }

  lemma NegativeQuotient(a: real, b: real)
    requires b > 0.0
    ensures (-a) / b == -(a / b)
  {
    TimesBack(a, b);
    TimesBack(-a, b);
    Same((-a) / b, -(a / b), b);
  }

  lemma SameSide(rnd: real -> real, n: int, min: int)
    requires Nearest(rnd) && 0 < n <= INT64_END && 0 < min <= EXACT
    ensures n >= min <==> Rounded(rnd, n) >= min
  {
    RoundedFacts(rnd, n);
    assert rnd(min as real) == min as real;
    assert n >= min ==> min as real <= n as real;
  }

  /** The quotient of two sizes is below one, and rounds below one, exactly when the first is smaller. */
  lemma AroundOne(rnd: real -> real, s: int, min: int)
    requires Nearest(rnd) && 1 <= s <= INT64_END && 1 <= min <= EXACT
    ensures rnd(s as real / min as real) >= 0.0
    ensures rnd(s as real / min as real) >= 1.0 <==> s >= min
  {
    assert rnd(0 as real) == 0 as real && rnd(1 as real) == 1 as real;
    QuotientSigns(s as real, min as real);
    if s < min {
      Compare(rnd, s, 1, min, 1);
    }
  }

  lemma QuotientSigns(a: real, b: real)
    requires a >= 0.0 && b > 0.0
    ensures a / b >= 0.0 && (a >= b ==> a / b >= 1.0)
  {
    TimesBack(a, b);
    Cancel(0.0, a / b, b);
    Cancel(1.0, a / b, b);
  }
}
