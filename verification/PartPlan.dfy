/** calculateOptimalPartSize: the part size and part count of a multipart upload. */
module PartPlan {
  import opened Float64

  const MIB := 1024 * 1024
  const MIN_PART_SIZE := 5 * MIB
  const PART_LIMIT := 10000
  const MULTIPART_THRESHOLD := 50 * MIB
  const MAX_OBJECT_SIZE := 5 * MIB * MIB

  /** The configured minimum, or 5 MiB when none is set. */
  function MinPartSize(configured: nat): (m: nat)
    ensures m > 0
  {
    if configured > 0 then configured else MIN_PART_SIZE
  }

  /** Ten times the minimum does not wrap around in int64. */
  predicate Configurable(configured: nat) { 10 * configured < INT64_END }

  /** The computation as written, float64 quotients included, for any int64 size. Below 2^53 it is the
      exact computation; `LargeFiles` says what it is above. */
  function CalculateOptimalPartSize(rnd: real -> real, configured: nat, fileSize: int): (plan: (int, int))
    requires Rounding(rnd) && Configurable(configured) && -INT64_END <= fileSize < INT64_END
    ensures plan.0 >= MinPartSize(configured)
    ensures 0 <= fileSize < EXACT ==>
      plan.0 == PartSize(MinPartSize(configured), fileSize) && plan.1 == CeilDiv(fileSize, plan.0)
  {
    var min := MinPartSize(configured);
    ExactBelow(rnd, fileSize, min);
    if fileSize < 10 * min then
      (min, CeilQuotient(rnd, fileSize, min))
    else
      RawBound(rnd, fileSize);
      ExactBelow(rnd, fileSize, PART_LIMIT);
      var raw := CeilQuotient(rnd, fileSize, PART_LIMIT);
      var rounded := WholeMiB(raw);
      var partSize := if rounded < min then min else rounded;
      ExactBelow(rnd, fileSize, partSize);
      (partSize, CeilQuotient(rnd, fileSize, partSize))
  }

  lemma ExactBelow(rnd: real -> real, a: int, b: int)
    requires Rounding(rnd) && 0 < b < INT64_END
    ensures rnd(b as real) > 0.0
    ensures 0 <= a < EXACT ==> CeilQuotient(rnd, a, b) == CeilDiv(a, b)
  {
    RoundedPositive(rnd, b);
    if 0 <= a < EXACT {
      CeilQuotientExact(rnd, a, b);
    }
  }

  /** The first quotient stays far inside int64. */
  lemma RawBound(rnd: real -> real, fileSize: int)
    requires Rounding(rnd) && 0 < fileSize < INT64_END
    ensures rnd(PART_LIMIT as real) == PART_LIMIT as real
    ensures 0 <= CeilQuotient(rnd, fileSize, PART_LIMIT) <= 3000000000000000
  {
    var n: int := PART_LIMIT;
    assert rnd(n as real) == n as real;
    var x := fileSize as real;
    assert 1.0 <= x <= 9223372036854775808.0;
    HalfAgain(x, rnd(x));
    var q := rnd(x) / 10000.0;
    assert 0.00005 <= q <= 1400000000000000.0;
    HalfAgain(q, rnd(q));
  }

  lemma HalfAgain(x: real, r: real)
    requires x > 0.0 && x - x * UNIT <= r <= x + x * UNIT
    ensures x / 2.0 <= r <= x + x / 2.0
  {
  }

  /** Up to the next whole MiB. */
  function WholeMiB(n: int): (r: int)
    ensures n <= r < n + MIB && r % MIB == 0
  {
    (n + MIB - 1) / MIB * MIB
  }

  /** The part size in exact arithmetic. */
  function PartSize(min: nat, fileSize: nat): (p: nat)
    requires min > 0
    ensures p >= min
  {
    if fileSize < 10 * min then min
    else
      var rounded := WholeMiB(CeilDiv(fileSize, PART_LIMIT));
      if rounded < min then min else rounded
  }

  lemma CeilDivMonotone(a: int, b: int, n: int)
    requires n > 0 && a <= b
    ensures CeilDiv(a, n) <= CeilDiv(b, n)
  {
    var c, d := CeilDiv(a, n), CeilDiv(b, n);
    if d < c {
      Multiples(d, c - 1, n);
    }
  }

  /** k parts of size p hold a bytes exactly when k is at least the ceiling. */
  lemma PartsSuffice(a: int, p: int, k: int)
    requires p > 0
    ensures CeilDiv(a, p) <= k <==> a <= k * p
  {
    var c := CeilDiv(a, p);
    if c <= k {
      Multiples(c, k, p);
    } else {
      Multiples(k, c - 1, p);
    }
  }

  /** The plan is a valid upload: between 1 and 10000 parts, all but the last full, the last not empty. */
  lemma {:induction false} PlanIsValid(configured: nat, fileSize: nat)
    requires 1 <= fileSize
    ensures
      var p := PartSize(MinPartSize(configured), fileSize);
      var n := CeilDiv(fileSize, p);
      && 1 <= n <= 10000
      && (n - 1) * p < fileSize <= n * p
  {
    var min := MinPartSize(configured);
    var p := PartSize(min, fileSize);
    PartsSuffice(fileSize, p, 0);
    if fileSize < 10 * min {
      PartsSuffice(fileSize, p, 10);
    } else {
      assert PART_LIMIT * CeilDiv(fileSize, PART_LIMIT) <= PART_LIMIT * p;
      PartsSuffice(fileSize, p, PART_LIMIT);
    }
  }

  /** Under the default minimum every object up to 5 TiB gets parts of 5 to 525 MiB. */
  lemma DefaultPartBounds(fileSize: nat)
    requires fileSize <= 5 * 1024 * 1024 * 1024 * 1024
    ensures 5 * 1024 * 1024 <= PartSize(MinPartSize(0), fileSize) <= 525 * 1024 * 1024
  {
    CeilDivMonotone(fileSize, MAX_OBJECT_SIZE, PART_LIMIT);
    CeilDivUnique(MAX_OBJECT_SIZE, PART_LIMIT, 549755814);
  }

  /** Above the minimum the part size is the smallest whole number of MiB that needs no more than
      10000 parts. */
  lemma {:induction false} PartSizeMinimal(configured: nat, fileSize: nat, smaller: nat)
    requires PartSize(MinPartSize(configured), fileSize) > MinPartSize(configured)
    requires 0 < smaller < PartSize(MinPartSize(configured), fileSize) && smaller % MIB == 0
    ensures PartSize(MinPartSize(configured), fileSize) % MIB == 0
    ensures CeilDiv(fileSize, smaller) > PART_LIMIT
  {
    var c, p := CeilDiv(fileSize, PART_LIMIT), PartSize(MinPartSize(configured), fileSize);
    MultiplesApart(smaller, p);
    assert smaller < c;
    assert PART_LIMIT * smaller <= (c - 1) * PART_LIMIT < fileSize;
    PartsSuffice(fileSize, smaller, PART_LIMIT);
  }

  lemma MultiplesApart(a: nat, b: nat)
    requires a % MIB == 0 && b % MIB == 0 && a < b
    ensures a + MIB <= b
  {
  }

  lemma WholeMiBMonotone(a: int, b: int)
    requires a <= b
    ensures WholeMiB(a) <= WholeMiB(b)
  {
  }

  /** A larger file never gets smaller parts. */
  lemma PartSizeMonotone(configured: nat, a: nat, b: nat)
    requires a <= b
    ensures PartSize(MinPartSize(configured), a) <= PartSize(MinPartSize(configured), b)
  {
    CeilDivMonotone(a, b, PART_LIMIT);
    WholeMiBMonotone(CeilDiv(a, PART_LIMIT), CeilDiv(b, PART_LIMIT));
  }
}
