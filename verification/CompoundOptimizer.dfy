/** Integer square root and the optimal compounding interval (src/compound_optimizer.rs). */
module CompoundOptimizer {
  import opened Numeric

  ghost predicate IsRoot(r: int, n: int) {
    0 <= r && r * r <= n < (r + 1) * (r + 1)
  }

  lemma {:induction false} RootUnique(r: int, q: int, n: int)
    requires IsRoot(r, n) && IsRoot(q, n)
    ensures r == q
  {
    if r < q {
      MulLe(r + 1, q, r + 1);
      MulLe(r + 1, q, q);
    } else if q < r {
      MulLe(q + 1, r, q + 1);
      MulLe(q + 1, r, r);
    }
  }

  /** A Newton step from above never falls below the root. */
  lemma {:induction false} NewtonStaysAbove(n: int, x: int)
    requires 0 < n && 0 < x
    ensures var y := (x + n / x) / 2;
            0 <= y && n < (y + 1) * (y + 1)
  {
    var q := n / x;
    var y := (x + q) / 2;
    FloorBounds(n, x);
    FloorMonotone(0, n, x);
    Distribute(x, q, 1);
    SquareOfMean(x, q + 1, y + 1);
  }

  /** Twice the mean of a and b, squared, is at least four times their product. */
  lemma {:induction false} SquareOfMean(a: int, b: int, m: int)
    requires 0 < a && 0 < b && a + b <= 2 * m
    ensures a * b <= m * m
  {
    var d := a - m;
    MulLe(b, m - d, a);
    assert a * (m - d) == (m + d) * (m - d) == m * m - d * d;
    assert 0 <= d * d;
  }

  /** When the next estimate is no smaller, the current one is already at most the root. */
  lemma {:induction false} NewtonStops(n: int, x: int)
    requires 0 < n && 0 < x && x <= (x + n / x) / 2
    ensures x * x <= n
  {
    FloorBounds(n, x);
    MulLe(x, n / x, x);
  }

  /** Every estimate from 1 to n keeps the sum of a step within 128 bits. */
  lemma {:induction false} NewtonFits(n: int, x: int)
    requires 1 <= x <= n
    ensures 1 <= n / x && x + n / x <= n + 1
  {
    FloorBounds(n, x);
    var q := n / x;
    if q < 1 {
      MulLe(q, 0, x);
    }
    if x + q > n + 1 {
      SumBelowProduct(x, q);
    }
  }

  lemma {:induction false} SumBelowProduct(a: int, b: int)
    requires 1 <= a && 1 <= b
    ensures a + b <= a * b + 1
  {
    MulLe(0, a - 1, b - 1);
    assert (a - 1) * (b - 1) == a * b - a - b + 1;
  }

  /** Newton's method; at the top of the type the initial `x + 1` overflows and the call aborts. */
  method Isqrt(n: u128) returns (root: Option<u128>)
    ensures root.None? <==> n == U128_MAX
    ensures root.Some? ==> IsRoot(root.value, n)
  {
    if n == 0 {
      return Some(0);
    }
    if n == U128_MAX {
      return None;
    }
    var x: u128 := n;
    var y: u128 := (x + 1) / 2;
    assert n / n == 1 by { FloorUnique(n, n, 1); }
    while y < x
      invariant 1 <= x <= n && y == (x + n / x) / 2
      invariant n < (x + 1) * (x + 1)
      decreases x
    {
      NewtonFits(n, x);
      NewtonStaysAbove(n, x);
      x := y;
      NewtonFits(n, x);
      y := (x + n / x) / 2;
    }
    NewtonStops(n, x);
    root := Some(x);
  }

  function Root(n: nat): (r: nat)
    ensures IsRoot(r, n)
  {
    RootFrom(n, 0)
  }

  /** Counts up to the root. */
  function RootFrom(n: nat, r: nat): (root: nat)
    requires r * r <= n
    ensures IsRoot(root, n)
    decreases n - r
  {
    if (r + 1) * (r + 1) > n then r
    else
      assert r < n by { MulLe(1, r + 1, r + 1); }
      RootFrom(n, r + 1)
  }

  /** Scaling under the root by a square and dividing the scale out again changes nothing. */
  lemma {:induction false} ScaleCancels(twiceCost: nat, rate: int, scale: int, root: int)
    requires 0 < rate && 0 < scale && IsRoot(root, twiceCost * scale * scale / rate)
    ensures IsRoot(root / scale, twiceCost / rate)
  {
    var scaled := twiceCost * scale * scale;
    var i := root / scale;
    var square := scale * scale;
    SwapFactors(twiceCost, scale, scale);
    FloorBounds(scaled, rate);
    FloorBounds(root, scale);
    FloorMonotone(0, root, scale);
    LowerHalf(twiceCost, rate, scale, root, i);
    UpperHalf(twiceCost, rate, scale, root, i);
  }

  lemma {:induction false} LowerHalf(t: nat, rate: int, scale: int, root: int, i: int)
    requires 0 < rate && 0 < scale && 0 <= i && i * scale <= root
    requires root * root <= t * (scale * scale) / rate
    ensures i * i <= t / rate
  {
    var square := scale * scale;
    SquareMonotone(i * scale, root);
    SwapFactors(i * scale, i, scale);
    SwapFactors(i, scale, i);
    SwapFactors(i * i, scale, scale);
    FloorBounds(t * square, rate);
    MulLe((i * i) * square, t * square / rate, rate);
    SwapFactors(i * i, square, rate);
    MulLe(1, scale, scale);
    CancelLe((i * i) * rate, t, square);
    FloorMonotone((i * i) * rate, t, rate);
    FloorUnique((i * i) * rate, rate, i * i);
  }

  lemma {:induction false} UpperHalf(t: nat, rate: int, scale: int, root: int, i: int)
    requires 0 < rate && 0 < scale && 0 <= root < (i + 1) * scale
    requires t * (scale * scale) / rate < (root + 1) * (root + 1)
    ensures t / rate < (i + 1) * (i + 1)
  {
    var j := i + 1;
    var square := scale * scale;
    SquareMonotone(root + 1, j * scale);
    SwapFactors(j * scale, j, scale);
    SwapFactors(j, scale, j);
    SwapFactors(j * j, scale, scale);
    FloorBounds(t * square, rate);
    MulLe(t * square / rate + 1, (j * j) * square, rate);
    SwapFactors(j * j, square, rate);
    MulLe(1, scale, scale);
    CancelLt(t, (j * j) * rate, square);
    FloorBounds(t, rate);
    CancelLt(t / rate, j * j, rate);
  }

  lemma {:induction false} SquareMonotone(a: int, b: int)
    requires 0 <= a <= b
    ensures a * a <= b * b
  {
    MulLe(a, b, a);
    MulLe(a, b, b);
  }

  /**
    For all 32-bit inputs with a positive rate and position, the interval is the root of the
    plain quotient, at least 1: the ledgers-per-year scale cancels and nothing saturates.
   */
  method ComputeOptimalInterval(txCostBps: u32, rewardRateBps: u32, position: i128) returns (interval: u32)
    ensures rewardRateBps == 0 || position <= 0 ==> interval == 1
    ensures rewardRateBps > 0 && position > 0 ==> interval == Max(1, Root(2 * txCostBps / rewardRateBps))
  {
    if rewardRateBps == 0 || position <= 0 {
      return 1;
    }
    var numerator := SatMulU128(SatMulU128(SatMulU128(2, txCostBps), LEDGERS_PER_YEAR), LEDGERS_PER_YEAR);
    var denominator := Max(rewardRateBps, 1);
    assert numerator == 2 * txCostBps * LEDGERS_PER_YEAR * LEDGERS_PER_YEAR;
    FloorMonotone(0, numerator, denominator);
    QuotientInRange(numerator, denominator);
    var found := Isqrt(numerator / denominator);
    var root := found.value;
    ScaleCancels(2 * txCostBps, rewardRateBps, LEDGERS_PER_YEAR, root);
    var scaled := root / LEDGERS_PER_YEAR;
    RootUnique(scaled, Root(2 * txCostBps / rewardRateBps), 2 * txCostBps / rewardRateBps);
    RootFits(scaled, txCostBps, rewardRateBps);
    interval := Max(scaled, 1);
  }

  lemma {:induction false} RootFits(r: int, txCostBps: u32, rate: u32)
    requires 0 < rate && IsRoot(r, 2 * txCostBps / rate)
    ensures r <= U32_MAX
  {
    QuotientInRange(2 * txCostBps, rate);
    if r > U32_MAX {
      SquareMonotone(U32_MAX, r);
    }
  }
}
