/** Scheduled reduction of the reward rate (src/balance.rs, set by src/vault.rs). */
module HalvingSchedule {
  import opened Numeric

  datatype Error = ZeroAmount | InvalidRate

  datatype Config = Config(intervalLedgers: u32, startedAt: u32, floorRateBps: i128)

  /** Halvings elapsed by a ledger. */
  function CountAt(config: Option<Config>, ledger: u32): u32 {
    if config.Some? && config.value.intervalLedgers > 0 && ledger > config.value.startedAt
    then IntervalsBetween(config.value.startedAt, ledger, config.value.intervalLedgers) else 0
  }

  function IntervalsBetween(start: u32, ledger: u32, interval: u32): u32
    requires start <= ledger && 0 < interval
  {
    QuotientInRange(ledger - start, interval);
    (ledger - start) / interval
  }

  /** The next halving; `Overflow` is the abort of the 32-bit sum. */
  datatype Next = Never | At(ledger: u32) | Overflow

  function NextHalvingAt(config: Option<Config>, current: u32): Next {
    if config.None? || config.value.intervalLedgers == 0 then Never
    else
      var boundary := config.value.startedAt + (CountAt(config, current) + 1) * config.value.intervalLedgers;
      if 0 <= boundary <= U32_MAX then At(boundary) else Overflow
  }

  /** One floor-rounded cut. */
  function Cut(rate: int, reductionBps: int): int {
    TruncDiv(rate * (BPS_DENOMINATOR - reductionBps), BPS_DENOMINATOR)
  }

  /** The base rate after one cut per elapsed interval, with no early stop. */
  ghost function Cuts(base: int, reductionBps: int, count: nat): int {
    if count == 0 then base else Cut(Cuts(base, reductionBps, count - 1), reductionBps)
  }

  ghost function RateAt(config: Option<Config>, reductionBps: u32, base: u32, ledger: u32): int {
    if config.None? then base
    else Max(Cuts(base, reductionBps, CountAt(config, ledger)), config.value.floorRateBps)
  }

  /** A cut of at least one basis point lowers every positive rate. */
  lemma {:induction false} CutLowers(rate: int, reductionBps: int)
    requires 0 <= rate && 1 <= reductionBps <= BPS_DENOMINATOR
    ensures 0 <= Cut(rate, reductionBps) <= rate
    ensures 0 < rate ==> Cut(rate, reductionBps) < rate
  {
    var keep := BPS_DENOMINATOR - reductionBps;
    MulLe(0, rate, keep);
    MulLe(keep, BPS_DENOMINATOR - 1, rate);
    FloorMonotone(0, rate * keep, BPS_DENOMINATOR);
    FloorBounds(rate * keep, BPS_DENOMINATOR);
  }

  lemma {:induction false} CutsFall(base: int, reductionBps: int, fewer: nat, more: nat)
    requires 0 <= base && 1 <= reductionBps <= BPS_DENOMINATOR && fewer <= more
    ensures 0 <= Cuts(base, reductionBps, more) <= Cuts(base, reductionBps, fewer) <= base
    decreases fewer + more
  {
    if fewer < more {
      CutsFall(base, reductionBps, fewer, more - 1);
      CutLowers(Cuts(base, reductionBps, more - 1), reductionBps);
    } else if fewer != 0 {
      CutsFall(base, reductionBps, fewer - 1, more - 1);
      CutLowers(Cuts(base, reductionBps, fewer - 1), reductionBps);
    }
  }

  lemma {:induction false} CountGrows(config: Option<Config>, earlier: u32, later: u32)
    requires earlier <= later
    ensures CountAt(config, earlier) <= CountAt(config, later)
  {
    if config.Some? && config.value.intervalLedgers > 0 && earlier > config.value.startedAt {
      FloorMonotone(earlier - config.value.startedAt, later - config.value.startedAt, config.value.intervalLedgers);
    }
  }

  /** The rate never rises. */
  lemma {:induction false} RateFalls(config: Option<Config>, reductionBps: u32, base: u32, earlier: u32, later: u32)
    requires 1 <= reductionBps <= BPS_DENOMINATOR && earlier <= later
    ensures RateAt(config, reductionBps, base, later) <= RateAt(config, reductionBps, base, earlier)
  {
    CountGrows(config, earlier, later);
    CutsFall(base, reductionBps, CountAt(config, earlier), CountAt(config, later));
  }

  /** The count, and with it the rate, stays put until exactly the announced ledger, where one more cut applies. */
  lemma {:induction false} ConstantUntilNext(
      config: Option<Config>, reductionBps: u32, base: u32, current: u32, ledger: u32)
    requires NextHalvingAt(config, current).At?
    ensures current < NextHalvingAt(config, current).ledger
    ensures current <= ledger < NextHalvingAt(config, current).ledger ==>
              && CountAt(config, ledger) == CountAt(config, current)
              && RateAt(config, reductionBps, base, ledger) == RateAt(config, reductionBps, base, current)
    ensures ledger == NextHalvingAt(config, current).ledger ==> CountAt(config, ledger) == CountAt(config, current) + 1
  {
    var start, n := config.value.startedAt, config.value.intervalLedgers;
    var count := CountAt(config, current);
    Distribute(n, count, 1);
    if current > start {
      FloorBounds(current - start, n);
    }
    if ledger > start {
      if current <= ledger < start + (count + 1) * n {
        if current > start {
          FloorUnique(ledger - start, n, count);
        } else {
          FloorUnique(ledger - start, n, 0);
        }
      }
      if ledger == start + (count + 1) * n {
        FloorUnique(ledger - start, n, count + 1);
      }
    }
  }

  // ---------- Counts, cuts and rates without their formulas ----------

  /** After the k-th boundary and before the next, k intervals have elapsed; up to the start, none. */
  lemma {:induction false} CountIs(config: Config, ledger: u32, k: nat)
    requires 0 < config.intervalLedgers
    requires config.startedAt + k * config.intervalLedgers <= ledger
    requires ledger < config.startedAt + (k + 1) * config.intervalLedgers
    ensures CountAt(Some(config), ledger) == k
  {
    var n := config.intervalLedgers;
    Distribute(n, k, 1);
    if ledger > config.startedAt {
      FloorUnique(ledger - config.startedAt, n, k);
    } else if k > 0 {
      MulLe(1, k, n);
    }
  }

  lemma {:induction false} NoCountBeforeStart(config: Option<Config>, ledger: u32)
    requires config.None? || config.value.intervalLedgers == 0 || ledger <= config.value.startedAt
    ensures CountAt(config, ledger) == 0
  {
  }

  /** The announced ledger is the first boundary after the current one; none is announced without a schedule. */
  lemma {:induction false} NextIsFirstBoundary(config: Option<Config>, current: u32, k: nat)
    ensures NextHalvingAt(config, current).Never? <==> config.None? || config.value.intervalLedgers == 0
    ensures NextHalvingAt(config, current).At? ==>
              && (exists j: nat :: 0 < j && NextHalvingAt(config, current).ledger == Boundary(config.value, j))
              && (0 < k && current < Boundary(config.value, k) ==>
                    NextHalvingAt(config, current).ledger <= Boundary(config.value, k))
  {
    if NextHalvingAt(config, current).At? {
      var c, count := config.value, CountAt(config, current);
      assert NextHalvingAt(config, current).ledger == Boundary(c, count + 1);
      if 0 < k <= count {
        BoundaryReached(c, current, k);
      } else if count < k {
        BoundariesGrow(c, count + 1, k);
      }
    }
  }

  lemma {:induction false} BoundariesGrow(config: Config, fewer: nat, more: nat)
    requires fewer <= more
    ensures Boundary(config, fewer) <= Boundary(config, more)
  {
    MulLe(fewer, more, config.intervalLedgers);
  }

  lemma {:induction false} BoundaryReached(config: Config, current: u32, k: nat)
    requires 0 < config.intervalLedgers && 0 < k <= CountAt(Some(config), current)
    ensures Boundary(config, k) <= current
  {
    var count := CountAt(Some(config), current);
    FloorBounds(current - config.startedAt, config.intervalLedgers);
    BoundariesGrow(config, k, count);
  }

  /** The k-th boundary of a schedule. */
  ghost function Boundary(config: Config, k: nat): int { config.startedAt + k * config.intervalLedgers }

  /** A cut keeps the floor of the part of the rate that is not removed. */
  lemma {:induction false} CutIsFloor(rate: int, reductionBps: int)
    requires 0 <= rate && 1 <= reductionBps <= 10_000
    ensures 10_000 * Cut(rate, reductionBps) <= rate * (10_000 - reductionBps) < 10_000 * (Cut(rate, reductionBps) + 1)
  {
    MulLe(0, rate, 10_000 - reductionBps);
    FloorBounds(rate * (10_000 - reductionBps), 10_000);
  }

  ghost function PowerOfTwo(n: nat): int { if n == 0 then 1 else 2 * PowerOfTwo(n - 1) }

  /** At 5,000 bps the cuts are the classic halving: k of them leave the floor of the rate over two to the k. */
  lemma {:induction false} ClassicHalving(base: int, k: nat)
    requires 0 <= base
    ensures 0 < PowerOfTwo(k) && Cuts(base, 5_000, k) == base / PowerOfTwo(k)
  {
    if k == 0 {
      FloorUnique(base, 1, base);
    } else {
      ClassicHalving(base, k - 1);
      var p, x := PowerOfTwo(k - 1), Cuts(base, 5_000, k - 1);
      FloorBounds(base, p);
      CutsFall(base, 5_000, k - 1, k);
      CutIsFloor(x, 5_000);
      HalfOfQuotient(base, p, x, Cut(x, 5_000));
    }
  }

  lemma {:induction false} HalfOfQuotient(base: int, p: int, x: int, half: int)
    requires 0 < p && p * x <= base < p * x + p && 2 * half <= x < 2 * half + 2
    ensures base / (2 * p) == half
  {
    Distribute(p, 2 * half, x - 2 * half);
    MulLe(0, x - 2 * half, p);
    MulLe(x - 2 * half, 1, p);
    SwapFactors(p, 2, half);
    FloorUnique(base, 2 * p, half);
  }

  /** In the k-th interval the rate is that after k cuts, but never below the floor; without a schedule, the base. */
  lemma {:induction false} RateIs(config: Config, reductionBps: u32, base: u32, ledger: u32, k: nat)
    requires 0 < config.intervalLedgers && Boundary(config, k) <= ledger < Boundary(config, k + 1)
    ensures RateAt(None, reductionBps, base, ledger) == base
    ensures var rate, cut := RateAt(Some(config), reductionBps, base, ledger), Cuts(base, reductionBps, k);
            config.floorRateBps <= rate && cut <= rate && (rate == cut || rate == config.floorRateBps)
  {
    CountIs(config, ledger, k);
  }

  // ---------- Storage ----------

  class Halving {
    var config: Option<Config>
    var reductionBps: u32

    /** What the setter guarantees of a stored schedule. */
    predicate Valid()
      reads this
    {
      && 1 <= reductionBps <= BPS_DENOMINATOR
      && (config.Some? ==> 0 < config.value.intervalLedgers && 0 <= config.value.floorRateBps)
    }

    constructor ()
      ensures Valid() && config == None && reductionBps == 5_000
    {
      config, reductionBps := None, 5_000;
    }

    method SetHalvingSchedule(interval: u32, reduction: u32, floor: i128, now: u32) returns (r: Result<(), Error>)
      requires Valid()
      modifies this
      ensures Valid()
      ensures r.Ok? <==> 0 < interval && 1 <= reduction <= BPS_DENOMINATOR && 0 <= floor
      ensures r.Ok? ==> config == Some(Config(interval, now, floor)) && reductionBps == reduction
      ensures r.Err? ==> config == old(config) && reductionBps == old(reductionBps)
                         && r.error == if 0 < interval && !(1 <= reduction <= BPS_DENOMINATOR)
                                       then InvalidRate else ZeroAmount
    {
      if interval == 0 {
        return Err(ZeroAmount);
      }
      if reduction == 0 || reduction > BPS_DENOMINATOR {
        return Err(InvalidRate);
      }
      if floor < 0 {
        return Err(ZeroAmount);
      }
      config := Some(Config(interval, now, floor));
      reductionBps := reduction;
      return Ok(());
    }

    /**
      The loop stops as soon as the floor is reached, and still computes every elapsed cut.
      It runs at most once per basis point between the base rate and the floor.
     */
    method HalvingAdjustedRate(base: u32, ledger: u32) returns (rate: int, iterations: nat)
      requires Valid()
      ensures rate == RateAt(config, reductionBps, base, ledger)
      ensures iterations <= CountAt(config, ledger)
      ensures iterations <= if config.None? then 0 else Max(0, base - config.value.floorRateBps)
    {
      iterations := 0;
      if config.None? {
        return base, 0;
      }
      var floor := config.value.floorRateBps;
      var count := CountAt(config, ledger);
      var effective: int := base;
      while iterations < count && effective > floor
        invariant 0 <= iterations <= count
        invariant effective == Cuts(base, reductionBps, iterations) && 0 <= effective <= base
        invariant effective <= base - iterations || iterations == 0
        invariant iterations <= Max(0, base - floor)
      {
        CutLowers(effective, reductionBps);
        effective := Cut(effective, reductionBps);
        iterations := iterations + 1;
      }
      CutsFall(base, reductionBps, iterations, count);
      rate := Max(effective, floor);
    }
  }
}
