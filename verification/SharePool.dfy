/**
  The vault's share price arithmetic as a running pool: the conversions of src/balance.rs,
  the deposit step of src/vault.rs and the burn step of src/liquidity_bridge.rs.
 */
module SharePool {
  import opened Numeric
  import opened MapSums

  const SHARE_DECIMALS: u32 := 7

  datatype Error = ZeroAmount | Unauthorized | InsufficientShares | ArithmeticError

  function Pow10(n: nat): int {
    if n == 0 then 1 else 10 * Pow10(n - 1)
  }

  // ---------- Conversions ----------

  function ScaleAmount(amount: i128, fromDecimals: u32, toDecimals: u32): Option<i128> {
    if fromDecimals == toDecimals then Some(amount)
    else if fromDecimals < toDecimals then
      match Checked(Pow10(toDecimals - fromDecimals))
      case None => None
      case Some(factor) => Checked(amount * factor)
    else
      match Checked(Pow10(fromDecimals - toDecimals))
      case None => None
      case Some(factor) => CheckedDiv(amount, factor)
  }

  function AmountToShares(totalShares: i128, totalDeposited: i128, amount: i128, decimals: u32): Option<i128> {
    if totalShares == 0 || totalDeposited == 0 then ScaleAmount(amount, decimals, SHARE_DECIMALS)
    else
      match Checked(amount * totalShares)
      case None => None
      case Some(product) => CheckedDiv(product, totalDeposited)
  }

  function SharesToAmount(totalShares: i128, totalDeposited: i128, shares: i128): Option<i128> {
    if totalShares == 0 then Some(0)
    else
      match Checked(shares * totalDeposited)
      case None => None
      case Some(product) => CheckedDiv(product, totalShares)
  }

  lemma {:induction false} Pow10Positive(n: nat)
    ensures Pow10(n) > 0
  {
    if n > 0 {
      Pow10Positive(n - 1);
    }
  }

  /** A factor of ten for each decimal. */
  lemma {:induction false} PowersOfTen(n: nat)
    ensures Pow10(0) == 1 && Pow10(n + 1) == 10 * Pow10(n) && 0 < Pow10(n)
    ensures Pow10(7) == 10_000_000
  {
    Pow10Positive(n);
    assert Pow10(7) == 10 * Pow10(6) == 100 * Pow10(5) == 1_000 * Pow10(4) == 10_000 * Pow10(3);
    assert Pow10(3) == 10 * Pow10(2) == 100 * Pow10(1) == 1_000 * Pow10(0);
  }

  /**
    Into a pool without shares or without deposits a mint converts the amount to seven decimals:
    exactly from seven or fewer, rounding down from more. It fails exactly when the factor or the
    converted amount does not fit.
   */
  lemma {:induction false} FirstMint(totalShares: i128, totalDeposited: i128, amount: i128, decimals: u32)
    requires (totalShares == 0 || totalDeposited == 0) && 0 <= amount
    ensures var minted := AmountToShares(totalShares, totalDeposited, amount, decimals);
            if decimals <= 7 then
              && (minted.Some? <==> amount * Pow10(7 - decimals) <= I128_MAX)
              && (minted.Some? ==> minted.value == amount * Pow10(7 - decimals))
            else
              var factor := Pow10(decimals - 7);
              && (minted.Some? <==> factor <= I128_MAX)
              && (minted.Some? ==> 0 <= minted.value && minted.value * factor <= amount < (minted.value + 1) * factor)
  {
    if decimals < 7 {
      ScaleUp(amount, decimals);
    } else if decimals > 7 {
      ScaleDown(amount, decimals);
    }
    PowersOfTen(0);
    hide Pow10;
  }

  lemma {:induction false} Pow10Grows(n: nat, m: nat)
    requires n <= m
    ensures 0 < Pow10(n) <= Pow10(m)
  {
    if n < m {
      Pow10Grows(n, m - 1);
    } else {
      Pow10Positive(n);
    }
  }

  lemma {:induction false} ScaleUp(amount: i128, decimals: u32)
    requires 0 <= amount && decimals < 7
    ensures var scaled := ScaleAmount(amount, decimals, 7);
            && (scaled.Some? <==> amount * Pow10(7 - decimals) <= I128_MAX)
            && (scaled.Some? ==> scaled.value == amount * Pow10(7 - decimals))
  {
    Pow10Grows(7 - decimals, 7);
    PowersOfTen(0);
    MulLe(0, amount, Pow10(7 - decimals));
    hide Pow10;
  }

  lemma {:induction false} ScaleDown(amount: i128, decimals: u32)
    requires 0 <= amount && 7 < decimals
    ensures var scaled, factor := ScaleAmount(amount, decimals, 7), Pow10(decimals - 7);
            && (scaled.Some? <==> factor <= I128_MAX)
            && (scaled.Some? ==> 0 <= scaled.value && scaled.value * factor <= amount < (scaled.value + 1) * factor)
  {
    var factor := Pow10(decimals - 7);
    Pow10Positive(decimals - 7);
    FloorBounds(amount, factor);
    QuotientInRange(amount, factor);
    hide Pow10;
  }

  /** A mint rounds down: the new shares are worth at most what was paid, short by less than one share. */
  lemma {:induction false} MintRoundsDown(totalShares: i128, totalDeposited: i128, amount: i128, decimals: u32)
    requires 0 <= totalShares && 0 <= totalDeposited && 0 <= amount
    requires AmountToShares(totalShares, totalDeposited, amount, decimals).Some?
    ensures var minted := AmountToShares(totalShares, totalDeposited, amount, decimals).value;
            && 0 <= minted
            && (0 < totalShares && 0 < totalDeposited ==>
                  minted * totalDeposited <= amount * totalShares < (minted + 1) * totalDeposited)
  {
    if totalShares == 0 || totalDeposited == 0 {
      if decimals < SHARE_DECIMALS {
        Pow10Positive(SHARE_DECIMALS - decimals);
        MulLe(0, amount, Pow10(SHARE_DECIMALS - decimals));
      } else if decimals > SHARE_DECIMALS {
        Pow10Positive(decimals - SHARE_DECIMALS);
        FloorMonotone(0, amount, Pow10(decimals - SHARE_DECIMALS));
      }
    } else {
      MulLe(0, amount, totalShares);
      FloorBounds(amount * totalShares, totalDeposited);
      FloorMonotone(0, amount * totalShares, totalDeposited);
    }
  }

  /** A burn rounds down too; burning everything pays everything. */
  lemma {:induction false} BurnRoundsDown(totalShares: i128, totalDeposited: i128, shares: i128)
    requires 0 < totalShares && 0 <= totalDeposited && 0 <= shares <= totalShares
    ensures SharesToAmount(totalShares, totalDeposited, shares).Some? <==> shares * totalDeposited <= I128_MAX
    ensures var paid := SharesToAmount(totalShares, totalDeposited, shares);
            paid.Some? ==>
              && 0 <= paid.value <= totalDeposited
              && paid.value * totalShares <= shares * totalDeposited < (paid.value + 1) * totalShares
              && (shares == totalShares ==> paid.value == totalDeposited)
  {
    MulLe(0, shares, totalDeposited);
    if shares * totalDeposited <= I128_MAX {
      var q := shares * totalDeposited / totalShares;
      FloorBounds(shares * totalDeposited, totalShares);
      FloorMonotone(0, shares * totalDeposited, totalShares);
      MulLe(shares, totalShares, totalDeposited);
      CancelLe(q, totalDeposited, totalShares);
      if shares == totalShares {
        FloorUnique(shares * totalDeposited, totalShares, totalDeposited);
      }
    }
  }

  /** Nothing is worth anything without shares. */
  lemma {:induction false} NoSharesNoAmount(totalDeposited: i128, shares: i128)
    ensures SharesToAmount(0, totalDeposited, shares) == Some(0)
  {
  }

  // ---------- The pool ----------

  datatype Pool = Pool(shares: map<Address, i128>, totalShares: i128, totalDeposited: i128)

  function SharesOf(pool: Pool, user: Address): i128 {
    if user in pool.shares then pool.shares[user] else 0
  }

  /** The deposit step: returns the pool afterwards and the shares minted. */
  function Deposit(pool: Pool, user: Address, amount: i128, decimals: u32): Result<(Pool, i128), Error> {
    if amount <= 0 then Err(ZeroAmount)
    else
      match AmountToShares(pool.totalShares, pool.totalDeposited, amount, decimals)
      case None => Err(ArithmeticError)
      case Some(minted) =>
        var held, total, deposited :=
          SharesOf(pool, user) + minted, pool.totalShares + minted, pool.totalDeposited + amount;
        if FitsI128(held) && FitsI128(total) && FitsI128(deposited) then
          Ok((Pool(pool.shares[user := held], total, deposited), minted))
        else Err(ArithmeticError)
  }

  /** The bridge's burn step: returns the pool afterwards and the tokens paid out. */
  function Redeem(pool: Pool, user: Address, shares: i128, approved: bool): Result<(Pool, i128), Error> {
    if shares <= 0 then Err(ZeroAmount)
    else if !approved then Err(Unauthorized)
    else if shares > SharesOf(pool, user) then Err(InsufficientShares)
    else
      match SharesToAmount(pool.totalShares, pool.totalDeposited, shares)
      case None => Err(ArithmeticError)
      case Some(paid) =>
        var held, total, deposited :=
          SharesOf(pool, user) - shares, pool.totalShares - shares, pool.totalDeposited - paid;
        if FitsI128(held) && FitsI128(total) && FitsI128(deposited) then
          Ok((Pool(pool.shares[user := held], total, deposited), paid))
        else Err(ArithmeticError)
  }

  ghost function Ints(m: map<Address, i128>): map<Address, int> { m }

  /** Nobody holds a negative balance and together the users hold at most the total. */
  ghost predicate Sound(pool: Pool) {
    && (forall u :: u in pool.shares ==> 0 <= pool.shares[u])
    && Sum(Ints(pool.shares)) <= pool.totalShares
    && 0 <= pool.totalDeposited
  }

  lemma {:induction false} HoldingBelowTotal(pool: Pool, user: Address)
    requires Sound(pool)
    ensures 0 <= SharesOf(pool, user) <= pool.totalShares
  {
    SumNonNegative(Ints(pool.shares));
    if user in pool.shares {
      SumRemove(Ints(pool.shares), user);
      SumNonNegative(Ints(pool.shares) - {user});
    }
  }

  /** The price of one pool is at least that of another, compared without division. */
  ghost predicate PriceAtLeast(deposited: int, shares: int, deposited0: int, shares0: int) {
    deposited * shares0 >= deposited0 * shares
  }

  lemma {:induction false} PriceChain(d0: int, s0: int, d1: int, s1: int, d2: int, s2: int)
    requires 0 <= s0 && 0 < s1 && 0 <= s2
    requires PriceAtLeast(d1, s1, d0, s0) && PriceAtLeast(d2, s2, d1, s1)
    ensures PriceAtLeast(d2, s2, d0, s0)
  {
    MulLe(d1 * s2, d2 * s1, s0);
    MulLe(d0 * s1, d1 * s0, s2);
    assert (d1 * s2) * s0 == (d1 * s0) * s2;
    assert (d2 * s1) * s0 == (d2 * s0) * s1;
    assert (d0 * s1) * s2 == (d0 * s2) * s1;
    CancelLe(d0 * s2, d2 * s0, s1);
  }

  lemma {:induction false} DepositStep(pool: Pool, user: Address, amount: i128, decimals: u32)
    requires Sound(pool) && Deposit(pool, user, amount, decimals).Ok?
    ensures var (after, minted) := Deposit(pool, user, amount, decimals).value;
            && Sound(after) && 0 <= minted
            && after.totalShares == pool.totalShares + minted
            && after.totalDeposited == pool.totalDeposited + amount
            && AmountToShares(pool.totalShares, pool.totalDeposited, amount, decimals) == Some(minted)
            && SharesOf(after, user) == SharesOf(pool, user) + minted
            && (forall u :: u != user ==> SharesOf(after, u) == SharesOf(pool, u))
            && (0 < pool.totalShares ==>
                  PriceAtLeast(after.totalDeposited, after.totalShares, pool.totalDeposited, pool.totalShares))
  {
    var (after, minted) := Deposit(pool, user, amount, decimals).value;
    HoldingBelowTotal(pool, user);
    MintRoundsDown(pool.totalShares, pool.totalDeposited, amount, decimals);
    assert Ints(after.shares) == Ints(pool.shares)[user := SharesOf(pool, user) + minted];
    SumSet(Ints(pool.shares), user, SharesOf(pool, user) + minted);
    hide AmountToShares, Sum;
    if 0 < pool.totalShares {
      MulLe(0, amount, pool.totalShares);
      PriceAfterMint(pool.totalDeposited, pool.totalShares, amount, minted);
    }
  }

  lemma {:induction false} PriceAfterMint(deposited: int, total: int, amount: int, minted: int)
    requires 0 <= amount * total && 0 <= deposited
    requires 0 < deposited ==> minted * deposited <= amount * total
    ensures PriceAtLeast(deposited + amount, total + minted, deposited, total)
  {
    Distribute(total, deposited, amount);
    Distribute(deposited, total, minted);
  }

  lemma {:induction false} RedeemStep(pool: Pool, user: Address, shares: i128, approved: bool)
    requires Sound(pool) && Redeem(pool, user, shares, approved).Ok?
    ensures var (after, paid) := Redeem(pool, user, shares, approved).value;
            && Sound(after) && 0 <= paid
            && after.totalShares == pool.totalShares - shares
            && after.totalDeposited == pool.totalDeposited - paid
            && SharesToAmount(pool.totalShares, pool.totalDeposited, shares) == Some(paid)
            && SharesOf(after, user) == SharesOf(pool, user) - shares
            && (forall u :: u != user ==> SharesOf(after, u) == SharesOf(pool, u))
            && PriceAtLeast(after.totalDeposited, after.totalShares, pool.totalDeposited, pool.totalShares)
  {
    var (after, paid) := Redeem(pool, user, shares, approved).value;
    HoldingBelowTotal(pool, user);
    BurnRoundsDown(pool.totalShares, pool.totalDeposited, shares);
    assert Ints(after.shares) == Ints(pool.shares)[user := SharesOf(pool, user) - shares];
    SumSet(Ints(pool.shares), user, SharesOf(pool, user) - shares);
    hide SharesToAmount, Sum;
    PriceAfterBurn(pool.totalDeposited, pool.totalShares, shares, paid);
  }

  lemma {:induction false} PriceAfterBurn(deposited: int, total: int, shares: int, paid: int)
    requires paid * total <= shares * deposited
    ensures PriceAtLeast(deposited - paid, total - shares, deposited, total)
  {
    assert (deposited - paid) * total == deposited * total - paid * total;
    assert deposited * (total - shares) == deposited * total - shares * deposited;
  }

  /**
    A redemption goes through exactly for a positive part of the caller's own shares, to an
    approved target, whose product with the deposits fits.
   */
  lemma {:induction false} RedeemAcceptedExactly(pool: Pool, user: Address, shares: i128, approved: bool)
    requires Sound(pool)
    ensures Redeem(pool, user, shares, approved).Ok?
            <==> 0 < shares <= SharesOf(pool, user) && approved && shares * pool.totalDeposited <= I128_MAX
  {
    HoldingBelowTotal(pool, user);
    if 0 < shares <= SharesOf(pool, user) {
      BurnRoundsDown(pool.totalShares, pool.totalDeposited, shares);
    }
    hide SharesToAmount, Sound;
  }

  /** A deposit goes through exactly for a positive amount whose mint fits, with both new totals. */
  lemma {:induction false} DepositAcceptedExactly(pool: Pool, user: Address, amount: i128, decimals: u32)
    requires Sound(pool)
    ensures Deposit(pool, user, amount, decimals).Ok?
            <==> && 0 < amount && pool.totalDeposited + amount <= I128_MAX
                 && var minted := AmountToShares(pool.totalShares, pool.totalDeposited, amount, decimals);
                    minted.Some? && pool.totalShares + minted.value <= I128_MAX
    ensures 0 < pool.totalShares && 0 < pool.totalDeposited && 0 < amount ==>
              (AmountToShares(pool.totalShares, pool.totalDeposited, amount, decimals).Some?
               <==> amount * pool.totalShares <= I128_MAX)
  {
    HoldingBelowTotal(pool, user);
    if 0 < amount {
      MintFits(pool.totalShares, pool.totalDeposited, amount, decimals);
      if AmountToShares(pool.totalShares, pool.totalDeposited, amount, decimals).Some? {
        MintRoundsDown(pool.totalShares, pool.totalDeposited, amount, decimals);
      }
    }
    hide AmountToShares, Sound;
  }

  lemma {:induction false} MintFits(totalShares: i128, totalDeposited: i128, amount: i128, decimals: u32)
    requires 0 <= totalShares && 0 <= totalDeposited && 0 < amount
    ensures 0 < totalShares && 0 < totalDeposited ==>
              (AmountToShares(totalShares, totalDeposited, amount, decimals).Some?
               <==> amount * totalShares <= I128_MAX)
  {
    if 0 < totalShares && 0 < totalDeposited {
      MulLe(0, amount, totalShares);
      if amount * totalShares <= I128_MAX {
        QuotientInRange(amount * totalShares, totalDeposited);
      }
    }
  }

  ghost function EmptyPool(): Pool { Pool(map[], 0, 0) }

  /**
    The first depositor into an empty pool, where the token has seven decimals, gets one share per
    unit and redeems them all for everything deposited, exactly when the square of the amount fits.
   */
  lemma {:induction false} FirstDepositorGetsAllBack(user: Address, amount: i128)
    requires 0 < amount
    ensures Deposit(EmptyPool(), user, amount, 7).Ok?
    ensures var (after, minted) := Deposit(EmptyPool(), user, amount, 7).value;
            && minted == amount == SharesOf(after, user)
            && (Redeem(after, user, minted, true).Ok? <==> amount * amount <= I128_MAX)
            && (Redeem(after, user, minted, true).Ok? ==> Redeem(after, user, minted, true).value.1 == amount)
  {
    assert Ints(EmptyPool().shares) == map[];
    assert Sound(EmptyPool()) by { SumEmpty<Address>(); }
    FirstMint(0, 0, amount, 7);
    PowersOfTen(0);
    DepositAcceptedExactly(EmptyPool(), user, amount, 7);
    DepositStep(EmptyPool(), user, amount, 7);
    var (after, minted) := Deposit(EmptyPool(), user, amount, 7).value;
    hide Sound, AmountToShares, Deposit;
    RedeemAcceptedExactly(after, user, minted, true);
    if amount * amount <= I128_MAX {
      RedeemStep(after, user, minted, true);
      BurnRoundsDown(amount, amount, amount);
    }
  }

  // ---------- Runs without yield ----------

  datatype Move =
    | Put(user: Address, amount: i128)
    | Take(user: Address, shares: i128, approved: bool)

  /** The pool together with all tokens paid in and all tokens paid out so far. */
  datatype Books = Books(pool: Pool, paidIn: int, paidOut: int)

  ghost function Step(books: Books, move: Move, decimals: u32): Books {
    match move
    case Put(user, amount) =>
      (match Deposit(books.pool, user, amount, decimals)
       case Ok((after, _)) => Books(after, books.paidIn + amount, books.paidOut)
       case Err(_) => books)
    case Take(user, shares, approved) =>
      (match Redeem(books.pool, user, shares, approved)
       case Ok((after, paid)) => Books(after, books.paidIn, books.paidOut + paid)
       case Err(_) => books)
  }

  ghost function Run(books: Books, moves: seq<Move>, decimals: u32): Books
    decreases |moves|
  {
    if moves == [] then books else Run(Step(books, moves[0], decimals), moves[1..], decimals)
  }

  ghost function Opening(pool: Pool): Books { Books(pool, 0, 0) }

  /** Shares held by the users of a group. */
  ghost function GroupShares(pool: Pool, group: set<Address>): map<Address, int> {
    map u | u in pool.shares && u in group :: pool.shares[u]
  }

  /** The movers hold at least nothing, so the passive part of the shares never shrinks below its start. */
  ghost predicate OnTrack(start: Pool, group: set<Address>, books: Books) {
    var pool := books.pool;
    && Sound(pool)
    && pool.totalShares == start.totalShares + Sum(GroupShares(pool, group))
    && pool.totalDeposited == start.totalDeposited + books.paidIn - books.paidOut
    && PriceAtLeast(pool.totalDeposited, pool.totalShares, start.totalDeposited, start.totalShares)
  }

  lemma {:induction false} GroupSharesChange(pool: Pool, group: set<Address>, user: Address, held: i128)
    requires user in group
    ensures Sum(GroupShares(pool.(shares := pool.shares[user := held]), group))
         == Sum(GroupShares(pool, group)) - SharesOf(pool, user) + held
  {
    var after := pool.(shares := pool.shares[user := held]);
    assert GroupShares(after, group) == GroupShares(pool, group)[user := held];
    SumSet(GroupShares(pool, group), user, held);
  }

  lemma {:induction false} StepStaysOnTrack(start: Pool, group: set<Address>, books: Books, move: Move, decimals: u32)
    requires 0 < start.totalShares && 0 <= start.totalDeposited
    requires OnTrack(start, group, books) && move.user in group
    ensures OnTrack(start, group, Step(books, move, decimals))
  {
    var pool := books.pool;
    GroupIsNonNegative(pool, group);
    match move
    case Put(user, amount) =>
      var r := Deposit(pool, user, amount, decimals);
      if r.Ok? {
        var (after, minted) := r.value;
        DepositStep(pool, user, amount, decimals);
        GroupSharesChange(pool, group, user, SharesOf(pool, user) + minted);
        SameGroup(after, pool.(shares := after.shares), group);
        PriceChain(start.totalDeposited, start.totalShares, pool.totalDeposited, pool.totalShares,
                   after.totalDeposited, after.totalShares);
      }
    case Take(user, shares, approved) =>
      var r := Redeem(pool, user, shares, approved);
      if r.Ok? {
        var (after, paid) := r.value;
        RedeemStep(pool, user, shares, approved);
        GroupSharesChange(pool, group, user, SharesOf(pool, user) - shares);
        SameGroup(after, pool.(shares := after.shares), group);
        GroupIsNonNegative(after, group);
        PriceChain(start.totalDeposited, start.totalShares, pool.totalDeposited, pool.totalShares,
                   after.totalDeposited, after.totalShares);
      }
  }

  lemma {:induction false} SameGroup(a: Pool, b: Pool, group: set<Address>)
    requires a.shares == b.shares
    ensures GroupShares(a, group) == GroupShares(b, group)
  {
  }

  lemma {:induction false} GroupIsNonNegative(pool: Pool, group: set<Address>)
    requires Sound(pool)
    ensures 0 <= Sum(GroupShares(pool, group))
  {
    SumNonNegative(GroupShares(pool, group));
  }

  lemma {:induction false} RunStaysOnTrack(
      start: Pool, group: set<Address>, books: Books, moves: seq<Move>, decimals: u32)
    requires 0 < start.totalShares && 0 <= start.totalDeposited && OnTrack(start, group, books)
    requires forall i :: 0 <= i < |moves| ==> moves[i].user in group
    ensures OnTrack(start, group, Run(books, moves, decimals))
    decreases |moves|
  {
    hide OnTrack, Step;
    if moves != [] {
      StepStaysOnTrack(start, group, books, moves[0], decimals);
      RunStaysOnTrack(start, group, Step(books, moves[0], decimals), moves[1..], decimals);
    }
  }

  lemma {:induction false} OpeningOnTrack(start: Pool, group: set<Address>)
    requires Sound(start) && forall u :: u in group ==> SharesOf(start, u) == 0
    ensures OnTrack(start, group, Opening(start))
  {
    var shares := GroupShares(start, group);
    var nothing: map<Address, int> := map u | u in shares :: 0;
    assert shares == nothing;
    AllZero(nothing);
  }

  lemma {:induction false} AllZero(m: map<Address, int>)
    requires forall u :: u in m ==> m[u] == 0
    ensures Sum(m) == 0
    decreases |m|
  {
    if m != map[] {
      var u :| u in m;
      SumRemove(m, u);
      AllZero(m - {u});
    }
  }

  /**
    From a pool owned by others who stay passive, the users who do move never take out more
    than they put in; what they left behind is at least the starting price of the shares
    they still hold.
   */
  lemma {:induction false} NobodyProfits(start: Pool, group: set<Address>, moves: seq<Move>, decimals: u32)
    requires Sound(start) && 0 < start.totalShares
    requires forall u :: u in group ==> SharesOf(start, u) == 0
    requires forall i :: 0 <= i < |moves| ==> moves[i].user in group
    ensures var books := Run(Opening(start), moves, decimals);
            && books.paidOut <= books.paidIn
            && (books.paidIn - books.paidOut) * start.totalShares
               >= start.totalDeposited * Sum(GroupShares(books.pool, group))
  {
    var books := Run(Opening(start), moves, decimals);
    OpeningOnTrack(start, group);
    RunStaysOnTrack(start, group, Opening(start), moves, decimals);
    var held := Sum(GroupShares(books.pool, group));
    GroupIsNonNegative(books.pool, group);
    hide Run, Sum;
    NetIsNonNegative(start.totalDeposited, start.totalShares, books.paidIn - books.paidOut, held);
  }

  lemma {:induction false} NetIsNonNegative(deposited: int, total: int, net: int, held: int)
    requires 0 < total && 0 <= deposited && 0 <= held
    requires PriceAtLeast(deposited + net, total + held, deposited, total)
    ensures 0 <= net && net * total >= deposited * held
  {
    Distribute(total, deposited, net);
    Distribute(deposited, total, held);
    MulLe(0, held, deposited);
    CancelLe(0, net, total);
  }

  // ---------- Redeeming in pieces ----------

  ghost predicate Positive(pieces: seq<i128>) {
    forall i :: 0 <= i < |pieces| ==> 0 < pieces[i]
  }

  ghost function Total(pieces: seq<i128>): (total: nat)
    requires Positive(pieces)
    ensures pieces != [] ==> 0 < total
  {
    if pieces == [] then 0 else pieces[0] + Total(pieces[1..])
  }

  /** What consecutive redemptions pay together; None when one of them overflows. */
  ghost function PaidInPieces(totalShares: i128, totalDeposited: i128, pieces: seq<i128>): Option<int>
    requires Positive(pieces) && Total(pieces) <= totalShares && 0 <= totalDeposited
  {
    if pieces == [] then Some(0)
    else
      match SharesToAmount(totalShares, totalDeposited, pieces[0])
      case None => None
      case Some(paid) =>
        BurnRoundsDown(totalShares, totalDeposited, pieces[0]);
        match PaidInPieces(totalShares - pieces[0], totalDeposited - paid, pieces[1..])
        case None => None
        case Some(rest) => Some(paid + rest)
  }

  /** When one redemption of all the shares does not overflow, no piece does. */
  lemma {:induction false} PiecesFit(totalShares: i128, totalDeposited: i128, pieces: seq<i128>)
    requires Positive(pieces) && Total(pieces) <= totalShares && 0 <= totalDeposited
    requires Total(pieces) * totalDeposited <= I128_MAX
    ensures PaidInPieces(totalShares, totalDeposited, pieces).Some?
    decreases |pieces|
  {
    hide SharesToAmount;
    if pieces != [] {
      var p, rest := pieces[0], pieces[1..];
      MulLe(p, Total(pieces), totalDeposited);
      BurnRoundsDown(totalShares, totalDeposited, p);
      var paid := SharesToAmount(totalShares, totalDeposited, p).value;
      MulLe(Total(rest), Total(pieces), totalDeposited);
      MulLe(totalDeposited - paid, totalDeposited, Total(rest));
      PiecesFit(totalShares - p, totalDeposited - paid, rest);
    }
  }

  /** What stays in the pool: at least its proportional part, above it by less than one unit per piece. */
  lemma {:induction false} RemainderInPieces(totalShares: i128, totalDeposited: i128, pieces: seq<i128>)
    requires Positive(pieces) && Total(pieces) <= totalShares && 0 < totalShares && 0 <= totalDeposited
    requires PaidInPieces(totalShares, totalDeposited, pieces).Some?
    ensures var left := totalDeposited - PaidInPieces(totalShares, totalDeposited, pieces).value;
            && totalDeposited * (totalShares - Total(pieces)) <= left * totalShares
            && left * totalShares <= totalDeposited * (totalShares - Total(pieces)) + |pieces| * (totalShares - 1)
            && (Total(pieces) == totalShares ==> left == 0)
    decreases |pieces|
  {
    var s, d, t := totalShares, totalDeposited, Total(pieces);
    if pieces == [] {
      Distribute(d, s, 0);
    } else {
      var p, rest := pieces[0], pieces[1..];
      BurnRoundsDown(s, d, p);
      var paid := SharesToAmount(s, d, p).value;
      hide SharesToAmount;
      FirstPiece(s, d, p, paid);
      if rest != [] {
        RemainderInPieces(s - p, d - paid, rest);
        var left := d - paid - PaidInPieces(s - p, d - paid, rest).value;
        RemainderChain(s, d, s - p, d - paid, s - t, left, |rest|);
      }
    }
  }

  lemma {:induction false} FirstPiece(s: int, d: int, p: int, paid: int)
    requires paid * s <= p * d < (paid + 1) * s
    ensures d * (s - p) <= (d - paid) * s <= d * (s - p) + (s - 1)
  {
    Distribute(s, paid, 1);
    Distribute(s, d, -paid);
    Distribute(d, s, -p);
  }

  /** One more piece in front: both bounds carry over to the larger pool. */
  lemma {:induction false} RemainderChain(s: int, d: int, s1: int, d1: int, kept: int, left: int, k: nat)
    requires 0 < s1 <= s && 0 <= kept <= s1
    requires d * s1 <= d1 * s <= d * s1 + (s - 1)
    requires d1 * kept <= left * s1 <= d1 * kept + k * (s1 - 1)
    ensures d * kept <= left * s <= d * kept + (k + 1) * (s - 1)
  {
    PriceChain(d, s, d1, s1, left, kept);
    ScaledPart(s, d, s1, d1, kept);
    ScaledLoss(s, s1, k);
    Distribute(s - 1, k, 1);
    CombineBounds(s, s1, d1 * kept, k * (s1 - 1), d * kept, k * (s - 1), left, s - 1);
  }

  lemma {:induction false} CombineBounds(s: int, s1: int, a: int, b: int, q: int, m: int, left: int, e: int)
    requires 0 < s1 && 0 <= s && left * s1 <= a + b
    requires a * s <= q * s1 + e * s1 && b * s <= m * s1
    ensures left * s <= q + m + e
  {
    MulLe(left * s1, a + b, s);
    Distribute(s, a, b);
    SwapFactors(left, s1, s);
    Distribute(s1, q, m + e);
    Distribute(s1, m, e);
    CancelLe(left * s, q + (m + e), s1);
  }

  lemma {:induction false} ScaledPart(s: int, d: int, s1: int, d1: int, kept: int)
    requires 0 < s1 <= s && 0 <= kept <= s1 && d1 * s <= d * s1 + (s - 1)
    ensures (d1 * kept) * s <= (d * kept) * s1 + (s - 1) * s1
  {
    MulLe(d1 * s, d * s1 + (s - 1), kept);
    Distribute(kept, d * s1, s - 1);
    SwapFactors(d1, kept, s);
    SwapFactors(d, s1, kept);
    MulLe(kept, s1, s - 1);
  }

  lemma {:induction false} ScaledLoss(s: int, s1: int, k: nat)
    requires 0 < s1 <= s
    ensures (k * (s1 - 1)) * s <= (k * (s - 1)) * s1
  {
    Distribute(s, s1, -1);
    Distribute(s1, s, -1);
    MulLe((s1 - 1) * s, (s - 1) * s1, k);
    SwapFactors(k, s1 - 1, s);
    SwapFactors(k, s - 1, s1);
  }

  /**
    Whenever one redemption of all the shares would not overflow, neither do its pieces:
    together they pay at most as much, fall short of the exact value by less than one unit a
    piece, and redeeming every share pays out exactly what was deposited.
   */
  lemma {:induction false} PiecesPayNoMore(totalShares: i128, totalDeposited: i128, pieces: seq<i128>)
    requires pieces != [] && Positive(pieces) && Total(pieces) <= totalShares && 0 <= totalDeposited
    requires SharesToAmount(totalShares, totalDeposited, Total(pieces)).Some?
    ensures PaidInPieces(totalShares, totalDeposited, pieces).Some?
    ensures var paid := PaidInPieces(totalShares, totalDeposited, pieces).value;
            && paid <= SharesToAmount(totalShares, totalDeposited, Total(pieces)).value
            && paid * totalShares > Total(pieces) * totalDeposited - |pieces| * totalShares
            && (Total(pieces) == totalShares ==> paid == totalDeposited)
  {
    var s, d, t := totalShares, totalDeposited, Total(pieces);
    BurnRoundsDown(s, d, t);
    PiecesFit(s, d, pieces);
    RemainderInPieces(s, d, pieces);
    var paid := PaidInPieces(s, d, pieces).value;
    var single := SharesToAmount(s, d, t).value;
    var k := |pieces|;
    hide PaidInPieces, Total, SharesToAmount;
    PiecesArithmetic(s, d, t, paid, single, k);
  }

  lemma {:induction false} PiecesArithmetic(s: int, d: int, t: int, paid: int, single: int, k: nat)
    requires 0 < s && 0 < k && t * d < (single + 1) * s
    requires d * (s - t) <= (d - paid) * s <= d * (s - t) + k * (s - 1)
    ensures paid <= single && paid * s > t * d - k * s
  {
    Distribute(s, d, -paid);
    Distribute(d, s, -t);
    Distribute(k, s, -1);
    if paid > single {
      MulLe(single + 1, paid, s);
    }
  }

  ghost function Pieces(moves: seq<Move>): (pieces: seq<i128>)
    requires forall i :: 0 <= i < |moves| ==> moves[i].Take?
    ensures |pieces| == |moves|
  {
    if moves == [] then [] else [moves[0].shares] + Pieces(moves[1..])
  }

  /** Redemptions only, by whichever users, each accepted in its turn. */
  ghost predicate AllTaken(pool: Pool, moves: seq<Move>)
    decreases |moves|
  {
    moves == [] ||
    (moves[0].Take?
     && (var r := Redeem(pool, moves[0].user, moves[0].shares, moves[0].approved);
         r.Ok? && AllTaken(r.value.0, moves[1..])))
  }

  lemma {:induction false} TakenOnly(pool: Pool, moves: seq<Move>)
    requires AllTaken(pool, moves)
    ensures forall i :: 0 <= i < |moves| ==> moves[i].Take?
    decreases |moves|
  {
    if moves != [] {
      TakenOnly(Redeem(pool, moves[0].user, moves[0].shares, moves[0].approved).value.0, moves[1..]);
      assert forall i :: 0 < i < |moves| ==> moves[i] == moves[1..][i - 1];
    }
  }

  lemma {:induction false} FirstTaken(books: Books, moves: seq<Move>, decimals: u32)
    requires Sound(books.pool) && AllTaken(books.pool, moves) && moves != []
    requires forall i :: 0 <= i < |moves| ==> moves[i].Take?
    ensures var m, pool, next := moves[0], books.pool, Step(books, moves[0], decimals);
            var paid := next.paidOut - books.paidOut;
            && Sound(next.pool) && AllTaken(next.pool, moves[1..])
            && 0 < m.shares <= pool.totalShares && 0 <= paid <= pool.totalDeposited
            && next.pool.totalShares == pool.totalShares - m.shares
            && next.pool.totalDeposited == pool.totalDeposited - paid
            && SharesToAmount(pool.totalShares, pool.totalDeposited, m.shares) == Some(paid)
    ensures Pieces(moves) == [moves[0].shares] + Pieces(moves[1..])
    ensures Run(books, moves, decimals) == Run(Step(books, moves[0], decimals), moves[1..], decimals)
  {
    var m := moves[0];
    var (after, paid) := Redeem(books.pool, m.user, m.shares, m.approved).value;
    RedeemStep(books.pool, m.user, m.shares, m.approved);
    HoldingBelowTotal(after, m.user);
  }

  /** A run of accepted redemptions pays what its pieces pay. */
  lemma {:induction false} RedemptionsPayPieces(books: Books, moves: seq<Move>, decimals: u32)
    requires Sound(books.pool) && AllTaken(books.pool, moves)
    requires forall i :: 0 <= i < |moves| ==> moves[i].Take?
    ensures 0 <= books.pool.totalDeposited
    ensures Positive(Pieces(moves)) && Total(Pieces(moves)) <= books.pool.totalShares
    ensures PaidInPieces(books.pool.totalShares, books.pool.totalDeposited, Pieces(moves))
         == Some(Run(books, moves, decimals).paidOut - books.paidOut)
    decreases |moves|
  {
    hide *;
    var pool := books.pool;
    HoldingBelowTotal(pool, 0);
    if moves == [] {
      NothingTaken(books, decimals);
    } else {
      FirstTaken(books, moves, decimals);
      var next := Step(books, moves[0], decimals);
      RedemptionsPayPieces(next, moves[1..], decimals);
      OnePieceMore(pool.totalShares, pool.totalDeposited, moves[0].shares, next.paidOut - books.paidOut,
                   Pieces(moves[1..]));
    }
  }

  lemma {:induction false} NothingTaken(books: Books, decimals: u32)
    requires Sound(books.pool)
    ensures 0 <= books.pool.totalDeposited && 0 <= books.pool.totalShares
    ensures Pieces([]) == [] && Positive([]) && Total([]) == 0
    ensures PaidInPieces(books.pool.totalShares, books.pool.totalDeposited, []) == Some(0)
    ensures Run(books, [], decimals) == books
  {
    HoldingBelowTotal(books.pool, 0);
  }

  lemma {:induction false} OnePieceMore(totalShares: i128, totalDeposited: i128, p: i128, paid: i128, rest: seq<i128>)
    requires 0 < p <= totalShares && 0 <= paid <= totalDeposited
    requires Positive(rest) && Total(rest) <= totalShares - p
    requires SharesToAmount(totalShares, totalDeposited, p) == Some(paid)
    requires PaidInPieces(totalShares - p, totalDeposited - paid, rest).Some?
    ensures var pieces := [p] + rest;
            && Positive(pieces) && Total(pieces) == p + Total(rest)
            && PaidInPieces(totalShares, totalDeposited, pieces)
               == Some(paid + PaidInPieces(totalShares - p, totalDeposited - paid, rest).value)
  {
    hide SharesToAmount;
    var pieces := [p] + rest;
    assert pieces[1..] == rest;
  }

  /**
    Any users redeeming in any order: together at most the exact share of the pool, and all of
    it when no share is left.
   */
  lemma {:induction false} AnyRedemptionOrder(pool: Pool, moves: seq<Move>, decimals: u32)
    requires Sound(pool) && 0 < pool.totalShares && AllTaken(pool, moves)
    requires forall i :: 0 <= i < |moves| ==> moves[i].Take?
    ensures Positive(Pieces(moves))
    ensures var paid, taken := Run(Opening(pool), moves, decimals).paidOut, Total(Pieces(moves));
            && paid * pool.totalShares <= taken * pool.totalDeposited
            && taken * pool.totalDeposited <= paid * pool.totalShares + |moves| * (pool.totalShares - 1)
            && (taken == pool.totalShares ==> paid == pool.totalDeposited)
  {
    hide Run, AllTaken, PaidInPieces, Pieces, Total, Sound;
    RedemptionsPayPieces(Opening(pool), moves, decimals);
    RemainderInPieces(pool.totalShares, pool.totalDeposited, Pieces(moves));
    var paid := Run(Opening(pool), moves, decimals).paidOut;
    OrderArithmetic(pool.totalShares, pool.totalDeposited, paid, Total(Pieces(moves)), |moves|);
  }

  lemma {:induction false} OrderArithmetic(s: int, d: int, paid: int, taken: int, k: nat)
    requires 0 < s && d * (s - taken) <= (d - paid) * s <= d * (s - taken) + k * (s - 1)
    ensures paid * s <= taken * d <= paid * s + k * (s - 1)
  {
    Distribute(s, d, -paid);
    Distribute(d, s, -taken);
  }

  // ---------- The contract's storage ----------

  class Vault {
    var shares: map<Address, i128>
    var totalShares: i128
    var totalDeposited: i128

    ghost function View(): Pool
      reads this
    {
      Pool(shares, totalShares, totalDeposited)
    }

    constructor ()
      ensures Sound(View()) && View() == Pool(map[], 0, 0)
    {
      shares, totalShares, totalDeposited := map[], 0, 0;
      new;
      assert Ints(shares) == map[];
    }

    /** Books a deposit of tokens that have arrived. */
    method Stake(user: Address, amount: i128, decimals: u32) returns (r: Result<i128, Error>)
      requires Sound(View())
      modifies this
      ensures Sound(View())
      ensures match Deposit(old(View()), user, amount, decimals)
              case Ok((after, minted)) => r == Ok(minted) && View() == after
              case Err(e) => r == Err(e) && View() == old(View())
      ensures r.Ok? && (old(totalShares) == 0 || old(totalDeposited) == 0) && decimals <= 7 ==>
                r.value == amount * Pow10(7 - decimals)
    {
      hide AmountToShares, Sound, PriceAtLeast;
      if amount <= 0 {
        return Err(ZeroAmount);
      }
      var minted := AmountToShares(totalShares, totalDeposited, amount, decimals);
      if minted.None? {
        return Err(ArithmeticError);
      }
      var current: int := if user in shares then shares[user] else 0;
      var held: int := current + minted.value;
      var total: int := totalShares + minted.value;
      var deposited: int := totalDeposited + amount;
      if !FitsI128(held) || !FitsI128(total) || !FitsI128(deposited) {
        return Err(ArithmeticError);
      }
      DepositStep(View(), user, amount, decimals);
      if totalShares == 0 || totalDeposited == 0 {
        FirstMint(totalShares, totalDeposited, amount, decimals);
      }
      shares := shares[user := held];
      totalShares := total;
      totalDeposited := deposited;
      return Ok(minted.value);
    }

    /** Burns shares and pays their tokens to an approved target pool. */
    method Bridge(user: Address, amount: i128, approved: bool) returns (r: Result<i128, Error>)
      requires Sound(View())
      modifies this
      ensures Sound(View())
      ensures match Redeem(old(View()), user, amount, approved)
              case Ok((after, paid)) => r == Ok(paid) && View() == after
              case Err(e) => r == Err(e) && View() == old(View())
    {
      if amount <= 0 {
        return Err(ZeroAmount);
      }
      if !approved {
        return Err(Unauthorized);
      }
      var current := if user in shares then shares[user] else 0;
      if amount > current {
        return Err(InsufficientShares);
      }
      var paid := SharesToAmount(totalShares, totalDeposited, amount);
      if paid.None? {
        return Err(ArithmeticError);
      }
      HoldingBelowTotal(View(), user);
      BurnRoundsDown(totalShares, totalDeposited, amount);
      assert 0 <= paid.value <= totalDeposited && 0 <= current <= totalShares;
      RedeemStep(View(), user, amount, approved);
      hide SharesToAmount, Sound, PriceAtLeast;
      shares := shares[user := current - amount];
      totalShares := totalShares - amount;
      totalDeposited := totalDeposited - paid.value;
      return Ok(paid.value);
    }
  }
}
