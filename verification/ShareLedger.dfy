/**
  Share balances and their checkpoints, written together by the setters of src/balance.rs.

  Every mint or burn changes one user's shares and the pool total in the same ledger.
 */
module ShareLedger {
  import opened Numeric
  import opened BalanceCheckpoints

  /** A mint (positive) or burn (negative) of shares. */
  datatype Change = Change(ledger: u32, user: Address, delta: int)

  ghost function Holding(changes: seq<Change>, user: Address): int {
    if changes == [] then 0
    else
      var c := changes[|changes| - 1];
      Holding(changes[..|changes| - 1], user) + if c.user == user then c.delta else 0
  }

  ghost function Supply(changes: seq<Change>): int {
    if changes == [] then 0
    else Supply(changes[..|changes| - 1]) + changes[|changes| - 1].delta
  }

  /** The balance writes `user` sees: one per change to their shares. */
  ghost function UserWrites(changes: seq<Change>, user: Address): seq<Write>
    requires LawfulChanges(changes)
  {
    if changes == [] then []
    else
      var c := changes[|changes| - 1];
      var before := UserWrites(changes[..|changes| - 1], user);
      if c.user == user then before + [Write(c.ledger, Holding(changes, user))] else before
  }

  /** The total writes: one per change. */
  ghost function TotalWrites(changes: seq<Change>): seq<Write>
    requires LawfulChanges(changes)
  {
    if changes == [] then []
    else TotalWrites(changes[..|changes| - 1]) + [Write(changes[|changes| - 1].ledger, Supply(changes))]
  }

  /** Ledgers do not go back, and every holding and the supply stay within what the setters store. */
  ghost predicate LawfulChanges(changes: seq<Change>) {
    changes == [] ||
    (var before := changes[..|changes| - 1];
     var c := changes[|changes| - 1];
     && LawfulChanges(before)
     && (before != [] ==> before[|before| - 1].ledger <= c.ledger)
     && 0 <= Holding(changes, c.user) <= I128_MAX
     && 0 <= Supply(changes) <= I128_MAX)
  }

  /** No holding and no supply ever reached 2^95, where prefix sums could saturate. */
  ghost predicate Small(changes: seq<Change>) {
    changes == [] ||
    (var before := changes[..|changes| - 1];
     var c := changes[|changes| - 1];
     Small(before) && Holding(changes, c.user) < BALANCE_BOUND && Supply(changes) < BALANCE_BOUND)
  }

  ghost predicate Everyone(users: seq<Address>, changes: seq<Change>) {
    NoRepeats(users) && forall i :: 0 <= i < |changes| ==> changes[i].user in users
  }

  // ---------- Both write records are lawful ----------

  ghost predicate UpTo(writes: seq<Write>, ledger: int) {
    forall i :: 0 <= i < |writes| ==> writes[i].ledger <= ledger
  }

  lemma {:induction false} LawfulAppend(writes: seq<Write>, w: Write)
    requires Lawful(writes) && UpTo(writes, w.ledger) && 0 <= w.balance < BALANCE_BOUND
    ensures Lawful(writes + [w]) && UpTo(writes + [w], w.ledger)
  {
  }

  lemma {:induction false} WritesAreLawful(changes: seq<Change>, user: Address)
    requires LawfulChanges(changes) && Small(changes)
    ensures Lawful(UserWrites(changes, user)) && Lawful(TotalWrites(changes))
    ensures changes != [] ==> UpTo(UserWrites(changes, user), changes[|changes| - 1].ledger)
    ensures changes != [] ==> UpTo(TotalWrites(changes), changes[|changes| - 1].ledger)
  {
    if changes != [] {
      hide Lawful;
      var before := changes[..|changes| - 1];
      var c := changes[|changes| - 1];
      WritesAreLawful(before, user);
      if c.user == user {
        LawfulAppend(UserWrites(before, user), Write(c.ledger, Holding(changes, user)));
      }
      LawfulAppend(TotalWrites(before), Write(c.ledger, Supply(changes)));
    }
  }

  /** At or after the last change, a record ends at the current value. */
  lemma {:induction false} LatestBalance(changes: seq<Change>, user: Address, ledger: int)
    requires LawfulChanges(changes)
    requires changes != [] ==> changes[|changes| - 1].ledger <= ledger
    ensures TrueBalance(UserWrites(changes, user), ledger) == Holding(changes, user)
    ensures TrueBalance(TotalWrites(changes), ledger) == Supply(changes)
  {
    if changes != [] {
      var before := changes[..|changes| - 1];
      var c := changes[|changes| - 1];
      LatestBalance(before, user, ledger);
      TrueBalanceAppend(UserWrites(before, user), Write(c.ledger, Clamp(Holding(changes, c.user))), ledger);
    }
  }

  // ---------- Sums over users ----------

  ghost function SumHoldings(changes: seq<Change>, users: seq<Address>): int {
    if users == [] then 0
    else SumHoldings(changes, users[..|users| - 1]) + Holding(changes, users[|users| - 1])
  }

  ghost function SumBalances(changes: seq<Change>, users: seq<Address>, ledger: int): int
    requires LawfulChanges(changes)
  {
    if users == [] then 0
    else
      SumBalances(changes, users[..|users| - 1], ledger)
      + TrueBalance(UserWrites(changes, users[|users| - 1]), ledger)
  }

  ghost function SumAreas(changes: seq<Change>, users: seq<Address>, end: nat): int
    requires LawfulChanges(changes)
  {
    if users == [] then 0
    else SumAreas(changes, users[..|users| - 1], end) + Area(UserWrites(changes, users[|users| - 1]), end)
  }

  lemma {:induction false} SumHoldingsStep(changes: seq<Change>, users: seq<Address>)
    requires changes != [] && NoRepeats(users)
    ensures var c := changes[|changes| - 1];
            SumHoldings(changes, users)
            == SumHoldings(changes[..|changes| - 1], users) + if c.user in users then c.delta else 0
  {
    if users != [] {
      SumHoldingsStep(changes, users[..|users| - 1]);
    }
  }

  lemma {:induction false} HoldingsMakeSupply(changes: seq<Change>, users: seq<Address>)
    requires Everyone(users, changes)
    ensures SumHoldings(changes, users) == Supply(changes)
  {
    if changes == [] {
      NoHoldings(users);
    } else {
      HoldingsMakeSupply(changes[..|changes| - 1], users);
      SumHoldingsStep(changes, users);
      assert changes[|changes| - 1].user in users;
    }
  }

  lemma {:induction false} NoHoldings(users: seq<Address>)
    ensures SumHoldings([], users) == 0
  {
    if users != [] {
      NoHoldings(users[..|users| - 1]);
    }
  }

  lemma {:induction false} LatestSum(changes: seq<Change>, users: seq<Address>, ledger: int)
    requires LawfulChanges(changes)
    requires changes != [] ==> changes[|changes| - 1].ledger <= ledger
    ensures SumBalances(changes, users, ledger) == SumHoldings(changes, users)
  {
    if users != [] {
      LatestSum(changes, users[..|users| - 1], ledger);
      LatestBalance(changes, users[|users| - 1], ledger);
    }
  }

  /** A later change does not show at an earlier ledger. */
  lemma {:induction false} EarlierSum(changes: seq<Change>, users: seq<Address>, ledger: int)
    requires LawfulChanges(changes) && changes != [] && ledger < changes[|changes| - 1].ledger
    ensures SumBalances(changes, users, ledger) == SumBalances(changes[..|changes| - 1], users, ledger)
  {
    if users != [] {
      EarlierSum(changes, users[..|users| - 1], ledger);
      var before := changes[..|changes| - 1];
      var c := changes[|changes| - 1];
      var w := Write(c.ledger, Clamp(Holding(changes, c.user)));
      TrueBalanceAppend(UserWrites(before, users[|users| - 1]), w, ledger);
    }
  }

  /** At every ledger, whatever happened inside it, the users' balances add up to the total. */
  lemma {:induction false} BalancesMakeTotal(changes: seq<Change>, users: seq<Address>, ledger: int)
    requires LawfulChanges(changes) && Everyone(users, changes)
    ensures SumBalances(changes, users, ledger) == TrueBalance(TotalWrites(changes), ledger)
  {
    if changes == [] || changes[|changes| - 1].ledger <= ledger {
      LatestSum(changes, users, ledger);
      LatestBalance(changes, 0, ledger);
      HoldingsMakeSupply(changes, users);
    } else {
      var before := changes[..|changes| - 1];
      BalancesMakeTotal(before, users, ledger);
      EarlierSum(changes, users, ledger);
      TrueBalanceAppend(TotalWrites(before), Write(changes[|changes| - 1].ledger, Supply(changes)), ledger);
    }
  }

  lemma {:induction false} SumAreasStep(changes: seq<Change>, users: seq<Address>, end: nat)
    requires LawfulChanges(changes)
    ensures SumAreas(changes, users, 0) == 0
    ensures SumAreas(changes, users, end + 1) == SumAreas(changes, users, end) + SumBalances(changes, users, end)
  {
    if users != [] {
      SumAreasStep(changes, users[..|users| - 1], end);
    }
  }

  lemma {:induction false} AreasMakeTotal(changes: seq<Change>, users: seq<Address>, end: nat)
    requires LawfulChanges(changes) && Everyone(users, changes)
    ensures SumAreas(changes, users, end) == Area(TotalWrites(changes), end)
  {
    if end == 0 {
      SumAreasStep(changes, users, 0);
    } else {
      AreasMakeTotal(changes, users, end - 1);
      SumAreasStep(changes, users, end - 1);
      BalancesMakeTotal(changes, users, end - 1);
    }
  }

  // ---------- Time-weighted averages of all users ----------

  ghost function UserTwab(changes: seq<Change>, user: Address, now: u32, start: u32, end: u32): Result<i128, Error>
    requires LawfulChanges(changes)
  {
    TwabIn(History(UserWrites(changes, user)), now, start, end)
  }

  ghost function TotalTwab(changes: seq<Change>, now: u32, start: u32, end: u32): Result<i128, Error>
    requires LawfulChanges(changes)
  {
    TwabIn(History(TotalWrites(changes)), now, start, end)
  }

  /** Sum of the averages of `users`, all of which were answered. */
  ghost function SumTwabs(changes: seq<Change>, users: seq<Address>, now: u32, start: u32, end: u32): int
    requires LawfulChanges(changes)
    requires forall u :: u in users ==> UserTwab(changes, u, now, start, end).Ok?
  {
    if users == [] then 0
    else
      SumTwabs(changes, users[..|users| - 1], now, start, end)
      + UserTwab(changes, users[|users| - 1], now, start, end).value
  }

  /** `sum` is at most the exact quotient, and below it by less than one for each of `k` floors. */
  ghost predicate SumOfFloors(accrued: int, n: int, sum: int, k: nat) {
    n * sum <= accrued <= n * sum + k * (n - 1)
  }

  /** Each answered average loses less than one share to its floor. */
  lemma {:induction false} SumTwabsBounds(changes: seq<Change>, users: seq<Address>, now: u32, start: u32, end: u32)
    requires LawfulChanges(changes) && Small(changes) && start < end
    requires forall u :: u in users ==> UserTwab(changes, u, now, start, end).Ok?
    ensures SumOfFloors(SumAreas(changes, users, end) - SumAreas(changes, users, start), end - start,
                        SumTwabs(changes, users, now, start, end), |users|)
  {
    hide UserTwab, UserWrites, Area, LawfulChanges;
    if users != [] {
      var rest, u := users[..|users| - 1], users[|users| - 1];
      var n := end - start;
      SumTwabsBounds(changes, rest, now, start, end);
      assert u in users;
      UserTwabBounds(changes, u, now, start, end);
      assert n * SumTwabs(changes, users, now, start, end)
          == n * SumTwabs(changes, rest, now, start, end) + n * UserTwab(changes, u, now, start, end).value;
      assert |users| * (n - 1) == |rest| * (n - 1) + (n - 1);
    }
  }

  lemma {:induction false} UserTwabBounds(changes: seq<Change>, user: Address, now: u32, start: u32, end: u32)
    requires LawfulChanges(changes) && Small(changes) && start < end && UserTwab(changes, user, now, start, end).Ok?
    ensures var writes := UserWrites(changes, user);
            var average := UserTwab(changes, user, now, start, end).value;
            var n := end - start;
            n * average <= Area(writes, end) - Area(writes, start) <= n * average + (n - 1)
  {
    var writes := UserWrites(changes, user);
    WritesAreLawful(changes, user);
    TwabOfAnyRun(writes, now, start, end);
    FloorBounds(Area(writes, end) - Area(writes, start), end - start);
  }

  /**
    Over any run of mints and burns, the answered averages of all k users of a window
    add up to the total average, short by less than k.
   */
  lemma {:induction false} TwabsMakeTotal(changes: seq<Change>, users: seq<Address>, now: u32, start: u32, end: u32)
    requires LawfulChanges(changes) && Small(changes) && Everyone(users, changes) && start < end
    requires forall u :: u in users ==> UserTwab(changes, u, now, start, end).Ok?
    requires TotalTwab(changes, now, start, end).Ok?
    ensures var total := TotalTwab(changes, now, start, end).value;
            var sum := SumTwabs(changes, users, now, start, end);
            sum <= total && total - sum < Max(|users|, 1)
  {
    hide *;
    var accrued := SumAreas(changes, users, end) - SumAreas(changes, users, start);
    TotalTwabIs(changes, users, now, start, end);
    SumTwabsBounds(changes, users, now, start, end);
    FloorOfSum(accrued, end - start, SumTwabs(changes, users, now, start, end), |users|);
  }

  lemma {:induction false} FloorOfSum(accrued: int, n: int, sum: int, k: nat)
    requires 0 < n && SumOfFloors(accrued, n, sum, k)
    ensures sum <= accrued / n && accrued / n - sum < Max(k, 1)
  {
    FloorBounds(accrued, n);
    var q := accrued / n;
    if q < sum {
      MulLe(q + 1, sum, n);
    }
    if k == 0 {
      if q > sum {
        MulLe(sum + 1, q, n);
      }
    } else if q >= sum + k {
      MulLe(sum + k, q, n);
    }
  }

  /** Any k of the users together never exceed the total average. */
  lemma {:induction false} SomeTwabsBelowTotal(
      changes: seq<Change>, users: seq<Address>, k: nat, now: u32, start: u32, end: u32)
    requires LawfulChanges(changes) && Small(changes) && Everyone(users, changes) && start < end && k <= |users|
    requires forall u :: u in users[..k] ==> UserTwab(changes, u, now, start, end).Ok?
    requires TotalTwab(changes, now, start, end).Ok?
    ensures SumTwabs(changes, users[..k], now, start, end) <= TotalTwab(changes, now, start, end).value
  {
    hide *;
    var accrued := SumAreas(changes, users, end) - SumAreas(changes, users, start);
    TotalTwabIs(changes, users, now, start, end);
    PrefixAreas(changes, users, k, start, end);
    SumTwabsBounds(changes, users[..k], now, start, end);
    SumBelowFloor(SumAreas(changes, users[..k], end) - SumAreas(changes, users[..k], start), accrued, end - start,
                  SumTwabs(changes, users[..k], now, start, end), k);
  }

  lemma {:induction false} SumBelowFloor(part: int, accrued: int, n: int, sum: int, k: nat)
    requires 0 < n && SumOfFloors(part, n, sum, k) && part <= accrued
    ensures sum <= accrued / n
  {
    FloorOfSum(part, n, sum, k);
    FloorMonotone(part, accrued, n);
  }

  lemma {:induction false} TotalTwabIs(changes: seq<Change>, users: seq<Address>, now: u32, start: u32, end: u32)
    requires LawfulChanges(changes) && Small(changes) && Everyone(users, changes) && start < end
    requires TotalTwab(changes, now, start, end).Ok?
    ensures TotalTwab(changes, now, start, end).value
         == (SumAreas(changes, users, end) - SumAreas(changes, users, start)) / (end - start)
  {
    WritesAreLawful(changes, 0);
    TwabOfAnyRun(TotalWrites(changes), now, start, end);
    AreasMakeTotal(changes, users, start);
    AreasMakeTotal(changes, users, end);
  }

  lemma {:induction false} PrefixAreas(changes: seq<Change>, users: seq<Address>, k: nat, start: u32, end: u32)
    requires LawfulChanges(changes) && Small(changes) && start <= end && k <= |users|
    ensures SumAreas(changes, users[..k], end) - SumAreas(changes, users[..k], start)
         <= SumAreas(changes, users, end) - SumAreas(changes, users, start)
  {
    if k == |users| {
      assert users[..k] == users;
    } else {
      var rest := users[..|users| - 1];
      assert rest[..k] == users[..k];
      PrefixAreas(changes, rest, k, start, end);
      WritesAreLawful(changes, users[|users| - 1]);
      AreaBounds(UserWrites(changes, users[|users| - 1]), start, end);
    }
  }

  // ---------- The setters ----------

  class ShareBook {
    var shares: map<Address, i128>
    var totalShares: i128
    var userHistories: map<Address, seq<Checkpoint>>
    var totalHistory: seq<Checkpoint>
    ghost var changes: seq<Change>

    ghost predicate Valid()
      reads this
    {
      && LawfulChanges(changes)
      && totalShares == Supply(changes)
      && totalHistory == History(TotalWrites(changes))
      && (forall u: Address :: SharesOf(u) == Holding(changes, u))
      && (forall u: Address :: HistoryOf(u) == History(UserWrites(changes, u)))
    }

    function SharesOf(user: Address): i128
      reads this
    {
      if user in shares then shares[user] else 0
    }

    function HistoryOf(user: Address): seq<Checkpoint>
      reads this
    {
      if user in userHistories then userHistories[user] else []
    }

    constructor ()
      ensures Valid() && changes == []
    {
      shares, totalShares, userHistories, totalHistory, changes := map[], 0, map[], [], [];
    }

    /** Stores one user's balance and its checkpoint; a negative balance aborts the call. */
    method SetShares(user: Address, amount: i128, now: u32) returns (ok: bool)
      modifies this`shares, this`userHistories
      ensures ok <==> amount >= 0
      ensures !ok ==> shares == old(shares) && userHistories == old(userHistories)
      ensures ok ==> shares == old(shares)[user := amount]
      ensures ok ==> HistoryOf(user) == Pushed(old(HistoryOf(user)), now, amount)
      ensures forall u :: u != user ==> HistoryOf(u) == old(HistoryOf(u))
    {
      if amount < 0 {
        return false;
      }
      shares := shares[user := amount];
      var history, changed := Push(HistoryOf(user), now, amount);
      if changed {
        userHistories := userHistories[user := history];
      }
      ok := true;
    }

    /** Stores the pool total and its checkpoint; a negative total aborts the call. */
    method SetTotalShares(total: i128, now: u32) returns (ok: bool)
      modifies this`totalShares, this`totalHistory
      ensures ok <==> total >= 0
      ensures !ok ==> totalShares == old(totalShares) && totalHistory == old(totalHistory)
      ensures ok ==> totalShares == total && totalHistory == Pushed(old(totalHistory), now, total)
    {
      if total < 0 {
        return false;
      }
      totalShares := total;
      var history, changed := Push(totalHistory, now, total);
      if changed {
        totalHistory := history;
      }
      ok := true;
    }

    /**
      A mint or burn: the user's setter, then the total's, in one ledger. A result that is
      negative or does not fit aborts the call and leaves everything as it was.
     */
    method Record(user: Address, delta: int, now: u32) returns (ok: bool)
      requires Valid() && (changes != [] ==> changes[|changes| - 1].ledger <= now)
      modifies this
      ensures Valid()
      ensures ok <==> 0 <= old(SharesOf(user)) + delta <= I128_MAX && 0 <= old(totalShares) + delta <= I128_MAX
      ensures changes == if ok then old(changes) + [Change(now, user, delta)] else old(changes)
    {
      hide LawfulChanges, Holding, Supply, UserWrites, TotalWrites, History, Pushed;
      var held, total := SharesOf(user) + delta, totalShares + delta;
      if !FitsI128(held) || !FitsI128(total) {
        return false;
      }
      ghost var before := changes;
      ghost var c := Change(now, user, delta);
      var savedShares, savedHistories := shares, userHistories;
      ok := SetShares(user, held, now);
      if ok {
        ok := SetTotalShares(total, now);
      }
      if ok {
        ExtendLawful(before, c);
        ExtendLedger(before, c);
        changes := before + [c];
      } else {
        shares, userHistories := savedShares, savedHistories;
      }
    }
  }

  lemma {:induction false} ExtendLawful(changes: seq<Change>, c: Change)
    requires LawfulChanges(changes) && (changes != [] ==> changes[|changes| - 1].ledger <= c.ledger)
    requires 0 <= Holding(changes, c.user) + c.delta <= I128_MAX && 0 <= Supply(changes) + c.delta <= I128_MAX
    ensures LawfulChanges(changes + [c])
  {
    var all := changes + [c];
    assert all[..|all| - 1] == changes && all[|all| - 1] == c;
  }

  /** A change moves one holding, pushes its writes onto two histories, and leaves the rest. */
  lemma {:induction false} ExtendLedger(changes: seq<Change>, c: Change)
    requires LawfulChanges(changes + [c])
    ensures LawfulChanges(changes)
    ensures 0 <= Holding(changes, c.user) + c.delta <= I128_MAX
    ensures 0 <= Supply(changes) + c.delta <= I128_MAX
    ensures Supply(changes + [c]) == Supply(changes) + c.delta
    ensures forall u :: Holding(changes + [c], u) == Holding(changes, u) + if u == c.user then c.delta else 0
    ensures forall u :: History(UserWrites(changes + [c], u))
                     == if u == c.user
                        then Pushed(History(UserWrites(changes, u)), c.ledger, Holding(changes, u) + c.delta)
                        else History(UserWrites(changes, u))
    ensures History(TotalWrites(changes + [c]))
         == Pushed(History(TotalWrites(changes)), c.ledger, Supply(changes) + c.delta)
  {
    var all := changes + [c];
    hide Pushed;
    assert all[..|all| - 1] == changes && all[|all| - 1] == c;
    var userWrites := UserWrites(changes, c.user) + [Write(c.ledger, Holding(all, c.user))];
    var totalWrites := TotalWrites(changes) + [Write(c.ledger, Supply(all))];
    assert userWrites[..|userWrites| - 1] == UserWrites(changes, c.user);
    assert totalWrites[..|totalWrites| - 1] == TotalWrites(changes);
  }
}
