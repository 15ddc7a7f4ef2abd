/** Linear vesting of claimed rewards, with merging of schedules (src/claim_vesting.rs). */
module ClaimVesting {
  import opened Numeric

  const MAX_CLAIM_VESTING_LEDGERS: u32 := LEDGERS_PER_YEAR

  datatype Error = ArithmeticError | InvalidVestingDuration

  datatype Schedule = Schedule(total: i128, released: i128, startLedger: u32, duration: u32)

  /** Amount unlocked at a ledger: the floored linear share, or a coarser split when the product overflows. */
  function Vested(s: Schedule, ledger: u32): int {
    var elapsed := SatSubU32(ledger, s.startLedger);
    if s.duration == 0 || elapsed >= s.duration then s.total
    else
      match Checked(s.total * elapsed)
      case Some(product) => TruncDiv(product, s.duration)
      case None => TruncDiv(s.total, s.duration) * elapsed
  }

  function Releasable(s: Schedule, ledger: u32): i128 {
    Max(SatSub(Vested(s, ledger), s.released), 0)
  }

  // ---------- The unlocked amount ----------

  /** The exact linear floor. */
  ghost function LinearFloor(s: Schedule, ledger: u32): int {
    var elapsed := SatSubU32(ledger, s.startLedger);
    if s.duration == 0 || elapsed >= s.duration then s.total else s.total * elapsed / s.duration
  }

  ghost predicate Overflows(s: Schedule, ledger: u32) {
    s.total * SatSubU32(ledger, s.startLedger) > I128_MAX
  }

  /** The coarser split is below the exact floor by less than the duration; without overflow there is no gap. */
  lemma {:induction false} VestedGap(s: Schedule, ledger: u32)
    requires 0 <= s.total
    ensures LinearFloor(s, ledger) - s.duration < Vested(s, ledger) || Vested(s, ledger) == LinearFloor(s, ledger)
    ensures Vested(s, ledger) <= LinearFloor(s, ledger) <= s.total
    ensures 0 <= Vested(s, ledger)
    ensures !Overflows(s, ledger) ==> Vested(s, ledger) == LinearFloor(s, ledger)
  {
    var elapsed, d := SatSubU32(ledger, s.startLedger), s.duration;
    if d != 0 && elapsed < d {
      MulLe(0, s.total, elapsed);
      MulLe(elapsed, d, s.total);
      FloorMonotone(0, s.total * elapsed, d);
      FloorMonotone(s.total * elapsed, s.total * d, d);
      FloorUnique(s.total * d, d, s.total);
      SplitGap(s.total, elapsed, d);
      FloorMonotone(0, s.total, d);
      MulLe(0, s.total / d, elapsed);
    }
  }

  lemma {:induction false} SplitGap(total: int, elapsed: int, d: int)
    requires 0 <= total && 0 <= elapsed < d
    ensures (total / d) * elapsed <= total * elapsed / d < (total / d) * elapsed + d
  {
    var q := total / d;
    var r := total - q * d;
    FloorBounds(total, d);
    Distribute(elapsed, q * d, r);
    SwapFactors(q, d, elapsed);
    MulLe(0, r, elapsed);
    MulLe(r, d, elapsed);
    FloorBounds(total * elapsed, d);
    FloorUnique((q * elapsed) * d, d, q * elapsed);
    FloorMonotone((q * elapsed) * d, total * elapsed, d);
    MulLe(elapsed + 1, d, d);
    Distribute(d, q * elapsed, d);
    if total * elapsed / d >= q * elapsed + d {
      MulLe(q * elapsed + d, total * elapsed / d, d);
    }
  }

  /** Unlocking never goes backwards, not even where the product starts to overflow. */
  lemma {:induction false} VestedMonotone(s: Schedule, earlier: u32, later: u32)
    requires 0 <= s.total && earlier <= later
    ensures Vested(s, earlier) <= Vested(s, later) <= s.total
  {
    var e1, e2, d := SatSubU32(earlier, s.startLedger), SatSubU32(later, s.startLedger), s.duration;
    VestedGap(s, earlier);
    VestedGap(s, later);
    if d != 0 && e2 < d {
      MulLe(e1, e2, s.total);
      if !Overflows(s, later) {
        hide Vested;
        FloorMonotone(s.total * e1, s.total * e2, d);
      } else if Overflows(s, earlier) {
        FloorMonotone(0, s.total, d);
        MulLe(e1, e2, s.total / d);
      } else {
        MonotoneAcrossOverflow(s.total, e1, e2, d);
      }
    }
  }

  lemma {:induction false} MonotoneAcrossOverflow(total: i128, e1: u32, e2: u32, d: u32)
    requires 0 <= total && e1 <= e2 < d && total * e1 <= I128_MAX < total * e2
    ensures total * e1 / d <= (total / d) * e2
  {
    SplitGap(total, e1, d);
    LargeQuotient(total, e2, d);
    OneStepUp(total / d, e1, e2, d);
  }

  lemma {:induction false} OneStepUp(q: int, e1: int, e2: int, d: int)
    requires 0 <= d <= q && e1 < e2
    ensures q * e1 + d <= q * e2
  {
    MulLe(e1 + 1, e2, q);
    Distribute(q, e1, 1);
  }

  /** A product that overflows within a 32-bit duration has a quotient larger than that duration. */
  lemma {:induction false} LargeQuotient(total: i128, elapsed: u32, d: u32)
    requires 0 <= total && elapsed < d && total * elapsed > I128_MAX
    ensures d <= total / d
  {
    MulLe(elapsed, U32_MAX, total);
    FloorBounds(total, d);
    var q := total / d;
    if q < d {
      MulLe(q + 1, U32_MAX, d);
      MulLe(d, U32_MAX, U32_MAX);
      Distribute(d, q, 1);
    }
  }

  // ---------- Transitions ----------

  /** Pays everything unlocked: the remaining schedule, if any, and the amount paid. */
  function Release(stored: Option<Schedule>, now: u32): Result<(Option<Schedule>, i128), Error> {
    match stored
    case None => Ok((None, 0))
    case Some(s) =>
      var amount := Releasable(s, now);
      match Checked(s.released + amount)
      case None => Err(ArithmeticError)
      case Some(released) => Ok((if released >= s.total then None else Some(s.(released := released)), amount))
  }

  /** Locks a net reward: releases first, then merges the locked remainder into a fresh schedule. */
  function Lock(stored: Option<Schedule>, net: i128, duration: u32, now: u32): Result<(Option<Schedule>, i128), Error> {
    if net <= 0 then Ok((stored, 0))
    else
      match Release(stored, now)
      case Err(e) => Err(e)
      case Ok((left, paid)) =>
        match Checked(LockedIn(left) + net)
        case None => Err(ArithmeticError)
        case Some(total) => Ok((Some(Schedule(total, 0, now, duration)), paid))
  }

  function LockedIn(stored: Option<Schedule>): i128 {
    match stored
    case None => 0
    case Some(s) => SatSub(s.total, s.released)
  }

  ghost predicate Sound(stored: Option<Schedule>) {
    stored.Some? ==> 0 <= stored.value.released < stored.value.total
  }

  /** A release never fails, keeps the schedule sound, and moves exactly what it pays out of the locked amount. */
  lemma {:induction false} ReleaseMovesLocked(stored: Option<Schedule>, now: u32)
    requires Sound(stored)
    ensures Release(stored, now).Ok?
    ensures var (left, paid) := Release(stored, now).value;
            && Sound(left) && 0 <= paid && LockedIn(stored) == paid + LockedIn(left)
            && (stored.Some? && stored.value.startLedger + stored.value.duration <= now ==> left.None?)
  {
    if stored.Some? {
      VestedGap(stored.value, now);
      hide Vested;
    }
  }

  // ---------- Runs of one user's claims and releases ----------

  datatype Op = LockOp(net: i128, duration: u32) | ReleaseOp

  datatype Call = Call(op: Op, now: u32)

  /** The stored schedule with all net rewards ever locked and all amounts ever paid. */
  datatype Books = Books(stored: Option<Schedule>, locked: int, paid: int)

  ghost function Step(b: Books, call: Call): Books {
    match call.op
    case LockOp(net, duration) =>
      (match Lock(b.stored, net, duration, call.now)
       case Err(_) => b
       case Ok((left, paid)) => Books(left, b.locked + Max(net, 0), b.paid + paid))
    case ReleaseOp =>
      (match Release(b.stored, call.now)
       case Err(_) => b
       case Ok((left, paid)) => Books(left, b.locked, b.paid + paid))
  }

  ghost function Run(b: Books, calls: seq<Call>): Books
    decreases |calls|
  {
    if calls == [] then b else Run(Step(b, calls[0]), calls[1..])
  }

  ghost predicate Balanced(b: Books) {
    Sound(b.stored) && b.locked == b.paid + LockedIn(b.stored)
  }

  lemma {:induction false} StepBalances(b: Books, call: Call)
    requires Balanced(b)
    ensures Balanced(Step(b, call))
  {
    ReleaseMovesLocked(b.stored, call.now);
    hide Release;
  }

  /** In any run, everything ever locked has been paid or is still locked. */
  lemma {:induction false} NothingIsLost(b: Books, calls: seq<Call>)
    requires Balanced(b)
    ensures Balanced(Run(b, calls))
    decreases |calls|
  {
    if calls != [] {
      hide Balanced, Step;
      StepBalances(b, calls[0]);
      NothingIsLost(Step(b, calls[0]), calls[1..]);
    }
  }

  lemma {:induction false} ReleaseNeverFails(b: Books, now: u32)
    requires Balanced(b)
    ensures Release(b.stored, now).Ok?
  {
    ReleaseMovesLocked(b.stored, now);
  }

  lemma {:induction false} ReleasableIsNonNegative(b: Books, now: u32)
    ensures b.stored.Some? ==> 0 <= Releasable(b.stored.value, now)
  {
  }

  ghost predicate Ended(stored: Option<Schedule>, now: u32) {
    stored.Some? ==> stored.value.startLedger + stored.value.duration <= now
  }

  /** Once the schedule has run its length, one release pays out all that was ever locked. */
  lemma {:induction false} FinalReleasePaysAll(calls: seq<Call>, now: u32)
    requires Ended(Run(Books(None, 0, 0), calls).stored, now)
    ensures var b := Step(Run(Books(None, 0, 0), calls), Call(ReleaseOp, now));
            b.stored == None && b.paid == b.locked
  {
    hide Run;
    NothingIsLost(Books(None, 0, 0), calls);
    LastRelease(Run(Books(None, 0, 0), calls), now);
  }

  lemma {:induction false} LastRelease(b: Books, now: u32)
    requires Balanced(b) && Ended(b.stored, now)
    ensures var after := Step(b, Call(ReleaseOp, now));
            after.stored == None && after.paid == after.locked
  {
    hide Release;
    ReleaseMovesLocked(b.stored, now);
  }

  ghost predicate ReleasesOnly(calls: seq<Call>) {
    forall i :: 0 <= i < |calls| ==> calls[i].op.ReleaseOp?
  }

  ghost predicate InOrder(calls: seq<Call>) {
    forall i, j :: 0 <= i < j < |calls| ==> calls[i].now <= calls[j].now
  }

  /** What is left of `s` when its payout has reached `released`. */
  ghost function Left(s: Schedule, released: i128): Option<Schedule> {
    if released >= s.total then None else Some(s.(released := released))
  }

  /**
    Between two claims, however the releases are spaced: after a release at ledger t the total
    paid from the schedule is what had vested by t.
   */
  lemma {:induction false} ReleasesCatchUp(s: Schedule, calls: seq<Call>, reached: u32, b: Books)
    requires 0 < s.total && calls != [] && ReleasesOnly(calls) && InOrder(calls) && reached <= calls[0].now
    requires 0 <= Vested(s, reached) <= s.total && b.stored == Left(s, Vested(s, reached))
    ensures var last := calls[|calls| - 1].now;
            && 0 <= Vested(s, last) <= s.total
            && Run(b, calls).stored == Left(s, Vested(s, last))
            && Run(b, calls).paid - b.paid == Vested(s, last) - Vested(s, reached)
    decreases |calls|
  {
    var now := calls[0].now;
    VestedGap(s, now);
    VestedMonotone(s, reached, now);
    SameUnlocking(s, Vested(s, reached), now);
    var next := Step(b, calls[0]);
    assert next.stored == Left(s, Vested(s, now)) && next.paid == b.paid + Vested(s, now) - Vested(s, reached);
    hide Vested, Step;
    if |calls| > 1 {
      assert ReleasesOnly(calls[1..]) && InOrder(calls[1..]);
      ReleasesCatchUp(s, calls[1..], now, next);
    } else {
      assert calls[1..] == [];
      assert Run(next, []) == next;
    }
  }

  lemma {:induction false} SameUnlocking(s: Schedule, released: i128, now: u32)
    ensures Vested(s.(released := released), now) == Vested(s, now)
  {
  }

  /**
    A claim starts a schedule from which nothing is unlocked yet, so releases after it pay
    exactly its vested amount.
   */
  lemma {:induction false} ReleasesAfterClaim(
      stored: Option<Schedule>, net: i128, duration: u32, now: u32, calls: seq<Call>)
    requires Sound(stored) && 0 < net && 0 < duration && Lock(stored, net, duration, now).Ok?
    requires calls != [] && ReleasesOnly(calls) && InOrder(calls) && now <= calls[0].now
    ensures var started := Lock(stored, net, duration, now).value.0.value;
            var last := calls[|calls| - 1].now;
            && started.total == net + LockedIn(Release(stored, now).value.0)
            && Run(Books(Some(started), 0, 0), calls).paid == Vested(started, last)
  {
    ReleaseMovesLocked(stored, now);
    var started := Lock(stored, net, duration, now).value.0.value;
    assert Vested(started, now) == 0 by {
      FloorUnique(0, duration, 0);
    }
    assert started.(released := 0) == started;
    hide Vested;
    ReleasesCatchUp(started, calls, now, Books(Some(started), 0, 0));
  }

  /**
    A claim of a positive net at ledger `now` under a positive duration: it pays what had vested,
    and the locked rest and the net then vest together, linearly from `now` over the duration.
    Releases up to ledger t have paid the floor of that share of the sum while the product fits,
    and the whole sum from `now + duration` on.
   */
  lemma {:induction false} ClaimVestsLinearly(
      stored: Option<Schedule>, net: i128, duration: u32, now: u32, calls: seq<Call>)
    requires Sound(stored) && 0 < net && 0 < duration && Lock(stored, net, duration, now).Ok?
    requires calls != [] && ReleasesOnly(calls) && InOrder(calls) && now <= calls[0].now
    ensures var (left, paidNow) := Lock(stored, net, duration, now).value;
            var total := LockedIn(stored) - paidNow + net;
            var elapsed := calls[|calls| - 1].now - now;
            var paid := Run(Books(left, 0, 0), calls).paid;
            && Release(stored, now) == Ok((Release(stored, now).value.0, paidNow))
            && 0 < total && LockedIn(left) == total
            && (duration <= elapsed ==> paid == total)
            && (elapsed < duration && total * elapsed <= I128_MAX ==> paid == total * elapsed / duration)
            && (elapsed < duration && total * elapsed > I128_MAX ==>
                  total * elapsed / duration - duration < paid <= total * elapsed / duration)
  {
    ReleaseMovesLocked(stored, now);
    var left := Lock(stored, net, duration, now).value.0;
    var started := left.value;
    ReleasesAfterClaim(stored, net, duration, now, calls);
    LockedRestFits(Release(stored, now).value.0);
    VestedGap(started, calls[|calls| - 1].now);
    hide Vested, Run, Release;
  }

  lemma {:induction false} LockedRestFits(stored: Option<Schedule>)
    requires Sound(stored)
    ensures 0 <= LockedIn(stored)
  {
  }

  /** A claim is refused exactly when the locked rest and the net together do not fit. */
  lemma {:induction false} LockAcceptedExactly(stored: Option<Schedule>, net: i128, duration: u32, now: u32)
    requires Sound(stored) && 0 < net
    ensures Release(stored, now).Ok?
    ensures Lock(stored, net, duration, now).Ok?
            <==> LockedIn(stored) - Release(stored, now).value.1 + net <= I128_MAX
  {
    ReleaseMovesLocked(stored, now);
    LockedRestFits(Release(stored, now).value.0);
    hide Release;
  }

  lemma {:induction false} FreshSchedule(total: int, now: u32, duration: u32)
    ensures FitsI128(total) ==> LockedIn(Some(Schedule(total, 0, now, duration))) == total
  {
  }

  /** What the plain claim, used while vesting is disabled, would do: its answer and the reward balances it leaves. */
  datatype PlainClaim = PlainClaim(answer: Result<i128, Error>, accrued: i128, totalRewardsPaid: i128)

  // ---------- Storage ----------

  class VestingDesk {
    var duration: u32
    var schedules: map<Address, Schedule>
    var accrued: map<Address, i128>
    var totalRewardsPaid: i128
    ghost var locked: map<Address, int>
    ghost var paid: map<Address, int>

    function Stored(user: Address): Option<Schedule>
      reads this
    {
      if user in schedules then Some(schedules[user]) else None
    }

    function AccruedBy(user: Address): i128
      reads this
    {
      if user in accrued then accrued[user] else 0
    }

    /** One user's schedule with all they ever locked and were paid. */
    ghost function Account(user: Address): Books
      reads this
    {
      Books(Stored(user), if user in locked then locked[user] else 0, if user in paid then paid[user] else 0)
    }

    /** Everything each user ever locked has been paid or is still locked. */
    ghost predicate Valid()
      reads this
    {
      forall u: Address :: Balanced(Account(u))
    }

    constructor ()
      ensures Valid() && duration == 0 && forall u :: Account(u) == Books(None, 0, 0)
    {
      duration, schedules, accrued, totalRewardsPaid, locked, paid := 0, map[], map[], 0, map[], map[];
    }

    /** A change of one user's account that keeps it balanced keeps the desk valid. */
    twostate lemma StaysValid(user: Address)
      requires old(Valid()) && Balanced(Account(user))
      requires forall u :: u != user ==> Account(u) == old(Account(u))
      ensures Valid()
    {
      hide Balanced;
      forall u: Address ensures Balanced(Account(u)) {
        assert Balanced(old(Account(u)));
      }
    }

    twostate lemma StaysValidUntouched()
      requires old(Valid()) && forall u :: Account(u) == old(Account(u))
      ensures Valid()
    {
      hide Balanced;
      forall u: Address ensures Balanced(Account(u)) {
        assert Balanced(old(Account(u)));
      }
    }

    lemma {:induction false} ValidAt(user: Address)
      requires Valid()
      ensures Balanced(Account(user))
    {
    }

    method SetClaimVestingDuration(ledgers: u32) returns (r: Result<(), Error>)
      modifies this`duration
      ensures ledgers > MAX_CLAIM_VESTING_LEDGERS ==> r == Err(InvalidVestingDuration) && duration == old(duration)
      ensures ledgers <= MAX_CLAIM_VESTING_LEDGERS ==> r == Ok(()) && duration == ledgers
    {
      if ledgers > MAX_CLAIM_VESTING_LEDGERS {
        return Err(InvalidVestingDuration);
      }
      duration := ledgers;
      return Ok(());
    }

    /** Pays everything unlocked to the user; their books take one release step and nobody else's move. */
    method ReleaseVested(user: Address, now: u32) returns (r: Result<i128, Error>)
      requires Valid()
      modifies this`schedules, this`paid
      ensures Valid()
      ensures Release(old(Stored(user)), now).Ok? && r == Ok(Release(old(Stored(user)), now).value.1)
      ensures Account(user) == Step(old(Account(user)), Call(ReleaseOp, now))
      ensures forall u :: u != user ==> Account(u) == old(Account(u))
    {
      hide Valid, Releasable, LockedIn, Balanced;
      ghost var before := Account(user);
      ValidAt(user);
      ReleaseNeverFails(before, now);
      ReleasableIsNonNegative(before, now);
      StepBalances(before, Call(ReleaseOp, now));
      var amount: i128 := 0;
      if user in schedules {
        var s := schedules[user];
        amount := Releasable(s, now);
        if amount > 0 {
          var released := Checked(s.released + amount);
          if released.None? {
            return Err(ArithmeticError);
          }
          s := s.(released := released.value);
          paid := paid[user := before.paid + amount];
        }
        if s.released >= s.total {
          schedules := schedules - {user};
        } else {
          schedules := schedules[user := s];
        }
      }
      StaysValid(user);
      return Ok(amount);
    }

    /** Claims into the schedule, or makes the plain claim while vesting is disabled; then no schedule moves. */
    method ClaimIntoVesting(user: Address, halted: bool, net: i128, now: u32, plain: PlainClaim)
      returns (r: Result<i128, Error>)
      requires Valid()
      modifies this`schedules, this`accrued, this`totalRewardsPaid, this`locked, this`paid
      ensures Valid()
      ensures forall u :: u != user ==> Account(u) == old(Account(u)) && AccruedBy(u) == old(AccruedBy(u))
      ensures duration > 0 ==> Claimed(user, halted, net, now, r)
      ensures duration == 0 ==>
                && r == plain.answer && Account(user) == old(Account(user))
                && (r.Ok? ==> AccruedBy(user) == plain.accrued && totalRewardsPaid == plain.totalRewardsPaid)
                && (r.Err? ==> AccruedBy(user) == old(AccruedBy(user)) && totalRewardsPaid == old(totalRewardsPaid))
    {
      hide Valid, Claimed;
      if duration > 0 {
        r := LockReward(user, halted, net, now);
      } else {
        if plain.answer.Ok? {
          accrued, totalRewardsPaid := accrued[user := plain.accrued], plain.totalRewardsPaid;
        }
        StaysValidUntouched();
        r := plain.answer;
      }
    }

    /** What a claim of one user into their schedule changes, and what it answers. */
    twostate predicate Claimed(user: Address, halted: bool, net: i128, now: u32, new r: Result<i128, Error>)
      reads this
    {
      var amount := old(AccruedBy(user));
      var due := amount > 0 && !halted;
      && (due ==> (r.Ok? <==> FitsI128(old(totalRewardsPaid) + amount)
                              && Lock(old(Stored(user)), net, duration, now).Ok?))
      && (!due ==> r == Ok(0))
      && (r.Err? ==> r == Err(ArithmeticError))
      && (if due && r.Ok? then
            && r.value == Max(net, 0) && AccruedBy(user) == 0 && totalRewardsPaid == old(totalRewardsPaid) + amount
            && Account(user) == Step(old(Account(user)), Call(LockOp(net, duration), now))
            && (net > 0 ==> Stored(user) == Some(Schedule(LockedIn(Stored(user)), 0, now, duration)))
          else
            && AccruedBy(user) == amount && totalRewardsPaid == old(totalRewardsPaid)
            && Account(user) == old(Account(user)))
    }

    /**
      The vesting claim proper. `halted` is the emissions switch and `net` what remains of the
      reward after the deductions; an overflow leaves everything as it was.
     */
    method LockReward(user: Address, halted: bool, net: i128, now: u32) returns (r: Result<i128, Error>)
      requires Valid()
      modifies this`schedules, this`accrued, this`totalRewardsPaid, this`locked, this`paid
      ensures Valid()
      ensures forall u :: u != user ==> Account(u) == old(Account(u)) && AccruedBy(u) == old(AccruedBy(u))
      ensures Claimed(user, halted, net, now, r)
    {
      hide Valid, Balanced, Release;
      var amount := AccruedBy(user);
      if amount <= 0 || halted {
        return Ok(0);
      }
      ghost var before := Account(user);
      ValidAt(user);
      StepBalances(before, Call(LockOp(net, duration), now));
      var total: int := totalRewardsPaid + amount;
      if !FitsI128(total) {
        return Err(ArithmeticError);
      }
      if net <= 0 {
        accrued, totalRewardsPaid := accrued[user := 0], total;
        StaysValid(user);
        return Ok(0);
      }
      var savedSchedules := schedules;
      ghost var savedPaid := paid;
      var released := ReleaseVested(user, now);
      var remainder := if user in schedules then SatSub(schedules[user].total, schedules[user].released) else 0;
      assert remainder == LockedIn(Stored(user));
      FreshSchedule(remainder + net, now, duration);
      hide LockedIn;
      var relocked := Checked(remainder + net);
      if relocked.None? {
        schedules, paid := savedSchedules, savedPaid;
        StaysValid(user);
        return Err(ArithmeticError);
      }
      schedules := schedules[user := Schedule(relocked.value, 0, now, duration)];
      locked := locked[user := before.locked + net];
      accrued, totalRewardsPaid := accrued[user := 0], total;
      StaysValid(user);
      return Ok(net);
    }
  }
}
