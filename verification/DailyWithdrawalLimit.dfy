/** Per-user rolling withdrawal limit (src/daily_withdrawal_limit.rs). */
module DailyWithdrawalLimit {
  import opened Numeric
  import opened RollingWindow

  const DAY: u32 := LEDGERS_PER_DAY

  datatype Error = WithdrawalLimitExceeded | ZeroAmount

  /** Checks a withdrawal against the user's window; the result is the window to store. */
  function Enforced(stored: Option<Window>, limit: i128, now: u32, amount: i128): Result<Option<Window>, Error> {
    if limit == 0 then Ok(stored)
    else
      var w := Current(stored, DAY, now);
      var total := SatAdd(w.used, amount);
      if total > limit then Err(WithdrawalLimitExceeded) else Ok(Some(Window(w.start, total)))
  }

  function Remaining(stored: Option<Window>, limit: i128, now: u32): i128 {
    if limit == 0 then 0 else Max(SatSub(limit, Current(stored, DAY, now).used), 0)
  }

  /**
    The reported headroom is exact for every limit that binds: withdrawals up to it pass, larger
    ones do not. A limit of zero, or one at the top of the type, refuses nothing.
   */
  lemma {:induction false} RemainingIsExact(stored: Option<Window>, limit: i128, now: u32, amount: i128)
    requires 0 <= limit && 0 <= amount && (stored.Some? ==> 0 <= stored.value.used)
    ensures Enforced(stored, limit, now, amount).Ok?
            <==> limit == 0 || limit == I128_MAX
                 || (Current(stored, DAY, now).used <= limit && amount <= Remaining(stored, limit, now))
    ensures limit == 0 ==> Remaining(stored, limit, now) == 0
  {
  }

  // ---------- Runs of withdrawal attempts by any users ----------

  datatype Attempt = Attempt(now: u32, user: Address, amount: i128)

  /** The stored windows together with every user's accepted withdrawals. */
  datatype Desk = Desk(trackers: map<Address, Window>, accepted: map<Address, seq<Payment>>)

  function Tracker(trackers: map<Address, Window>, user: Address): Option<Window> {
    if user in trackers then Some(trackers[user]) else None
  }

  ghost function AcceptedBy(desk: Desk, user: Address): seq<Payment> {
    if user in desk.accepted then desk.accepted[user] else []
  }

  ghost function Step(desk: Desk, a: Attempt, limit: i128): Desk {
    match Enforced(Tracker(desk.trackers, a.user), limit, a.now, a.amount)
    case Err(_) => desk
    case Ok(stored) =>
      Desk(if stored.Some? then desk.trackers[a.user := stored.value] else desk.trackers,
           desk.accepted[a.user := AcceptedBy(desk, a.user) + [Payment(a.now, a.amount)]])
  }

  /** A run of attempts that begins with the windows stored so far, opened under whatever limits. */
  ghost function Run(trackers: map<Address, Window>, attempts: seq<Attempt>, limit: i128): Desk {
    if attempts == [] then Desk(trackers, map[])
    else Step(Run(trackers, attempts[..|attempts| - 1], limit), attempts[|attempts| - 1], limit)
  }

  /** Ledgers do not go back, nor before `begin`, and no amount is negative. */
  ghost predicate Lawful(trackers: map<Address, Window>, attempts: seq<Attempt>, begin: u32) {
    && (forall i, j :: 0 <= i < j < |attempts| ==> attempts[i].now <= attempts[j].now)
    && (forall i :: 0 <= i < |attempts| ==> 0 <= attempts[i].amount && begin <= attempts[i].now)
    && (forall u :: u in trackers ==> 0 <= trackers[u].used && trackers[u].start <= begin)
  }

  ghost function Last(attempts: seq<Attempt>, begin: u32): u32 {
    if attempts == [] then begin else attempts[|attempts| - 1].now
  }

  ghost predicate Bounded(desk: Desk, limit: i128, now: int) {
    forall u :: Accounts(Tracker(desk.trackers, u), AcceptedBy(desk, u), DAY, limit)
                && (u in desk.trackers ==> desk.trackers[u].start <= now)
  }

  lemma {:induction false} AcceptedStaysAccounted(stored: Option<Window>, paid: seq<Payment>, a: Attempt, limit: i128)
    requires 0 < limit < I128_MAX && 0 <= a.amount && Accounts(stored, paid, DAY, limit)
    requires stored.Some? ==> stored.value.start <= a.now
    requires Enforced(stored, limit, a.now, a.amount).Ok?
    ensures var after := Enforced(stored, limit, a.now, a.amount).value;
            && after.Some? && after.value.start <= a.now
            && Accounts(after, paid + [Payment(a.now, a.amount)], DAY, limit)
  {
    UsedIsNonNegative(stored, paid, limit);
    hide Accounts;
    PayKeepsAccounts(stored, paid, DAY, limit, a.now, a.amount);
  }

  lemma {:induction false} UsedIsNonNegative(stored: Option<Window>, paid: seq<Payment>, limit: i128)
    requires Accounts(stored, paid, DAY, limit)
    ensures stored.Some? ==> 0 <= stored.value.used
  {
  }

  lemma {:induction false} StepStaysBounded(desk: Desk, a: Attempt, limit: i128, before: int)
    requires 0 < limit < I128_MAX && Bounded(desk, limit, before) && before <= a.now && 0 <= a.amount
    ensures Bounded(Step(desk, a, limit), limit, a.now)
  {
    hide Accounts, Enforced;
    var after := Step(desk, a, limit);
    var stored, paid := Tracker(desk.trackers, a.user), AcceptedBy(desk, a.user);
    assert Accounts(stored, paid, DAY, limit);
    if Enforced(stored, limit, a.now, a.amount).Ok? {
      AcceptedStaysAccounted(stored, paid, a, limit);
      forall u ensures Accounts(Tracker(after.trackers, u), AcceptedBy(after, u), DAY, limit)
                       && (u in after.trackers ==> after.trackers[u].start <= a.now) {
        assert Accounts(Tracker(desk.trackers, u), AcceptedBy(desk, u), DAY, limit);
      }
    }
  }

  lemma {:induction false} RunStaysBounded(
      trackers: map<Address, Window>, attempts: seq<Attempt>, begin: u32, limit: i128)
    requires 0 < limit < I128_MAX && Lawful(trackers, attempts, begin)
    ensures Bounded(Run(trackers, attempts, limit), limit, Last(attempts, begin))
  {
    if attempts == [] {
      forall u ensures Accounts(Tracker(trackers, u), [], DAY, limit) {
        NoPaymentsYet(Tracker(trackers, u), DAY, limit);
      }
    } else {
      var before := attempts[..|attempts| - 1];
      RunStaysBounded(trackers, before, begin, limit);
      StepStaysBounded(Run(trackers, before, limit), attempts[|attempts| - 1], limit, Last(before, begin));
    }
  }

  /** Whatever windows a run began with, no user withdraws more than twice the limit in a day-long stretch. */
  ghost predicate TwiceTheLimitHolds(limit: i128) {
    forall trackers, attempts, begin, user, start ::
      Lawful(trackers, attempts, begin) ==>
        PaidDuring(AcceptedBy(Run(trackers, attempts, limit), user), start, DAY) <= 2 * limit
  }

  /** It holds of every positive limit below the top of the type, where the running total can no longer pass it. */
  lemma {:induction false} AtMostTwicePerDay(limit: i128)
    requires 0 < limit
    ensures TwiceTheLimitHolds(limit) <==> limit < I128_MAX
  {
    if limit < I128_MAX {
      forall trackers, attempts, begin, user, start | Lawful(trackers, attempts, begin)
        ensures PaidDuring(AcceptedBy(Run(trackers, attempts, limit), user), start, DAY) <= 2 * limit
      {
        RunStaysBounded(trackers, attempts, begin, limit);
        var desk := Run(trackers, attempts, limit);
        assert Accounts(Tracker(desk.trackers, user), AcceptedBy(desk, user), DAY, limit);
      }
    } else {
      TopLimitNeverBinds();
    }
  }

  const EVERYTHING: Attempt := Attempt(0, 0, I128_MAX)

  lemma {:induction false} TopStep(desk: Desk)
    requires 0 in desk.trackers ==> desk.trackers[0] == Window(0, I128_MAX)
    ensures var after := Step(desk, EVERYTHING, I128_MAX);
            && AcceptedBy(after, 0) == AcceptedBy(desk, 0) + [Payment(0, I128_MAX)]
            && 0 in after.trackers && after.trackers[0] == Window(0, I128_MAX)
  {
  }

  lemma {:induction false} RunAppend(trackers: map<Address, Window>, attempts: seq<Attempt>, a: Attempt, limit: i128)
    ensures Run(trackers, attempts + [a], limit) == Step(Run(trackers, attempts, limit), a, limit)
  {
    assert (attempts + [a])[..|attempts|] == attempts;
  }

  /** With the limit at the top of the type the running total saturates and nothing is ever refused. */
  lemma {:induction false} TopLimitNeverBinds()
    ensures !TwiceTheLimitHolds(I128_MAX)
  {
    var a, p := EVERYTHING, Payment(0, I128_MAX);
    var run := [] + [a] + [a] + [a];
    assert AcceptedBy(Run(map[], run, I128_MAX), 0) == [] + [p] + [p] + [p] by {
      RunAppend(map[], [], a, I128_MAX);
      RunAppend(map[], [] + [a], a, I128_MAX);
      RunAppend(map[], [] + [a] + [a], a, I128_MAX);
      TopStep(Run(map[], [], I128_MAX));
      TopStep(Run(map[], [] + [a], I128_MAX));
      TopStep(Run(map[], [] + [a] + [a], I128_MAX));
      hide Step;
    }
    hide Run, AcceptedBy;
    assert PaidDuring([] + [p] + [p] + [p], 0, DAY) == 3 * I128_MAX by {
      PaidAppend([], p, 0, DAY);
      PaidAppend([] + [p], p, 0, DAY);
      PaidAppend([] + [p] + [p], p, 0, DAY);
    }
    hide PaidDuring;
    assert Lawful(map[], run, 0);
    assert !(PaidDuring(AcceptedBy(Run(map[], run, I128_MAX), 0), 0, DAY) <= 2 * I128_MAX);
  }

  /**
    The window a user's next withdrawal is charged to covers it and counts at least what the run
    accepted since it started; in a run from the first withdrawal on it counts exactly that, and
    is within the limit.
   */
  lemma {:induction false} WindowIsAccounted(
      trackers: map<Address, Window>, attempts: seq<Attempt>, begin: u32, limit: i128, user: Address, now: u32)
    requires 0 < limit < I128_MAX && Lawful(trackers, attempts, begin) && Last(attempts, begin) <= now
    ensures var desk := Run(trackers, attempts, limit);
            var w, accepted := Current(Tracker(desk.trackers, user), DAY, now), AcceptedBy(desk, user);
            && w.start <= now < w.start + DAY
            && 0 <= PaidSince(accepted, w.start) <= Min(w.used, limit)
            && (user !in trackers ==> w.used == PaidSince(accepted, w.start))
            && (forall p :: p in accepted ==> p.ledger < w.start + DAY)
  {
    var desk := Run(trackers, attempts, limit);
    RunStaysBounded(trackers, attempts, begin, limit);
    assert Accounts(Tracker(desk.trackers, user), AcceptedBy(desk, user), DAY, limit);
    if user !in trackers {
      RunStaysExact(trackers, attempts, begin, limit, user);
    }
    CurrentIsAccounted(Tracker(desk.trackers, user), AcceptedBy(desk, user), DAY, limit, now);
  }

  lemma {:induction false} RunStaysExact(
      trackers: map<Address, Window>, attempts: seq<Attempt>, begin: u32, limit: i128, user: Address)
    requires 0 < limit < I128_MAX && Lawful(trackers, attempts, begin) && user !in trackers
    ensures var desk := Run(trackers, attempts, limit);
            Exact(Tracker(desk.trackers, user), AcceptedBy(desk, user))
  {
    if attempts != [] {
      var before, a := attempts[..|attempts| - 1], attempts[|attempts| - 1];
      RunStaysExact(trackers, before, begin, limit, user);
      RunStaysBounded(trackers, before, begin, limit);
      StepStaysExact(Run(trackers, before, limit), a, limit, Last(before, begin), user);
    }
  }

  lemma {:induction false} StepStaysExact(desk: Desk, a: Attempt, limit: i128, before: int, user: Address)
    requires 0 < limit < I128_MAX && Bounded(desk, limit, before) && before <= a.now && 0 <= a.amount
    requires Exact(Tracker(desk.trackers, user), AcceptedBy(desk, user))
    ensures var after := Step(desk, a, limit);
            Exact(Tracker(after.trackers, user), AcceptedBy(after, user))
  {
    var stored, paid := Tracker(desk.trackers, a.user), AcceptedBy(desk, a.user);
    assert Accounts(stored, paid, DAY, limit);
    assert stored.Some? ==> 0 <= stored.value.used && stored.value.start <= before;
    hide Accounts, Exact;
    if a.user == user && Enforced(stored, limit, a.now, a.amount).Ok? {
      PayKeepsExact(stored, paid, DAY, limit, a.now, a.amount);
    }
  }

  // ---------- The window does not roll ----------

  /** Nothing opens the window, all of it goes in its last ledger, and a full window follows at once. */
  ghost function Straddle(limit: i128): seq<Attempt> {
    [] + [Attempt(0, 0, 0)] + [Attempt(DAY - 1, 0, limit)] + [Attempt(DAY, 0, limit)]
  }

  lemma {:induction false} AcceptedAfter(attempts: seq<Attempt>, a: Attempt, limit: i128, w: Window)
    requires Enforced(Tracker(Run(map[], attempts, limit).trackers, a.user), limit, a.now, a.amount) == Ok(Some(w))
    ensures var before, after := Run(map[], attempts, limit), Run(map[], attempts + [a], limit);
            && Tracker(after.trackers, a.user) == Some(w)
            && AcceptedBy(after, a.user) == AcceptedBy(before, a.user) + [Payment(a.now, a.amount)]
  {
    RunAppend(map[], attempts, a, limit);
  }

  /**
    Old withdrawals do not age out one by one: every positive limit lets exactly twice as much
    out within two ledgers.
   */
  lemma {:induction false} TwiceInTwoLedgers(limit: i128)
    requires 0 < limit
    ensures Lawful(map[], Straddle(limit), 0)
    ensures PaidDuring(AcceptedBy(Run(map[], Straddle(limit), limit), 0), DAY - 1, 2) == 2 * limit
  {
    var a, b, c := Attempt(0, 0, 0), Attempt(DAY - 1, 0, limit), Attempt(DAY, 0, limit);
    var p, q, r := Payment(0, 0), Payment(DAY - 1, limit), Payment(DAY, limit);
    assert Lawful(map[], Straddle(limit), 0);
    assert Tracker(Run(map[], [], limit).trackers, 0) == None && AcceptedBy(Run(map[], [], limit), 0) == [];
    hide Run, AcceptedBy, Tracker, PaidDuring;
    AcceptedAfter([], a, limit, Window(0, 0));
    AcceptedAfter([] + [a], b, limit, Window(0, limit));
    AcceptedAfter([] + [a] + [b], c, limit, Window(DAY, limit));
    assert AcceptedBy(Run(map[], Straddle(limit), limit), 0) == [] + [p] + [q] + [r];
    TwicePaid(limit);
  }

  lemma {:induction false} TwicePaid(limit: i128)
    ensures PaidDuring([] + [Payment(0, 0)] + [Payment(DAY - 1, limit)] + [Payment(DAY, limit)], DAY - 1, 2)
         == 2 * limit
  {
    var p, q, r := Payment(0, 0), Payment(DAY - 1, limit), Payment(DAY, limit);
    PaidAppend([], p, DAY - 1, DAY + 1);
    PaidAppend([] + [p], q, DAY - 1, DAY + 1);
    PaidAppend([] + [p] + [q], r, DAY - 1, DAY + 1);
  }

  /** No user ever withdraws more than the limit in a day-long stretch. */
  ghost predicate RollingDays(desk: Desk, limit: i128) {
    forall u :: EveryStretchWithin(AcceptedBy(desk, u), DAY, limit)
  }

  ghost predicate FitsRollingDay(trackers: map<Address, Window>, attempts: seq<Attempt>, i: nat, limit: i128)
    requires i < |attempts|
  {
    var desk, a := Run(trackers, attempts[..i], limit), attempts[i];
    Enforced(Tracker(desk.trackers, a.user), limit, a.now, a.amount).Ok? ==>
      a.amount <= limit - Trailing(AcceptedBy(desk, a.user), DAY, a.now)
  }

  ghost predicate PaymentsInOrder(desk: Desk, now: int) {
    forall u :: Recorded(AcceptedBy(desk, u), now)
  }

  lemma {:induction false} RunInOrder(
      trackers: map<Address, Window>, attempts: seq<Attempt>, begin: u32, limit: i128)
    requires Lawful(trackers, attempts, begin)
    ensures PaymentsInOrder(Run(trackers, attempts, limit), Last(attempts, begin))
  {
    if attempts != [] {
      var before, a := attempts[..|attempts| - 1], attempts[|attempts| - 1];
      RunInOrder(trackers, before, begin, limit);
      hide Run, Enforced;
      StepInOrder(Run(trackers, before, limit), a, limit, Last(before, begin));
      RunAppend(trackers, before, a, limit);
      assert before + [a] == attempts;
    }
  }

  lemma {:induction false} StepInOrder(desk: Desk, a: Attempt, limit: i128, before: int)
    requires PaymentsInOrder(desk, before) && before <= a.now && 0 <= a.amount
    ensures PaymentsInOrder(Step(desk, a, limit), a.now)
  {
    var after := Step(desk, a, limit);
    hide Enforced;
    forall u ensures Recorded(AcceptedBy(after, u), a.now) {
      assert Recorded(AcceptedBy(desk, u), before);
    }
  }

  lemma {:induction false} StepRolls(desk: Desk, a: Attempt, limit: i128, before: int)
    requires PaymentsInOrder(desk, before) && before <= a.now && 0 <= a.amount
    ensures RollingDays(Step(desk, a, limit), limit)
            <==> RollingDays(desk, limit)
                 && (Enforced(Tracker(desk.trackers, a.user), limit, a.now, a.amount).Ok? ==>
                       a.amount <= limit - Trailing(AcceptedBy(desk, a.user), DAY, a.now))
  {
    hide Enforced, EveryStretchWithin, Trailing;
    var after := Step(desk, a, limit);
    var paid, p := AcceptedBy(desk, a.user), Payment(a.now, a.amount);
    assert Recorded(paid, before);
    if Enforced(Tracker(desk.trackers, a.user), limit, a.now, a.amount).Ok? {
      TrailingDecides(paid, p, DAY, limit);
      assert AcceptedBy(after, a.user) == paid + [p];
      assert forall u :: u != a.user ==> AcceptedBy(after, u) == AcceptedBy(desk, u);
    }
  }

  /**
    A run keeps the rolling day for all its users if and only if each accepted withdrawal fits
    what the limit leaves of the day-long stretch ending with it.
   */
  lemma {:induction false} RollsExactlyWhen(
      trackers: map<Address, Window>, attempts: seq<Attempt>, begin: u32, limit: i128)
    requires Lawful(trackers, attempts, begin) && 0 <= limit
    ensures RollingDays(Run(trackers, attempts, limit), limit)
            <==> forall i :: 0 <= i < |attempts| ==> FitsRollingDay(trackers, attempts, i, limit)
  {
    if attempts == [] {
      assert RollingDays(Run(trackers, [], limit), limit);
    } else {
      var before, a := attempts[..|attempts| - 1], attempts[|attempts| - 1];
      RollsExactlyWhen(trackers, before, begin, limit);
      RunInOrder(trackers, before, begin, limit);
      hide FitsRollingDay, RollingDays, PaymentsInOrder, Enforced, AcceptedBy, Trailing;
      StepRolls(Run(trackers, before, limit), a, limit, Last(before, begin));
      AllFitExtends(trackers, attempts, limit);
    }
  }

  lemma {:induction false} AllFitExtends(trackers: map<Address, Window>, attempts: seq<Attempt>, limit: i128)
    requires attempts != []
    ensures var before, a := attempts[..|attempts| - 1], attempts[|attempts| - 1];
            var desk := Run(trackers, before, limit);
            (forall i :: 0 <= i < |attempts| ==> FitsRollingDay(trackers, attempts, i, limit))
            <==> (forall i :: 0 <= i < |before| ==> FitsRollingDay(trackers, before, i, limit))
                 && (Enforced(Tracker(desk.trackers, a.user), limit, a.now, a.amount).Ok? ==>
                       a.amount <= limit - Trailing(AcceptedBy(desk, a.user), DAY, a.now))
  {
    hide Run, Enforced, AcceptedBy, Trailing;
    var before := attempts[..|attempts| - 1];
    forall i | 0 <= i < |before|
      ensures FitsRollingDay(trackers, before, i, limit) <==> FitsRollingDay(trackers, attempts, i, limit)
    {
      assert before[..i] == attempts[..i];
    }
    if forall i :: 0 <= i < |attempts| ==> FitsRollingDay(trackers, attempts, i, limit) {
      assert FitsRollingDay(trackers, attempts, |before|, limit);
    }
  }

  // ---------- Storage ----------

  class WithdrawalLimiter {
    var limit: i128
    var trackers: map<Address, Window>

    constructor ()
      ensures limit == 0 && trackers == map[]
    {
      limit, trackers := 0, map[];
    }

    method SetDailyWithdrawalLimit(amount: i128) returns (r: Result<(), Error>)
      modifies this`limit
      ensures amount < 0 ==> r == Err(ZeroAmount) && limit == old(limit)
      ensures amount >= 0 ==> r == Ok(()) && limit == amount
    {
      if amount < 0 {
        return Err(ZeroAmount);
      }
      limit := amount;
      return Ok(());
    }

    method CurrentTracker(user: Address, now: u32) returns (w: Window)
      ensures w == Current(Tracker(trackers, user), DAY, now)
    {
      if user in trackers && SatSubU32(now, trackers[user].start) < DAY {
        w := trackers[user];
      } else {
        w := Window(now, 0);
      }
    }

    method EnforceAndRecord(user: Address, amount: i128, now: u32) returns (r: Result<(), Error>)
      modifies this`trackers
      ensures match Enforced(old(Tracker(trackers, user)), limit, now, amount)
              case Err(e) => r == Err(e) && trackers == old(trackers)
              case Ok(stored) => r == Ok(()) && Tracker(trackers, user) == stored
                                 && trackers - {user} == old(trackers) - {user}
    {
      if limit == 0 {
        return Ok(());
      }
      var tracker := CurrentTracker(user, now);
      var newTotal := SatAdd(tracker.used, amount);
      if newTotal > limit {
        return Err(WithdrawalLimitExceeded);
      }
      trackers := trackers[user := Window(tracker.start, newTotal)];
      return Ok(());
    }

    method GetRemaining(user: Address, now: u32) returns (amount: i128)
      ensures amount == Remaining(Tracker(trackers, user), limit, now)
    {
      if limit == 0 {
        return 0;
      }
      var tracker := CurrentTracker(user, now);
      amount := Max(SatSub(limit, tracker.used), 0);
    }
  }
}
