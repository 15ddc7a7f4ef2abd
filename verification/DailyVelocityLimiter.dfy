/** Pool-wide daily limit on reward outflow, with deferral (src/daily_token_velocity_limiter.rs). */
module DailyVelocityLimiter {
  import opened Numeric
  import opened RollingWindow

  const DAY: u32 := LEDGERS_PER_DAY

  datatype Error = ZeroAmount | InsufficientRewardPool | NothingToWithdraw

  datatype Tracker = Tracker(dayStart: u32, outflow: i128)

  datatype State = State(
    limit: i128,
    tracker: Option<Tracker>,
    accrued: map<Address, i128>,
    deferred: map<Address, i128>,
    pool: i128)

  function DayStart(now: u32): u32 { now / DAY * DAY }

  /** The stored tracker while its calendar day lasts, else a fresh one for today. */
  function CurrentTracker(stored: Option<Tracker>, now: u32): Tracker {
    if stored.Some? && stored.value.dayStart / DAY == now / DAY then stored.value else Tracker(DayStart(now), 0)
  }

  function AccruedBy(s: State, user: Address): i128 {
    if user in s.accrued then s.accrued[user] else 0
  }

  function DeferredOf(s: State, user: Address): i128 {
    if user in s.deferred then s.deferred[user] else 0
  }

  function Headroom(s: State, now: u32): i128 {
    Max(SatSub(s.limit, CurrentTracker(s.tracker, now).outflow), 0)
  }

  // ---------- Transitions; an error leaves the state as it was ----------

  /** Today's tracker with `paid` added. */
  function Charged(s: State, now: u32, paid: i128): Option<Tracker> {
    var t := CurrentTracker(s.tracker, now);
    Some(Tracker(t.dayStart, SatAdd(t.outflow, paid)))
  }

  function Claim(s: State, user: Address, now: u32): Result<(State, i128), Error> {
    var accrued := AccruedBy(s, user);
    if accrued <= 0 then Ok((s, 0))
    else if s.limit == 0 then
      if s.pool < accrued then Err(InsufficientRewardPool)
      else Ok((s.(accrued := s.accrued[user := 0], pool := s.pool - accrued), accrued))
    else
      var payable := Min(accrued, Headroom(s, now));
      if payable > 0 && s.pool < payable then Err(InsufficientRewardPool)
      else
        var rest := accrued - payable;
        Ok((s.(accrued := s.accrued[user := 0],
               pool := s.pool - payable,
               tracker := Charged(s, now, payable),
               deferred := if rest > 0 then s.deferred[user := SatAdd(DeferredOf(s, user), rest)] else s.deferred),
            payable))
  }

  function ClaimDeferred(s: State, user: Address, now: u32): Result<(State, i128), Error> {
    if user !in s.deferred then Err(NothingToWithdraw)
    else
      var payable := if s.limit == 0 then s.deferred[user] else Min(s.deferred[user], Headroom(s, now));
      if payable <= 0 then Ok((s, 0))
      else if s.pool < payable then Err(InsufficientRewardPool)
      else
        var leftover := s.deferred[user] - payable;
        Ok((s.(deferred := if leftover > 0 then s.deferred[user := leftover] else s.deferred - {user},
               pool := s.pool - payable,
               tracker := if s.limit == 0 then s.tracker else Charged(s, now, payable)),
            payable))
  }

  // ---------- One step ----------

  ghost predicate Sound(s: State) {
    && 0 <= s.limit && 0 <= s.pool
    && (forall u :: u in s.accrued ==> 0 <= s.accrued[u])
    && (forall u :: u in s.deferred ==> 0 < s.deferred[u])
    && (s.tracker.Some? ==> 0 <= s.tracker.value.outflow)
  }

  ghost function Owed(s: State, user: Address): int { AccruedBy(s, user) + DeferredOf(s, user) }

  /**
    A claim takes exactly what it pays out of the pool and touches nobody else. What is paid
    plus what stays owed is what was owed, exactly when no limit binds, today's headroom covers
    the reward, or what is owed beyond the headroom fits the deferred bucket.
   */
  lemma {:induction false} ClaimConserves(s: State, user: Address, now: u32)
    requires Sound(s) && Claim(s, user, now).Ok?
    ensures var (after, paid) := Claim(s, user, now).value;
            && Sound(after) && 0 <= paid && after.limit == s.limit
            && after.pool == s.pool - paid
            && (forall u :: u != user ==>
                  AccruedBy(after, u) == AccruedBy(s, u) && DeferredOf(after, u) == DeferredOf(s, u))
            && (0 < AccruedBy(s, user) ==> AccruedBy(after, user) == 0)
            && paid + Owed(after, user) <= Owed(s, user)
            && (paid + Owed(after, user) == Owed(s, user)
                <==> s.limit == 0 || AccruedBy(s, user) <= Headroom(s, now)
                     || Owed(s, user) - Headroom(s, now) <= I128_MAX)
  {
  }

  /** Collecting a deferred reward always conserves. */
  lemma {:induction false} ClaimDeferredConserves(s: State, user: Address, now: u32)
    requires Sound(s) && ClaimDeferred(s, user, now).Ok?
    ensures var (after, paid) := ClaimDeferred(s, user, now).value;
            && Sound(after) && 0 <= paid && after.limit == s.limit
            && after.pool == s.pool - paid
            && (forall u :: u != user ==>
                  AccruedBy(after, u) == AccruedBy(s, u) && DeferredOf(after, u) == DeferredOf(s, u))
            && AccruedBy(after, user) == AccruedBy(s, user)
            && paid + DeferredOf(after, user) == DeferredOf(s, user)
  {
  }

  // ---------- Runs ----------

  datatype Op =
    | Earn(user: Address, amount: i128)
    | Fund(amount: i128)
    | ClaimOp(user: Address)
    | ClaimDeferredOp(user: Address)

  datatype Call = Call(op: Op, now: u32)

  /** The state with its record: every payout, what each user earned and was paid, and the pool's funding. */
  datatype Books = Books(
    state: State, payouts: seq<Payment>, earned: map<Address, int>, paid: map<Address, int>, funded: int, paidOut: int)

  ghost function Pay(b: Books, after: State, user: Address, amount: int, now: u32): Books {
    b.(state := after, payouts := b.payouts + [Payment(now, amount)],
       paid := b.paid[user := Lookup(b.paid, user) + amount], paidOut := b.paidOut + amount)
  }

  ghost function Step(b: Books, call: Call): Books {
    var s := b.state;
    match call.op
    case Earn(user, amount) =>
      if 0 <= amount && FitsI128(AccruedBy(s, user) + amount)
      then b.(state := s.(accrued := s.accrued[user := AccruedBy(s, user) + amount]),
              earned := b.earned[user := Lookup(b.earned, user) + amount]) else b
    case Fund(amount) =>
      if 0 <= amount && FitsI128(s.pool + amount)
      then b.(state := s.(pool := s.pool + amount), funded := b.funded + amount) else b
    case ClaimOp(user) =>
      (match Claim(s, user, call.now)
       case Err(_) => b
       case Ok((after, amount)) => if AccruedBy(s, user) <= 0 then b else Pay(b, after, user, amount, call.now))
    case ClaimDeferredOp(user) =>
      (match ClaimDeferred(s, user, call.now)
       case Err(_) => b
       case Ok((after, amount)) => if amount == 0 then b else Pay(b, after, user, amount, call.now))
  }

  ghost function Fresh(limit: i128): State { State(limit, None, map[], map[], 0) }

  /** A record that starts with `s`: what is owed counts as earned, what is in the pool as funded. */
  ghost function Opening(s: State): Books {
    Books(s, [], map u | u in s.accrued.Keys + s.deferred.Keys :: Owed(s, u), map[], s.pool, 0)
  }

  ghost function Run(s: State, calls: seq<Call>): Books {
    if calls == [] then Opening(s) else Step(Run(s, calls[..|calls| - 1]), calls[|calls| - 1])
  }

  /** Ledgers do not go back, nor before `begin`. */
  ghost predicate InOrder(calls: seq<Call>, begin: u32) {
    && (forall i :: 0 <= i < |calls| ==> begin <= calls[i].now)
    && (forall i, j :: 0 <= i < j < |calls| ==> calls[i].now <= calls[j].now)
  }

  ghost function Last(calls: seq<Call>, begin: u32): u32 {
    if calls == [] then begin else calls[|calls| - 1].now
  }

  /** A positive limit has just been set on a sound state, whatever today's tracker holds. */
  ghost predicate Limited(s: State, begin: u32) {
    && Sound(s) && 0 < s.limit
    && (s.tracker.Some? ==> s.tracker.value.dayStart <= begin
                            && s.tracker.value.dayStart == DayStart(s.tracker.value.dayStart))
  }

  // ---------- The daily limit ----------

  /** Total payout of one calendar day. */
  ghost function PaidOnDay(payouts: seq<Payment>, day: nat): int {
    PaidIn(payouts, day * DAY, day * DAY + DAY)
  }

  ghost predicate WithinLimit(b: Books, now: int) {
    && Sound(b.state)
    && (b.state.tracker.None? ==> b.payouts == [])
    && (b.state.tracker.Some? ==>
          var t := b.state.tracker.value;
          && t.dayStart <= now && t.dayStart == DayStart(t.dayStart)
          && 0 <= PaidOnDay(b.payouts, t.dayStart / DAY) <= t.outflow
          && (forall p :: p in b.payouts ==> p.ledger < t.dayStart + DAY))
    && (forall d: nat :: PaidOnDay(b.payouts, d) <= b.state.limit)
  }

  lemma {:induction false} DayBounds(now: u32, day: nat)
    ensures day * DAY <= now < day * DAY + DAY <==> day == now / DAY
  {
    FloorBounds(now, DAY);
    if day * DAY <= now < day * DAY + DAY {
      FloorUnique(now, DAY, day);
    }
  }

  lemma {:induction false} NothingOnLaterDay(payouts: seq<Payment>, day: nat)
    requires forall p :: p in payouts ==> p.ledger < day * DAY
    ensures PaidOnDay(payouts, day) == 0
  {
    if payouts != [] {
      NothingOnLaterDay(payouts[..|payouts| - 1], day);
    }
  }

  /** Before any further payment, today's tracker counts at least what the run has paid today. */
  lemma {:induction false} TodayIsAccounted(b: Books, now: u32, before: int)
    requires WithinLimit(b, before) && before <= now
    ensures var t := CurrentTracker(b.state.tracker, now);
            && t.dayStart == DayStart(now) == now / DAY * DAY && t.dayStart / DAY == now / DAY
            && t.dayStart <= now
            && 0 <= PaidOnDay(b.payouts, now / DAY) <= t.outflow
            && (forall p :: p in b.payouts ==> p.ledger < t.dayStart + DAY)
  {
    var stored := b.state.tracker;
    FloorBounds(now, DAY);
    FloorUnique(DayStart(now), DAY, now / DAY);
    if stored.Some? && stored.value.dayStart / DAY != now / DAY {
      LaterDay(stored.value.dayStart, now);
      NothingOnLaterDay(b.payouts, now / DAY);
    } else if stored.None? {
      NothingOnLaterDay(b.payouts, now / DAY);
    }
  }

  lemma {:induction false} PayStaysWithinLimit(
      b: Books, after: State, user: Address, amount: int, now: u32, before: int)
    requires WithinLimit(b, before) && before <= now && 0 < b.state.limit
    requires Sound(after) && after.limit == b.state.limit
    requires 0 <= amount <= Headroom(b.state, now) && after.tracker == Charged(b.state, now, amount)
    ensures WithinLimit(Pay(b, after, user, amount, now), now) && Pay(b, after, user, amount, now).state == after
  {
    TodayIsAccounted(b, now, before);
    hide CurrentTracker, DayStart, PaidIn;
    var today := now / DAY;
    var payouts := b.payouts + [Payment(now, amount)];
    forall d: nat ensures PaidOnDay(payouts, d) == PaidOnDay(b.payouts, d) + if d == today then amount else 0 {
      PaidAppend(b.payouts, Payment(now, amount), d * DAY, d * DAY + DAY);
      DayBounds(now, d);
    }
    FloorBounds(now, DAY);
    TrackerStart(now);
    hide PaidOnDay;
  }

  lemma {:induction false} TrackerStart(now: u32)
    ensures DayStart(DayStart(now)) == DayStart(now)
  {
    FloorUnique(DayStart(now), DAY, now / DAY);
  }

  /** A tracker of another day belongs to an earlier one. */
  lemma {:induction false} LaterDay(dayStart: u32, now: u32)
    requires dayStart <= now && dayStart / DAY != now / DAY && dayStart == DayStart(dayStart)
    ensures dayStart + DAY <= DayStart(now)
  {
    FloorMonotone(dayStart, now, DAY);
    MulLe(dayStart / DAY + 1, now / DAY, DAY);
    Distribute(DAY, dayStart / DAY, 1);
  }

  /** Under a limit, every payout fits today's headroom and is charged to today's tracker. */
  lemma {:induction false} PayoutsAreCharged(s: State, user: Address, now: u32)
    requires Sound(s) && 0 < s.limit
    ensures Claim(s, user, now).Ok? && AccruedBy(s, user) > 0 ==>
              var (after, paid) := Claim(s, user, now).value;
              0 <= paid <= Headroom(s, now) && after.tracker == Charged(s, now, paid)
    ensures ClaimDeferred(s, user, now).Ok? && ClaimDeferred(s, user, now).value.1 != 0 ==>
              var (after, paid) := ClaimDeferred(s, user, now).value;
              0 <= paid <= Headroom(s, now) && after.tracker == Charged(s, now, paid)
  {
    hide CurrentTracker;
  }

  lemma {:induction false} StepStaysWithinLimit(b: Books, call: Call, before: int)
    requires WithinLimit(b, before) && before <= call.now && 0 < b.state.limit
    ensures WithinLimit(Step(b, call), call.now) && Step(b, call).state.limit == b.state.limit
  {
    var s := b.state;
    assert Sound(s);
    match call.op
    case Earn(user, amount) =>
      hide PaidOnDay, DayStart;
    case Fund(amount) =>
      hide PaidOnDay, DayStart;
    case ClaimOp(user) =>
      UnpaidStaysWithinLimit(b, before, call.now);
      hide WithinLimit, Sound, Claim, Charged, Headroom, Pay;
      if Claim(s, user, call.now).Ok? && AccruedBy(s, user) > 0 {
        var (after, amount) := Claim(s, user, call.now).value;
        ClaimConserves(s, user, call.now);
        PayoutsAreCharged(s, user, call.now);
        PayStaysWithinLimit(b, after, user, amount, call.now, before);
      }
    case ClaimDeferredOp(user) =>
      UnpaidStaysWithinLimit(b, before, call.now);
      hide WithinLimit, Sound, ClaimDeferred, Charged, Headroom, Pay;
      if ClaimDeferred(s, user, call.now).Ok? {
        var (after, amount) := ClaimDeferred(s, user, call.now).value;
        ClaimDeferredConserves(s, user, call.now);
        PayoutsAreCharged(s, user, call.now);
        if amount != 0 {
          PayStaysWithinLimit(b, after, user, amount, call.now, before);
        }
      }
  }

  lemma {:induction false} UnpaidStaysWithinLimit(b: Books, before: int, now: int)
    requires WithinLimit(b, before) && before <= now
    ensures WithinLimit(b, now)
  {
    hide PaidOnDay, DayStart;
  }

  /**
    From any sound state on, a stale tracker above the limit included: while a positive limit
    stays, both entrypoints together never pay more than it on any calendar day.
   */
  lemma {:induction false} DailyLimitHolds(s: State, calls: seq<Call>, begin: u32)
    requires Limited(s, begin) && InOrder(calls, begin)
    ensures WithinLimit(Run(s, calls), Last(calls, begin)) && Run(s, calls).state.limit == s.limit
    ensures forall d: nat :: PaidOnDay(Run(s, calls).payouts, d) <= s.limit
  {
    if calls != [] {
      var before := calls[..|calls| - 1];
      DailyLimitHolds(s, before, begin);
      hide Step;
      StepStaysWithinLimit(Run(s, before), calls[|calls| - 1], Last(before, begin));
    }
  }

  // ---------- A call pays all it can ----------

  /** Without a limit a claim pays the whole accrued reward and a collection the whole bucket, if the pool has it. */
  lemma {:induction false} UnlimitedPaysAll(s: State, user: Address, now: u32)
    requires Sound(s) && s.limit == 0
    ensures Claim(s, user, now).Ok? <==> AccruedBy(s, user) <= s.pool
    ensures Claim(s, user, now).Ok? ==> Claim(s, user, now).value.1 == AccruedBy(s, user)
    ensures Claim(s, user, now).Ok? ==> Claim(s, user, now).value.0.tracker == s.tracker
    ensures ClaimDeferred(s, user, now).Ok? <==> 0 < DeferredOf(s, user) <= s.pool
    ensures ClaimDeferred(s, user, now).Ok? ==> ClaimDeferred(s, user, now).value.1 == DeferredOf(s, user)
    ensures ClaimDeferred(s, user, now).Ok? ==> ClaimDeferred(s, user, now).value.0.tracker == s.tracker
  {
  }

  /** The tracker counts exactly what was paid on its day. */
  ghost predicate ExactDay(b: Books) {
    b.state.tracker.Some? ==>
      b.state.tracker.value.outflow == PaidOnDay(b.payouts, b.state.tracker.value.dayStart / DAY)
  }

  lemma {:induction false} TodayIsExact(b: Books, now: u32, before: int)
    requires WithinLimit(b, before) && ExactDay(b) && before <= now
    ensures CurrentTracker(b.state.tracker, now).outflow == PaidOnDay(b.payouts, now / DAY)
  {
    var stored := b.state.tracker;
    if stored.Some? && stored.value.dayStart / DAY != now / DAY {
      LaterDay(stored.value.dayStart, now);
      NothingOnLaterDay(b.payouts, now / DAY);
    } else if stored.None? {
      NothingOnLaterDay(b.payouts, now / DAY);
    }
  }

  lemma {:induction false} PayStaysExact(
      b: Books, after: State, user: Address, amount: int, now: u32, before: int)
    requires WithinLimit(b, before) && ExactDay(b) && before <= now && 0 < b.state.limit
    requires 0 <= amount <= Headroom(b.state, now) && after.tracker == Charged(b.state, now, amount)
    ensures ExactDay(Pay(b, after, user, amount, now))
  {
    TodayIsExact(b, now, before);
    TodayIsAccounted(b, now, before);
    PaidAppend(b.payouts, Payment(now, amount), now / DAY * DAY, now / DAY * DAY + DAY);
    FloorBounds(now, DAY);
    hide CurrentTracker, PaidIn, WithinLimit, DayStart;
  }

  lemma {:induction false} StepStaysExact(b: Books, call: Call, before: int)
    requires WithinLimit(b, before) && ExactDay(b) && before <= call.now && 0 < b.state.limit
    ensures ExactDay(Step(b, call))
  {
    var s := b.state;
    assert Sound(s);
    match call.op
    case Earn(_, _) =>
    case Fund(_) =>
    case ClaimOp(user) =>
      hide WithinLimit, Sound, Claim, Charged, Headroom, Pay, ExactDay;
      if Claim(s, user, call.now).Ok? && AccruedBy(s, user) > 0 {
        PayoutsAreCharged(s, user, call.now);
        PayStaysExact(b, Claim(s, user, call.now).value.0, user, Claim(s, user, call.now).value.1, call.now, before);
      }
    case ClaimDeferredOp(user) =>
      hide WithinLimit, Sound, ClaimDeferred, Charged, Headroom, Pay, ExactDay;
      if ClaimDeferred(s, user, call.now).Ok? && ClaimDeferred(s, user, call.now).value.1 != 0 {
        var (after, amount) := ClaimDeferred(s, user, call.now).value;
        PayoutsAreCharged(s, user, call.now);
        PayStaysExact(b, after, user, amount, call.now, before);
      }
  }

  lemma {:induction false} RunStaysExact(s: State, calls: seq<Call>, begin: u32)
    requires Limited(s, begin) && s.tracker == None && InOrder(calls, begin)
    ensures ExactDay(Run(s, calls))
  {
    if calls != [] {
      var before := calls[..|calls| - 1];
      RunStaysExact(s, before, begin);
      DailyLimitHolds(s, before, begin);
      hide Step, ExactDay, WithinLimit;
      StepStaysExact(Run(s, before), calls[|calls| - 1], Last(before, begin));
    }
  }

  /** What today's limit still leaves beside everything paid today. */
  ghost function RoomToday(b: Books, now: u32): int {
    b.state.limit - PaidOnDay(b.payouts, now / DAY)
  }

  /**
    In a run from the first limited day on, a claim or collection covers what is due as far as the
    limit leaves room beside everything paid today, and goes through exactly when the pool has that.
   */
  lemma {:induction false} LimitedPaysAllItCan(s: State, calls: seq<Call>, begin: u32, user: Address, now: u32)
    requires Limited(s, begin) && s.tracker == None && InOrder(calls, begin) && Last(calls, begin) <= now
    ensures var b := Run(s, calls);
            var claimed, collected := Min(AccruedBy(b.state, user), RoomToday(b, now)),
                                      Min(DeferredOf(b.state, user), RoomToday(b, now));
            && 0 <= RoomToday(b, now)
            && (0 < AccruedBy(b.state, user) ==>
                  && (Claim(b.state, user, now).Ok? <==> claimed <= b.state.pool)
                  && (Claim(b.state, user, now).Ok? ==> Claim(b.state, user, now).value.1 == claimed))
            && (ClaimDeferred(b.state, user, now).Ok? <==> 0 < DeferredOf(b.state, user) && collected <= b.state.pool)
            && (ClaimDeferred(b.state, user, now).Ok? ==> ClaimDeferred(b.state, user, now).value.1 == collected)
  {
    var b := Run(s, calls);
    RunStaysExact(s, calls, begin);
    DailyLimitHolds(s, calls, begin);
    TodayIsExact(b, now, Last(calls, begin));
    assert PaidOnDay(b.payouts, now / DAY) <= s.limit;
    assert Sound(b.state);
    TodayIsAccounted(b, now, Last(calls, begin));
    hide Run, CurrentTracker, PaidOnDay, WithinLimit, ExactDay, DayStart;
  }

  // ---------- Any 24 hours ----------

  lemma {:induction false} StretchMeetsTwoDays(payouts: seq<Payment>, start: int, today: nat)
    requires NonNegative(payouts) && today * DAY <= start < today * DAY + DAY
    ensures PaidDuring(payouts, start, DAY) <= PaidOnDay(payouts, today) + PaidOnDay(payouts, today + 1)
  {
    if payouts != [] {
      Distribute(DAY, today, 1);
      StretchMeetsTwoDays(payouts[..|payouts| - 1], start, today);
    }
  }

  lemma {:induction false} BeforeTheFirstDay(payouts: seq<Payment>, start: int)
    requires NonNegative(payouts) && start < 0
    ensures PaidDuring(payouts, start, DAY) <= PaidOnDay(payouts, 0)
  {
    if payouts != [] {
      BeforeTheFirstDay(payouts[..|payouts| - 1], start);
    }
  }

  /** A stretch of 24 hours may span two calendar days: any run pays at most twice the limit in it. */
  lemma {:induction false} AtMostTwicePer24Hours(s: State, calls: seq<Call>, begin: u32, start: int)
    requires Limited(s, begin) && InOrder(calls, begin)
    ensures PaidDuring(Run(s, calls).payouts, start, DAY) <= 2 * s.limit
  {
    var payouts := Run(s, calls).payouts;
    DailyLimitHolds(s, calls, begin);
    PayoutsInOrder(s, calls, begin);
    assert PaidOnDay(payouts, 0) <= s.limit;
    if start < 0 {
      BeforeTheFirstDay(payouts, start);
    } else {
      var today := start / DAY;
      FloorBounds(start, DAY);
      FloorMonotone(0, start, DAY);
      StretchMeetsTwoDays(payouts, start, today);
      assert PaidOnDay(payouts, today) <= s.limit && PaidOnDay(payouts, today + 1) <= s.limit;
    }
  }

  /** What a call under a limit pays, judged before it: what is due, up to today's headroom. */
  ghost function Due(s: State, call: Call): int {
    match call.op
    case ClaimOp(user) => Min(AccruedBy(s, user), Headroom(s, call.now))
    case ClaimDeferredOp(user) => Min(DeferredOf(s, user), Headroom(s, call.now))
    case _ => 0
  }

  /** The call is a claim or collection that goes through, if only to record a payout of zero. */
  ghost predicate Pays(s: State, call: Call) {
    match call.op
    case ClaimOp(user) => Claim(s, user, call.now).Ok? && 0 < AccruedBy(s, user)
    case ClaimDeferredOp(user) => ClaimDeferred(s, user, call.now).Ok? && 0 < Due(s, call)
    case _ => false
  }

  lemma {:induction false} StepPays(b: Books, call: Call)
    requires Sound(b.state) && 0 < b.state.limit
    ensures Step(b, call).payouts
         == if Pays(b.state, call) then b.payouts + [Payment(call.now, Due(b.state, call))] else b.payouts
    ensures 0 <= Due(b.state, call) || !Pays(b.state, call)
  {
    hide CurrentTracker;
  }

  /** If the call pays, then no more than the 24 hours ending with it leave of the limit. */
  ghost predicate Fits24Hours(b: Books, call: Call) {
    Pays(b.state, call) ==> Due(b.state, call) <= b.state.limit - Trailing(b.payouts, DAY, call.now)
  }

  lemma {:induction false} StepFits(b: Books, call: Call, before: int)
    requires Sound(b.state) && 0 < b.state.limit && Recorded(b.payouts, before) && before <= call.now
    ensures EveryStretchWithin(Step(b, call).payouts, DAY, b.state.limit)
            <==> EveryStretchWithin(b.payouts, DAY, b.state.limit) && Fits24Hours(b, call)
  {
    hide Step, Pays, Due, EveryStretchWithin, Trailing;
    StepPays(b, call);
    if Pays(b.state, call) {
      TrailingDecides(b.payouts, Payment(call.now, Due(b.state, call)), DAY, b.state.limit);
    }
  }

  ghost predicate AllFit24Hours(s: State, calls: seq<Call>) {
    forall i :: 0 <= i < |calls| ==> Fits24Hours(Run(s, calls[..i]), calls[i])
  }

  lemma {:induction false} AllFitExtends(s: State, calls: seq<Call>)
    requires calls != []
    ensures var before := calls[..|calls| - 1];
            AllFit24Hours(s, calls)
            <==> AllFit24Hours(s, before) && Fits24Hours(Run(s, before), calls[|calls| - 1])
  {
    hide Fits24Hours, Run;
    var before := calls[..|calls| - 1];
    forall i | 0 <= i < |before|
      ensures Fits24Hours(Run(s, before[..i]), before[i]) == Fits24Hours(Run(s, calls[..i]), calls[i])
    {
      assert before[..i] == calls[..i];
    }
    if AllFit24Hours(s, calls) {
      assert Fits24Hours(Run(s, calls[..|before|]), calls[|before|]);
    }
  }

  /** Any 24 hours of a run stay within the limit exactly when no call pays more than the 24 hours up to it leave. */
  lemma {:induction false} Within24HoursExactlyWhen(s: State, calls: seq<Call>, begin: u32)
    requires Limited(s, begin) && InOrder(calls, begin)
    ensures EveryStretchWithin(Run(s, calls).payouts, DAY, s.limit) <==> AllFit24Hours(s, calls)
  {
    if calls != [] {
      var before := calls[..|calls| - 1];
      Within24HoursExactlyWhen(s, before, begin);
      DailyLimitHolds(s, before, begin);
      PayoutsInOrder(s, before, begin);
      AllFitExtends(s, calls);
      hide Step, Fits24Hours, AllFit24Hours, EveryStretchWithin, Recorded;
      StepFits(Run(s, before), calls[|calls| - 1], Last(before, begin));
    }
  }

  lemma {:induction false} PayoutsInOrder(s: State, calls: seq<Call>, begin: u32)
    requires Sound(s) && InOrder(calls, begin)
    ensures Recorded(Run(s, calls).payouts, Last(calls, begin))
  {
    if calls != [] {
      var before, call := calls[..|calls| - 1], calls[|calls| - 1];
      PayoutsInOrder(s, before, begin);
      NothingIsLost(s, before);
      hide Step, Recorded;
      StepPaysInOrder(Run(s, before), call, Last(before, begin));
    }
  }

  lemma {:induction false} StepPaysInOrder(b: Books, call: Call, before: int)
    requires Sound(b.state) && Recorded(b.payouts, before) && before <= call.now
    ensures Recorded(Step(b, call).payouts, call.now)
  {
    var s := b.state;
    RecordedLater(b.payouts, before, call.now, 0);
    hide Recorded, Sound, Claim, ClaimDeferred;
    match call.op
    case Earn(_, _) =>
    case Fund(_) =>
    case ClaimOp(user) =>
      if Claim(s, user, call.now).Ok? {
        ClaimConserves(s, user, call.now);
        RecordedLater(b.payouts, before, call.now, Claim(s, user, call.now).value.1);
      }
    case ClaimDeferredOp(user) =>
      if ClaimDeferred(s, user, call.now).Ok? {
        ClaimDeferredConserves(s, user, call.now);
        RecordedLater(b.payouts, before, call.now, ClaimDeferred(s, user, call.now).value.1);
      }
  }

  /** User 0 earns the whole limit, the pool being funded for it, and claims it. */
  ghost function WithFullDay(calls: seq<Call>, limit: i128, now: u32): seq<Call> {
    calls + [Call(Fund(limit), now)] + [Call(Earn(0, limit), now)] + [Call(ClaimOp(0), now)]
  }

  /** The whole limit at the end of one day and again at the start of the next. */
  ghost function Midnight(limit: i128): seq<Call> {
    WithFullDay(WithFullDay([], limit, DAY - 1), limit, DAY)
  }

  lemma {:induction false} RunAppend(s: State, calls: seq<Call>, call: Call)
    ensures Run(s, calls + [call]) == Step(Run(s, calls), call)
  {
    assert (calls + [call])[..|calls|] == calls;
  }

  ghost predicate AllPaid(s: State, limit: i128) {
    s.limit == limit && s.pool == 0 && AccruedBy(s, 0) == 0 && DeferredOf(s, 0) == 0
  }

  /** Two ledgers around midnight pay out twice the limit, whatever the limit. */
  lemma {:induction false} TwiceAroundMidnight(limit: i128)
    requires 0 < limit
    ensures InOrder(Midnight(limit), 0)
    ensures PaidDuring(Run(Fresh(limit), Midnight(limit)).payouts, DAY - 1, 2) == 2 * limit
  {
    assert Run(Fresh(limit), []) == Opening(Fresh(limit));
    var evening := Run(Fresh(limit), WithFullDay([], limit, DAY - 1));
    hide Run, PaidDuring, WithFullDay;
    FullDay([], limit, DAY - 1);
    assert evening.state.tracker == Some(Tracker(0, limit));
    FullDay(WithFullDay([], limit, DAY - 1), limit, DAY);
    assert Run(Fresh(limit), Midnight(limit)).payouts == [] + [Payment(DAY - 1, limit)] + [Payment(DAY, limit)];
    TwicePaid(limit);
    MidnightInOrder(limit);
  }

  lemma {:induction false} MidnightInOrder(limit: i128)
    ensures InOrder(Midnight(limit), 0)
  {
  }

  lemma {:induction false} TwicePaid(limit: i128)
    ensures PaidDuring([] + [Payment(DAY - 1, limit)] + [Payment(DAY, limit)], DAY - 1, 2) == 2 * limit
  {
    PaidAppend([], Payment(DAY - 1, limit), DAY - 1, DAY + 1);
    PaidAppend([] + [Payment(DAY - 1, limit)], Payment(DAY, limit), DAY - 1, DAY + 1);
  }

  lemma {:induction false} FullDay(calls: seq<Call>, limit: i128, now: u32)
    requires 0 < limit && AllPaid(Run(Fresh(limit), calls).state, limit)
    requires CurrentTracker(Run(Fresh(limit), calls).state.tracker, now).outflow == 0
    ensures var before, after := Run(Fresh(limit), calls), Run(Fresh(limit), WithFullDay(calls, limit, now));
            && after.payouts == before.payouts + [Payment(now, limit)]
            && AllPaid(after.state, limit) && after.state.tracker == Charged(before.state, now, limit)
  {
    var fund, earn, claim := Call(Fund(limit), now), Call(Earn(0, limit), now), Call(ClaimOp(0), now);
    FullPayout(Run(Fresh(limit), calls), limit, now);
    hide Step, Run, Charged, CurrentTracker;
    RunAppend(Fresh(limit), calls, fund);
    RunAppend(Fresh(limit), calls + [fund], earn);
    RunAppend(Fresh(limit), calls + [fund] + [earn], claim);
  }

  /** With today's headroom untouched and nothing else pending, a reward of the whole limit is paid in full. */
  lemma {:induction false} FullPayout(b: Books, limit: i128, now: u32)
    requires 0 < limit && AllPaid(b.state, limit) && CurrentTracker(b.state.tracker, now).outflow == 0
    ensures var after := Step(Step(Step(b, Call(Fund(limit), now)), Call(Earn(0, limit), now)), Call(ClaimOp(0), now));
            && after.payouts == b.payouts + [Payment(now, limit)]
            && AllPaid(after.state, limit) && after.state.tracker == Charged(b.state, now, limit)
  {
    hide CurrentTracker;
    var funded := Step(b, Call(Fund(limit), now));
    var earned := Step(funded, Call(Earn(0, limit), now));
    assert earned.state.pool == limit && AccruedBy(earned.state, 0) == limit && earned.state.tracker == b.state.tracker;
    assert Headroom(earned.state, now) == limit;
  }

  // ---------- Conservation over runs ----------

  /** What a user earned and was neither paid nor is still owed. */
  ghost function Lost(b: Books, user: Address): int {
    Lookup(b.earned, user) - Lookup(b.paid, user) - Owed(b.state, user)
  }

  /** A limited claim that goes through and leaves more owed than the bucket can hold. */
  ghost predicate Overflows(s: State, call: Call, user: Address) {
    && call.op == ClaimOp(user) && Claim(s, user, call.now).Ok? && s.limit != 0
    && Headroom(s, call.now) < AccruedBy(s, user) && Owed(s, user) - Headroom(s, call.now) > I128_MAX
  }

  lemma {:induction false} StepLoses(b: Books, call: Call, user: Address)
    requires Sound(b.state)
    ensures var after := Step(b, call);
            && Sound(after.state)
            && after.state.pool + after.paidOut - after.funded == b.state.pool + b.paidOut - b.funded
            && Lost(after, user) >= Lost(b, user)
            && (Lost(after, user) == Lost(b, user) <==> !Overflows(b.state, call, user))
  {
    var s := b.state;
    match call.op
    case Earn(_, _) =>
      EarnLosesNothing(b, call, user);
    case Fund(_) =>
    case ClaimOp(u) =>
      hide Claim, Sound, Overflows, Lost, Pay;
      if Claim(s, u, call.now).Ok? && AccruedBy(s, u) > 0 {
        ClaimLoses(b, u, call.now, user);
      } else {
        NothingToOverflow(s, call, user);
      }
    case ClaimDeferredOp(u) =>
      hide ClaimDeferred, Sound, Lost, Pay;
      if ClaimDeferred(s, u, call.now).Ok? {
        CollectLoses(b, u, call.now, user);
      }
  }

  lemma {:induction false} NothingToOverflow(s: State, call: Call, user: Address)
    requires AccruedBy(s, user) <= 0 || call.op != ClaimOp(user) || Claim(s, user, call.now).Err?
    ensures !Overflows(s, call, user)
  {
    HeadroomIsNonNegative(s, call.now);
    hide Headroom;
  }

  lemma {:induction false} CollectLoses(b: Books, payee: Address, now: u32, user: Address)
    requires Sound(b.state) && ClaimDeferred(b.state, payee, now).Ok?
    ensures var (paidState, amount) := ClaimDeferred(b.state, payee, now).value;
            var after := Pay(b, paidState, payee, amount, now);
            && Sound(after.state)
            && after.state.pool + after.paidOut - after.funded == b.state.pool + b.paidOut - b.funded
            && Lost(after, user) == Lost(b, user)
  {
    var (after, amount) := ClaimDeferred(b.state, payee, now).value;
    hide ClaimDeferred, Sound, AccruedBy, DeferredOf, Lost;
    ClaimDeferredConserves(b.state, payee, now);
    PayLoses(b, after, payee, amount, now, user);
  }

  lemma {:induction false} HeadroomIsNonNegative(s: State, now: u32)
    ensures 0 <= Headroom(s, now)
  {
  }

  lemma {:induction false} ClaimLoses(b: Books, payee: Address, now: u32, user: Address)
    requires Sound(b.state) && Claim(b.state, payee, now).Ok? && 0 < AccruedBy(b.state, payee)
    ensures var (paidState, amount) := Claim(b.state, payee, now).value;
            var after := Pay(b, paidState, payee, amount, now);
            && Sound(after.state)
            && after.state.pool + after.paidOut - after.funded == b.state.pool + b.paidOut - b.funded
            && Lost(after, user) >= Lost(b, user)
            && (Lost(after, user) == Lost(b, user) <==> !Overflows(b.state, Call(ClaimOp(payee), now), user))
  {
    var (after, amount) := Claim(b.state, payee, now).value;
    hide Claim, Sound, Headroom, AccruedBy, DeferredOf, Lost;
    ClaimConserves(b.state, payee, now);
    PayLoses(b, after, payee, amount, now, user);
  }

  lemma {:induction false} EarnLosesNothing(b: Books, call: Call, user: Address)
    requires Sound(b.state) && call.op.Earn?
    ensures Sound(Step(b, call).state) && Lost(Step(b, call), user) == Lost(b, user)
    ensures Step(b, call).state.pool == b.state.pool && Step(b, call).paidOut == b.paidOut
    ensures Step(b, call).funded == b.funded
  {
  }

  lemma {:induction false} PayLoses(b: Books, after: State, payee: Address, amount: int, now: u32, user: Address)
    requires user != payee ==> Owed(after, user) == Owed(b.state, user)
    ensures Lost(Pay(b, after, payee, amount, now), user)
         == Lost(b, user) + if user == payee then Owed(b.state, payee) - amount - Owed(after, payee) else 0
    ensures Pay(b, after, payee, amount, now).state == after
    ensures Pay(b, after, payee, amount, now).paidOut == b.paidOut + amount
    ensures Pay(b, after, payee, amount, now).funded == b.funded
  {
    hide Owed;
  }

  ghost predicate NeverOverflows(s: State, calls: seq<Call>, user: Address) {
    forall i :: 0 <= i < |calls| ==> !Overflows(Run(s, calls[..i]).state, calls[i], user)
  }

  lemma {:induction false} NeverOverflowsExtends(s: State, calls: seq<Call>, user: Address)
    requires calls != []
    ensures var before, call := calls[..|calls| - 1], calls[|calls| - 1];
            NeverOverflows(s, calls, user)
            <==> NeverOverflows(s, before, user) && !Overflows(Run(s, before).state, call, user)
  {
    hide Overflows, Run;
    var before := calls[..|calls| - 1];
    forall i | 0 <= i < |before|
      ensures Overflows(Run(s, before[..i]).state, before[i], user)
              == Overflows(Run(s, calls[..i]).state, calls[i], user)
    {
      assert before[..i] == calls[..i];
    }
    if NeverOverflows(s, calls, user) {
      assert !Overflows(Run(s, calls[..|before|]).state, calls[|before|], user);
    }
  }

  /**
    Over any run, limited or not, the pool falls by exactly what is paid, and of what a user
    earned nothing is lost if and only if none of their claims overflowed the bucket.
   */
  lemma {:induction false} LossExactlyWhen(s: State, calls: seq<Call>, user: Address)
    requires Sound(s)
    ensures var after := Run(s, calls);
            && Sound(after.state) && after.state.pool + after.paidOut == after.funded
            && 0 <= Lost(after, user)
            && (Lost(after, user) == 0 <==> NeverOverflows(s, calls, user))
  {
    if calls == [] {
      OpeningConserved(s);
    } else {
      hide Sound, Lost, Step, Overflows;
      var before := calls[..|calls| - 1];
      LossExactlyWhen(s, before, user);
      NeverOverflowsExtends(s, calls, user);
      StepLoses(Run(s, before), calls[|calls| - 1], user);
    }
  }

  ghost predicate Conserved(b: Books) {
    && Sound(b.state)
    && b.state.pool + b.paidOut == b.funded
    && (forall u :: 0 <= Lookup(b.paid, u) && 0 <= Lost(b, u))
    && (forall u :: Lookup(b.earned, u) <= I128_MAX ==> Lost(b, u) == 0)
  }

  lemma {:induction false} OpeningConserved(s: State)
    requires Sound(s)
    ensures Conserved(Opening(s)) && forall u :: Lost(Opening(s), u) == 0
  {
    forall u ensures Lost(Opening(s), u) == 0 {
      assert u in Opening(s).earned <==> u in s.accrued || u in s.deferred;
    }
  }

  lemma {:induction false} StepConserves(b: Books, call: Call)
    requires Conserved(b)
    ensures Conserved(Step(b, call))
  {
    forall u
      ensures 0 <= Lookup(Step(b, call).paid, u) && 0 <= Lost(Step(b, call), u)
      ensures Lookup(Step(b, call).earned, u) <= I128_MAX ==> Lost(Step(b, call), u) == 0
    {
      StepRecords(b, call, u);
      StepLoses(b, call, u);
      assert 0 <= Lookup(b.paid, u) && 0 <= Lost(b, u);
    }
    StepLoses(b, call, 0);
  }

  /** Records only grow, and a claim that overflows had more owed than fits the integer. */
  lemma {:induction false} StepRecords(b: Books, call: Call, user: Address)
    requires Sound(b.state)
    ensures Lookup(b.paid, user) <= Lookup(Step(b, call).paid, user)
    ensures Lookup(b.earned, user) <= Lookup(Step(b, call).earned, user)
    ensures Overflows(b.state, call, user) ==> Owed(b.state, user) > I128_MAX
  {
    var s := b.state;
    HeadroomIsNonNegative(s, call.now);
    match call.op
    case Earn(_, _) =>
    case Fund(_) =>
    case ClaimOp(u) =>
      hide Claim, Sound, Headroom;
      if Claim(s, u, call.now).Ok? {
        ClaimConserves(s, u, call.now);
      }
    case ClaimDeferredOp(u) =>
      hide ClaimDeferred, Sound, Headroom;
      if ClaimDeferred(s, u, call.now).Ok? {
        ClaimDeferredConserves(s, u, call.now);
      }
  }

  /**
    Over any run, limited or not: what a user accrued, has deferred and was paid adds up to
    what they earned (as long as that fits the integer), and the pool falls by exactly what is paid.
   */
  lemma {:induction false} NothingIsLost(s: State, calls: seq<Call>)
    requires Sound(s)
    ensures Conserved(Run(s, calls))
  {
    if calls == [] {
      OpeningConserved(s);
    } else {
      hide Conserved, Step;
      NothingIsLost(s, calls[..|calls| - 1]);
      StepConserves(Run(s, calls[..|calls| - 1]), calls[|calls| - 1]);
    }
  }

  /** With the day used up, user 0 fills the bucket but for one unit, and then earns five more. */
  ghost function Overfill(limit: i128): seq<Call> {
    WithDeferral(WithDeferral(WithFullDay([], limit, 0), I128_MAX - 1), 5)
  }

  ghost function WithDeferral(calls: seq<Call>, amount: i128): seq<Call> {
    calls + [Call(Earn(0, amount), 0)] + [Call(ClaimOp(0), 0)]
  }

  /** A full bucket loses rewards under every limit: of the five one still fits, and four are gone. */
  lemma {:induction false} FullBucketLoses(limit: i128)
    requires 0 < limit
    ensures InOrder(Overfill(limit), 0)
    ensures Lost(Run(Fresh(limit), Overfill(limit)), 0) == 4
  {
    OverfillInOrder(limit);
    assert Run(Fresh(limit), []) == Opening(Fresh(limit));
    hide Run, WithFullDay, WithDeferral, Lost;
    var full := WithFullDay([], limit, 0);
    FullDay([], limit, 0);
    assert Run(Fresh(limit), full).state.tracker == Some(Tracker(0, limit));
    FullDayLosesNothing(limit);
    DefersAll(full, limit, I128_MAX - 1);
    DefersAll(WithDeferral(full, I128_MAX - 1), limit, 5);
  }

  lemma {:induction false} OverfillInOrder(limit: i128)
    ensures InOrder(Overfill(limit), 0)
  {
  }

  lemma {:induction false} FullDayLosesNothing(limit: i128)
    requires 0 < limit
    ensures Lost(Run(Fresh(limit), WithFullDay([], limit, 0)), 0) == 0
  {
    NothingIsLost(Fresh(limit), WithFullDay([], limit, 0));
    EarnedInFull(limit);
  }

  lemma {:induction false} EarnedInFull(limit: i128)
    requires 0 < limit
    ensures Lookup(Run(Fresh(limit), WithFullDay([], limit, 0)).earned, 0) == limit
  {
    var fund, earn, claim := Call(Fund(limit), 0), Call(Earn(0, limit), 0), Call(ClaimOp(0), 0);
    RunAppend(Fresh(limit), [], fund);
    RunAppend(Fresh(limit), [] + [fund], earn);
    RunAppend(Fresh(limit), [] + [fund] + [earn], claim);
    assert Run(Fresh(limit), []) == Opening(Fresh(limit));
    hide Run, Claim;
  }

  /** With the day used up, a claim pays nothing and defers all it has room for. */
  lemma {:induction false} DefersAll(calls: seq<Call>, limit: i128, amount: i128)
    requires 0 < limit && 0 < amount
    requires var s := Run(Fresh(limit), calls).state;
             s.limit == limit && s.tracker == Some(Tracker(0, limit)) && AccruedBy(s, 0) == 0 && 0 <= DeferredOf(s, 0)
    ensures var before, after := Run(Fresh(limit), calls), Run(Fresh(limit), WithDeferral(calls, amount));
            && after.state.limit == limit && after.state.tracker == Some(Tracker(0, limit))
            && AccruedBy(after.state, 0) == 0
            && DeferredOf(after.state, 0) == SatAdd(DeferredOf(before.state, 0), amount)
            && Lost(after, 0) == Lost(before, 0) + DeferredOf(before.state, 0) + amount - DeferredOf(after.state, 0)
  {
    var earn, claim := Call(Earn(0, amount), 0), Call(ClaimOp(0), 0);
    RunAppend(Fresh(limit), calls, earn);
    RunAppend(Fresh(limit), calls + [earn], claim);
    hide Run;
    DefersAllSteps(Run(Fresh(limit), calls), limit, amount);
  }

  lemma {:induction false} DefersAllSteps(b: Books, limit: i128, amount: i128)
    requires 0 < limit && 0 < amount && b.state.limit == limit && b.state.tracker == Some(Tracker(0, limit))
    requires AccruedBy(b.state, 0) == 0 && 0 <= DeferredOf(b.state, 0)
    ensures var after := Step(Step(b, Call(Earn(0, amount), 0)), Call(ClaimOp(0), 0));
            && after.state.limit == limit && after.state.tracker == Some(Tracker(0, limit))
            && AccruedBy(after.state, 0) == 0
            && DeferredOf(after.state, 0) == SatAdd(DeferredOf(b.state, 0), amount)
            && Lost(after, 0) == Lost(b, 0) + DeferredOf(b.state, 0) + amount - DeferredOf(after.state, 0)
  {
    var earned := Step(b, Call(Earn(0, amount), 0));
    assert AccruedBy(earned.state, 0) == amount && DeferredOf(earned.state, 0) == DeferredOf(b.state, 0);
    assert Headroom(earned.state, 0) == 0;
  }

  // ---------- Storage ----------

  class VelocityLimiter {
    var limit: i128
    var tracker: Option<Tracker>
    var accrued: map<Address, i128>
    var deferred: map<Address, i128>
    var pool: i128

    ghost function View(): State
      reads this
    {
      State(limit, tracker, accrued, deferred, pool)
    }

    constructor ()
      ensures View() == Fresh(0) && Sound(View())
    {
      limit, tracker, accrued, deferred, pool := 0, None, map[], map[], 0;
    }

    method SetDailyVelocityLimit(maxPerDay: i128) returns (r: Result<(), Error>)
      modifies this`limit
      ensures maxPerDay < 0 ==> r == Err(ZeroAmount) && limit == old(limit)
      ensures maxPerDay >= 0 ==> r == Ok(()) && limit == maxPerDay
    {
      if maxPerDay < 0 {
        return Err(ZeroAmount);
      }
      limit := maxPerDay;
      return Ok(());
    }

    method TransferReward(amount: i128) returns (r: Result<(), Error>)
      requires 0 <= amount
      modifies this`pool
      ensures r.Ok? <==> amount <= old(pool)
      ensures r.Ok? ==> pool == old(pool) - amount
      ensures r.Err? ==> r == Err(InsufficientRewardPool) && pool == old(pool)
    {
      if pool < amount {
        return Err(InsufficientRewardPool);
      }
      pool := pool - amount;
      return Ok(());
    }

    method ClaimWithDailyVelocityLimit(user: Address, now: u32) returns (r: Result<i128, Error>)
      requires Sound(View())
      modifies this
      ensures Sound(View())
      ensures match Claim(old(View()), user, now)
              case Ok((after, paid)) => r == Ok(paid) && View() == after
              case Err(e) => r == Err(e) && View() == old(View())
    {
      hide CurrentTracker, Sound;
      ghost var before := View();
      var amount: int := if user in accrued then accrued[user] else 0;
      if amount <= 0 {
        return Ok(0);
      }
      if limit == 0 {
        var sent := TransferReward(amount);
        if sent.Err? {
          return Err(sent.error);
        }
        accrued := accrued[user := 0];
        ClaimConserves(before, user, now);
        return Ok(amount);
      }
      var today := CurrentTracker(tracker, now);
      var remaining := Max(SatSub(limit, today.outflow), 0);
      var payable := Min(amount, remaining);
      var deferredAmount := amount - payable;
      if payable > 0 {
        var sent := TransferReward(payable);
        if sent.Err? {
          return Err(sent.error);
        }
        today := today.(outflow := SatAdd(today.outflow, payable));
      }
      accrued := accrued[user := 0];
      tracker := Some(today);
      if deferredAmount > 0 {
        var existing := if user in deferred then deferred[user] else 0;
        deferred := deferred[user := SatAdd(existing, deferredAmount)];
      }
      ClaimConserves(before, user, now);
      return Ok(payable);
    }

    method ClaimDeferredDailyReward(user: Address, now: u32) returns (r: Result<i128, Error>)
      requires Sound(View())
      modifies this
      ensures Sound(View())
      ensures match ClaimDeferred(old(View()), user, now)
              case Ok((after, paid)) => r == Ok(paid) && View() == after
              case Err(e) => r == Err(e) && View() == old(View())
    {
      hide CurrentTracker, Sound;
      ghost var before := View();
      if user !in deferred {
        return Err(NothingToWithdraw);
      }
      var amount: int := deferred[user];
      var today := CurrentTracker(tracker, now);
      var remaining: int := if limit == 0 then amount else Max(SatSub(limit, today.outflow), 0);
      var payable := Min(amount, remaining);
      if payable <= 0 {
        return Ok(0);
      }
      var sent := TransferReward(payable);
      if sent.Err? {
        return Err(sent.error);
      }
      var leftover := amount - payable;
      if leftover > 0 {
        deferred := deferred[user := leftover];
      } else {
        deferred := deferred - {user};
      }
      if limit != 0 {
        tracker := Some(today.(outflow := SatAdd(today.outflow, payable)));
      }
      ClaimDeferredConserves(before, user, now);
      return Ok(payable);
    }
  }
}
