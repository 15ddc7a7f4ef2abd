/** Pool-wide cap on claimed rewards per epoch window, with deferral (src/epoch_reward_cap.rs). */
module EpochRewardCap {
  import opened Numeric
  import opened RollingWindow

  datatype Error = NotInitialized | ZeroAmount | InsufficientRewardPool | NothingToWithdraw | EpochNotFinalized

  datatype Config = Config(capPerEpoch: i128, epochLedgers: u32)

  datatype Deferred = Deferred(amount: i128, nextEpochStart: u32)

  datatype State = State(
    config: Option<Config>,
    tracker: Option<Window>,
    accrued: map<Address, i128>,
    deferred: map<Address, Deferred>,
    pool: i128)

  function AccruedBy(s: State, user: Address): i128 {
    if user in s.accrued then s.accrued[user] else 0
  }

  function DeferredOf(s: State, user: Address): i128 {
    if user in s.deferred then s.deferred[user].amount else 0
  }

  // ---------- Transitions; an error leaves the state as it was ----------

  function SetCap(s: State, cap: i128, epochLedgers: u32, now: u32): Result<State, Error> {
    if cap < 0 || epochLedgers == 0 then Err(ZeroAmount)
    else Ok(s.(config := Some(Config(cap, epochLedgers)), tracker := Some(Window(now, 0))))
  }

  function Queued(s: State, user: Address, amount: i128, nextEpochStart: u32): State {
    if amount <= 0 then s
    else s.(deferred := s.deferred[user := Deferred(SatAdd(DeferredOf(s, user), amount), nextEpochStart)])
  }

  /** What a claim may pay now: the accrued reward up to the headroom of the current window. */
  function Payable(s: State, user: Address, now: u32): i128
    requires s.config.Some?
  {
    var w := Current(s.tracker, s.config.value.epochLedgers, now);
    Min(AccruedBy(s, user), Max(SatSub(s.config.value.capPerEpoch, w.used), 0))
  }

  function Claim(s: State, user: Address, now: u32): Result<(State, i128), Error> {
    if s.config.None? then Err(NotInitialized)
    else if AccruedBy(s, user) <= 0 then Ok((s, 0))
    else
      var w := Current(s.tracker, s.config.value.epochLedgers, now);
      var payable := Payable(s, user, now);
      if payable > 0 && s.pool < payable then Err(InsufficientRewardPool)
      else
        var settled := s.(accrued := s.accrued[user := 0],
                          pool := s.pool - payable,
                          tracker := Some(Window(w.start, SatAdd(w.used, payable))));
        Ok((Queued(settled, user, AccruedBy(s, user) - payable,
                   SatAddU32(w.start, s.config.value.epochLedgers)), payable))
  }

  function ClaimDeferred(s: State, user: Address, now: u32): Result<(State, i128), Error> {
    if user !in s.deferred then Err(NothingToWithdraw)
    else if now < s.deferred[user].nextEpochStart then Err(EpochNotFinalized)
    else if s.pool < s.deferred[user].amount then Err(InsufficientRewardPool)
    else
      var amount := s.deferred[user].amount;
      var left: int := s.pool - amount;
      if !FitsI128(left) then Err(InsufficientRewardPool)
      else Ok((s.(deferred := s.deferred - {user}, pool := left), amount))
  }

  // ---------- Conservation ----------

  ghost predicate Sound(s: State) {
    && (forall u :: u in s.deferred ==> 0 < s.deferred[u].amount)
    && (s.tracker.Some? ==> 0 <= s.tracker.value.used)
    && (s.config.Some? ==> 0 <= s.config.value.capPerEpoch && 0 < s.config.value.epochLedgers)
    && 0 <= s.pool
  }

  ghost function Owed(s: State, user: Address): int { AccruedBy(s, user) + DeferredOf(s, user) }

  /**
    A claim takes what it pays out of the pool and leaves everyone else alone; what it pays
    plus what it leaves owed is what was owed, exactly when what is owed beyond the payable
    part fits the deferred bucket.
   */
  lemma {:induction false} ClaimConserves(s: State, user: Address, now: u32)
    requires Sound(s) && Claim(s, user, now).Ok?
    ensures var (after, paid) := Claim(s, user, now).value;
            && Sound(after) && 0 <= paid
            && after.pool == s.pool - paid
            && (forall u :: u != user ==> Owed(after, u) == Owed(s, u))
            && (0 < AccruedBy(s, user) ==> AccruedBy(after, user) == 0)
            && paid + Owed(after, user) <= Owed(s, user)
            && (paid + Owed(after, user) == Owed(s, user)
                <==> AccruedBy(s, user) <= 0 || Owed(s, user) - Payable(s, user, now) <= I128_MAX)
  {
  }

  lemma {:induction false} ClaimDeferredConserves(s: State, user: Address, now: u32)
    requires Sound(s) && ClaimDeferred(s, user, now).Ok?
    ensures var (after, paid) := ClaimDeferred(s, user, now).value;
            && Sound(after) && 0 < paid == DeferredOf(s, user) && DeferredOf(after, user) == 0
            && after.pool == s.pool - paid
            && paid + Owed(after, user) == Owed(s, user)
            && (forall u :: u != user ==> Owed(after, u) == Owed(s, u))
            && after.tracker == s.tracker && after.config == s.config
  {
  }

  /**
    What a claim defers, with the bucket it joins, can be collected exactly from the end of the
    window it was deferred from on, while the pool covers it.
   */
  lemma {:induction false} DeferredWaits(s: State, user: Address, now: u32, later: u32)
    requires Sound(s) && Claim(s, user, now).Ok? && 0 < AccruedBy(s, user)
    requires Payable(s, user, now) < AccruedBy(s, user)
    ensures var w := Current(s.tracker, s.config.value.epochLedgers, now);
            var after := Claim(s, user, now).value.0;
            var bucket := Min(DeferredOf(s, user) + AccruedBy(s, user) - Payable(s, user, now), I128_MAX);
            && DeferredOf(after, user) == bucket
            && (later < Min(w.start + s.config.value.epochLedgers, U32_MAX) ==>
                  ClaimDeferred(after, user, later) == Err(EpochNotFinalized))
            && (Min(w.start + s.config.value.epochLedgers, U32_MAX) <= later ==>
                  && (ClaimDeferred(after, user, later).Ok? <==> bucket <= after.pool)
                  && (bucket <= after.pool ==> ClaimDeferred(after, user, later).value.1 == bucket))
  {
    hide Current;
  }

  /**
    Queueing grows the user's bucket by the whole amount exactly when it has room, touches nobody
    else's, and holds all of it back, earlier deferrals included, until the new release ledger.
   */
  lemma {:induction false} QueuedIsHeldBack(s: State, user: Address, amount: i128, nextEpochStart: u32, now: u32)
    requires Sound(s) && 0 < amount
    ensures var after := Queued(s, user, amount, nextEpochStart);
            && Sound(after)
            && (Owed(after, user) == Owed(s, user) + amount <==> DeferredOf(s, user) + amount <= I128_MAX)
            && (forall u :: u != user ==> Owed(after, u) == Owed(s, u))
            && (now < nextEpochStart ==> ClaimDeferred(after, user, now) == Err(EpochNotFinalized))
            && (nextEpochStart <= now && ClaimDeferred(after, user, now).Ok? ==>
                  ClaimDeferred(after, user, now).value.1 == Min(DeferredOf(s, user) + amount, I128_MAX))
  {
  }

  // ---------- Runs under one configuration ----------

  datatype Op =
    | Earn(user: Address, amount: i128)
    | Fund(amount: i128)
    | ClaimOp(user: Address)
    | ClaimDeferredOp(user: Address)

  datatype Call = Call(op: Op, now: u32)

  /**
    The state with its record: every payment made through a capped claim, every payout of either
    kind, what each user earned and was paid, and what the pool was given and paid out.
   */
  datatype Books = Books(
    state: State, claims: seq<Payment>, payouts: seq<Payment>,
    earned: map<Address, int>, paid: map<Address, int>, funded: int, paidOut: int)

  /** A record that starts with `s`: what is owed counts as earned, what is in the pool as funded. */
  ghost function Opening(s: State): Books {
    Books(s, [], [], map u | u in s.accrued.Keys + s.deferred.Keys :: Owed(s, u), map[], s.pool, 0)
  }

  ghost function Pay(b: Books, after: State, user: Address, amount: int, now: u32): Books {
    b.(state := after, payouts := b.payouts + [Payment(now, amount)],
       paid := b.paid[user := Lookup(b.paid, user) + amount], paidOut := b.paidOut + amount)
  }

  ghost function Step(b: Books, call: Call): Books {
    var s := b.state;
    match call.op
    case Earn(user, amount) =>
      if 0 <= amount && FitsI128(AccruedBy(s, user) + amount)
      then b.(state := s.(accrued := s.accrued[user := AccruedBy(s, user) + amount]),
              earned := b.earned[user := Lookup(b.earned, user) + amount]) else b
    case Fund(amount) =>
      if 0 <= amount && FitsI128(s.pool + amount)
      then b.(state := s.(pool := s.pool + amount), funded := b.funded + amount) else b
    case ClaimOp(user) =>
      (match Claim(s, user, call.now)
       case Err(_) => b
       case Ok((after, amount)) =>
         if AccruedBy(s, user) <= 0 then b
         else Pay(b, after, user, amount, call.now).(claims := b.claims + [Payment(call.now, amount)]))
    case ClaimDeferredOp(user) =>
      (match ClaimDeferred(s, user, call.now)
       case Err(_) => b
       case Ok((after, amount)) => Pay(b, after, user, amount, call.now))
  }

  ghost function Run(b: Books, calls: seq<Call>): Books {
    if calls == [] then b else Step(Run(b, calls[..|calls| - 1]), calls[|calls| - 1])
  }

  /** Ledgers do not go back, nor before `start`. */
  ghost predicate InOrder(calls: seq<Call>, start: u32) {
    && (forall i :: 0 <= i < |calls| ==> start <= calls[i].now)
    && (forall i, j :: 0 <= i < j < |calls| ==> calls[i].now <= calls[j].now)
  }

  ghost predicate Bounded(b: Books, config: Config, now: int) {
    && Sound(b.state) && b.state.config == Some(config)
    && Accounts(b.state.tracker, b.claims, config.epochLedgers, config.capPerEpoch)
    && b.state.tracker.Some? && b.state.tracker.value.start <= now
    && b.state.tracker.value.used <= config.capPerEpoch
  }

  lemma {:induction false} StepStaysBounded(b: Books, call: Call, config: Config, before: int)
    requires Bounded(b, config, before) && before <= call.now
    ensures Bounded(Step(b, call), config, call.now)
  {
    var s := b.state;
    match call.op
    case Earn(user, amount) =>
      hide Accounts;
    case Fund(amount) =>
      hide Accounts;
    case ClaimOp(user) =>
      StaysBoundedLater(b, config, before, call.now);
      hide Bounded, Claim;
      if Claim(s, user, call.now).Ok? && AccruedBy(s, user) > 0 {
        ClaimStaysBounded(b, config, user, call.now, before);
      }
    case ClaimDeferredOp(user) =>
      hide Accounts, ClaimDeferred;
      if ClaimDeferred(s, user, call.now).Ok? {
        ClaimDeferredConserves(s, user, call.now);
      }
  }

  lemma {:induction false} StaysBoundedLater(b: Books, config: Config, before: int, now: int)
    requires Bounded(b, config, before) && before <= now
    ensures Bounded(b, config, now)
  {
    hide Accounts;
  }

  lemma {:induction false} ClaimStaysBounded(b: Books, config: Config, user: Address, now: u32, before: int)
    requires Bounded(b, config, before) && before <= now
    requires Claim(b.state, user, now).Ok? && AccruedBy(b.state, user) > 0
    ensures var (after, paid) := Claim(b.state, user, now).value;
            Bounded(Pay(b, after, user, paid, now).(claims := b.claims + [Payment(now, paid)]), config, now)
  {
    var s := b.state;
    assert s.tracker.value.used <= config.capPerEpoch;
    hide Accounts, Payable, Current, Claim;
    ClaimConserves(s, user, now);
    ClaimSpendsWindow(s, config, user, now);
    PayKeepsAccounts(s.tracker, b.claims, config.epochLedgers, config.capPerEpoch, now, Payable(s, user, now));
  }

  /** A capped claim pays within the window's allowance and charges it. */
  lemma {:induction false} ClaimSpendsWindow(s: State, config: Config, user: Address, now: u32)
    requires Sound(s) && s.config == Some(config) && Claim(s, user, now).Ok? && 0 < AccruedBy(s, user)
    requires s.tracker.Some? ==> s.tracker.value.start <= now && s.tracker.value.used <= config.capPerEpoch
    ensures var (after, paid) := Claim(s, user, now).value;
            var w := Current(s.tracker, config.epochLedgers, now);
            && 0 <= paid == Payable(s, user, now) && w.used + paid <= config.capPerEpoch
            && after.tracker == Some(Window(w.start, w.used + paid)) && w.start <= now
            && after.config == s.config
  {
  }

  lemma {:induction false} RunStaysBounded(b: Books, calls: seq<Call>, config: Config, start: u32)
    requires Bounded(b, config, start) && InOrder(calls, start)
    ensures Bounded(Run(b, calls), config, if calls == [] then start else calls[|calls| - 1].now)
  {
    if calls != [] {
      hide Bounded, Step;
      var before := calls[..|calls| - 1];
      RunStaysBounded(b, before, config, start);
      StepStaysBounded(Run(b, before), calls[|calls| - 1], config,
                       if before == [] then start else before[|before| - 1].now);
    }
  }

  /** After the cap is set, capped claims of any run pay at most twice the cap in any epoch-long stretch. */
  lemma {:induction false} AtMostTwiceTheCap(
      s: State, cap: i128, epochLedgers: u32, now: u32, calls: seq<Call>, start: int)
    requires Sound(s) && SetCap(s, cap, epochLedgers, now).Ok? && InOrder(calls, now)
    ensures var b := Opening(SetCap(s, cap, epochLedgers, now).value);
            PaidDuring(Run(b, calls).claims, start, epochLedgers) <= 2 * cap
  {
    var b := Opening(SetCap(s, cap, epochLedgers, now).value);
    NoPaymentsYet(b.state.tracker, epochLedgers, cap);
    RunStaysBounded(b, calls, Config(cap, epochLedgers), now);
  }

  // ---------- A claim pays all it can ----------

  lemma {:induction false} RunStaysExact(b: Books, calls: seq<Call>, config: Config, start: u32)
    requires Bounded(b, config, start) && Exact(b.state.tracker, b.claims) && InOrder(calls, start)
    ensures Exact(Run(b, calls).state.tracker, Run(b, calls).claims)
  {
    if calls != [] {
      var before := calls[..|calls| - 1];
      var last := if before == [] then start else before[|before| - 1].now;
      RunStaysExact(b, before, config, start);
      RunStaysBounded(b, before, config, start);
      hide Bounded, Exact, Step;
      StepStaysExact(Run(b, before), calls[|calls| - 1], config, last);
    }
  }

  lemma {:induction false} StepStaysExact(b: Books, call: Call, config: Config, before: int)
    requires Bounded(b, config, before) && Exact(b.state.tracker, b.claims) && before <= call.now
    ensures Exact(Step(b, call).state.tracker, Step(b, call).claims)
  {
    var s := b.state;
    hide Accounts, Exact, Payable, Current;
    if call.op.ClaimOp? && Claim(s, call.op.user, call.now).Ok? && AccruedBy(s, call.op.user) > 0 {
      ClaimSpendsWindow(s, config, call.op.user, call.now);
      PayKeepsExact(s.tracker, b.claims, config.epochLedgers, config.capPerEpoch, call.now,
                    Payable(s, call.op.user, call.now));
    } else if call.op.ClaimDeferredOp? && ClaimDeferred(s, call.op.user, call.now).Ok? {
      ClaimDeferredConserves(s, call.op.user, call.now);
    }
  }

  /**
    After any run from the setting of the cap, a claim covers the accrued reward as far as the cap
    leaves room beside the claims of its window, and goes through exactly when the pool has that.
   */
  lemma {:induction false} ClaimPaysAllItCan(
      s: State, cap: i128, epochLedgers: u32, now: u32, calls: seq<Call>, user: Address, later: u32)
    requires Sound(s) && SetCap(s, cap, epochLedgers, now).Ok? && InOrder(calls, now)
    requires (if calls == [] then now else calls[|calls| - 1].now) <= later
    requires 0 < AccruedBy(Run(Opening(SetCap(s, cap, epochLedgers, now).value), calls).state, user)
    ensures var b := Run(Opening(SetCap(s, cap, epochLedgers, now).value), calls);
            var w := Current(b.state.tracker, epochLedgers, later);
            var paid := Min(AccruedBy(b.state, user), cap - PaidSince(b.claims, w.start));
            && w.start <= later < w.start + epochLedgers && 0 <= paid
            && (Claim(b.state, user, later).Ok? <==> paid <= b.state.pool)
            && (Claim(b.state, user, later).Ok? ==> Claim(b.state, user, later).value.1 == paid)
  {
    var capped := Opening(SetCap(s, cap, epochLedgers, now).value);
    NoPaymentsYet(capped.state.tracker, epochLedgers, cap);
    RunStaysBounded(capped, calls, Config(cap, epochLedgers), now);
    RunStaysExact(capped, calls, Config(cap, epochLedgers), now);
    var b := Run(capped, calls);
    CurrentIsAccounted(b.state.tracker, b.claims, epochLedgers, cap, later);
    hide Accounts, Exact, Current, Run, Opening, SetCap, PaidSince;
  }

  // ---------- Nothing is lost, unless a bucket overflows ----------

  /** What a user earned and was neither paid nor is still owed. */
  ghost function Lost(b: Books, user: Address): int {
    Lookup(b.earned, user) - Lookup(b.paid, user) - Owed(b.state, user)
  }

  /** A claim that goes through and leaves more owed than the bucket can hold. */
  ghost predicate Overflows(s: State, call: Call, user: Address) {
    && call.op == ClaimOp(user) && Claim(s, user, call.now).Ok? && 0 < AccruedBy(s, user)
    && Owed(s, user) - Payable(s, user, call.now) > I128_MAX
  }

  lemma {:induction false} StepLoses(b: Books, call: Call, user: Address)
    requires Sound(b.state)
    ensures var after := Step(b, call);
            && Sound(after.state)
            && after.state.pool + after.paidOut - after.funded == b.state.pool + b.paidOut - b.funded
            && Lost(after, user) >= Lost(b, user)
            && (Lost(after, user) == Lost(b, user) <==> !Overflows(b.state, call, user))
  {
    var s := b.state;
    match call.op
    case Earn(_, _) =>
      EarnLosesNothing(b, call, user);
    case Fund(_) =>
    case ClaimOp(u) =>
      hide Claim, Sound, Payable, AccruedBy, Owed, Lost, Pay;
      if Claim(s, u, call.now).Ok? && 0 < AccruedBy(s, u) {
        ClaimLoses(b, u, call.now, user);
      }
    case ClaimDeferredOp(u) =>
      hide ClaimDeferred, Sound, Owed, Lost;
      if ClaimDeferred(s, u, call.now).Ok? {
        ClaimDeferredConserves(s, u, call.now);
        PayLoses(b, ClaimDeferred(s, u, call.now).value.0, u, ClaimDeferred(s, u, call.now).value.1, call.now, user);
      }
  }

  lemma {:induction false} ClaimLoses(b: Books, payee: Address, now: u32, user: Address)
    requires Sound(b.state) && Claim(b.state, payee, now).Ok? && 0 < AccruedBy(b.state, payee)
    ensures var (paidState, amount) := Claim(b.state, payee, now).value;
            var after := Pay(b, paidState, payee, amount, now).(claims := b.claims + [Payment(now, amount)]);
            && Sound(after.state)
            && after.state.pool + after.paidOut - after.funded == b.state.pool + b.paidOut - b.funded
            && Lost(after, user) >= Lost(b, user)
            && (Lost(after, user) == Lost(b, user) <==> !Overflows(b.state, Call(ClaimOp(payee), now), user))
  {
    var (after, amount) := Claim(b.state, payee, now).value;
    hide Claim, Sound, Payable, AccruedBy, Owed, Lost;
    ClaimConserves(b.state, payee, now);
    PayLoses(b, after, payee, amount, now, user);
    ClaimsDoNotMatter(Pay(b, after, payee, amount, now), b.claims + [Payment(now, amount)], user);
  }

  lemma {:induction false} EarnLosesNothing(b: Books, call: Call, user: Address)
    requires Sound(b.state) && call.op.Earn?
    ensures Sound(Step(b, call).state) && Lost(Step(b, call), user) == Lost(b, user)
    ensures Step(b, call).state.pool == b.state.pool && Step(b, call).paidOut == b.paidOut
    ensures Step(b, call).funded == b.funded
  {
  }

  lemma {:induction false} PayLoses(b: Books, after: State, payee: Address, amount: int, now: u32, user: Address)
    requires user != payee ==> Owed(after, user) == Owed(b.state, user)
    ensures Lost(Pay(b, after, payee, amount, now), user)
         == Lost(b, user) + if user == payee then Owed(b.state, payee) - amount - Owed(after, payee) else 0
  {
    hide Owed;
  }

  lemma {:induction false} ClaimsDoNotMatter(b: Books, claims: seq<Payment>, user: Address)
    ensures Lost(b.(claims := claims), user) == Lost(b, user)
  {
  }

  ghost predicate NeverOverflows(b: Books, calls: seq<Call>, user: Address) {
    forall i :: 0 <= i < |calls| ==> !Overflows(Run(b, calls[..i]).state, calls[i], user)
  }

  lemma {:induction false} NeverOverflowsExtends(b: Books, calls: seq<Call>, user: Address)
    requires calls != []
    ensures var before, call := calls[..|calls| - 1], calls[|calls| - 1];
            NeverOverflows(b, calls, user)
            <==> NeverOverflows(b, before, user) && !Overflows(Run(b, before).state, call, user)
  {
    hide Overflows, Run;
    var before := calls[..|calls| - 1];
    forall i | 0 <= i < |before|
      ensures Overflows(Run(b, before[..i]).state, before[i], user)
              == Overflows(Run(b, calls[..i]).state, calls[i], user)
    {
      assert before[..i] == calls[..i];
    }
    if NeverOverflows(b, calls, user) {
      assert !Overflows(Run(b, calls[..|before|]).state, calls[|before|], user);
    }
  }

  /**
    Over any run the pool falls by exactly what is paid, and of what a user earned nothing is
    lost if and only if none of their claims overflowed the bucket. What is lost stays lost.
   */
  lemma {:induction false} LossExactlyWhen(b: Books, calls: seq<Call>, user: Address)
    requires Sound(b.state)
    ensures var after := Run(b, calls);
            && Sound(after.state)
            && after.state.pool + after.paidOut - after.funded == b.state.pool + b.paidOut - b.funded
            && Lost(after, user) >= Lost(b, user)
            && (Lost(after, user) == Lost(b, user) <==> NeverOverflows(b, calls, user))
  {
    hide Sound, Lost, Step, Overflows;
    if calls != [] {
      var before := calls[..|calls| - 1];
      LossExactlyWhen(b, before, user);
      NeverOverflowsExtends(b, calls, user);
      StepLoses(Run(b, before), calls[|calls| - 1], user);
    }
  }

  ghost predicate Conserved(b: Books) {
    && Sound(b.state)
    && b.state.pool + b.paidOut == b.funded
    && (forall u :: 0 <= Lookup(b.paid, u) && 0 <= Lost(b, u))
    && (forall u :: Lookup(b.earned, u) <= I128_MAX ==> Lost(b, u) == 0)
  }

  lemma {:induction false} OpeningConserved(s: State)
    requires Sound(s)
    ensures Conserved(Opening(s))
  {
    forall u ensures Lost(Opening(s), u) == 0 {
      assert u in Opening(s).earned <==> u in s.accrued || u in s.deferred;
    }
  }

  lemma {:induction false} StepConserves(b: Books, call: Call)
    requires Conserved(b)
    ensures Conserved(Step(b, call))
  {
    forall u
      ensures 0 <= Lookup(Step(b, call).paid, u) && 0 <= Lost(Step(b, call), u)
      ensures Lookup(Step(b, call).earned, u) <= I128_MAX ==> Lost(Step(b, call), u) == 0
    {
      StepRecords(b, call, u);
      StepLoses(b, call, u);
      assert 0 <= Lookup(b.paid, u) && 0 <= Lost(b, u);
    }
    StepLoses(b, call, 0);
  }

  /** Records only grow, and a claim that overflows had more owed than fits the integer. */
  lemma {:induction false} StepRecords(b: Books, call: Call, user: Address)
    requires Sound(b.state)
    ensures Lookup(b.paid, user) <= Lookup(Step(b, call).paid, user)
    ensures Lookup(b.earned, user) <= Lookup(Step(b, call).earned, user)
    ensures Overflows(b.state, call, user) ==> Owed(b.state, user) > I128_MAX
  {
    var s := b.state;
    match call.op
    case Earn(_, _) =>
    case Fund(_) =>
    case ClaimOp(u) =>
      hide Claim, Sound;
      if Claim(s, u, call.now).Ok? && 0 < AccruedBy(s, u) {
        ClaimConserves(s, u, call.now);
        PayableIsNonNegative(s, u, call.now);
      }
    case ClaimDeferredOp(u) =>
      hide ClaimDeferred, Sound;
      if ClaimDeferred(s, u, call.now).Ok? {
        ClaimDeferredConserves(s, u, call.now);
      }
  }

  lemma {:induction false} PayableIsNonNegative(s: State, user: Address, now: u32)
    requires Claim(s, user, now).Ok? && 0 < AccruedBy(s, user)
    ensures s.config.Some? && 0 <= Payable(s, user, now)
  {
  }

  /**
    Over any run the pool falls by exactly what is paid, and what a user accrued, has deferred
    and was paid adds up to what they earned, as long as that fits the integer.
   */
  lemma {:induction false} NothingIsLost(s: State, calls: seq<Call>)
    requires Sound(s)
    ensures Conserved(Run(Opening(s), calls))
  {
    if calls == [] {
      OpeningConserved(s);
    } else {
      hide Conserved, Step;
      NothingIsLost(s, calls[..|calls| - 1]);
      StepConserves(Run(Opening(s), calls[..|calls| - 1]), calls[|calls| - 1]);
    }
  }

  // ---------- The cap bounds claims, not payouts ----------

  lemma {:induction false} StepPaysInOrder(b: Books, call: Call, before: int)
    requires Sound(b.state) && Recorded(b.payouts, before) && before <= call.now
    ensures Recorded(Step(b, call).payouts, call.now)
  {
    var s := b.state;
    RecordedLater(b.payouts, before, call.now, 0);
    hide Recorded, Sound, Claim, ClaimDeferred;
    match call.op
    case Earn(_, _) =>
    case Fund(_) =>
    case ClaimOp(user) =>
      if Claim(s, user, call.now).Ok? {
        ClaimConserves(s, user, call.now);
        RecordedLater(b.payouts, before, call.now, Claim(s, user, call.now).value.1);
      }
    case ClaimDeferredOp(user) =>
      if ClaimDeferred(s, user, call.now).Ok? {
        ClaimDeferredConserves(s, user, call.now);
        RecordedLater(b.payouts, before, call.now, ClaimDeferred(s, user, call.now).value.1);
      }
  }

  lemma {:induction false} PayoutsInOrder(s: State, calls: seq<Call>, start: u32)
    requires Sound(s) && InOrder(calls, start)
    ensures Recorded(Run(Opening(s), calls).payouts, if calls == [] then start else calls[|calls| - 1].now)
  {
    if calls != [] {
      var before := calls[..|calls| - 1];
      PayoutsInOrder(s, before, start);
      NothingIsLost(s, before);
      hide Step, Recorded, Opening;
      StepPaysInOrder(Run(Opening(s), before), calls[|calls| - 1],
                      if before == [] then start else before[|before| - 1].now);
    }
  }

  /** What a call under a cap pays, judged before it. */
  ghost function Due(s: State, call: Call): int
    requires s.config.Some?
  {
    match call.op
    case ClaimOp(user) => Payable(s, user, call.now)
    case ClaimDeferredOp(user) => DeferredOf(s, user)
    case _ => 0
  }

  /** The call is a claim or collection that goes through, if only to record a payout of zero. */
  ghost predicate Pays(s: State, call: Call) {
    match call.op
    case ClaimOp(user) => Claim(s, user, call.now).Ok? && 0 < AccruedBy(s, user)
    case ClaimDeferredOp(user) => ClaimDeferred(s, user, call.now).Ok?
    case _ => false
  }

  lemma {:induction false} StepPays(b: Books, call: Call)
    requires Sound(b.state) && b.state.config.Some?
    ensures Step(b, call).payouts
         == if Pays(b.state, call) then b.payouts + [Payment(call.now, Due(b.state, call))] else b.payouts
    ensures 0 <= Due(b.state, call) || !Pays(b.state, call)
  {
    hide Current;
  }

  /** If the call pays, then no more than the epoch-long stretch ending with it leaves of the cap. */
  ghost predicate FitsCap(b: Books, call: Call, config: Config) {
    b.state.config.Some? && Pays(b.state, call) ==>
      Due(b.state, call) <= config.capPerEpoch - Trailing(b.payouts, config.epochLedgers, call.now)
  }

  lemma {:induction false} StepFits(b: Books, call: Call, config: Config, before: int)
    requires Sound(b.state) && b.state.config == Some(config) && Recorded(b.payouts, before) && before <= call.now
    ensures EveryStretchWithin(Step(b, call).payouts, config.epochLedgers, config.capPerEpoch)
            <==> EveryStretchWithin(b.payouts, config.epochLedgers, config.capPerEpoch) && FitsCap(b, call, config)
  {
    hide Step, Pays, Due, EveryStretchWithin, Trailing;
    StepPays(b, call);
    if Pays(b.state, call) {
      TrailingDecides(b.payouts, Payment(call.now, Due(b.state, call)), config.epochLedgers, config.capPerEpoch);
    }
  }

  ghost predicate AllFitCap(b: Books, calls: seq<Call>, config: Config) {
    forall i :: 0 <= i < |calls| ==> FitsCap(Run(b, calls[..i]), calls[i], config)
  }

  lemma {:induction false} AllFitExtends(b: Books, calls: seq<Call>, config: Config)
    requires calls != []
    ensures var before := calls[..|calls| - 1];
            AllFitCap(b, calls, config)
            <==> AllFitCap(b, before, config) && FitsCap(Run(b, before), calls[|calls| - 1], config)
  {
    hide FitsCap, Run;
    var before := calls[..|calls| - 1];
    forall i | 0 <= i < |before|
      ensures FitsCap(Run(b, before[..i]), before[i], config) == FitsCap(Run(b, calls[..i]), calls[i], config)
    {
      assert before[..i] == calls[..i];
    }
    if AllFitCap(b, calls, config) {
      assert FitsCap(Run(b, calls[..|before|]), calls[|before|], config);
    }
  }

  /**
    From the setting of the cap on, claims and collections together stay within it in every
    epoch-long stretch exactly when no call pays more than the stretch ending with it leaves.
   */
  lemma {:induction false} WithinCapExactlyWhen(s: State, cap: i128, epochLedgers: u32, now: u32, calls: seq<Call>)
    requires Sound(s) && SetCap(s, cap, epochLedgers, now).Ok? && InOrder(calls, now)
    ensures var b := Opening(SetCap(s, cap, epochLedgers, now).value);
            EveryStretchWithin(Run(b, calls).payouts, epochLedgers, cap)
            <==> AllFitCap(b, calls, Config(cap, epochLedgers))
  {
    var capped := SetCap(s, cap, epochLedgers, now).value;
    NoPaymentsYet(capped.tracker, epochLedgers, cap);
    hide SetCap;
    RunFitsExactly(capped, Config(cap, epochLedgers), now, calls);
  }

  lemma {:induction false} RunFitsExactly(s: State, config: Config, start: u32, calls: seq<Call>)
    requires Bounded(Opening(s), config, start) && InOrder(calls, start)
    ensures EveryStretchWithin(Run(Opening(s), calls).payouts, config.epochLedgers, config.capPerEpoch)
            <==> AllFitCap(Opening(s), calls, config)
  {
    if calls != [] {
      var before := calls[..|calls| - 1];
      var last := if before == [] then start else before[|before| - 1].now;
      RunFitsExactly(s, config, start, before);
      RunStaysBounded(Opening(s), before, config, start);
      PayoutsInOrder(s, before, start);
      AllFitExtends(Opening(s), calls, config);
      hide Step, FitsCap, AllFitCap, EveryStretchWithin, Recorded, Opening, Accounts;
      StepFits(Run(Opening(s), before), calls[|calls| - 1], config, last);
    }
  }

  /** The window is used up, nothing is left in the pool, and users 1 to `k` wait for one unit each. */
  ghost predicate Waiting(s: State, config: Config, k: nat) {
    && s.config == Some(config) && s.tracker == Some(Window(0, config.capPerEpoch)) && s.pool == 0
    && (forall i :: 1 <= i <= k ==> i in s.deferred && s.deferred[i] == Deferred(1, config.epochLedgers))
    && (forall i :: k < i ==> i !in s.deferred)
    && (forall i :: 0 < i && i in s.accrued ==> s.accrued[i] == 0)
  }

  /** User 0 uses up the window, then users 1 to `k` earn one unit each and find it full. */
  ghost function Deferrals(cap: i128, k: nat): seq<Call> {
    if k == 0 then [] + [Call(Fund(cap), 0)] + [Call(Earn(0, cap), 0)] + [Call(ClaimOp(0), 0)]
    else Deferrals(cap, k - 1) + [Call(Earn(k, 1), 0)] + [Call(ClaimOp(k), 0)]
  }

  /** Users 1 to `k` collect in one ledger, the pool being topped up for each. */
  ghost function Collections(k: nat, epochLedgers: u32): seq<Call> {
    if k == 0 then []
    else [Call(Fund(1), epochLedgers)] + [Call(ClaimDeferredOp(k), epochLedgers)] + Collections(k - 1, epochLedgers)
  }

  ghost function FreshState(cap: i128, epochLedgers: u32): State
    requires 0 <= cap && 0 < epochLedgers
  {
    SetCap(State(None, None, map[], map[], 0), cap, epochLedgers, 0).value
  }

  ghost function Fresh(cap: i128, epochLedgers: u32): Books
    requires 0 <= cap && 0 < epochLedgers
  {
    Opening(FreshState(cap, epochLedgers))
  }

  lemma {:induction false} RunAppend(b: Books, calls: seq<Call>, more: seq<Call>)
    ensures Run(b, calls + more) == Run(Run(b, calls), more)
  {
    if more == [] {
      assert calls + more == calls;
    } else {
      RunAppend(b, calls, more[..|more| - 1]);
      assert (calls + more)[..|calls + more| - 1] == calls + more[..|more| - 1];
      hide Step;
    }
  }

  lemma {:induction false} RunOne(b: Books, call: Call)
    ensures Run(b, [call]) == Step(b, call)
  {
    assert [call][..0] == [];
    assert Run(b, [call][..0]) == b;
    hide Step;
  }

  lemma {:induction false} RunTwoMore(b: Books, calls: seq<Call>, x: Call, y: Call)
    ensures Run(b, calls + [x] + [y]) == Step(Step(Run(b, calls), x), y)
  {
    RunAppend(b, calls, [x]);
    RunAppend(b, calls + [x], [y]);
    RunOne(Run(b, calls), x);
    RunOne(Run(b, calls + [x]), y);
    hide Run, Step;
  }

  lemma {:induction false} RunThree(b: Books, x: Call, y: Call, z: Call)
    ensures Run(b, [x] + [y] + [z]) == Step(Step(Step(b, x), y), z)
  {
    RunOne(b, x);
    RunTwoMore(b, [x], y, z);
  }

  lemma {:induction false} DeferralsWait(cap: i128, epochLedgers: u32, k: nat)
    requires 0 <= cap && 0 < epochLedgers
    ensures Waiting(Run(Fresh(cap, epochLedgers), Deferrals(cap, k)).state, Config(cap, epochLedgers), k)
  {
    hide Run, Step, Waiting, Fresh, Deferrals;
    var b := Fresh(cap, epochLedgers);
    DeferralsAre(cap, k);
    if k == 0 {
      RunThree(b, Call(Fund(cap), 0), Call(Earn(0, cap), 0), Call(ClaimOp(0), 0));
      FirstUses(b, cap, epochLedgers);
    } else {
      DeferralsWait(cap, epochLedgers, k - 1);
      RunTwoMore(b, Deferrals(cap, k - 1), Call(Earn(k, 1), 0), Call(ClaimOp(k), 0));
      OneMoreWaits(Run(b, Deferrals(cap, k - 1)), Config(cap, epochLedgers), k);
    }
  }

  lemma {:induction false} DeferralsAre(cap: i128, k: nat)
    ensures Deferrals(cap, k)
         == if k == 0 then [Call(Fund(cap), 0)] + [Call(Earn(0, cap), 0)] + [Call(ClaimOp(0), 0)]
            else Deferrals(cap, k - 1) + [Call(Earn(k, 1), 0)] + [Call(ClaimOp(k), 0)]
  {
    assert [] + [Call(Fund(cap), 0)] == [Call(Fund(cap), 0)];
  }

  lemma {:induction false} FirstUses(b: Books, cap: i128, epochLedgers: u32)
    requires 0 <= cap && 0 < epochLedgers && b == Fresh(cap, epochLedgers)
    ensures var after := Step(Step(Step(b, Call(Fund(cap), 0)), Call(Earn(0, cap), 0)), Call(ClaimOp(0), 0));
            Waiting(after.state, Config(cap, epochLedgers), 0)
  {
    var funded := Step(b, Call(Fund(cap), 0));
    var earned := Step(funded, Call(Earn(0, cap), 0));
    assert earned.state.pool == cap && earned.state.deferred == map[] && AccruedBy(earned.state, 0) == cap;
    if cap > 0 {
      assert Payable(earned.state, 0, 0) == cap;
    }
  }

  lemma {:induction false} OneMoreWaits(b: Books, config: Config, k: nat)
    requires 0 < k && 0 <= config.capPerEpoch && 0 < config.epochLedgers && Waiting(b.state, config, k - 1)
    ensures var after := Step(Step(b, Call(Earn(k, 1), 0)), Call(ClaimOp(k), 0));
            Waiting(after.state, config, k)
  {
    var earned := Step(b, Call(Earn(k, 1), 0));
    assert Waiting(earned.state.(accrued := earned.state.accrued[k := 0]), config, k - 1);
    assert AccruedBy(earned.state, k) == 1 && Payable(earned.state, k, 0) == 0;
    assert DeferredOf(earned.state, k) == 0;
  }

  lemma {:induction false} EachCollects(b: Books, config: Config, k: nat)
    requires 0 < config.epochLedgers && Waiting(b.state, config, k)
    ensures var after := Run(b, Collections(k, config.epochLedgers));
            && Waiting(after.state, config, 0)
            && PaidDuring(after.payouts, config.epochLedgers, 1) == PaidDuring(b.payouts, config.epochLedgers, 1) + k
    decreases k
  {
    if k > 0 {
      var fund, collect := Call(Fund(1), config.epochLedgers), Call(ClaimDeferredOp(k), config.epochLedgers);
      var next := Step(Step(b, fund), collect);
      OneCollects(b, config, k);
      EachCollects(next, config, k - 1);
      hide Step;
      RunOne(b, fund);
      RunAppend(b, [fund], [collect]);
      RunOne(Step(b, fund), collect);
      RunAppend(b, [fund] + [collect], Collections(k - 1, config.epochLedgers));
    }
  }

  lemma {:induction false} OneCollects(b: Books, config: Config, k: nat)
    requires 0 < k && 0 < config.epochLedgers && Waiting(b.state, config, k)
    ensures var e := config.epochLedgers;
            var after := Step(Step(b, Call(Fund(1), e)), Call(ClaimDeferredOp(k), e));
            && Waiting(after.state, config, k - 1)
            && PaidDuring(after.payouts, e, 1) == PaidDuring(b.payouts, e, 1) + 1
  {
    var e := config.epochLedgers;
    var funded := Step(b, Call(Fund(1), e));
    assert ClaimDeferred(funded.state, k, e).Ok? && ClaimDeferred(funded.state, k, e).value.1 == 1;
    PaidAppend(b.payouts, Payment(e, 1), e, e as int + 1);
  }

  lemma {:induction false} RunsInOrder(cap: i128, epochLedgers: u32, k: nat)
    ensures forall i :: 0 <= i < |Deferrals(cap, k)| ==> Deferrals(cap, k)[i].now == 0
    ensures forall i :: 0 <= i < |Collections(k, epochLedgers)| ==> Collections(k, epochLedgers)[i].now == epochLedgers
  {
    if k > 0 {
      RunsInOrder(cap, epochLedgers, k - 1);
    }
  }

  /** Nothing is paid in the epoch's first ledger before the collections start. */
  lemma {:induction false} DeferralsPayNothingLater(cap: i128, epochLedgers: u32, k: nat)
    requires 0 <= cap && 0 < epochLedgers
    ensures PaidDuring(Run(Fresh(cap, epochLedgers), Deferrals(cap, k)).payouts, epochLedgers, 1) == 0
  {
    RunsInOrder(cap, epochLedgers, k);
    PayoutsInOrder(FreshState(cap, epochLedgers), Deferrals(cap, k), 0);
    NothingPaidYet(Run(Fresh(cap, epochLedgers), Deferrals(cap, k)).payouts, epochLedgers, epochLedgers as int + 1);
  }

  /** No cap and no epoch length bound the payouts: some run pays more than any given bound in one ledger. */
  lemma {:induction false} NoCapBoundsPayouts(cap: i128, epochLedgers: u32, bound: nat)
    requires 0 <= cap && 0 < epochLedgers
    ensures exists calls ::
              && InOrder(calls, 0)
              && bound < PaidDuring(Run(Fresh(cap, epochLedgers), calls).payouts, epochLedgers, 1)
  {
    var k := bound + 1;
    var b := Fresh(cap, epochLedgers);
    var first, last := Deferrals(cap, k), Collections(k, epochLedgers);
    RunsInOrder(cap, epochLedgers, k);
    DeferralsWait(cap, epochLedgers, k);
    DeferralsPayNothingLater(cap, epochLedgers, k);
    EachCollects(Run(b, first), Config(cap, epochLedgers), k);
    RunAppend(b, first, last);
    assert InOrder(first + last, 0);
    hide Fresh, Run, Deferrals, Collections, InOrder;
    assert bound < PaidDuring(Run(b, first + last).payouts, epochLedgers, 1);
  }

  /** One unit is deferred and collected in the next epoch, where another user then claims the whole cap. */
  ghost function CollectThenClaim(cap: i128, epochLedgers: u32): seq<Call> {
    Deferrals(cap, 1) + Collections(1, epochLedgers) + FullClaim(cap, epochLedgers)
  }

  ghost function FullClaim(cap: i128, now: u32): seq<Call> {
    [Call(Fund(cap), now)] + [Call(Earn(2, cap), now)] + [Call(ClaimOp(2), now)]
  }

  /**
    That every collection fits is not enough, under any positive cap: the only collection of
    this run fits, a claim after it ignores what was collected, and one ledger pays out more
    than the cap.
   */
  lemma {:induction false} FittingCollectionIsNotEnough(cap: i128, epochLedgers: u32)
    requires 0 < cap && 0 < epochLedgers
    ensures InOrder(CollectThenClaim(cap, epochLedgers), 0)
    ensures var b := Run(Fresh(cap, epochLedgers), Deferrals(cap, 1));
            DeferredOf(b.state, 1) == 1 <= cap - PaidDuring(b.payouts, epochLedgers, 1)
    ensures PaidDuring(Run(Fresh(cap, epochLedgers), CollectThenClaim(cap, epochLedgers)).payouts, epochLedgers, 1)
         == cap + 1
  {
    var b := Fresh(cap, epochLedgers);
    var first, middle, last := Deferrals(cap, 1), Collections(1, epochLedgers), FullClaim(cap, epochLedgers);
    RunsInOrder(cap, epochLedgers, 1);
    assert InOrder(first + middle + last, 0);
    DeferralsWait(cap, epochLedgers, 1);
    DeferralsPayNothingLater(cap, epochLedgers, 1);
    var waiting := Run(b, first);
    assert waiting.state.deferred[1].amount == 1;
    hide Fresh, Run, Deferrals, Collections, FullClaim, InOrder;
    RunAppend(b, first, middle);
    RunAppend(b, first + middle, last);
    EachCollects(waiting, Config(cap, epochLedgers), 1);
    ClaimsWholeCap(Run(waiting, middle), Config(cap, epochLedgers));
  }

  lemma {:induction false} ClaimsWholeCap(b: Books, config: Config)
    requires 0 < config.capPerEpoch && 0 < config.epochLedgers && Waiting(b.state, config, 0)
    ensures var e := config.epochLedgers;
            PaidDuring(Run(b, FullClaim(config.capPerEpoch, e)).payouts, e, 1)
            == PaidDuring(b.payouts, e, 1) + config.capPerEpoch
  {
    hide Run, Step, Waiting, Payable, AccruedBy;
    var cap, e := config.capPerEpoch, config.epochLedgers;
    var fund, earn, claim := Call(Fund(cap), e), Call(Earn(2, cap), e), Call(ClaimOp(2), e);
    RunThree(b, fund, earn, claim);
    EarnsWholeCap(b, config);
    ClaimPays(Step(Step(b, fund), earn), 2, e);
    PaidAppend(b.payouts, Payment(e, cap), e, e as int + 1);
  }

  lemma {:induction false} EarnsWholeCap(b: Books, config: Config)
    requires 0 < config.capPerEpoch && 0 < config.epochLedgers && Waiting(b.state, config, 0)
    ensures var cap, e := config.capPerEpoch, config.epochLedgers;
            var earned := Step(Step(b, Call(Fund(cap), e)), Call(Earn(2, cap), e));
            && earned.state.config == Some(config) && earned.payouts == b.payouts
            && AccruedBy(earned.state, 2) == cap == Payable(earned.state, 2, e) && earned.state.pool == cap
  {
    var cap, e := config.capPerEpoch, config.epochLedgers;
    var funded := Step(b, Call(Fund(cap), e));
    var earned := Step(funded, Call(Earn(2, cap), e));
    assert earned.state.pool == cap && AccruedBy(earned.state, 2) == cap;
  }

  lemma {:induction false} ClaimPays(b: Books, user: Address, now: u32)
    requires b.state.config.Some? && 0 < AccruedBy(b.state, user) && Payable(b.state, user, now) <= b.state.pool
    ensures Step(b, Call(ClaimOp(user), now)).payouts == b.payouts + [Payment(now, Payable(b.state, user, now))]
  {
  }

  /** With the window used up, user 1 fills the bucket but for one unit, and then earns five more. */
  ghost function Overfill(cap: i128): seq<Call> {
    Deferrals(cap, 0) + [Call(Earn(1, I128_MAX - 1), 0)] + [Call(ClaimOp(1), 0)]
    + [Call(Earn(1, 5), 0)] + [Call(ClaimOp(1), 0)]
  }

  /** A full bucket loses rewards under every cap: of the five one still fits, and four are gone. */
  lemma {:induction false} FullBucketLoses(cap: i128, epochLedgers: u32)
    requires 0 <= cap && 0 < epochLedgers
    ensures InOrder(Overfill(cap), 0)
    ensures Lost(Run(Fresh(cap, epochLedgers), Overfill(cap)), 1) == 4
  {
    var b, first := Fresh(cap, epochLedgers), Deferrals(cap, 0);
    var much, five, claim := Call(Earn(1, I128_MAX - 1), 0), Call(Earn(1, 5), 0), Call(ClaimOp(1), 0);
    RunsInOrder(cap, epochLedgers, 0);
    assert InOrder(Overfill(cap), 0);
    DeferralsWait(cap, epochLedgers, 0);
    var full := Run(b, first);
    NothingIsLost(FreshState(cap, epochLedgers), first);
    UserOneUntouched(cap, epochLedgers);
    RunTwoMore(b, first, much, claim);
    RunTwoMore(b, first + [much] + [claim], five, claim);
    hide Run, Fresh, Deferrals;
    FourAreLost(full, Config(cap, epochLedgers));
  }

  lemma {:induction false} UserOneUntouched(cap: i128, epochLedgers: u32)
    requires 0 <= cap && 0 < epochLedgers
    ensures Lost(Run(Fresh(cap, epochLedgers), Deferrals(cap, 0)), 1) == 0
  {
    var b := Fresh(cap, epochLedgers);
    var calls := Deferrals(cap, 0);
    hide Fresh;
    LossExactlyWhen(b, calls, 1);
  }

  lemma {:induction false} FourAreLost(b: Books, config: Config)
    requires Waiting(b.state, config, 0) && 0 <= config.capPerEpoch && 0 < config.epochLedgers && Lost(b, 1) == 0
    ensures var much, five, claim := Call(Earn(1, I128_MAX - 1), 0), Call(Earn(1, 5), 0), Call(ClaimOp(1), 0);
            Lost(Step(Step(Step(Step(b, much), claim), five), claim), 1) == 4
  {
    var much, five, claim := Call(Earn(1, I128_MAX - 1), 0), Call(Earn(1, 5), 0), Call(ClaimOp(1), 0);
    DefersAll(b, config, I128_MAX - 1);
    var filled := Step(Step(b, much), claim);
    DefersAll(filled, config, 5);
  }

  /** With the window used up, a claim pays nothing and defers all it has room for. */
  lemma {:induction false} DefersAll(b: Books, config: Config, amount: i128)
    requires b.state.config == Some(config) && b.state.tracker == Some(Window(0, config.capPerEpoch))
    requires 0 <= config.capPerEpoch && 0 < config.epochLedgers && 0 < amount
    requires AccruedBy(b.state, 1) == 0 && 0 <= DeferredOf(b.state, 1)
    ensures var after := Step(Step(b, Call(Earn(1, amount), 0)), Call(ClaimOp(1), 0));
            && after.state.config == b.state.config && after.state.tracker == b.state.tracker
            && AccruedBy(after.state, 1) == 0 && DeferredOf(after.state, 1) == SatAdd(DeferredOf(b.state, 1), amount)
            && Lost(after, 1) == Lost(b, 1) + DeferredOf(b.state, 1) + amount - DeferredOf(after.state, 1)
  {
    var earned := Step(b, Call(Earn(1, amount), 0));
    assert AccruedBy(earned.state, 1) == amount && DeferredOf(earned.state, 1) == DeferredOf(b.state, 1);
    assert Payable(earned.state, 1, 0) == 0;
  }

  // ---------- Storage ----------

  class RewardCap {
    var config: Option<Config>
    var tracker: Option<Window>
    var accrued: map<Address, i128>
    var deferred: map<Address, Deferred>
    var pool: i128

    ghost function View(): State
      reads this
    {
      State(config, tracker, accrued, deferred, pool)
    }

    constructor ()
      ensures View() == State(None, None, map[], map[], 0)
    {
      config, tracker, accrued, deferred, pool := None, None, map[], map[], 0;
    }

    method SetEpochRewardCap(cap: i128, epochLedgers: u32, now: u32) returns (r: Result<(), Error>)
      modifies this
      ensures match SetCap(old(View()), cap, epochLedgers, now)
              case Ok(after) => r == Ok(()) && View() == after
              case Err(e) => r == Err(e) && View() == old(View())
    {
      if cap < 0 || epochLedgers == 0 {
        return Err(ZeroAmount);
      }
      config := Some(Config(cap, epochLedgers));
      tracker := Some(Window(now, 0));
      return Ok(());
    }

    method QueueDeferred(user: Address, amount: i128, nextEpochStart: u32)
      modifies this`deferred
      ensures View() == Queued(old(View()), user, amount, nextEpochStart)
    {
      if amount <= 0 {
        return;
      }
      var existing := if user in deferred then deferred[user].amount else 0;
      deferred := deferred[user := Deferred(SatAdd(existing, amount), nextEpochStart)];
    }

    method ClaimEpochCappedReward(user: Address, now: u32) returns (r: Result<i128, Error>)
      requires Sound(View())
      modifies this
      ensures Sound(View())
      ensures match Claim(old(View()), user, now)
              case Ok((after, paid)) => r == Ok(paid) && View() == after
              case Err(e) => r == Err(e) && View() == old(View())
    {
      if config.None? {
        return Err(NotInitialized);
      }
      var amount: int := if user in accrued then accrued[user] else 0;
      if amount <= 0 {
        return Ok(0);
      }
      ClaimConservesIfOk(View(), user, now);
      hide Sound, Current;
      var window := Current(tracker, config.value.epochLedgers, now);
      var remaining := Max(SatSub(config.value.capPerEpoch, window.used), 0);
      var payable := Min(amount, remaining);
      var deferredAmount := amount - payable;
      if payable > 0 && pool < payable {
        return Err(InsufficientRewardPool);
      }
      accrued := accrued[user := 0];
      if payable > 0 {
        pool := pool - payable;
        window := window.(used := SatAdd(window.used, payable));
      }
      tracker := Some(window);
      if deferredAmount > 0 {
        QueueDeferred(user, deferredAmount, SatAddU32(window.start, config.value.epochLedgers));
      }
      return Ok(payable);
    }

    method ClaimDeferredReward(user: Address, now: u32) returns (r: Result<i128, Error>)
      requires Sound(View())
      modifies this
      ensures Sound(View())
      ensures match ClaimDeferred(old(View()), user, now)
              case Ok((after, paid)) => r == Ok(paid) && View() == after
              case Err(e) => r == Err(e) && View() == old(View())
    {
      if user !in deferred {
        return Err(NothingToWithdraw);
      }
      var entry := deferred[user];
      if now < entry.nextEpochStart {
        return Err(EpochNotFinalized);
      }
      if pool < entry.amount {
        return Err(InsufficientRewardPool);
      }
      deferred := deferred - {user};
      pool := pool - entry.amount;
      return Ok(entry.amount);
    }
  }

  lemma {:induction false} ClaimConservesIfOk(s: State, user: Address, now: u32)
    requires Sound(s)
    ensures Claim(s, user, now).Ok? ==> Sound(Claim(s, user, now).value.0)
  {
    if Claim(s, user, now).Ok? {
      ClaimConserves(s, user, now);
    }
  }
}
