/** Burn milestones (src/burn_milestone_tracker.rs) and the burn counters of src/balance.rs. */
module BurnMilestones {
  import opened Numeric

  const MAX_MILESTONES: nat := 10

  datatype Error = TooManyMilestones | InvalidFeeAllocation | ZeroAmount | Overflow

  /** A published milestone: the threshold, the total burned, the burn that triggered it, and when. */
  datatype Event = Event(threshold: i128, total: i128, burn: i128, ledger: u32)

  datatype State = State(thresholds: seq<i128>, reached: seq<bool>, tokens: i128, fees: i128, events: seq<Event>)

  function TotalBurned(s: State): i128 { SatAdd(s.tokens, s.fees) }

  ghost predicate Ascending(thresholds: seq<i128>) {
    && (forall i :: 0 <= i < |thresholds| ==> 0 < thresholds[i])
    && (forall i, j :: 0 <= i < j < |thresholds| ==> thresholds[i] < thresholds[j])
  }

  // ---------- The check after a burn ----------

  /** The flags brought to the length of the thresholds, old ones kept. */
  function Aligned(reached: seq<bool>, n: nat): (r: seq<bool>)
    ensures |r| == n
  {
    seq(n, i requires 0 <= i < n => i < |reached| && reached[i])
  }

  function Marked(thresholds: seq<i128>, reached: seq<bool>, total: int): (r: seq<bool>)
    requires |reached| == |thresholds|
    ensures |r| == |thresholds|
  {
    seq(|thresholds|, i requires 0 <= i < |thresholds| => reached[i] || total >= thresholds[i])
  }

  /** One event for every unreached threshold at or below the total, in order. */
  function Fired(thresholds: seq<i128>, reached: seq<bool>, total: i128, burn: i128, ledger: u32): seq<Event>
    requires |reached| == |thresholds|
  {
    if thresholds == [] then []
    else
      var n := |thresholds| - 1;
      Fired(thresholds[..n], reached[..n], total, burn, ledger)
      + if !reached[n] && total >= thresholds[n] then [Event(thresholds[n], total, burn, ledger)] else []
  }

  function Check(s: State, burn: i128, ledger: u32): State {
    if s.thresholds == [] then s
    else
      var flags := Aligned(s.reached, |s.thresholds|);
      var fired := Fired(s.thresholds, flags, TotalBurned(s), burn, ledger);
      if fired == [] then s
      else s.(reached := Marked(s.thresholds, flags, TotalBurned(s)), events := s.events + fired)
  }

  /** The counter steps; a 128-bit overflow aborts. */
  function AddTokens(s: State, amount: i128, ledger: u32): Result<State, Error> {
    match Checked(s.tokens + amount)
    case None => Err(Overflow)
    case Some(tokens) => Ok(Check(s.(tokens := tokens), amount, ledger))
  }

  function AddFees(s: State, amount: i128, ledger: u32): Result<State, Error> {
    match Checked(s.fees + amount)
    case None => Err(Overflow)
    case Some(fees) => Ok(Check(s.(fees := fees), amount, ledger))
  }

  /** The manual burn checks twice: inside the counter step, and once more. */
  function BurnTokens(s: State, amount: i128, ledger: u32): Result<State, Error> {
    if amount <= 0 then Err(ZeroAmount)
    else
      match AddTokens(s, amount, ledger)
      case Err(e) => Err(e)
      case Ok(after) => Ok(Check(after, amount, ledger))
  }

  function SetMilestones(s: State, thresholds: seq<i128>): Result<State, Error> {
    if |thresholds| > MAX_MILESTONES then Err(TooManyMilestones)
    else if !Increasing(thresholds) then Err(InvalidFeeAllocation)
    else Ok(s.(thresholds := thresholds, reached := seq(|thresholds|, _ => false)))
  }

  /** Positive, and each above its predecessor. */
  predicate Increasing(thresholds: seq<i128>) {
    thresholds == [] ||
    (var n := |thresholds| - 1;
     && Increasing(thresholds[..n])
     && thresholds[n] > (if n == 0 then 0 else Max(0, thresholds[n - 1])))
  }

  lemma {:induction false} IncreasingIsAscending(thresholds: seq<i128>)
    ensures Increasing(thresholds) <==> Ascending(thresholds)
  {
    if thresholds != [] {
      var n := |thresholds| - 1;
      IncreasingIsAscending(thresholds[..n]);
      if Ascending(thresholds) {
        assert Ascending(thresholds[..n]);
      }
      if Increasing(thresholds) {
        forall i | 0 <= i < n ensures thresholds[i] < thresholds[n] {
          assert thresholds[..n][i] <= thresholds[..n][n - 1];
        }
      }
    }
  }

  /** The next uncelebrated threshold. */
  function NextMilestone(s: State): Option<i128> {
    FirstUnreached(s.thresholds, Aligned(s.reached, |s.thresholds|))
  }

  function FirstUnreached(thresholds: seq<i128>, reached: seq<bool>): Option<i128>
    requires |reached| == |thresholds|
  {
    if thresholds == [] then None
    else if !reached[0] then Some(thresholds[0])
    else FirstUnreached(thresholds[1..], reached[1..])
  }

  // ---------- Runs ----------

  datatype Op =
    | Configure(thresholds: seq<i128>)
    | Tokens(amount: i128)
    | Fees(amount: i128)
    | Manual(amount: i128)

  datatype Call = Call(op: Op, ledger: u32)

  /** A burn that went through: the sum of all burns up to it, its amount and its ledger. */
  datatype Burn = Burn(total: i128, amount: i128, ledger: u32)

  /** The state, the burns and the number of events since the thresholds were last configured, and all burned so far. */
  datatype Books = Books(state: State, burns: seq<Burn>, before: nat, burned: int)

  const OPENING := Books(State([], [], 0, 0, []), [], 0, 0)

  ghost function Outcome(s: State, call: Call): Result<State, Error> {
    match call.op
    case Configure(thresholds) => SetMilestones(s, thresholds)
    case Tokens(amount) => AddTokens(s, amount, call.ledger)
    case Fees(amount) => AddFees(s, amount, call.ledger)
    case Manual(amount) => BurnTokens(s, amount, call.ledger)
  }

  ghost function Step(b: Books, call: Call): Books {
    match Outcome(b.state, call)
    case Err(_) => b
    case Ok(after) =>
      if call.op.Configure? then Books(after, [], |b.state.events|, b.burned)
      else
        var burned := b.burned + call.op.amount;
        Books(after, b.burns + [Burn(Clamp(burned), call.op.amount, call.ledger)], b.before, burned)
  }

  ghost function Run(calls: seq<Call>): Books {
    if calls == [] then OPENING else Step(Run(calls[..|calls| - 1]), calls[|calls| - 1])
  }

  /** No counter is ever decreased. */
  ghost predicate Lawful(calls: seq<Call>) {
    forall i :: 0 <= i < |calls| && !calls[i].op.Configure? ==> 0 <= calls[i].op.amount
  }

  ghost function LastTotal(burns: seq<Burn>): int { if burns == [] then 0 else burns[|burns| - 1].total }

  /** Flags by definition: reached means at or below the total after the last burn since configuration. */
  ghost function ReachedBy(thresholds: seq<i128>, total: int): seq<bool> {
    seq(|thresholds|, i requires 0 <= i < |thresholds| => thresholds[i] <= total)
  }

  /** Events by definition: each burn announces the thresholds above the previous total and at most the new one. */
  ghost function Crossings(thresholds: seq<i128>, burns: seq<Burn>): seq<Event> {
    if burns == [] then []
    else
      var rest, b := burns[..|burns| - 1], burns[|burns| - 1];
      Crossings(thresholds, rest) + FiredBy(thresholds, LastTotal(rest), b)
  }

  ghost function FiredBy(thresholds: seq<i128>, earlier: int, b: Burn): seq<Event> {
    Fired(thresholds, ReachedBy(thresholds, earlier), b.total, b.amount, b.ledger)
  }

  ghost predicate Growing(burns: seq<Burn>) {
    && (forall i :: 0 <= i < |burns| ==> 0 <= burns[i].total)
    && (forall i, j :: 0 <= i < j < |burns| ==> burns[i].total <= burns[j].total)
  }

  ghost predicate Inv(b: Books) {
    var s := b.state;
    && Ascending(s.thresholds) && 0 <= s.tokens && 0 <= s.fees && s.tokens + s.fees == b.burned
    && Growing(b.burns) && LastTotal(b.burns) <= TotalBurned(s)
    && (b.burns != [] ==> LastTotal(b.burns) == TotalBurned(s))
    && s.reached == ReachedBy(s.thresholds, LastTotal(b.burns))
    && b.before <= |s.events|
    && s.events[b.before..] == Crossings(s.thresholds, b.burns)
  }

  lemma {:induction false} NothingFired(thresholds: seq<i128>, reached: seq<bool>, total: i128, burn: i128, ledger: u32)
    requires |reached| == |thresholds|
    ensures Fired(thresholds, reached, total, burn, ledger) == [] <==> Marked(thresholds, reached, total) == reached
  {
    if thresholds != [] {
      var n := |thresholds| - 1;
      NothingFired(thresholds[..n], reached[..n], total, burn, ledger);
      assert Marked(thresholds, reached, total)[..n] == Marked(thresholds[..n], reached[..n], total);
      assert reached == reached[..n] + [reached[n]];
      assert Marked(thresholds, reached, total)
          == Marked(thresholds, reached, total)[..n] + [reached[n] || total >= thresholds[n]];
    }
  }

  /**
    A check from flags that match an earlier total brings them to the current total and fires
    the crossings in between.
   */
  lemma {:induction false} CheckCatchesUp(s: State, earlier: int, burn: i128, ledger: u32)
    requires s.reached == ReachedBy(s.thresholds, earlier) && earlier <= TotalBurned(s)
    ensures Check(s, burn, ledger)
         == s.(reached := ReachedBy(s.thresholds, TotalBurned(s)),
               events := s.events + Fired(s.thresholds, s.reached, TotalBurned(s), burn, ledger))
  {
    assert Aligned(s.reached, |s.thresholds|) == s.reached;
    NothingFired(s.thresholds, s.reached, TotalBurned(s), burn, ledger);
    assert Marked(s.thresholds, s.reached, TotalBurned(s)) == ReachedBy(s.thresholds, TotalBurned(s));
    assert s.events + [] == s.events;
  }

  /** The second check of a manual burn finds nothing left to announce. */
  lemma {:induction false} SecondCheckIsIdle(s: State, burn: i128, ledger: u32)
    requires s.reached == ReachedBy(s.thresholds, TotalBurned(s))
    ensures Check(s, burn, ledger) == s
  {
    assert Aligned(s.reached, |s.thresholds|) == s.reached;
    NothingFired(s.thresholds, s.reached, TotalBurned(s), burn, ledger);
    assert Marked(s.thresholds, s.reached, TotalBurned(s)) == s.reached;
  }

  /** The state with its counter increased and nothing checked yet. */
  ghost function Counted(s: State, op: Op): State
    requires !op.Configure?
    requires FitsI128((if op.Fees? then s.fees else s.tokens) + op.amount)
  {
    if op.Fees? then s.(fees := s.fees + op.amount) else s.(tokens := s.tokens + op.amount)
  }

  /** A successful burn of any kind is one counter increase and one effective check. */
  lemma {:induction false} BurnIsOneCheck(b: Books, call: Call)
    requires Inv(b) && !call.op.Configure? && 0 <= call.op.amount && Outcome(b.state, call).Ok?
    ensures FitsI128((if call.op.Fees? then b.state.fees else b.state.tokens) + call.op.amount)
    ensures Outcome(b.state, call).value == Check(Counted(b.state, call.op), call.op.amount, call.ledger)
  {
    hide Check, Fired, ReachedBy, Aligned, Marked;
    if call.op.Manual? {
      var counted := Counted(b.state, call.op);
      CheckCatchesUp(counted, LastTotal(b.burns), call.op.amount, call.ledger);
      var once := Check(counted, call.op.amount, call.ledger);
      hide Inv;
      SecondCheckIsIdle(once, call.op.amount, call.ledger);
    }
  }

  lemma {:induction false} ConfigureKeeps(b: Books, call: Call)
    requires Inv(b) && call.op.Configure? && Outcome(b.state, call).Ok?
    ensures Inv(Step(b, call))
  {
    IncreasingIsAscending(call.op.thresholds);
    var after := Step(b, call);
    assert after.state.reached == ReachedBy(call.op.thresholds, 0);
    assert after.state.events[after.before..] == [];
    hide Increasing;
  }

  lemma {:induction false} BurnKeeps(b: Books, call: Call)
    requires Inv(b) && !call.op.Configure? && 0 <= call.op.amount && Outcome(b.state, call).Ok?
    ensures Inv(Step(b, call))
  {
    hide Check, Fired, ReachedBy, Crossings, Outcome, Ascending, Growing;
    BurnIsOneCheck(b, call);
    var counted := Counted(b.state, call.op);
    assert LastTotal(b.burns) <= TotalBurned(counted) == Clamp(b.burned + call.op.amount);
    CheckCatchesUp(counted, LastTotal(b.burns), call.op.amount, call.ledger);
    BooksExtend(b, counted, call.op.amount, call.ledger);
  }

  lemma {:induction false} StepKeeps(b: Books, call: Call)
    requires Inv(b) && (!call.op.Configure? ==> 0 <= call.op.amount)
    ensures Inv(Step(b, call))
  {
    hide Inv, Outcome;
    if Outcome(b.state, call).Ok? {
      if call.op.Configure? {
        ConfigureKeeps(b, call);
      } else {
        BurnKeeps(b, call);
      }
    }
  }

  lemma {:induction false} BooksExtend(b: Books, counted: State, amount: i128, ledger: u32)
    requires Inv(b) && 0 <= counted.tokens && 0 <= counted.fees && counted.tokens + counted.fees == b.burned + amount
    requires counted == b.state.(tokens := counted.tokens, fees := counted.fees)
    requires LastTotal(b.burns) <= TotalBurned(counted)
    ensures var total := TotalBurned(counted);
            var fired := Fired(counted.thresholds, counted.reached, total, amount, ledger);
            Inv(Books(counted.(reached := ReachedBy(counted.thresholds, total), events := counted.events + fired),
                      b.burns + [Burn(total, amount, ledger)], b.before, b.burned + amount))
  {
    var total := TotalBurned(counted);
    var burns := b.burns + [Burn(total, amount, ledger)];
    var fired := Fired(counted.thresholds, counted.reached, total, amount, ledger);
    assert burns[..|burns| - 1] == b.burns;
    hide Fired;
    assert (counted.events + fired)[b.before..] == counted.events[b.before..] + fired;
    forall i | 0 <= i < |b.burns| ensures burns[i].total <= total {
      assert b.burns[i].total <= b.burns[|b.burns| - 1].total;
    }
  }

  lemma {:induction false} RunKeeps(calls: seq<Call>)
    requires Lawful(calls)
    ensures Inv(Run(calls))
  {
    if calls != [] {
      RunKeeps(calls[..|calls| - 1]);
      StepKeeps(Run(calls[..|calls| - 1]), calls[|calls| - 1]);
    }
  }

  // ---------- What the events say ----------

  ghost function CountOf(events: seq<Event>, threshold: int): nat {
    if events == [] then 0
    else CountOf(events[..|events| - 1], threshold) + if events[|events| - 1].threshold == threshold then 1 else 0
  }

  lemma {:induction false} CountConcat(a: seq<Event>, b: seq<Event>, threshold: int)
    ensures CountOf(a + b, threshold) == CountOf(a, threshold) + CountOf(b, threshold)
  {
    if b == [] {
      assert a + b == a;
    } else {
      CountConcat(a, b[..|b| - 1], threshold);
      assert (a + b)[..|a + b| - 1] == a + b[..|b| - 1];
    }
  }

  lemma {:induction false} CountOne(e: Event, threshold: int)
    ensures CountOf([e], threshold) == if e.threshold == threshold then 1 else 0
  {
    assert [e][..0] == [];
  }

  lemma {:induction false} FiredSplit(thresholds: seq<i128>, earlier: int, b: Burn)
    requires thresholds != []
    ensures var rest, last := thresholds[..|thresholds| - 1], thresholds[|thresholds| - 1];
            FiredBy(thresholds, earlier, b)
            == FiredBy(rest, earlier, b)
               + if earlier < last <= b.total then [Event(last, b.total, b.amount, b.ledger)] else []
  {
    var n := |thresholds| - 1;
    assert ReachedBy(thresholds, earlier)[..n] == ReachedBy(thresholds[..n], earlier);
  }

  /** A burn announces exactly the thresholds it crosses, each once. */
  lemma {:induction false} FiredOnce(thresholds: seq<i128>, earlier: int, b: Burn, threshold: int)
    requires Ascending(thresholds)
    ensures CountOf(FiredBy(thresholds, earlier, b), threshold)
         == if threshold in thresholds && earlier < threshold <= b.total then 1 else 0
  {
    if thresholds != [] {
      var rest, last := thresholds[..|thresholds| - 1], thresholds[|thresholds| - 1];
      var e := Event(last, b.total, b.amount, b.ledger);
      FiredOnce(rest, earlier, b, threshold);
      FiredSplit(thresholds, earlier, b);
      hide FiredBy, CountOf;
      CountOne(e, threshold);
      CountConcat(FiredBy(rest, earlier, b), [e], threshold);
      assert thresholds == rest + [last];
      assert FiredBy(rest, earlier, b) + [] == FiredBy(rest, earlier, b);
    } else {
      assert FiredBy(thresholds, earlier, b) == [];
    }
  }

  lemma {:induction false} FiredReports(thresholds: seq<i128>, earlier: int, b: Burn)
    ensures forall e :: e in FiredBy(thresholds, earlier, b) ==>
              && e == Event(e.threshold, b.total, b.amount, b.ledger)
              && e.threshold in thresholds && earlier < e.threshold <= b.total
  {
    if thresholds != [] {
      FiredReports(thresholds[..|thresholds| - 1], earlier, b);
      FiredSplit(thresholds, earlier, b);
      hide FiredBy;
    }
  }

  lemma {:induction false} CrossedOnce(thresholds: seq<i128>, burns: seq<Burn>, threshold: int)
    requires Ascending(thresholds) && Growing(burns) && threshold in thresholds
    ensures CountOf(Crossings(thresholds, burns), threshold) == if threshold <= LastTotal(burns) then 1 else 0
  {
    if burns != [] {
      var rest, b := burns[..|burns| - 1], burns[|burns| - 1];
      CrossedOnce(thresholds, rest, threshold);
      FiredOnce(thresholds, LastTotal(rest), b, threshold);
      hide FiredBy, CountOf;
      CountConcat(Crossings(thresholds, rest), FiredBy(thresholds, LastTotal(rest), b), threshold);
      assert LastTotal(rest) <= b.total;
    }
  }

  /** Burn `k` is the first that left the total at or above the event's threshold, and the event reports it. */
  ghost predicate FirstCrossing(e: Event, burns: seq<Burn>, k: nat) {
    && k < |burns|
    && e == Event(e.threshold, burns[k].total, burns[k].amount, burns[k].ledger)
    && e.threshold <= burns[k].total
    && forall j :: 0 <= j < k ==> burns[j].total < e.threshold
  }

  lemma {:induction false} CrossedAtFirst(thresholds: seq<i128>, burns: seq<Burn>, e: Event)
    requires Ascending(thresholds) && Growing(burns) && e in Crossings(thresholds, burns)
    ensures e.threshold in thresholds
    ensures exists k: nat :: FirstCrossing(e, burns, k)
  {
    hide FiredBy;
    var rest, b := burns[..|burns| - 1], burns[|burns| - 1];
    if e in Crossings(thresholds, rest) {
      CrossedAtFirst(thresholds, rest, e);
      var k: nat :| FirstCrossing(e, rest, k);
      assert forall j :: 0 <= j <= k ==> burns[j] == rest[j];
      hide Crossings;
      assert FirstCrossing(e, burns, k);
    } else {
      assert e in FiredBy(thresholds, LastTotal(rest), b);
      hide Crossings;
      FiredReports(thresholds, LastTotal(rest), b);
      forall j | 0 <= j < |rest| ensures burns[j].total < e.threshold {
        assert rest[j].total <= rest[|rest| - 1].total == LastTotal(rest);
      }
      assert FirstCrossing(e, burns, |burns| - 1);
    }
  }

  /** The accepted amounts of a run, fees or tokens (manual burns included). */
  ghost function Burned(calls: seq<Call>, fees: bool): int {
    if calls == [] then 0
    else
      var before, call := calls[..|calls| - 1], calls[|calls| - 1];
      Burned(before, fees)
      + if !call.op.Configure? && call.op.Fees? == fees && Outcome(Run(before).state, call).Ok?
        then call.op.amount else 0
  }

  /** The total that burns and events report after a run: all that was burned, up to the top of the type. */
  ghost function AllBurned(calls: seq<Call>): i128 {
    Clamp(Burned(calls, false) + Burned(calls, true))
  }

  /** The counters are the sums of what the calls burned. */
  lemma {:induction false} CountersAreSums(calls: seq<Call>)
    ensures Run(calls).state.tokens == Burned(calls, false) && Run(calls).state.fees == Burned(calls, true)
    ensures Run(calls).burned == Burned(calls, false) + Burned(calls, true)
    ensures Run(calls).burns != [] ==> LastTotal(Run(calls).burns) == AllBurned(calls)
  {
    if calls != [] {
      CountersAreSums(calls[..|calls| - 1]);
      CountersStep(Run(calls[..|calls| - 1]), calls[|calls| - 1]);
      hide Outcome;
    }
  }

  lemma {:induction false} CountersStep(b: Books, call: Call)
    ensures var after, ok := Step(b, call), !call.op.Configure? && Outcome(b.state, call).Ok?;
            && after.state.tokens == b.state.tokens + (if ok && !call.op.Fees? then call.op.amount else 0)
            && after.state.fees == b.state.fees + (if ok && call.op.Fees? then call.op.amount else 0)
            && after.burned == b.burned + (if ok then call.op.amount else 0)
            && (ok ==> after.burns != [] && LastTotal(after.burns) == Clamp(after.burned))
            && (!ok ==> after.burns == b.burns || after.burns == [])
  {
    hide Fired, Aligned, Marked;
  }

  /** The latest list of at most ten, positive and strictly increasing, that was configured. */
  ghost function Configured(calls: seq<Call>): seq<i128> {
    if calls == [] then []
    else
      var op := calls[|calls| - 1].op;
      if op.Configure? && |op.thresholds| <= 10 && Ascending(op.thresholds) then op.thresholds
      else Configured(calls[..|calls| - 1])
  }

  lemma {:induction false} ThresholdsAreConfigured(calls: seq<Call>)
    ensures Run(calls).state.thresholds == Configured(calls)
  {
    if calls != [] {
      ThresholdsAreConfigured(calls[..|calls| - 1]);
      var op := calls[|calls| - 1].op;
      if op.Configure? {
        IncreasingIsAscending(op.thresholds);
      }
      hide Increasing, Ascending, Fired, Aligned, Marked;
    }
  }

  /** A burn goes through exactly while its counter holds it; a manual one must be positive. */
  lemma {:induction false} BurnAcceptedExactly(calls: seq<Call>, call: Call)
    requires !call.op.Configure? && 0 <= call.op.amount && Lawful(calls)
    ensures Outcome(Run(calls).state, call).Ok?
            <==> && Burned(calls, call.op.Fees?) + call.op.amount <= I128_MAX
                 && (call.op.Manual? ==> 0 < call.op.amount)
  {
    CountersAreSums(calls);
    RunKeeps(calls);
    hide Run, Burned, Check;
  }

  /**
    Over any run of token, fee and manual burns: since the thresholds were last configured, each
    fired exactly once if burns followed and all that was burned, ever, is at or above it, and not
    otherwise; nothing else fired, and every event reports the first burn that got there.
   */
  lemma {:induction false} MilestonesFireOnce(calls: seq<Call>, i: nat)
    requires Lawful(calls) && i < |Run(calls).state.thresholds|
    ensures var b := Run(calls);
            var threshold := b.state.thresholds[i];
            && b.before <= |b.state.events|
            && CountOf(b.state.events[b.before..], threshold)
               == (if b.burns != [] && threshold <= AllBurned(calls) then 1 else 0)
            && forall e :: e in b.state.events[b.before..] ==>
                 e.threshold in b.state.thresholds && exists k: nat :: FirstCrossing(e, b.burns, k)
  {
    var b := Run(calls);
    RunKeeps(calls);
    CountersAreSums(calls);
    hide Run, AllBurned;
    CrossedOnce(b.state.thresholds, b.burns, b.state.thresholds[i]);
    forall e | e in b.state.events[b.before..]
      ensures e.threshold in b.state.thresholds && exists k: nat :: FirstCrossing(e, b.burns, k)
    {
      CrossedAtFirst(b.state.thresholds, b.burns, e);
    }
  }

  /**
    The flags always form a prefix, and after a burn the next milestone is the least threshold
    above all that was burned.
   */
  lemma {:induction false} NextIsLeastAbove(calls: seq<Call>)
    requires Lawful(calls)
    ensures var s := Run(calls).state;
            && |s.reached| == |s.thresholds|
            && (forall i, j :: 0 <= i < j < |s.reached| && s.reached[j] ==> s.reached[i])
            && (Run(calls).burns != [] ==>
                  match NextMilestone(s)
                  case None => forall t :: t in s.thresholds ==> t <= AllBurned(calls)
                  case Some(next) =>
                    && next in s.thresholds && next > AllBurned(calls)
                    && forall t :: t in s.thresholds && t > AllBurned(calls) ==> next <= t)
  {
    RunKeeps(calls);
    CountersAreSums(calls);
    var b := Run(calls);
    var s := b.state;
    hide Run, AllBurned;
    assert Aligned(s.reached, |s.thresholds|) == s.reached;
    FirstAbove(s.thresholds, LastTotal(b.burns));
  }

  lemma {:induction false} FirstAbove(thresholds: seq<i128>, total: int)
    requires Ascending(thresholds)
    ensures match FirstUnreached(thresholds, ReachedBy(thresholds, total))
            case None => forall t :: t in thresholds ==> t <= total
            case Some(next) =>
              && next in thresholds && next > total
              && forall t :: t in thresholds && t > total ==> next <= t
  {
    if thresholds != [] {
      var rest := thresholds[1..];
      assert thresholds == [thresholds[0]] + rest;
      assert ReachedBy(thresholds, total)[1..] == ReachedBy(rest, total);
      FirstAbove(rest, total);
    }
  }

  // ---------- Storage ----------

  class Tracker {
    var thresholds: seq<i128>
    var reached: seq<bool>
    var tokens: i128
    var fees: i128
    ghost var events: seq<Event>

    ghost function View(): State
      reads this
    {
      State(thresholds, reached, tokens, fees, events)
    }

    constructor ()
      ensures View() == OPENING.state
    {
      thresholds, reached, tokens, fees, events := [], [], 0, 0, [];
    }

    /** Flags of the wrong length are rebuilt, keeping the old ones. */
    method AlignFlags(n: nat) returns (flags: seq<bool>)
      ensures flags == Aligned(reached, n)
    {
      flags := reached;
      if |flags| != n {
        flags := seq(n, _ => false);
        for i := 0 to Min(|reached|, n)
          invariant |flags| == n
          invariant forall j :: 0 <= j < n ==> flags[j] == (j < i && reached[j])
        {
          flags := flags[i := reached[i]];
        }
      }
    }

    /** Afterwards every threshold at or below all tokens and fees burned is flagged. */
    method CheckBurnMilestones(burn: i128, ledger: u32)
      modifies this`reached, this`events
      ensures View() == Check(old(View()), burn, ledger)
      ensures ReachedAreFlagged(thresholds, reached, tokens, fees)
    {
      hide ReachedAreFlagged;
      ReachedAreFlaggedByCheck(View(), burn, ledger);
      if |thresholds| == 0 {
        return;
      }
      var total := SatAdd(tokens, fees);
      var flags := AlignFlags(|thresholds|);
      ghost var aligned := flags;
      hide Fired, Aligned;
      NoneFired(total, burn, ledger);
      ghost var fired: seq<Event> := [];
      var changed := false;
      for i := 0 to |thresholds|
        invariant |flags| == |thresholds|
        invariant forall j :: 0 <= j < |flags| ==> flags[j] == (aligned[j] || (j < i && total >= thresholds[j]))
        invariant fired == Fired(thresholds[..i], aligned[..i], total, burn, ledger)
        invariant changed <==> fired != []
        invariant events == old(events) + fired && reached == old(reached)
      {
        FiredStep(thresholds, aligned, total, burn, ledger, i);
        if !flags[i] && total >= thresholds[i] {
          flags := flags[i := true];
          changed := true;
          events := events + [Event(thresholds[i], total, burn, ledger)];
          fired := fired + [Event(thresholds[i], total, burn, ledger)];
        }
      }
      assert thresholds[..|thresholds|] == thresholds && aligned[..|thresholds|] == aligned;
      if changed {
        reached := flags;
        assert flags == Marked(thresholds, aligned, total);
      }
    }

    method AddTokensBurned(amount: i128, ledger: u32) returns (r: Result<(), Error>)
      modifies this
      ensures match AddTokens(old(View()), amount, ledger)
              case Ok(after) => r == Ok(()) && View() == after
              case Err(e) => r == Err(e) && View() == old(View())
      ensures r.Ok? ==> tokens == old(tokens) + amount && ReachedAreFlagged(thresholds, reached, tokens, fees)
    {
      var total := Checked(tokens + amount);
      if total.None? {
        return Err(Overflow);
      }
      tokens := total.value;
      CheckBurnMilestones(amount, ledger);
      return Ok(());
    }

    method AddFeesBurned(amount: i128, ledger: u32) returns (r: Result<(), Error>)
      modifies this
      ensures match AddFees(old(View()), amount, ledger)
              case Ok(after) => r == Ok(()) && View() == after
              case Err(e) => r == Err(e) && View() == old(View())
      ensures r.Ok? ==> fees == old(fees) + amount && ReachedAreFlagged(thresholds, reached, tokens, fees)
    {
      var total := Checked(fees + amount);
      if total.None? {
        return Err(Overflow);
      }
      fees := total.value;
      CheckBurnMilestones(amount, ledger);
      return Ok(());
    }

    method BurnManually(amount: i128, ledger: u32) returns (r: Result<i128, Error>)
      modifies this
      ensures match BurnTokens(old(View()), amount, ledger)
              case Ok(after) => r == Ok(amount) && View() == after
              case Err(e) => r == Err(e) && View() == old(View())
    {
      if amount <= 0 {
        return Err(ZeroAmount);
      }
      var added := AddTokensBurned(amount, ledger);
      if added.Err? {
        return Err(added.error);
      }
      CheckBurnMilestones(amount, ledger);
      return Ok(amount);
    }

    method SetBurnMilestones(newThresholds: seq<i128>) returns (r: Result<(), Error>)
      modifies this
      ensures match SetMilestones(old(View()), newThresholds)
              case Ok(after) => r == Ok(()) && View() == after
              case Err(e) => r == Err(e) && View() == old(View())
    {
      if |newThresholds| > MAX_MILESTONES {
        return Err(TooManyMilestones);
      }
      var i := 0;
      var prev: Option<i128> := None;
      while i < |newThresholds|
        invariant 0 <= i <= |newThresholds|
        invariant Increasing(newThresholds[..i])
        invariant prev == if i == 0 then None else Some(newThresholds[i - 1])
        invariant i > 0 ==> newThresholds[i - 1] > 0
      {
        var threshold := newThresholds[i];
        assert newThresholds[..i + 1][..i] == newThresholds[..i];
        if threshold <= 0 || (prev.Some? && threshold <= prev.value) {
          NotIncreasing(newThresholds, i + 1);
          return Err(InvalidFeeAllocation);
        }
        prev := Some(threshold);
        i := i + 1;
      }
      assert newThresholds[..i] == newThresholds;
      thresholds := newThresholds;
      reached := seq(|newThresholds|, _ => false);
      return Ok(());
    }

    method GetNextBurnMilestone() returns (next: Option<i128>)
      ensures next == NextMilestone(View())
    {
      ghost var flags := Aligned(reached, |thresholds|);
      var i := 0;
      assert thresholds[0..] == thresholds && flags[0..] == flags;
      while i < |thresholds|
        invariant 0 <= i <= |thresholds|
        invariant FirstUnreached(thresholds, flags) == FirstUnreached(thresholds[i..], flags[i..])
      {
        var isReached := i < |reached| && reached[i];
        if !isReached {
          return Some(thresholds[i]);
        }
        assert thresholds[i..][1..] == thresholds[i + 1..] && flags[i..][1..] == flags[i + 1..];
        i := i + 1;
      }
      return None;
    }
  }

  /** Thresholds that tokens and fees together have reached, up to the top of the type, are flagged. */
  ghost predicate ReachedAreFlagged(thresholds: seq<i128>, reached: seq<bool>, tokens: int, fees: int) {
    forall i :: 0 <= i < |thresholds| && thresholds[i] <= Min(tokens + fees, I128_MAX) ==>
      i < |reached| && reached[i]
  }

  lemma {:induction false} ReachedAreFlaggedByCheck(s: State, burn: i128, ledger: u32)
    ensures var after := Check(s, burn, ledger);
            ReachedAreFlagged(after.thresholds, after.reached, after.tokens, after.fees)
  {
    if s.thresholds != [] {
      var flags := Aligned(s.reached, |s.thresholds|);
      NothingFired(s.thresholds, flags, TotalBurned(s), burn, ledger);
      forall i | 0 <= i < |s.thresholds| && s.thresholds[i] <= Min(s.tokens + s.fees, I128_MAX)
        ensures Marked(s.thresholds, flags, TotalBurned(s))[i]
      {
      }
    }
  }

  lemma {:induction false} NoneFired(total: i128, burn: i128, ledger: u32)
    ensures Fired([], [], total, burn, ledger) == []
  {
  }

  lemma {:induction false} FiredStep(
      thresholds: seq<i128>, reached: seq<bool>, total: i128, burn: i128, ledger: u32, i: nat)
    requires |reached| == |thresholds| && i < |thresholds|
    ensures Fired(thresholds[..i + 1], reached[..i + 1], total, burn, ledger)
         == Fired(thresholds[..i], reached[..i], total, burn, ledger)
            + if !reached[i] && total >= thresholds[i] then [Event(thresholds[i], total, burn, ledger)] else []
  {
    assert thresholds[..i + 1][..i] == thresholds[..i] && reached[..i + 1][..i] == reached[..i];
  }

  lemma {:induction false} NotIncreasing(thresholds: seq<i128>, k: nat)
    requires k <= |thresholds| && !Increasing(thresholds[..k])
    ensures !Increasing(thresholds)
    decreases |thresholds|
  {
    if k == |thresholds| {
      assert thresholds[..k] == thresholds;
    } else {
      var rest := thresholds[..|thresholds| - 1];
      assert rest[..k] == thresholds[..k];
      NotIncreasing(rest, k);
    }
  }
}
