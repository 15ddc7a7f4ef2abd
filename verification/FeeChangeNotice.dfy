/**
  Notice period for unstake-fee increases (src/fee_change_notice.rs), together with the one
  path that writes the fee past it: enacting a governance proposal (src/vault.rs).
 */
module FeeChangeNotice {
  import opened Numeric

  const MAX_FEE_BPS: u32 := 2_000

  /** The ceiling of the governance path. */
  const MAX_UNSTAKE_FEE_BPS: u32 := 500

  datatype Error = UnstakeFeeTooHigh | ArithmeticError

  datatype Pending = Pending(newBps: u32, effectiveAt: u32)

  datatype State = State(fee: u32, pending: Option<Pending>, notice: u32)

  // ---------- Transitions ----------

  /** Applies a matured change. */
  function Settle(s: State, now: u32): State {
    if s.pending.Some? && now >= s.pending.value.effectiveAt
    then s.(fee := s.pending.value.newBps, pending := None) else s
  }

  /** The state afterwards, and whether the change was applied at once. */
  function Propose(s: State, newBps: u32, now: u32): Result<(State, bool), Error> {
    if newBps > MAX_FEE_BPS then Err(UnstakeFeeTooHigh)
    else
      var settled := Settle(s, now);
      if newBps <= settled.fee || settled.notice == 0 then Ok((settled.(fee := newBps, pending := None), true))
      else Ok((settled.(pending := Some(Pending(newBps, SatAddU32(now, settled.notice)))), false))
  }

  /** An enacted fee proposal overwrites the fee; it neither settles nor clears a pending change. */
  function Enact(s: State, newValue: i128): Result<State, Error> {
    if !(0 <= newValue <= U32_MAX) then Err(ArithmeticError)
    else if newValue > MAX_UNSTAKE_FEE_BPS then Err(UnstakeFeeTooHigh)
    else Ok(s.(fee := newValue))
  }

  datatype Op = SettleOp | ProposeOp(newBps: u32) | SetNoticeOp(ledgers: u32) | EnactOp(newValue: i128)

  datatype Call = Call(op: Op, now: u32)

  ghost function Step(s: State, call: Call): State {
    match call.op
    case SettleOp => Settle(s, call.now)
    case SetNoticeOp(ledgers) => s.(notice := ledgers)
    case ProposeOp(newBps) =>
      (match Propose(s, newBps, call.now)
       case Ok((after, _)) => after
       case Err(_) => s)
    case EnactOp(newValue) =>
      match Enact(s, newValue)
      case Ok(after) => after
      case Err(_) => s
  }

  /** Ledgers do not go back, nor before `start`. */
  ghost predicate InOrder(calls: seq<Call>, start: u32) {
    && (forall i :: 0 <= i < |calls| ==> start <= calls[i].now)
    && (forall i, j :: 0 <= i < j < |calls| ==> calls[i].now <= calls[j].now)
  }

  ghost function Run(s: State, calls: seq<Call>): State {
    if calls == [] then s else Step(Run(s, calls[..|calls| - 1]), calls[|calls| - 1])
  }

  ghost function Last(calls: seq<Call>, start: u32): u32 {
    if calls == [] then start else calls[|calls| - 1].now
  }

  /** The fee after a settling call. Readers take the stored fee, which lags behind until a proposal settles. */
  ghost function SettledFee(s: State, now: u32): u32 { Settle(s, now).fee }

  // ---------- The eager model: a change is applied in the very ledger it becomes effective ----------

  ghost function Tick(s: State, ledger: u32): State {
    if s.pending.Some? && s.pending.value.effectiveAt == ledger
    then s.(fee := s.pending.value.newBps, pending := None) else s
  }

  /** Lets the ledgers after `now` up to `then` pass, one tick each. */
  ghost function Pass(s: State, now: u32, end: u32): State
    requires now <= end
  {
    if now == end then s else Tick(Pass(s, now, end - 1), end)
  }

  /** The eager model has nothing to settle when it is called: it only acts on proposals, settings and enactments. */
  ghost function EagerStep(s: State, call: Call): State {
    match call.op
    case SettleOp => s
    case SetNoticeOp(ledgers) => s.(notice := ledgers)
    case EnactOp(newValue) => if 0 <= newValue <= MAX_UNSTAKE_FEE_BPS then s.(fee := newValue) else s
    case ProposeOp(newBps) =>
      if newBps > MAX_FEE_BPS then s
      else if newBps <= s.fee || s.notice == 0 then s.(fee := newBps, pending := None)
      else Tick(s.(pending := Some(Pending(newBps, Min(call.now + s.notice, U32_MAX)))), call.now)
  }

  ghost function EagerRun(s: State, calls: seq<Call>, start: u32): State
    requires InOrder(calls, start)
  {
    if calls == [] then s
    else
      var before, call := calls[..|calls| - 1], calls[|calls| - 1];
      EagerStep(Pass(EagerRun(s, before, start), Last(before, start), call.now), call)
  }

  ghost predicate Future(s: State, now: u32) {
    s.pending.Some? ==> now < s.pending.value.effectiveAt
  }

  lemma {:induction false} PassSettles(s: State, now: u32, end: u32)
    requires now <= end && Future(s, now)
    ensures Pass(s, now, end) == Settle(s, end)
  {
    if now < end {
      PassSettles(s, now, end - 1);
    }
  }

  lemma {:induction false} SettleTwice(s: State, now: u32, later: u32)
    requires now <= later
    ensures Settle(Settle(s, now), later) == Settle(s, later)
    ensures Future(Settle(s, now), now)
  {
  }

  lemma {:induction false} EagerIsAhead(s: State, calls: seq<Call>, start: u32)
    requires InOrder(calls, start) && Future(s, start)
    ensures Future(EagerRun(s, calls, start), Last(calls, start))
  {
    if calls != [] {
      var before, call := calls[..|calls| - 1], calls[|calls| - 1];
      EagerIsAhead(s, before, start);
      PassSettles(EagerRun(s, before, start), Last(before, start), call.now);
    }
  }

  /** An enactment that a matured but unsettled change of another value will later override. */
  ghost predicate Overtaken(s: State, call: Call) {
    && call.op.EnactOp? && Enact(s, call.op.newValue).Ok?
    && s.pending.Some? && s.pending.value.effectiveAt <= call.now
    && s.pending.value.newBps != call.op.newValue
  }

  /**
    One call keeps lazy and eager together exactly when it is not an overtaken enactment; after
    one, settling puts the older pending change in place of the enacted value.
   */
  lemma {:induction false} StepRefines(lazy: State, call: Call)
    ensures EagerStep(Settle(lazy, call.now), call) == Settle(Step(lazy, call), call.now) <==> !Overtaken(lazy, call)
    ensures Overtaken(lazy, call) ==> SettledFee(Step(lazy, call), call.now) == lazy.pending.value.newBps
  {
  }

  /** From the end of a run on, the fee seen after settling is that of the eager model at every ledger. */
  ghost predicate Agrees(s: State, calls: seq<Call>, start: u32)
    requires InOrder(calls, start)
  {
    forall now: u32 :: Last(calls, start) <= now ==>
      Settle(Run(s, calls), now) == Pass(EagerRun(s, calls, start), Last(calls, start), now)
  }

  lemma {:induction false} AgreesAtEnd(s: State, calls: seq<Call>, start: u32)
    requires InOrder(calls, start) && Future(s, start)
    ensures Agrees(s, calls, start) <==> EagerRun(s, calls, start) == Settle(Run(s, calls), Last(calls, start))
  {
    var end, eager := Last(calls, start), EagerRun(s, calls, start);
    EagerIsAhead(s, calls, start);
    assert Pass(eager, end, end) == eager;
    hide EagerRun, Run;
    if eager == Settle(Run(s, calls), end) {
      forall now: u32 | end <= now ensures Settle(Run(s, calls), now) == Pass(eager, end, now) {
        PassSettles(eager, end, now);
        SettleTwice(Run(s, calls), end, now);
      }
    }
  }

  lemma {:induction false} AgreementStep(s: State, calls: seq<Call>, start: u32)
    requires InOrder(calls, start) && Future(s, start) && calls != []
    requires Agrees(s, calls[..|calls| - 1], start)
    ensures Agrees(s, calls, start) <==> !Overtaken(Run(s, calls[..|calls| - 1]), calls[|calls| - 1])
  {
    var before, call := calls[..|calls| - 1], calls[|calls| - 1];
    var lazy := Run(s, before);
    AgreesAtEnd(s, before, start);
    AgreesAtEnd(s, calls, start);
    EagerIsAhead(s, before, start);
    PassSettles(EagerRun(s, before, start), Last(before, start), call.now);
    SettleTwice(lazy, Last(before, start), call.now);
    StepRefines(lazy, call);
  }

  ghost predicate AlwaysAgrees(s: State, calls: seq<Call>, start: u32)
    requires InOrder(calls, start)
  {
    forall n :: 0 <= n <= |calls| ==> Agrees(s, calls[..n], start)
  }

  ghost predicate NothingOvertaken(s: State, calls: seq<Call>) {
    forall i :: 0 <= i < |calls| ==> !Overtaken(Run(s, calls[..i]), calls[i])
  }

  /**
    However the settling calls are spaced, the fee seen after settling is at every ledger that of
    the eager model, all through a run, if and only if no enactment met a matured change of
    another value that was still unsettled.
   */
  lemma {:induction false} LazyRefinesEager(s: State, calls: seq<Call>, start: u32)
    requires InOrder(calls, start) && Future(s, start)
    ensures AlwaysAgrees(s, calls, start) <==> NothingOvertaken(s, calls)
  {
    hide AlwaysAgrees, NothingOvertaken, Agrees, Overtaken, Run;
    if calls == [] {
      NothingHappened(s, calls, start);
    } else {
      LazyRefinesEager(s, calls[..|calls| - 1], start);
      AgreementExtends(s, calls, start);
      OvertakenExtends(s, calls);
      if AlwaysAgrees(s, calls[..|calls| - 1], start) {
        AgreesBefore(s, calls, start);
        AgreementStep(s, calls, start);
      }
    }
  }

  lemma {:induction false} AgreesBefore(s: State, calls: seq<Call>, start: u32)
    requires InOrder(calls, start) && calls != [] && AlwaysAgrees(s, calls[..|calls| - 1], start)
    ensures Agrees(s, calls[..|calls| - 1], start)
  {
    hide Agrees;
    var before := calls[..|calls| - 1];
    assert before[..|before|] == before;
  }

  lemma {:induction false} AgreementExtends(s: State, calls: seq<Call>, start: u32)
    requires InOrder(calls, start) && calls != []
    ensures AlwaysAgrees(s, calls, start) <==> AlwaysAgrees(s, calls[..|calls| - 1], start) && Agrees(s, calls, start)
  {
    hide Agrees;
    var before := calls[..|calls| - 1];
    assert forall i :: 0 <= i <= |before| ==> before[..i] == calls[..i];
    assert calls[..|calls|] == calls;
    if AlwaysAgrees(s, calls, start) {
      assert Agrees(s, calls[..|calls|], start);
      forall i | 0 <= i <= |before| ensures Agrees(s, before[..i], start) {
        assert Agrees(s, calls[..i], start);
      }
    }
  }

  lemma {:induction false} OvertakenExtends(s: State, calls: seq<Call>)
    requires calls != []
    ensures NothingOvertaken(s, calls)
            <==> NothingOvertaken(s, calls[..|calls| - 1])
                 && !Overtaken(Run(s, calls[..|calls| - 1]), calls[|calls| - 1])
  {
    hide Overtaken, Run;
    var before := calls[..|calls| - 1];
    assert forall i :: 0 <= i < |before| ==> before[..i] == calls[..i] && before[i] == calls[i];
    if NothingOvertaken(s, calls) {
      forall i | 0 <= i < |before| ensures !Overtaken(Run(s, before[..i]), before[i]) {
        assert !Overtaken(Run(s, calls[..i]), calls[i]);
      }
    }
  }

  lemma {:induction false} NothingHappened(s: State, calls: seq<Call>, start: u32)
    requires calls == [] && Future(s, start)
    ensures AlwaysAgrees(s, calls, start) && NothingOvertaken(s, calls)
  {
    assert calls[..0] == [];
    AgreesAtEnd(s, [], start);
  }

  /** Without enactments the refinement is unconditional. */
  lemma {:induction false} ProposalsRefine(s: State, calls: seq<Call>, start: u32)
    requires InOrder(calls, start) && Future(s, start)
    requires forall i :: 0 <= i < |calls| ==> !calls[i].op.EnactOp?
    ensures Agrees(s, calls, start)
  {
    LazyRefinesEager(s, calls, start);
    assert calls[..|calls|] == calls;
  }

  /** A matured change of another value that no proposal has settled yet. */
  ghost predicate Lags(s: State, now: u32) {
    s.pending.Some? && s.pending.value.effectiveAt <= now && s.pending.value.newBps != s.fee
  }

  /**
    Where no enactment was overtaken, the stored fee, which is the flat fee users are charged, is
    that of the eager model exactly while no matured change waits.
   */
  lemma {:induction false} StoredFeeExactlyWhen(s: State, calls: seq<Call>, start: u32, now: u32)
    requires InOrder(calls, start) && Future(s, start) && Last(calls, start) <= now
    requires NothingOvertaken(s, calls)
    ensures Run(s, calls).fee == Pass(EagerRun(s, calls, start), Last(calls, start), now).fee
            <==> !Lags(Run(s, calls), now)
  {
    LazyRefinesEager(s, calls, start);
    assert calls[..|calls|] == calls;
    assert Agrees(s, calls, start);
    assert Settle(Run(s, calls), now) == Pass(EagerRun(s, calls, start), Last(calls, start), now);
    hide Run, EagerRun, Pass;
  }

  // ---------- Every rise was announced ----------

  /** A proposal that was accepted, with the notice period in force at the time. */
  datatype Accepted = Accepted(ledger: u32, bps: u32, notice: u32)

  /** The latest accepted proposal of a run. */
  ghost function Latest(s: State, calls: seq<Call>): Option<Accepted> {
    if calls == [] then None
    else
      var before, call := calls[..|calls| - 1], calls[|calls| - 1];
      if call.op.ProposeOp? && call.op.newBps <= MAX_FEE_BPS
      then Some(Accepted(call.now, call.op.newBps, Run(s, before).notice))
      else Latest(s, before)
  }

  ghost predicate Announced(s: State, latest: Option<Accepted>) {
    && s.fee <= MAX_FEE_BPS
    && (s.pending.Some? ==>
          && latest.Some? && 0 < latest.value.notice
          && s.pending.value == Pending(latest.value.bps, SatAddU32(latest.value.ledger, latest.value.notice))
          && latest.value.bps <= MAX_FEE_BPS)
  }

  lemma {:induction false} AlwaysAnnounced(s: State, calls: seq<Call>)
    requires s.fee <= MAX_FEE_BPS && s.pending == None
    ensures Announced(Run(s, calls), Latest(s, calls))
  {
    if calls != [] {
      AlwaysAnnounced(s, calls[..|calls| - 1]);
    }
  }

  /**
    A fee that rises as time passes was the latest accepted proposal, made under a non-zero
    notice a full notice period earlier; only at the very last ledger can the period be cut
    short. The ceiling is never exceeded.
   */
  lemma {:induction false} RisesAreAnnounced(s: State, calls: seq<Call>, t1: u32, t2: u32)
    requires s.fee <= MAX_FEE_BPS && s.pending == None && t1 <= t2
    ensures SettledFee(Run(s, calls), t2) <= MAX_FEE_BPS
    ensures SettledFee(Run(s, calls), t1) < SettledFee(Run(s, calls), t2) ==>
              var latest := Latest(s, calls);
              && latest.Some? && latest.value.bps == SettledFee(Run(s, calls), t2) && 0 < latest.value.notice
              && (latest.value.ledger + latest.value.notice <= t2 || t2 == U32_MAX)
              && t1 < latest.value.ledger + latest.value.notice
  {
    AlwaysAnnounced(s, calls);
  }

  ghost predicate RaisesAtOnce(s: State, call: Call) {
    SettledFee(s, call.now) < SettledFee(Step(s, call), call.now)
  }

  /** An enactment above the fee, with no matured change waiting to override it. */
  ghost predicate EnactsRise(s: State, call: Call) {
    && call.op.EnactOp? && s.fee < call.op.newValue <= MAX_UNSTAKE_FEE_BPS
    && (s.pending.None? || call.now < s.pending.value.effectiveAt)
  }

  /** The call is a proposal made while no notice is required (or in the very last ledger). */
  ghost predicate NoticeFree(s: State, call: Call) {
    && call.op.ProposeOp? && SettledFee(Step(s, call), call.now) == call.op.newBps
    && (s.notice == 0 || call.now == U32_MAX)
  }

  /**
    A call that raises the settled fee at once is a notice-free proposal or an enacted rise, and
    every enacted rise does so.
   */
  lemma {:induction false} RaisedAtOnceBy(s: State, call: Call)
    ensures RaisesAtOnce(s, call) ==> NoticeFree(s, call) || EnactsRise(s, call)
    ensures EnactsRise(s, call) ==> RaisesAtOnce(s, call) && !NoticeFree(s, call)
  {
  }

  /**
    Every rise of a run was proposed: at a call while no notice was required, between calls a
    full notice period earlier.
   */
  ghost predicate EveryRiseProposed(s: State, calls: seq<Call>) {
    && (forall i :: 0 <= i < |calls| && RaisesAtOnce(Run(s, calls[..i]), calls[i]) ==>
          NoticeFree(Run(s, calls[..i]), calls[i]))
    && (forall i, t1: u32, t2: u32 :: 0 <= i <= |calls| ==> ProposedRise(s, calls[..i], t1, t2))
  }

  /** If the fee rises between the two ledgers, the latest accepted proposal is why, and it gave its notice. */
  ghost predicate ProposedRise(s: State, calls: seq<Call>, t1: u32, t2: u32) {
    t1 <= t2 && SettledFee(Run(s, calls), t1) < SettledFee(Run(s, calls), t2) ==>
      var latest := Latest(s, calls);
      && latest.Some? && latest.value.bps == SettledFee(Run(s, calls), t2) && 0 < latest.value.notice
      && (latest.value.ledger + latest.value.notice <= t2 || t2 == U32_MAX)
  }

  /** All rises of a run were proposed if and only if no enactment raised the fee. */
  lemma {:induction false} ProposedExactlyWhen(s: State, calls: seq<Call>)
    requires s.fee <= MAX_FEE_BPS && s.pending == None
    ensures EveryRiseProposed(s, calls)
            <==> forall i :: 0 <= i < |calls| ==> !EnactsRise(Run(s, calls[..i]), calls[i])
  {
    forall i, t1: u32, t2: u32 | 0 <= i <= |calls| ensures ProposedRise(s, calls[..i], t1, t2) {
      if t1 <= t2 {
        RisesAreAnnounced(s, calls[..i], t1, t2);
      }
    }
    forall i | 0 <= i < |calls|
      ensures RaisesAtOnce(Run(s, calls[..i]), calls[i]) ==>
                NoticeFree(Run(s, calls[..i]), calls[i]) || EnactsRise(Run(s, calls[..i]), calls[i])
      ensures EnactsRise(Run(s, calls[..i]), calls[i]) ==>
                RaisesAtOnce(Run(s, calls[..i]), calls[i]) && !NoticeFree(Run(s, calls[..i]), calls[i])
    {
      RaisedAtOnceBy(Run(s, calls[..i]), calls[i]);
    }
  }

  /**
    From every fee below its ceiling, governance raises the fee at once, whatever the notice
    period and with no proposal at all.
   */
  lemma {:induction false} EnactmentNeedsNoProposal(fee: u32, notice: u32, now: u32)
    requires fee < MAX_UNSTAKE_FEE_BPS
    ensures var s, calls := State(fee, None, notice), [Call(EnactOp(MAX_UNSTAKE_FEE_BPS), now)];
            && SettledFee(s, now) < SettledFee(Run(s, calls), now) && s.fee < Run(s, calls).fee
            && Latest(s, calls) == None && !EveryRiseProposed(s, calls)
  {
    var s, call := State(fee, None, notice), Call(EnactOp(MAX_UNSTAKE_FEE_BPS), now);
    var calls := [call];
    assert calls[..0] == [] && Run(s, []) == s && EnactsRise(Run(s, calls[..0]), calls[0]);
    assert Latest(s, []) == None;
    ProposedExactlyWhen(s, calls);
  }

  // ---------- Rises of the stored fee ----------

  ghost predicate RaisesStored(s: State, call: Call) {
    s.fee < Step(s, call).fee
  }

  ghost predicate Matured(s: State, now: u32) {
    s.pending.Some? && s.pending.value.effectiveAt <= now
  }

  /** The calls that raise the stored fee, kind by kind, in terms of the state before. */
  lemma {:induction false} RaisesStoredExactlyWhen(s: State, call: Call)
    ensures RaisesStored(s, call) <==>
              match call.op
              case SettleOp => Matured(s, call.now) && s.fee < s.pending.value.newBps
              case SetNoticeOp(_) => false
              case EnactOp(newValue) => s.fee < newValue <= MAX_UNSTAKE_FEE_BPS
              case ProposeOp(newBps) =>
                && newBps <= MAX_FEE_BPS
                && ((s.notice == 0 && s.fee < newBps)
                    || (Matured(s, call.now) && s.fee < Min(newBps, s.pending.value.newBps)))
  {
  }

  /**
    A rise of the stored fee was proposed: by the call itself while no notice was required, or
    up to the latest proposal before it, accepted a full notice period earlier (shorter only at
    the very last ledger).
   */
  ghost predicate StoredRiseProposed(s: State, latest: Option<Accepted>, call: Call) {
    && !call.op.EnactOp?
    && ((call.op.ProposeOp? && s.notice == 0 && Step(s, call).fee == call.op.newBps)
        || (latest.Some? && 0 < latest.value.notice && Step(s, call).fee <= latest.value.bps
            && (latest.value.ledger + latest.value.notice <= call.now || call.now == U32_MAX)))
  }

  ghost predicate EveryStoredRiseProposed(s: State, calls: seq<Call>) {
    forall i :: 0 <= i < |calls| && RaisesStored(Run(s, calls[..i]), calls[i]) ==>
      StoredRiseProposed(Run(s, calls[..i]), Latest(s, calls[..i]), calls[i])
  }

  ghost predicate EnactsStoredRise(s: State, call: Call) {
    call.op.EnactOp? && s.fee < call.op.newValue <= MAX_UNSTAKE_FEE_BPS
  }

  /** All rises of the stored fee over a run were proposed if and only if no accepted enactment raised it. */
  lemma {:induction false} StoredRisesExactlyWhen(s: State, calls: seq<Call>)
    requires s.fee <= MAX_FEE_BPS && s.pending == None
    ensures EveryStoredRiseProposed(s, calls)
            <==> forall i :: 0 <= i < |calls| ==> !EnactsStoredRise(Run(s, calls[..i]), calls[i])
  {
    forall i | 0 <= i < |calls|
      ensures (RaisesStored(Run(s, calls[..i]), calls[i]) ==>
                 StoredRiseProposed(Run(s, calls[..i]), Latest(s, calls[..i]), calls[i]))
              <==> !EnactsStoredRise(Run(s, calls[..i]), calls[i])
    {
      AlwaysAnnounced(s, calls[..i]);
      StoredRiseStep(Run(s, calls[..i]), Latest(s, calls[..i]), calls[i]);
    }
  }

  lemma {:induction false} StoredRiseStep(s: State, latest: Option<Accepted>, call: Call)
    requires Announced(s, latest)
    ensures (RaisesStored(s, call) ==> StoredRiseProposed(s, latest, call)) <==> !EnactsStoredRise(s, call)
  {
    RaisesStoredExactlyWhen(s, call);
  }

  /** A rise is queued under a notice, matures unsettled, and a lower proposal is made later. */
  ghost function LateProposal(queued: u32, lower: u32, now: u32): seq<Call> {
    [] + [Call(ProposeOp(queued), 0)] + [Call(ProposeOp(lower), now)]
  }

  /**
    With no enactment at all, and under a notice period, the stored fee rises to a value in the
    very ledger it is proposed: the proposal settles a matured higher change first and so counts
    as a reduction.
   */
  lemma {:induction false} StoredFeeJumps(fee: u32, lower: u32, queued: u32, notice: u32, now: u32)
    requires fee < lower <= queued <= MAX_FEE_BPS && 0 < notice <= now
    ensures var s, calls := State(fee, None, notice), LateProposal(queued, lower, now);
            && Run(s, calls[..1]).fee == fee && Run(s, calls).fee == lower
            && Latest(s, calls) == Some(Accepted(now, lower, notice))
            && EveryRiseProposed(s, calls)
  {
    var s, calls := State(fee, None, notice), LateProposal(queued, lower, now);
    assert calls[..0] == [] && calls[..1] == [calls[0]] && calls[..1][..0] == [] && calls[..2] == calls;
    assert Run(s, calls[..1]) == Step(s, calls[0]);
    assert Run(s, calls) == Step(Run(s, calls[..1]), calls[1]);
    hide Run;
    ProposedExactlyWhen(s, calls);
  }

  /**
    A proposal is refused exactly above the ceiling. It is answered as applied exactly when the
    stored fee is the proposed one afterwards with nothing pending, and otherwise as queued, with
    the proposed value pending for a full notice period.
   */
  lemma {:induction false} AnswersExactly(s: State, newBps: u32, now: u32)
    ensures Propose(s, newBps, now).Ok? <==> newBps <= 2_000
    ensures Propose(s, newBps, now).Ok? ==>
              var (after, applied) := Propose(s, newBps, now).value;
              && (applied <==> after.fee == newBps && after.pending == None)
              && (!applied ==> after.pending == Some(Pending(newBps, Min(now + s.notice, U32_MAX)))
                               && after.fee == SettledFee(s, now) < newBps && 0 < s.notice)
  {
  }

  // ---------- Storage ----------

  class FeeNotice {
    var unstakeFeeBps: u32
    var pending: Option<Pending>
    var noticeLedgers: u32

    ghost function View(): State
      reads this
    {
      State(unstakeFeeBps, pending, noticeLedgers)
    }

    constructor ()
      ensures View() == State(0, None, 0)
    {
      unstakeFeeBps, pending, noticeLedgers := 0, None, 0;
    }

    method SetFeeNoticeLedgers(ledgers: u32)
      modifies this`noticeLedgers
      ensures View() == old(View()).(notice := ledgers)
    {
      noticeLedgers := ledgers;
    }

    method SettlePendingFeeChange(now: u32)
      modifies this
      ensures View() == Settle(old(View()), now)
    {
      if pending.Some? {
        if now >= pending.value.effectiveAt {
          unstakeFeeBps := pending.value.newBps;
          pending := None;
        }
      }
    }

    /** The fee branch of enacting a proposal that passed. */
    method EnactUnstakeFee(newValue: i128) returns (r: Result<(), Error>)
      modifies this`unstakeFeeBps
      ensures match Enact(old(View()), newValue)
              case Ok(after) => r == Ok(()) && View() == after
              case Err(e) => r == Err(e) && View() == old(View())
    {
      if newValue < 0 || newValue > U32_MAX {
        return Err(ArithmeticError);
      }
      if newValue > MAX_UNSTAKE_FEE_BPS {
        return Err(UnstakeFeeTooHigh);
      }
      unstakeFeeBps := newValue;
      return Ok(());
    }

    method ProposeFeeChange(newBps: u32, now: u32) returns (r: Result<bool, Error>)
      modifies this
      ensures match Propose(old(View()), newBps, now)
              case Ok((after, applied)) => r == Ok(applied) && View() == after
              case Err(e) => r == Err(e) && View() == old(View())
    {
      if newBps > MAX_FEE_BPS {
        return Err(UnstakeFeeTooHigh);
      }
      SettlePendingFeeChange(now);
      if newBps <= unstakeFeeBps || noticeLedgers == 0 {
        unstakeFeeBps := newBps;
        pending := None;
        return Ok(true);
      } else {
        pending := Some(Pending(newBps, SatAddU32(now, noticeLedgers)));
        return Ok(false);
      }
    }
  }
}
