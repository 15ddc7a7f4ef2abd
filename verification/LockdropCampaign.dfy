/**
  Lockdrop campaigns (src/lockdrop_campaign.rs): users lock tokens for a chosen time and
  share a fixed reward pool in proportion to amount times duration.

  `held` is the part of the contract's token balance that the lockdrop brought in and has
  not yet paid out.
 */
module LockdropCampaign {
  import opened Numeric
  import opened MapSums

  const MAX_COMMITTERS: int := 500

  datatype Config = Config(totalRewardPool: i128, maxLockLedgers: u32, endsAt: u32, finalized: bool)

  datatype Commitment = Commitment(lockedAmount: i128, lockDuration: u32, score: i128, committedAt: u32)

  datatype Error =
    | LockdropAlreadyActive | ZeroAmount | InvalidLockDuration | LockdropNotActive
    | LockdropAlreadyFinalized | LockdropEnded | AlreadyCommitted | LockdropFull
    | ArithmeticError | LockdropNotEnded | LockdropNotFinalized | CommitmentNotFound
    | AlreadyClaimed | NothingToClaim | LockStillActive

  datatype State = State(
    config: Option<Config>,
    totalScore: i128,
    committers: seq<Address>,
    commitments: map<Address, Commitment>,
    allocations: map<Address, i128>,
    claimed: set<Address>,
    held: int)

  const INITIAL := State(None, 0, [], map[], map[], {}, 0)

  // ---------- Transitions; an error leaves the state as it was ----------

  function Start(s: State, pool: i128, maxLock: u32, duration: u32, now: u32): Result<State, Error> {
    if s.config.Some? && !s.config.value.finalized then Err(LockdropAlreadyActive)
    else if pool <= 0 then Err(ZeroAmount)
    else if maxLock == 0 || duration == 0 then Err(InvalidLockDuration)
    else Ok(s.(config := Some(Config(pool, maxLock, SatAddU32(now, duration), false)),
               totalScore := 0, committers := [], held := s.held + pool))
  }

  function Commit(s: State, user: Address, amount: i128, duration: u32, now: u32): Result<State, Error> {
    if s.config.None? then Err(LockdropNotActive)
    else if s.config.value.finalized then Err(LockdropAlreadyFinalized)
    else if now > s.config.value.endsAt then Err(LockdropEnded)
    else if amount <= 0 then Err(ZeroAmount)
    else if duration == 0 || duration > s.config.value.maxLockLedgers then Err(InvalidLockDuration)
    else if user in s.commitments then Err(AlreadyCommitted)
    else if |s.committers| >= MAX_COMMITTERS then Err(LockdropFull)
    else match Checked(amount * duration)
      case None => Err(ArithmeticError)
      case Some(score) =>
        Ok(s.(commitments := s.commitments[user := Commitment(amount, duration, score, now)],
              committers := s.committers + [user],
              totalScore := SatAdd(s.totalScore, score),
              held := s.held + amount))
  }

  function Share(pool: i128, score: i128, totalScore: i128): i128
    requires 0 < totalScore
  {
    Clamp(TruncDiv(SatMul(pool, score), totalScore))
  }

  /** The shares of all users of `committers` that still hold a commitment. */
  function Shares(pool: i128, totalScore: i128, committers: seq<Address>, commitments: map<Address, Commitment>)
    : map<Address, i128>
    requires 0 < totalScore
  {
    map u | u in committers && u in commitments :: Share(pool, commitments[u].score, totalScore)
  }

  function Finalize(s: State, now: u32): Result<State, Error> {
    if s.config.None? then Err(LockdropNotActive)
    else if s.config.value.finalized then Err(LockdropAlreadyFinalized)
    else if now <= s.config.value.endsAt then Err(LockdropNotEnded)
    else
      var shares := if s.totalScore > 0
        then Shares(s.config.value.totalRewardPool, s.totalScore, s.committers, s.commitments) else map[];
      Ok(s.(allocations := s.allocations + shares, config := Some(s.config.value.(finalized := true))))
  }

  function Allocation(s: State, user: Address): i128 {
    if user in s.allocations then s.allocations[user] else 0
  }

  function Claim(s: State, user: Address): Result<State, Error> {
    if s.config.None? then Err(LockdropNotActive)
    else if !s.config.value.finalized then Err(LockdropNotFinalized)
    else if user !in s.commitments then Err(CommitmentNotFound)
    else if user in s.claimed then Err(AlreadyClaimed)
    else if Allocation(s, user) <= 0 then Err(NothingToClaim)
    else Ok(s.(claimed := s.claimed + {user}, held := s.held - Allocation(s, user)))
  }

  function Exit(s: State, user: Address, now: u32): Result<State, Error> {
    if user !in s.commitments then Err(CommitmentNotFound)
    else
      var c := s.commitments[user];
      if now < SatAddU32(c.committedAt, c.lockDuration) then Err(LockStillActive)
      else Ok(s.(commitments := s.commitments - {user}, held := s.held - c.lockedAmount))
  }

  // ---------- What the contract owes ----------

  ghost function Locks(s: State): map<Address, int> {
    map u | u in s.commitments :: s.commitments[u].lockedAmount
  }

  ghost function OpenClaims(s: State): map<Address, int> {
    map u | u in s.allocations && u !in s.claimed :: s.allocations[u]
  }

  ghost function Principal(s: State): int { Sum(Locks(s)) }

  ghost function Unclaimed(s: State): int { Sum(OpenClaims(s)) }

  ghost function OpenPool(s: State): int {
    if s.config.Some? && !s.config.value.finalized then s.config.value.totalRewardPool else 0
  }

  /** Tokens held cover every lock, every unclaimed allocation and the pool not yet split. */
  ghost predicate Solvent(s: State) {
    s.held >= Principal(s) + Unclaimed(s) + OpenPool(s)
  }

  /** Scores of the listed committers that still hold a commitment, each user once. */
  ghost function LiveScores(s: State): map<Address, int> {
    map u | u in s.committers && u in s.commitments :: s.commitments[u].score
  }

  /** Nobody is listed twice and every listed user still holds a commitment. */
  ghost predicate NobodyLeft(s: State) {
    NoRepeats(s.committers) && forall u :: u in s.committers ==> u in s.commitments
  }

  ghost predicate Inv(s: State) {
    && (forall u :: u in s.commitments ==>
          0 < s.commitments[u].lockedAmount <= s.commitments[u].score)
    && (forall u :: u in s.allocations ==> 0 <= s.allocations[u])
    && |s.committers| <= MAX_COMMITTERS
    && 0 <= s.totalScore
    && (OpenPool(s) > 0 && s.totalScore < I128_MAX ==> Sum(LiveScores(s)) <= s.totalScore)
    && (OpenPool(s) > 0 && s.totalScore < I128_MAX && NobodyLeft(s) ==> Sum(LiveScores(s)) == s.totalScore)
    && (s.config.Some? ==> 0 < s.config.value.totalRewardPool)
    && Solvent(s)
  }

  /** Live committers whose product with the pool reaches the top of `i128`. */
  ghost function TopHeavy(s: State): set<Address>
    requires s.config.Some?
  {
    set u | u in s.committers && u in s.commitments
            && s.config.value.totalRewardPool * s.commitments[u].score >= I128_MAX
  }

  /**
    Checkable before finalizing: the total score is not pinned at its maximum, or the
    pool has a unit for every top-heavy committer.
   */
  ghost predicate SafeToFinalize(s: State) {
    s.config.None? || s.totalScore < I128_MAX || |TopHeavy(s)| <= s.config.value.totalRewardPool
  }

  /** Claims left open from earlier campaigns that the coming split does not overwrite. */
  ghost function StaleClaims(s: State): map<Address, int> {
    map u | u in OpenClaims(s) && !(u in s.committers && u in s.commitments) :: s.allocations[u]
  }

  /**
    Checkable before finalizing: the total score is not pinned at its maximum, or what is held
    covers the locks, the claims that stay open and a unit for each top-heavy committer who can
    still claim.
   */
  ghost predicate Covered(s: State) {
    s.config.None? || s.totalScore < I128_MAX
    || s.held >= Principal(s) + Sum(StaleClaims(s)) + |TopHeavy(s) - s.claimed|
  }

  // ---------- The split of the pool ----------

  /** A sum of shares is at most the exact part of the pool. */
  ghost predicate AtMostPart(total: int, sum: int, pool: int, part: int) {
    total * sum <= pool * part
  }

  /** A sum of `k` floored shares is short of the exact part of the pool by less than one unit each. */
  ghost predicate LosesBelow(total: int, sum: int, pool: int, part: int, k: nat) {
    pool * part <= total * sum + k * (total - 1)
  }

  lemma {:induction false} AddParts(
      total: int, a: int, b: int, pool: int, x: int, y: int, k: nat)
    ensures AtMostPart(total, 0, pool, 0) && LosesBelow(total, 0, pool, 0, 0)
    ensures AtMostPart(total, a, pool, x) && AtMostPart(total, b, pool, y) ==> AtMostPart(total, a + b, pool, x + y)
    ensures LosesBelow(total, a, pool, x, 1) && LosesBelow(total, b, pool, y, k) ==>
              LosesBelow(total, a + b, pool, x + y, k + 1)
  {
    Distribute(total, a, b);
    Distribute(pool, x, y);
    Distribute(total - 1, k, 1);
  }

  lemma {:induction false} OneShare(pool: i128, score: int, totalScore: i128)
    requires 0 < pool && 0 < score <= I128_MAX && 0 < totalScore
    ensures AtMostPart(totalScore, Share(pool, score, totalScore), pool, score)
    ensures pool * score <= I128_MAX ==> LosesBelow(totalScore, Share(pool, score, totalScore), pool, score, 1)
  {
    ShareBounds(pool, score, totalScore);
    hide Share;
  }

  /** Shares of a pool: their sum times the total score is at most pool times the scores. */
  lemma {:induction false} SplitBelow(
      pool: i128, totalScore: i128, scores: map<Address, int>, shares: map<Address, int>)
    requires 0 < pool && 0 < totalScore && shares.Keys == scores.Keys
    requires forall u :: u in scores ==> 0 < scores[u] <= I128_MAX && shares[u] == Share(pool, scores[u], totalScore)
    ensures AtMostPart(totalScore, Sum(shares), pool, Sum(scores))
    decreases |scores|
  {
    hide *;
    if scores == map[] {
      NothingSplit(pool, totalScore, scores, shares);
    } else {
      var u :| u in scores;
      SumRemove(scores, u);
      SumRemove(shares, u);
      SplitBelow(pool, totalScore, scores - {u}, shares - {u});
      OneShare(pool, scores[u], totalScore);
      AddParts(totalScore, shares[u], Sum(shares - {u}), pool, scores[u], Sum(scores - {u}), 0);
    }
  }

  lemma {:induction false} NothingSplit(
      pool: i128, totalScore: i128, scores: map<Address, int>, shares: map<Address, int>)
    requires scores == map[] && shares.Keys == scores.Keys
    ensures AtMostPart(totalScore, Sum(shares), pool, Sum(scores))
    ensures LosesBelow(totalScore, Sum(shares), pool, Sum(scores), |scores|)
  {
    hide Sum;
    SumEmpty<Address>();
    assert shares == map[];
    AddParts(totalScore, 0, 0, pool, 0, 0, 0);
  }

  lemma {:induction false} ShareBounds(pool: i128, score: i128, totalScore: i128)
    requires 0 < pool && 0 < score && 0 < totalScore
    ensures 0 <= Share(pool, score, totalScore)
    ensures totalScore * Share(pool, score, totalScore) <= pool * score
    ensures pool * score <= I128_MAX ==> pool * score < totalScore * Share(pool, score, totalScore) + totalScore
    ensures totalScore == I128_MAX ==> Share(pool, score, totalScore) == if pool * score >= I128_MAX then 1 else 0
    ensures Share(pool, score, totalScore) == SatMul(pool, score) / totalScore
  {
    MulLe(1, pool, score);
    var product := SatMul(pool, score);
    var q := product / totalScore;
    FloorBounds(product, totalScore);
    FloorMonotone(0, product, totalScore);
    FloorMonotone(product, I128_MAX, totalScore);
    MulLe(1, totalScore, q);
    if totalScore == I128_MAX {
      FloorUnique(product, I128_MAX, if pool * score >= I128_MAX then 1 else 0);
    }
  }

  /** With no product saturated, flooring loses less than one unit per user. */
  lemma {:induction false} SplitAbove(
      pool: i128, totalScore: i128, scores: map<Address, int>, shares: map<Address, int>)
    requires 0 < pool && 0 < totalScore && shares.Keys == scores.Keys
    requires forall u :: u in scores ==>
               && 0 < scores[u] <= I128_MAX && pool * scores[u] <= I128_MAX
               && shares[u] == Share(pool, scores[u], totalScore)
    ensures LosesBelow(totalScore, Sum(shares), pool, Sum(scores), |scores|)
    decreases |scores|
  {
    hide *;
    if scores == map[] {
      NothingSplit(pool, totalScore, scores, shares);
    } else {
      var u :| u in scores;
      SumRemove(scores, u);
      SumRemove(shares, u);
      SplitAbove(pool, totalScore, scores - {u}, shares - {u});
      OneShare(pool, scores[u], totalScore);
      OneLess(scores, u);
      AddParts(totalScore, shares[u], Sum(shares - {u}), pool, scores[u], Sum(scores - {u}), |scores - {u}|);
    }
  }

  lemma {:induction false} OneLess(m: map<Address, int>, u: Address)
    requires u in m
    ensures |m| == |m - {u}| + 1
  {
    assert m.Keys == (m - {u}).Keys + {u};
  }

  lemma {:induction false} ZeroOrOneEach(shares: map<Address, int>, ones: set<Address>)
    requires forall u :: u in shares ==> shares[u] == if u in ones then 1 else 0
    requires forall u :: u in ones ==> u in shares
    ensures Sum(shares) == |ones|
    decreases |shares|
  {
    if shares == map[] {
      assert ones == {};
    } else {
      var u :| u in shares;
      SumRemove(shares, u);
      ZeroOrOneEach(shares - {u}, ones - {u});
      assert u in ones ==> ones == (ones - {u}) + {u};
      assert u !in ones ==> ones == ones - {u};
    }
  }

  lemma {:induction false} DistinctAtMost(users: seq<Address>, members: set<Address>)
    requires forall u :: u in members ==> u in users
    ensures |members| <= |users|
  {
    if users == [] {
      assert members == {};
    } else {
      var last := users[|users| - 1];
      DistinctAtMost(users[..|users| - 1], members - {last});
      assert last in members ==> members == (members - {last}) + {last};
      assert last !in members ==> members == members - {last};
    }
  }

  ghost function NewShares(s: State): map<Address, i128>
    requires s.config.Some? && 0 < s.totalScore
  {
    Shares(s.config.value.totalRewardPool, s.totalScore, s.committers, s.commitments)
  }

  lemma {:induction false} NewSharesOf(s: State)
    requires Inv(s) && OpenPool(s) > 0 && 0 < s.totalScore
    ensures var scores, shares := LiveScores(s), NewShares(s);
            && shares.Keys == scores.Keys
            && |scores| <= |s.committers|
            && forall u :: u in scores ==>
                 && 0 < scores[u] <= I128_MAX
                 && shares[u] == Share(s.config.value.totalRewardPool, scores[u], s.totalScore)
  {
    DistinctAtMost(s.committers, LiveScores(s).Keys);
  }

  /**
    Distinct users are allocated at most the pool, saturated products included, exactly when it
    was safe to finalize.
   */
  lemma {:induction false} AllocatedWithinPool(s: State)
    requires Inv(s) && OpenPool(s) > 0 && 0 < s.totalScore
    ensures Sum(NewShares(s)) <= s.config.value.totalRewardPool <==> SafeToFinalize(s)
  {
    var pool := s.config.value.totalRewardPool;
    var scores, shares := LiveScores(s), NewShares(s);
    NewSharesOf(s);
    if s.totalScore < I128_MAX {
      assert Sum(scores) <= s.totalScore;
      hide *;
      SplitBelow(pool, s.totalScore, scores, shares);
      PartIsWithinPool(pool, s.totalScore, Sum(scores), Sum(shares));
      SafeBelowTop(s);
    } else {
      PinnedSplit(s);
    }
  }

  lemma {:induction false} SafeBelowTop(s: State)
    requires s.totalScore < I128_MAX
    ensures SafeToFinalize(s)
  {
  }

  lemma {:induction false} PartIsWithinPool(pool: int, total: int, part: int, sum: int)
    requires 0 < pool && 0 < total && part <= total && AtMostPart(total, sum, pool, part)
    ensures sum <= pool
  {
    MulLe(part, total, pool);
    CancelLe(sum, pool, total);
  }

  lemma {:induction false} PinnedSplit(s: State)
    requires Inv(s) && OpenPool(s) > 0 && s.totalScore == I128_MAX
    ensures Sum(NewShares(s)) == |TopHeavy(s)|
  {
    var pool := s.config.value.totalRewardPool;
    var scores, shares, ones := LiveScores(s), NewShares(s), TopHeavy(s);
    assert forall u :: u in ones <==> u in scores && pool * scores[u] >= I128_MAX;
    NewSharesOf(s);
    hide Inv, Share, Sum, LiveScores, NewShares, TopHeavy;
    forall u | u in shares ensures shares[u] == if u in ones then 1 else 0 {
      ShareBounds(pool, scores[u], s.totalScore);
    }
    ZeroOrOneEach(shares, ones);
  }

  /** A pool of at least one unit per committer is always safe. */
  lemma {:induction false} LargePoolIsSafe(s: State)
    requires s.config.Some? ==> |s.committers| <= s.config.value.totalRewardPool
    ensures SafeToFinalize(s)
  {
    if s.config.Some? {
      DistinctAtMost(s.committers, TopHeavy(s));
    }
  }

  /** Everyone committed once, nobody left, nothing saturated: less than one unit per committer stays unallocated. */
  lemma {:induction false} ShortfallBelowCommitters(s: State)
    requires Inv(s) && OpenPool(s) > 0 && s.committers != [] && NobodyLeft(s)
    requires s.totalScore < I128_MAX
    requires forall u :: u in s.committers ==> s.config.value.totalRewardPool * s.commitments[u].score <= I128_MAX
    ensures 0 < s.totalScore
    ensures 0 <= s.config.value.totalRewardPool - Sum(NewShares(s)) < |s.committers|
  {
    var scores := LiveScores(s);
    ScoresBelowTotal(s);
    NewSharesOf(s);
    AllocatedWithinPool(s);
    hide *;
    SplitAbove(s.config.value.totalRewardPool, s.totalScore, scores, NewShares(s));
    ShortfallArithmetic(s.config.value.totalRewardPool, s.totalScore, Sum(NewShares(s)), |scores|, |s.committers|);
    SafeBelowTop(s);
  }

  lemma {:induction false} ScoresBelowTotal(s: State)
    requires Inv(s) && OpenPool(s) > 0 && s.committers != [] && NobodyLeft(s) && s.totalScore < I128_MAX
    ensures 0 < s.totalScore == Sum(LiveScores(s))
    ensures forall u :: u in LiveScores(s) ==> u in s.committers && LiveScores(s)[u] == s.commitments[u].score
  {
    var u := s.committers[0];
    var scores := LiveScores(s);
    assert u in scores && 0 < scores[u];
    SumRemove(scores, u);
    SumNonNegative(scores - {u});
  }

  lemma {:induction false} ShortfallArithmetic(pool: int, total: int, sum: int, k: nat, n: nat)
    requires 0 < total && k <= n && 0 < n
    requires LosesBelow(total, sum, pool, total, k)
    ensures pool - sum < n
  {
    MulLe(k, n, total - 1);
    if pool - sum >= n {
      MulLe(n, pool - sum, total);
      Distribute(total, pool - sum, sum);
      Distribute(n, total - 1, 1);
    }
  }

  // ---------- Every transition keeps the invariant ----------

  lemma {:induction false} StartKeeps(s: State, pool: i128, maxLock: u32, duration: u32, now: u32)
    requires Inv(s) && Start(s, pool, maxLock, duration, now).Ok?
    ensures Inv(Start(s, pool, maxLock, duration, now).value)
  {
    var after := Start(s, pool, maxLock, duration, now).value;
    assert LiveScores(after) == map[];
    assert Locks(after) == Locks(s) && OpenClaims(after) == OpenClaims(s);
  }

  lemma {:induction false} CommitMaps(s: State, user: Address, amount: i128, duration: u32, now: u32)
    requires Commit(s, user, amount, duration, now).Ok?
    ensures var after := Commit(s, user, amount, duration, now).value;
            && Principal(after) == Principal(s) + amount
            && Unclaimed(after) == Unclaimed(s)
            && Sum(LiveScores(after)) == Sum(LiveScores(s)) + after.commitments[user].score
  {
    hide Sum;
    var after := Commit(s, user, amount, duration, now).value;
    var score := after.commitments[user].score;
    assert Locks(after) == Locks(s)[user := amount];
    SumSet(Locks(s), user, amount);
    assert OpenClaims(after) == OpenClaims(s);
    assert LiveScores(after) == LiveScores(s)[user := score];
    SumSet(LiveScores(s), user, score);
  }

  lemma {:induction false} CommitKeeps(s: State, user: Address, amount: i128, duration: u32, now: u32)
    requires Inv(s) && Commit(s, user, amount, duration, now).Ok?
    ensures Inv(Commit(s, user, amount, duration, now).value)
  {
    hide Sum, NobodyLeft, Principal, Unclaimed, LiveScores;
    var after := Commit(s, user, amount, duration, now).value;
    var c := after.commitments[user];
    CommitMaps(s, user, amount, duration, now);
    MulLe(1, duration, amount);
    assert 0 < c.lockedAmount <= c.score;
    assert after.commitments == s.commitments[user := c] && after.committers == s.committers + [user];
    assert after.allocations == s.allocations && after.config == s.config;
    assert after.totalScore == SatAdd(s.totalScore, c.score);
    assert after.held == s.held + amount && |after.committers| <= MAX_COMMITTERS;
    hide Commit;
    if NobodyLeft(after) {
      NobodyHadLeft(s, after, user);
    }
  }

  lemma {:induction false} NobodyHadLeft(s: State, after: State, user: Address)
    requires after.committers == s.committers + [user] && NobodyLeft(after)
    requires after.commitments.Keys == s.commitments.Keys + {user}
    ensures NobodyLeft(s)
  {
    assert forall i :: 0 <= i < |s.committers| ==> after.committers[i] == s.committers[i];
    forall u | u in s.committers ensures u in s.commitments {
      assert u in after.committers;
      assert after.committers[|s.committers|] == user;
    }
  }

  lemma {:induction false} FinalizeMaps(s: State, now: u32)
    requires Inv(s) && Finalize(s, now).Ok? && SafeToFinalize(s)
    ensures var after := Finalize(s, now).value;
            && Principal(after) == Principal(s)
            && Unclaimed(after) <= Unclaimed(s) + s.config.value.totalRewardPool
            && forall u :: u in after.allocations ==> 0 <= after.allocations[u]
  {
    var after := Finalize(s, now).value;
    assert Locks(after) == Locks(s);
    if s.totalScore > 0 {
      AllocatedWithinPool(s);
      NewSharesAreNonNegative(s);
      hide SafeToFinalize, Share, Shares;
      OpenClaimsGrow(s, after, NewShares(s));
    } else {
      assert OpenClaims(after) == OpenClaims(s);
    }
  }

  lemma {:induction false} FinalizeKeeps(s: State, now: u32)
    requires Inv(s) && Finalize(s, now).Ok? && SafeToFinalize(s)
    ensures Inv(Finalize(s, now).value)
  {
    FinalizeMaps(s, now);
    hide Principal, Unclaimed, LiveScores, NobodyLeft, SafeToFinalize, Shares;
  }

  /** The new shares that can still be claimed. */
  ghost function GainedClaims(s: State): map<Address, int>
    requires s.config.Some? && 0 < s.totalScore
  {
    map u | u in NewShares(s) && u !in s.claimed :: NewShares(s)[u]
  }

  /** A split leaves the stale claims open and adds the gained ones. */
  lemma {:induction false} SplitMaps(s: State, now: u32)
    requires Finalize(s, now).Ok? && 0 < s.totalScore
    ensures var after := Finalize(s, now).value;
            && Principal(after) == Principal(s)
            && Unclaimed(after) == Sum(StaleClaims(s)) + Sum(GainedClaims(s))
            && after.allocations == s.allocations + NewShares(s)
  {
    hide Share, Sum;
    var after := Finalize(s, now).value;
    assert Locks(after) == Locks(s);
    assert OpenClaims(after) == StaleClaims(s) + GainedClaims(s);
    SumDisjoint(StaleClaims(s), GainedClaims(s));
  }

  /** With the score pinned, each top-heavy committer gets one unit and everyone else nothing. */
  lemma {:induction false} PinnedGain(s: State)
    requires Inv(s) && OpenPool(s) > 0 && s.totalScore == I128_MAX
    ensures Sum(GainedClaims(s)) == |TopHeavy(s) - s.claimed|
  {
    var pool := s.config.value.totalRewardPool;
    var scores, gained, ones := LiveScores(s), GainedClaims(s), TopHeavy(s) - s.claimed;
    NewSharesOf(s);
    assert forall u :: u in TopHeavy(s) <==> u in scores && pool * scores[u] >= I128_MAX;
    assert forall u :: u in gained ==> u in scores && gained[u] == Share(pool, scores[u], s.totalScore);
    assert forall u :: u in ones ==> u in gained;
    hide Inv, Share, Sum, LiveScores, NewShares, GainedClaims, TopHeavy;
    forall u | u in gained ensures gained[u] == if u in ones then 1 else 0 {
      ShareBounds(pool, scores[u], s.totalScore);
      assert u in ones <==> u in TopHeavy(s);
    }
    ZeroOrOneEach(gained, ones);
  }

  lemma {:induction false} InvSays(s: State)
    requires Inv(s)
    ensures 0 <= s.totalScore && (s.config.Some? && !s.config.value.finalized ==> OpenPool(s) > 0) && Solvent(s)
  {
  }

  lemma {:induction false} InvIsSolvent(s: State)
    ensures Inv(s) ==> Solvent(s)
  {
  }

  /** A finalization leaves the contract sound and solvent exactly when it was covered. */
  lemma {:induction false} FinalizeSolventExactly(s: State, now: u32)
    requires Inv(s) && Finalize(s, now).Ok?
    ensures Inv(Finalize(s, now).value) <==> Covered(s)
    ensures Solvent(Finalize(s, now).value) <==> Covered(s)
  {
    hide Inv, Shares, StaleClaims, GainedClaims, TopHeavy, Sum, NewShares, Principal, Unclaimed;
    InvSays(s);
    if s.totalScore < I128_MAX {
      FinalizeKeeps(s, now);
      InvSays(Finalize(s, now).value);
    } else {
      SplitMaps(s, now);
      PinnedGain(s);
      NewSharesAreNonNegative(s);
      FinalizedShape(s, now);
    }
  }

  lemma {:induction false} FinalizedShape(s: State, now: u32)
    requires Inv(s) && Finalize(s, now).Ok? && 0 < s.totalScore
    requires Finalize(s, now).value.allocations == s.allocations + NewShares(s)
    requires forall u :: u in NewShares(s) ==> 0 <= NewShares(s)[u]
    ensures var after := Finalize(s, now).value;
            OpenPool(after) == 0 && after.held == s.held && (Inv(after) <==> Solvent(after))
  {
    hide NewShares, Shares, Share, Sum, LiveScores, NobodyLeft, Solvent;
  }

  /** What was safe to finalize is covered: then even the whole pool fits. */
  lemma {:induction false} SafeIsCovered(s: State, now: u32)
    requires Inv(s) && Finalize(s, now).Ok? && SafeToFinalize(s)
    ensures Covered(s)
  {
    FinalizeKeeps(s, now);
    FinalizeSolventExactly(s, now);
  }

  lemma {:induction false} NewSharesAreNonNegative(s: State)
    requires Inv(s) && OpenPool(s) > 0 && 0 < s.totalScore
    ensures forall u :: u in NewShares(s) ==> 0 <= NewShares(s)[u]
  {
    NewSharesOf(s);
    hide Inv, Share;
    forall u | u in NewShares(s) ensures 0 <= NewShares(s)[u] {
      ShareBounds(s.config.value.totalRewardPool, LiveScores(s)[u], s.totalScore);
    }
  }

  lemma {:induction false} OpenClaimsGrow(s: State, after: State, shares: map<Address, i128>)
    requires forall u :: u in s.allocations ==> 0 <= s.allocations[u]
    requires forall u :: u in shares ==> 0 <= shares[u]
    requires after.allocations == s.allocations + shares && after.claimed == s.claimed
    ensures Unclaimed(after) <= Unclaimed(s) + Sum(shares)
  {
    var all: map<Address, int> := shares;
    var gained: map<Address, int> := map u | u in shares && u !in s.claimed :: shares[u];
    assert OpenClaims(after) == OpenClaims(s) + gained;
    SumMerge(OpenClaims(s), gained);
    SumBelow(gained, all);
  }

  lemma {:induction false} ClaimKeeps(s: State, user: Address)
    requires Inv(s) && Claim(s, user).Ok?
    ensures Inv(Claim(s, user).value)
  {
    var after := Claim(s, user).value;
    SumRemove(OpenClaims(s), user);
    assert OpenClaims(after) == OpenClaims(s) - {user};
    assert LiveScores(after) == LiveScores(s) && Locks(after) == Locks(s);
  }

  lemma {:induction false} ExitMaps(s: State, user: Address, now: u32)
    requires Exit(s, user, now).Ok?
    ensures var after := Exit(s, user, now).value;
            && Principal(after) == Principal(s) - s.commitments[user].lockedAmount
            && Unclaimed(after) == Unclaimed(s)
            && Sum(LiveScores(after))
               == Sum(LiveScores(s)) - if user in s.committers then s.commitments[user].score else 0
  {
    hide Sum;
    var after := Exit(s, user, now).value;
    SumRemove(Locks(s), user);
    assert Locks(after) == Locks(s) - {user};
    assert OpenClaims(after) == OpenClaims(s);
    assert LiveScores(after) == LiveScores(s) - {user};
    if user in LiveScores(s) {
      SumRemove(LiveScores(s), user);
    } else {
      assert LiveScores(s) - {user} == LiveScores(s);
    }
  }

  lemma {:induction false} ExitKeeps(s: State, user: Address, now: u32)
    requires Inv(s) && Exit(s, user, now).Ok?
    ensures Inv(Exit(s, user, now).value)
  {
    ExitMaps(s, user, now);
    hide Sum, Principal, Unclaimed, LiveScores;
  }

  // ---------- Whole runs over any number of campaigns ----------

  datatype Op =
    | StartOp(pool: i128, maxLock: u32, duration: u32)
    | CommitOp(user: Address, amount: i128, lock: u32)
    | FinalizeOp
    | ClaimOp(user: Address)
    | ExitOp(user: Address)

  datatype Call = Call(op: Op, now: u32)

  ghost function Outcome(s: State, call: Call): Result<State, Error> {
    match call.op
    case StartOp(pool, maxLock, duration) => Start(s, pool, maxLock, duration, call.now)
    case CommitOp(user, amount, lock) => Commit(s, user, amount, lock, call.now)
    case FinalizeOp => Finalize(s, call.now)
    case ClaimOp(user) => Claim(s, user)
    case ExitOp(user) => Exit(s, user, call.now)
  }

  ghost function Step(s: State, call: Call): State {
    match Outcome(s, call)
    case Ok(after) => after
    case Err(_) => s
  }

  ghost function Run(calls: seq<Call>): State {
    if calls == [] then INITIAL else Step(Run(calls[..|calls| - 1]), calls[|calls| - 1])
  }

  /** Every finalization of the run that went through was covered. */
  ghost predicate CoveredRun(calls: seq<Call>) {
    forall i :: 0 <= i < |calls| ==> !UncoveredCall(Run(calls[..i]), calls[i])
  }

  ghost predicate UncoveredCall(s: State, call: Call) {
    call.op.FinalizeOp? && Finalize(s, call.now).Ok? && !Covered(s)
  }

  ghost predicate SolventThroughout(calls: seq<Call>) {
    forall n :: 0 <= n <= |calls| ==> Solvent(Run(calls[..n]))
  }

  lemma {:induction false} StepKeepsExactly(s: State, call: Call)
    requires Inv(s)
    ensures Inv(Step(s, call)) <==> !UncoveredCall(s, call)
    ensures Solvent(Step(s, call)) <==> !UncoveredCall(s, call)
  {
    hide Covered;
    assert Solvent(s);
    if Outcome(s, call).Ok? {
      match call.op
      case StartOp(pool, maxLock, duration) => StartKeeps(s, pool, maxLock, duration, call.now);
      case CommitOp(user, amount, lock) => CommitKeeps(s, user, amount, lock, call.now);
      case FinalizeOp => FinalizeSolventExactly(s, call.now);
      case ClaimOp(user) => ClaimKeeps(s, user);
      case ExitOp(user) => ExitKeeps(s, user, call.now);
      hide Start, Commit, Finalize, Claim, Exit, Solvent;
      InvIsSolvent(Step(s, call));
    }
  }

  lemma {:induction false} InitiallySolvent()
    ensures Inv(INITIAL) && Solvent(INITIAL)
  {
    assert LiveScores(INITIAL) == map[] && Locks(INITIAL) == map[] && OpenClaims(INITIAL) == map[];
  }

  lemma {:induction false} CoveredRunExtends(calls: seq<Call>)
    requires calls != []
    ensures var before := calls[..|calls| - 1];
            && (CoveredRun(calls) <==> CoveredRun(before) && !UncoveredCall(Run(before), calls[|calls| - 1]))
            && (SolventThroughout(calls) <==> SolventThroughout(before) && Solvent(Run(calls)))
  {
    hide Run, UncoveredCall, Solvent;
    var before := calls[..|calls| - 1];
    assert calls[..|calls|] == calls;
    forall i | 0 <= i <= |before| ensures before[..i] == calls[..i] && (i < |before| ==> before[i] == calls[i]) {
    }
    if CoveredRun(calls) {
      assert !UncoveredCall(Run(calls[..|before|]), calls[|before|]);
      forall i | 0 <= i < |before| ensures !UncoveredCall(Run(before[..i]), before[i]) {
        assert !UncoveredCall(Run(calls[..i]), calls[i]);
      }
    }
    if SolventThroughout(calls) {
      assert Solvent(Run(calls[..|calls|]));
      forall n | 0 <= n <= |before| ensures Solvent(Run(before[..n])) {
        assert Solvent(Run(calls[..n]));
      }
    }
  }

  /**
    Whatever the order of campaigns, early exits, repeated commitments and stale allocations:
    covered runs end solvent.
   */
  lemma {:induction false} AlwaysSolvent(calls: seq<Call>)
    requires CoveredRun(calls)
    ensures Inv(Run(calls)) && Solvent(Run(calls))
    ensures Run(calls).held >= 0
  {
    hide Inv, Solvent, CoveredRun, UncoveredCall, Step;
    if calls == [] {
      InitiallySolvent();
    } else {
      CoveredRunExtends(calls);
      AlwaysSolvent(calls[..|calls| - 1]);
      StepKeepsExactly(Run(calls[..|calls| - 1]), calls[|calls| - 1]);
    }
    HeldIsNonNegative(Run(calls));
  }

  lemma {:induction false} HeldIsNonNegative(s: State)
    requires Inv(s)
    ensures 0 <= s.held
  {
    NothingOwedIsNegative(s);
    hide Principal, Unclaimed;
  }

  /** The contract stays solvent all through a run if and only if every finalization that went through was covered. */
  lemma {:induction false} SolventExactlyWhen(calls: seq<Call>)
    ensures SolventThroughout(calls) <==> CoveredRun(calls)
  {
    hide Inv, Solvent, CoveredRun, SolventThroughout, UncoveredCall, Step;
    if calls == [] {
      NothingCalled(calls);
    } else {
      var before := calls[..|calls| - 1];
      SolventExactlyWhen(before);
      CoveredRunExtends(calls);
      if CoveredRun(before) {
        AlwaysSolvent(before);
        StepKeepsExactly(Run(before), calls[|calls| - 1]);
      }
    }
  }

  lemma {:induction false} NothingCalled(calls: seq<Call>)
    requires calls == []
    ensures SolventThroughout(calls) && CoveredRun(calls)
  {
    InitiallySolvent();
    assert calls[..0] == [];
    hide Solvent;
  }

  /** Every finalization of the run was safe beforehand. */
  ghost predicate SafeRun(calls: seq<Call>) {
    forall i :: 0 <= i < |calls| && calls[i].op.FinalizeOp? ==> SafeToFinalize(Run(calls[..i]))
  }

  /** A run whose splits all fit their pools is covered, and so solvent throughout. */
  lemma {:induction false} SafeRunIsCovered(calls: seq<Call>)
    requires SafeRun(calls)
    ensures CoveredRun(calls)
  {
    hide Run, SafeToFinalize, Covered, Inv;
    if calls != [] {
      var before, call := calls[..|calls| - 1], calls[|calls| - 1];
      assert forall i :: 0 <= i < |before| ==> before[..i] == calls[..i];
      SafeRunIsCovered(before);
      CoveredRunExtends(calls);
      if call.op.FinalizeOp? && Finalize(Run(before), call.now).Ok? {
        AlwaysSolvent(before);
        SafeIsCovered(Run(before), call.now);
      }
    }
  }

  lemma {:induction false} NothingOwedIsNegative(s: State)
    requires Inv(s)
    ensures Principal(s) >= 0 && Unclaimed(s) >= 0 && OpenPool(s) >= 0
  {
    SumNonNegative(Locks(s));
    SumNonNegative(OpenClaims(s));
  }

  /** Any payment the contract makes is covered by what it holds. */
  lemma {:induction false} PaymentsAreCovered(calls: seq<Call>, user: Address, now: u32)
    requires CoveredRun(calls)
    ensures Claim(Run(calls), user).Ok? ==> Allocation(Run(calls), user) <= Run(calls).held
    ensures Exit(Run(calls), user, now).Ok? ==> Run(calls).commitments[user].lockedAmount <= Run(calls).held
  {
    var s := Run(calls);
    AlwaysSolvent(calls);
    hide Run;
    if Claim(s, user).Ok? {
      ClaimKeeps(s, user);
      NothingOwedIsNegative(Claim(s, user).value);
    }
    if Exit(s, user, now).Ok? {
      ExitKeeps(s, user, now);
      NothingOwedIsNegative(Exit(s, user, now).value);
    }
  }

  /** A lock holds: no call before its unlock ledger, by anyone, removes or alters a commitment. */
  lemma {:induction false} LockHolds(calls: seq<Call>, more: seq<Call>, user: Address)
    requires user in Run(calls).commitments
    requires var c := Run(calls).commitments[user];
             forall i :: 0 <= i < |more| ==> more[i].now < SatAddU32(c.committedAt, c.lockDuration)
    ensures user in Run(calls + more).commitments
    ensures Run(calls + more).commitments[user] == Run(calls).commitments[user]
  {
    if more == [] {
      assert calls + more == calls;
    } else {
      var n := |more| - 1;
      assert (calls + more)[..|calls + more| - 1] == calls + more[..n];
      LockHolds(calls, more[..n], user);
      hide Shares;
    }
  }

  /** The claimed flag outlives its campaign: after one claim a user never claims again. */
  lemma {:induction false} OneClaimPerUser(calls: seq<Call>, more: seq<Call>, user: Address)
    requires user in Run(calls).claimed
    ensures user in Run(calls + more).claimed && Claim(Run(calls + more), user).Err?
  {
    if more == [] {
      assert calls + more == calls;
    } else {
      var n := |more| - 1;
      assert (calls + more)[..|calls + more| - 1] == calls + more[..n];
      OneClaimPerUser(calls, more[..n], user);
      hide Shares;
    }
  }

  /** Leaving forfeits the reward: while a user does not commit again, no claim of theirs goes through. */
  lemma {:induction false} ExitForfeits(calls: seq<Call>, more: seq<Call>, user: Address)
    requires user !in Run(calls).commitments
    requires forall i :: 0 <= i < |more| ==> !(more[i].op.CommitOp? && more[i].op.user == user)
    ensures user !in Run(calls + more).commitments && Claim(Run(calls + more), user).Err?
  {
    if more == [] {
      assert calls + more == calls;
    } else {
      var n := |more| - 1;
      assert (calls + more)[..|calls + more| - 1] == calls + more[..n];
      ExitForfeits(calls, more[..n], user);
      hide Shares;
    }
  }

  /**
    A claim never changes whether an exit goes through, or what it returns. The other way round,
    an exit leaves a claim possible exactly when it is another user's; then the order does not matter.
   */
  lemma {:induction false} ClaimAndExit(s: State, claimer: Address, leaver: Address, now: u32)
    requires Claim(s, claimer).Ok?
    ensures var claimed := Claim(s, claimer).value;
            && Exit(claimed, leaver, now).Ok? == Exit(s, leaver, now).Ok?
            && (Exit(s, leaver, now).Err? ==> Exit(claimed, leaver, now) == Exit(s, leaver, now))
            && (Exit(s, leaver, now).Ok? ==>
                  && claimed.commitments[leaver] == s.commitments[leaver]
                  && (Claim(Exit(s, leaver, now).value, claimer).Ok? <==> claimer != leaver)
                  && (claimer != leaver ==>
                        Claim(Exit(s, leaver, now).value, claimer) == Exit(claimed, leaver, now)))
  {
  }

  /** A commitment of one token that shares a pool with nobody, up to the end of the campaign. */
  const SOLE_RUN: seq<Call> :=
    [Call(StartOp(10, 1, 1), 0), Call(CommitOp(1, 1, 1), 0), Call(FinalizeOp, 2), Call(ExitOp(1), 2)]

  /** A run in which an allocation of the whole pool could have been claimed, and is lost by exiting first. */
  lemma {:induction false} ExitLosesAllocation()
    ensures Claim(Run(SOLE_RUN[..3]), 1).Ok?
    ensures Allocation(Run(SOLE_RUN), 1) == 10 && Claim(Run(SOLE_RUN), 1) == Err(CommitmentNotFound)
  {
    assert Run(SOLE_RUN[..0]) == INITIAL;
    forall i | 1 <= i <= 4 ensures Run(SOLE_RUN[..i]) == Step(Run(SOLE_RUN[..i - 1]), SOLE_RUN[i - 1]) {
      assert SOLE_RUN[..i][..i - 1] == SOLE_RUN[..i - 1];
    }
    assert SOLE_RUN[..4] == SOLE_RUN;
    hide Run;
    var c := Commitment(1, 1, 1, 0);
    var started := INITIAL.(config := Some(Config(10, 1, 1, false)), held := 10);
    assert Run(SOLE_RUN[..1]) == started;
    var committed := started.(totalScore := 1, committers := [1], commitments := map[1 := c], held := 11);
    assert Run(SOLE_RUN[..2]) == committed;
    SoleShare(c);
    var finalized := Run(SOLE_RUN[..3]);
    assert finalized.allocations == map[1 := 10] && finalized.commitments == map[1 := c];
  }

  lemma {:induction false} SoleShare(c: Commitment)
    requires c.score == 1
    ensures Shares(10, 1, [1], map[1 := c]) == map[1 := 10]
    ensures map[] + Shares(10, 1, [1], map[1 := c]) == map[1 := 10]
  {
    ShareBounds(10, 1, 1);
  }

  /**
    Twice the score earns exactly twice the allocation if and only if doubling the floored
    remainder neither reaches the total score nor is outweighed by what saturation cuts off.
    With no product saturated that is the first half alone, and the gap is at most one unit.
   */
  lemma {:induction false} TwiceTheScore(pool: i128, score: i128, totalScore: i128)
    requires 0 < pool && 0 < score && 2 * score <= I128_MAX && 0 < totalScore
    ensures var product := SatMul(pool, score);
            var cutOff := 2 * product - SatMul(pool, 2 * score);
            Share(pool, 2 * score, totalScore) == 2 * Share(pool, score, totalScore)
            <==> cutOff <= 2 * (product % totalScore) < totalScore + cutOff
    ensures pool * (2 * score) <= I128_MAX ==>
              var once, twice := Share(pool, score, totalScore), Share(pool, 2 * score, totalScore);
              && 2 * once <= twice <= 2 * once + 1
              && (twice == 2 * once <==> 2 * ((pool * score) % totalScore) < totalScore)
  {
    var product, doubled := SatMul(pool, score), SatMul(pool, 2 * score);
    var once, twice := Share(pool, score, totalScore), Share(pool, 2 * score, totalScore);
    ShareBounds(pool, score, totalScore);
    ShareBounds(pool, 2 * score, totalScore);
    hide Share;
    SwapFactors(pool, 2, score);
    MulLe(0, pool, score);
    DoubledQuotient(product, doubled, totalScore, once, twice);
    if pool * (2 * score) <= I128_MAX {
      assert product == pool * score && doubled == 2 * product;
      DoubledFloor(product, totalScore, once, twice);
    }
  }

  lemma {:induction false} DoubledQuotient(p: int, q: int, t: int, once: int, twice: int)
    requires 0 < t && once == p / t && twice == q / t
    ensures twice == 2 * once <==> 2 * p - q <= 2 * (p % t) < t + (2 * p - q)
  {
    FloorBounds(p, t);
    FloorBounds(q, t);
    assert p % t == p - t * once;
    SwapFactors(t, 2, once);
    if 2 * p - q <= 2 * (p % t) < t + (2 * p - q) {
      FloorUnique(q, t, 2 * once);
    }
  }

  lemma {:induction false} DoubledFloor(p: int, t: int, once: int, twice: int)
    requires 0 < t && t * once <= p < t * once + t && t * twice <= 2 * p < t * twice + t
    ensures 2 * once <= twice <= 2 * once + 1
  {
    SwapFactors(t, 2, once);
    Distribute(t, twice, 1);
    Distribute(t, 2 * once, 2);
    CancelLt(2 * once, twice + 1, t);
    CancelLt(twice, 2 * once + 2, t);
  }

  /** Where both products saturate, twice the score earns nothing more, though the allocation is far from small. */
  lemma {:induction false} TwiceTheScoreForNothing()
    ensures var pool, score := 0x1_0000_0000_0000_0000_0000, 0x1000_0000_0000_0000;
            Share(pool, 2 * score, 3 * score) == Share(pool, score, 3 * score) > 1000
  {
    var pool, score := 0x1_0000_0000_0000_0000_0000, 0x1000_0000_0000_0000;
    ShareBounds(pool, score, 3 * score);
    ShareBounds(pool, 2 * score, 3 * score);
    assert SatMul(pool, score) == SatMul(pool, 2 * score) == I128_MAX;
    FloorMonotone(3 * score * 1001, I128_MAX, 3 * score);
    FloorUnique(3 * score * 1001, 3 * score, 1001);
  }

  // ---------- What the calls asked for ----------

  /** The campaign as its starting call described it. */
  datatype Campaign = Campaign(pool: int, maxLock: int, lastLedger: int, split: bool)

  /** The latest campaign that was started, and whether it has been split. */
  ghost function LastCampaign(calls: seq<Call>): Option<Campaign> {
    if calls == [] then None
    else
      var before, call := calls[..|calls| - 1], calls[|calls| - 1];
      if Outcome(Run(before), call).Err? then LastCampaign(before)
      else
        match call.op
        case StartOp(pool, maxLock, duration) =>
          Some(Campaign(pool, maxLock, Min(call.now + duration, U32_MAX), false))
        case FinalizeOp =>
          (match LastCampaign(before)
           case Some(c) => Some(c.(split := true))
           case None => None)
        case _ => LastCampaign(before)
  }

  ghost function CampaignPool(calls: seq<Call>): int {
    match LastCampaign(calls)
    case None => 0
    case Some(c) => c.pool
  }

  lemma {:induction false} ConfigIsLastCampaign(calls: seq<Call>)
    ensures match LastCampaign(calls)
            case None => Run(calls).config == None
            case Some(c) =>
              && Run(calls).config.Some?
              && var config := Run(calls).config.value;
                 Campaign(config.totalRewardPool, config.maxLockLedgers, config.endsAt, config.finalized) == c
  {
    if calls != [] {
      ConfigIsLastCampaign(calls[..|calls| - 1]);
      hide Shares;
    }
  }

  /** Amount times lock of all commitments accepted since the latest start, and who made them. */
  ghost function CommittedScore(calls: seq<Call>): int {
    if calls == [] then 0
    else
      var before, call := calls[..|calls| - 1], calls[|calls| - 1];
      if Outcome(Run(before), call).Err? then CommittedScore(before)
      else
        match call.op
        case StartOp(_, _, _) => 0
        case CommitOp(_, amount, lock) => CommittedScore(before) + amount * lock
        case _ => CommittedScore(before)
  }

  ghost function CommittedUsers(calls: seq<Call>): seq<Address> {
    if calls == [] then []
    else
      var before, call := calls[..|calls| - 1], calls[|calls| - 1];
      if Outcome(Run(before), call).Err? then CommittedUsers(before)
      else
        match call.op
        case StartOp(_, _, _) => []
        case CommitOp(user, _, _) => CommittedUsers(before) + [user]
        case _ => CommittedUsers(before)
  }

  /** The total score is what was committed, exits notwithstanding, up to the top of the type. */
  lemma {:induction false} ScoreIsCommitted(calls: seq<Call>)
    ensures 0 <= CommittedScore(calls) && Run(calls).totalScore == Min(CommittedScore(calls), I128_MAX)
    ensures Run(calls).committers == CommittedUsers(calls)
    ensures CommittedUsers(calls) != [] ==> 0 < CommittedScore(calls)
  {
    if calls != [] {
      ScoreIsCommitted(calls[..|calls| - 1]);
      var call := calls[|calls| - 1];
      if call.op.CommitOp? && Outcome(Run(calls[..|calls| - 1]), call).Ok? {
        MulLe(1, call.op.amount, call.op.lock);
      }
      hide Shares;
    }
  }

  /** Commitment `c` of `user` is what call `i` asked for. */
  ghost predicate AskedFor(calls: seq<Call>, i: int, user: Address, c: Commitment) {
    && 0 <= i < |calls|
    && calls[i] == Call(CommitOp(user, c.lockedAmount, c.lockDuration), c.committedAt)
  }

  /** Every commitment stores what one call of that user asked for, and scores its amount times its lock. */
  lemma {:induction false} CommitmentsAreAsked(calls: seq<Call>, user: Address)
    requires user in Run(calls).commitments
    ensures var c := Run(calls).commitments[user];
            c.score == c.lockedAmount * c.lockDuration && exists i :: AskedFor(calls, i, user, c)
  {
    var before, call := calls[..|calls| - 1], calls[|calls| - 1];
    var c := Run(calls).commitments[user];
    if user in Run(before).commitments && Run(before).commitments[user] == c {
      CommitmentsAreAsked(before, user);
      var i :| AskedFor(before, i, user, c);
      assert AskedFor(calls, i, user, c);
    } else {
      hide Shares;
      assert AskedFor(calls, |calls| - 1, user, c);
    }
  }

  /**
    A commitment is accepted exactly while its campaign runs, for a positive amount and a lock
    the campaign allows, from a user without one, while there is room and the score fits.
   */
  lemma {:induction false} CommitAcceptedExactly(calls: seq<Call>, user: Address, amount: i128, lock: u32, now: u32)
    ensures Commit(Run(calls), user, amount, lock, now).Ok?
            <==> match LastCampaign(calls)
                 case None => false
                 case Some(c) =>
                   && !c.split && now <= c.lastLedger && 0 < amount && 0 < lock <= c.maxLock
                   && user !in Run(calls).commitments && |CommittedUsers(calls)| < MAX_COMMITTERS
                   && amount * lock <= I128_MAX
  {
    ConfigIsLastCampaign(calls);
    ScoreIsCommitted(calls);
    hide Run, CommittedScore, LastCampaign, CommittedUsers;
    if 0 < amount {
      MulLe(0, amount, lock);
    }
  }

  /** A campaign is split once, as soon as it is over; a new one starts only after that. */
  lemma {:induction false} SplitAndStartExactly(calls: seq<Call>, pool: i128, maxLock: u32, duration: u32, now: u32)
    ensures Finalize(Run(calls), now).Ok?
            <==> match LastCampaign(calls)
                 case None => false
                 case Some(c) => !c.split && c.lastLedger < now
    ensures Start(Run(calls), pool, maxLock, duration, now).Ok?
            <==> && (LastCampaign(calls).None? || LastCampaign(calls).value.split)
                 && 0 < pool && 0 < maxLock && 0 < duration
  {
    ConfigIsLastCampaign(calls);
    hide Run, LastCampaign, Shares;
  }

  /**
    The split gives each committer of the campaign who still holds a commitment the floor of the
    pool times amount times lock over what was committed in all, where the product fits, and
    changes nobody else's allocation.
   */
  lemma {:induction false} SplitIsProportional(calls: seq<Call>, user: Address, now: u32)
    requires Finalize(Run(calls), now).Ok?
    ensures var s := Run(calls);
            var after := Finalize(s, now).value;
            if user in CommittedUsers(calls) && user in s.commitments && 0 < CommittedScore(calls) then
              var c := s.commitments[user];
              var product := CampaignPool(calls) * (c.lockedAmount * c.lockDuration);
              0 <= product <= I128_MAX ==>
                Allocation(after, user) == product / Min(CommittedScore(calls), I128_MAX)
            else Allocation(after, user) == Allocation(s, user)
  {
    var s := Run(calls);
    ConfigIsLastCampaign(calls);
    ScoreIsCommitted(calls);
    if user in s.commitments {
      CommitmentsAreAsked(calls, user);
    }
    hide Run, LastCampaign, CommittedScore, CommittedUsers;
    if user in s.committers && user in s.commitments && 0 < s.totalScore {
      assert Allocation(Finalize(s, now).value, user)
          == Share(s.config.value.totalRewardPool, s.commitments[user].score, s.totalScore);
      var product := s.config.value.totalRewardPool * s.commitments[user].score;
      if 0 <= product <= I128_MAX {
        FloorMonotone(0, product, s.totalScore);
        QuotientInRange(product, s.totalScore);
      }
    }
  }

  /** Of two committers with one amount, the one who locks twice as long is allocated twice as much, up to one unit. */
  lemma {:induction false} TwiceTheLock(calls: seq<Call>, user: Address, longer: Address, now: u32)
    requires Finalize(Run(calls), now).Ok?
    requires forall u :: u == user || u == longer ==> u in CommittedUsers(calls) && u in Run(calls).commitments
    requires var short, long := Run(calls).commitments[user], Run(calls).commitments[longer];
             && long.lockedAmount == short.lockedAmount && long.lockDuration == 2 * short.lockDuration
             && CampaignPool(calls) * (long.lockedAmount * long.lockDuration) <= I128_MAX
    ensures var after := Finalize(Run(calls), now).value;
            2 * Allocation(after, user) <= Allocation(after, longer) <= 2 * Allocation(after, user) + 1
  {
    var short, long := Run(calls).commitments[user], Run(calls).commitments[longer];
    var total := Min(CommittedScore(calls), I128_MAX);
    ScoreIsCommitted(calls);
    TermsArePositive(calls, user, now);
    hide Run, LastCampaign, CampaignPool, CommittedUsers, CommittedScore, Finalize, Allocation, AskedFor;
    TwiceAsLong(CampaignPool(calls), short.lockedAmount, short.lockDuration);
    SplitIsProportional(calls, user, now);
    SplitIsProportional(calls, longer, now);
    DoubledSplit(CampaignPool(calls) * (short.lockedAmount * short.lockDuration), total);
  }

  lemma {:induction false} TermsArePositive(calls: seq<Call>, user: Address, now: u32)
    requires Finalize(Run(calls), now).Ok? && user in Run(calls).commitments
    ensures 0 < CampaignPool(calls)
    ensures 0 < Run(calls).commitments[user].lockedAmount && 0 < Run(calls).commitments[user].lockDuration
  {
    PositiveRun(calls);
    ConfigIsLastCampaign(calls);
  }

  lemma {:induction false} PositiveRun(calls: seq<Call>)
    ensures Run(calls).config.Some? ==> 0 < Run(calls).config.value.totalRewardPool
    ensures forall u :: u in Run(calls).commitments ==>
              0 < Run(calls).commitments[u].lockedAmount && 0 < Run(calls).commitments[u].lockDuration
  {
    if calls != [] {
      PositiveRun(calls[..|calls| - 1]);
      hide Shares;
    }
  }

  lemma {:induction false} DoubledSplit(product: int, total: int)
    requires 0 < total
    ensures 2 * (product / total) <= 2 * product / total <= 2 * (product / total) + 1
  {
    FloorBounds(product, total);
    FloorBounds(2 * product, total);
    DoubledFloor(product, total, product / total, 2 * product / total);
  }

  lemma {:induction false} TwiceAsLong(pool: int, amount: int, lock: int)
    requires 0 < pool && 0 < amount && 0 < lock
    ensures pool * (amount * (2 * lock)) == 2 * (pool * (amount * lock)) && 0 < pool * (amount * lock)
  {
    SwapFactors(amount, lock, 2);
    SwapFactors(pool, amount * lock, 2);
    MulLe(1, amount, lock);
    MulLe(1, pool, amount * lock);
  }

  /** An exit goes through exactly from the end of the lock on, and a claim exactly after the split, once. */
  lemma {:induction false} ExitAndClaimExactly(calls: seq<Call>, user: Address, now: u32)
    ensures Exit(Run(calls), user, now).Ok?
            <==> && user in Run(calls).commitments
                 && var c := Run(calls).commitments[user];
                    Min(c.committedAt + c.lockDuration, U32_MAX) <= now
    ensures Claim(Run(calls), user).Ok?
            <==> && LastCampaign(calls).Some? && LastCampaign(calls).value.split && user in Run(calls).commitments
                 && user !in Run(calls).claimed && 0 < Allocation(Run(calls), user)
  {
    ConfigIsLastCampaign(calls);
    hide Run, LastCampaign;
  }

  /** Call `i` is an accepted claim of `user`. */
  ghost predicate ClaimedBy(calls: seq<Call>, i: int, user: Address) {
    0 <= i < |calls| && calls[i].op == ClaimOp(user) && Claim(Run(calls[..i]), user).Ok?
  }

  /** The claimed flag is set for exactly the users one of whose claims was accepted. */
  lemma {:induction false} ClaimedExactly(calls: seq<Call>, user: Address)
    ensures user in Run(calls).claimed <==> exists i :: ClaimedBy(calls, i, user)
  {
    if calls != [] {
      var n := |calls| - 1;
      var before := calls[..n];
      ClaimedExactly(before, user);
      assert forall i :: 0 <= i < n ==> before[..i] == calls[..i] && before[i] == calls[i];
      assert forall i :: 0 <= i < n ==> (ClaimedBy(before, i, user) <==> ClaimedBy(calls, i, user));
      assert ClaimedBy(calls, n, user) <==> calls[n].op == ClaimOp(user) && Claim(Run(before), user).Ok?;
      ClaimedStep(Run(before), calls[n], user);
      hide Run, Step, Claim;
      if exists i :: ClaimedBy(before, i, user) {
        var i :| ClaimedBy(before, i, user);
        assert ClaimedBy(calls, i, user);
      }
    }
  }

  lemma {:induction false} ClaimedStep(s: State, call: Call, user: Address)
    ensures user in Step(s, call).claimed
            <==> user in s.claimed || (call.op == ClaimOp(user) && Claim(s, user).Ok?)
  {
    hide Shares;
  }

  /** Tokens that came in with the calls of a run, less those that went out. */
  ghost function Flow(calls: seq<Call>): int {
    if calls == [] then 0
    else
      var before, call := calls[..|calls| - 1], calls[|calls| - 1];
      var s := Run(before);
      if Outcome(s, call).Err? then Flow(before)
      else
        match call.op
        case StartOp(pool, _, _) => Flow(before) + pool
        case CommitOp(_, amount, _) => Flow(before) + amount
        case FinalizeOp => Flow(before)
        case ClaimOp(user) => Flow(before) - Allocation(s, user)
        case ExitOp(user) => Flow(before) - s.commitments[user].lockedAmount
  }

  /** What is held is what came in less what was paid: allocations claimed and amounts unlocked, in full. */
  lemma {:induction false} HeldIsFlow(calls: seq<Call>)
    ensures Run(calls).held == Flow(calls)
  {
    if calls != [] {
      HeldIsFlow(calls[..|calls| - 1]);
      hide Shares;
    }
  }

  // ---------- What happens without the check ----------

  const HUGE_LOCK: i128 := 0x8000_0000_0000_0000_0000_0000
  const LONG_LOCK: u32 := 0x8000_0000

  const TOP_HEAVY_RUN: seq<Call> := [
    Call(StartOp(2, LONG_LOCK, 1), 0),
    Call(CommitOp(1, HUGE_LOCK, LONG_LOCK), 0),
    Call(CommitOp(2, HUGE_LOCK, LONG_LOCK), 0),
    Call(CommitOp(3, HUGE_LOCK, LONG_LOCK), 0),
    Call(FinalizeOp, 2)]

  const TOP_HEAVY_COMMITMENT: Commitment :=
    Commitment(HUGE_LOCK, LONG_LOCK, 0x4000_0000_0000_0000_0000_0000_0000_0000, 0)

  const TOP_HEAVY_STATE: State :=
    var c := TOP_HEAVY_COMMITMENT;
    State(Some(Config(2, LONG_LOCK, 1, false)), I128_MAX, [1, 2, 3],
          map[1 := c, 2 := c, 3 := c], map[], {}, 2 + 3 * HUGE_LOCK)

  ghost function ThreeTimes(v: int): map<Address, int> {
    var none: map<Address, int> := map[];
    none[1 := v][2 := v][3 := v]
  }

  lemma {:induction false} SumThreeTimes(v: int)
    ensures Sum(ThreeTimes(v)) == 3 * v
  {
    hide Sum;
    var none: map<Address, int> := map[];
    SumEmpty<Address>();
    SumSet(none, 1, v);
    SumSet(none[1 := v], 2, v);
    SumSet(none[1 := v][2 := v], 3, v);
  }

  /** Three huge commitments to a pool of two saturate the total score: each is allocated one unit of the two. */
  lemma {:induction false} SaturatedScoreOverAllocates()
    ensures !Solvent(Run(TOP_HEAVY_RUN))
  {
    var s := Run(TOP_HEAVY_RUN);
    FirstCalls();
    assert TOP_HEAVY_RUN[..|TOP_HEAVY_RUN| - 1] == TOP_HEAVY_RUN[..4];
    assert s == Step(TOP_HEAVY_STATE, Call(FinalizeOp, 2));
    hide *;
    LastCall(s);
    OwesOneTooMany(s);
  }

  lemma {:induction false} OwesOneTooMany(s: State)
    requires s.allocations == map[1 := 1, 2 := 1, 3 := 1] && s.claimed == {} && OpenPool(s) == 0
    requires s.commitments == TOP_HEAVY_STATE.commitments && s.held == TOP_HEAVY_STATE.held
    ensures !Solvent(s)
  {
    hide Sum;
    assert OpenClaims(s) == ThreeTimes(1);
    assert Locks(s) == ThreeTimes(HUGE_LOCK);
    SumThreeTimes(1);
    SumThreeTimes(HUGE_LOCK);
  }

  lemma {:induction false} ThreeShares(c: Commitment, v: i128)
    requires v == Share(2, c.score, I128_MAX)
    ensures Shares(2, I128_MAX, [1, 2, 3], map[1 := c, 2 := c, 3 := c]) == map[1 := v, 2 := v, 3 := v]
  {
    hide Share;
    var commitments := map[1 := c, 2 := c, 3 := c];
    var shares := Shares(2, I128_MAX, [1, 2, 3], commitments);
    forall u ensures u in shares <==> u == 1 || u == 2 || u == 3 {
      assert u in [1, 2, 3] <==> u == 1 || u == 2 || u == 3;
    }
  }

  lemma {:induction false} LastCall(s: State)
    requires s == Step(TOP_HEAVY_STATE, Call(FinalizeOp, 2))
    ensures s.allocations == map[1 := 1, 2 := 1, 3 := 1] && s.claimed == {} && OpenPool(s) == 0
    ensures s.commitments == TOP_HEAVY_STATE.commitments && s.held == TOP_HEAVY_STATE.held
  {
    hide Share, Shares;
    var c := TOP_HEAVY_COMMITMENT;
    ShareBounds(2, c.score, I128_MAX);
    FloorUnique(I128_MAX, I128_MAX, 1);
    ThreeShares(c, 1);
    var none: map<Address, i128> := map[];
    var shares := Shares(2, I128_MAX, TOP_HEAVY_STATE.committers, TOP_HEAVY_STATE.commitments);
    assert none + shares == shares;
  }

  lemma {:induction false} FirstCalls()
    ensures Run(TOP_HEAVY_RUN[..4]) == TOP_HEAVY_STATE
  {
    assert Run(TOP_HEAVY_RUN[..0]) == INITIAL;
    forall i | 1 <= i <= 4 ensures Run(TOP_HEAVY_RUN[..i]) == Step(Run(TOP_HEAVY_RUN[..i - 1]), TOP_HEAVY_RUN[i - 1]) {
      assert TOP_HEAVY_RUN[..i][..i - 1] == TOP_HEAVY_RUN[..i - 1];
    }
    hide Run;
    var c := TOP_HEAVY_COMMITMENT;
    var started := INITIAL.(config := Some(Config(2, LONG_LOCK, 1, false)), held := 2);
    assert Run(TOP_HEAVY_RUN[..1]) == started;
    assert Run(TOP_HEAVY_RUN[..2]) == started.(totalScore := c.score, committers := [1],
      commitments := map[1 := c], held := 2 + HUGE_LOCK);
    assert Run(TOP_HEAVY_RUN[..3]) == started.(totalScore := I128_MAX, committers := [1, 2],
      commitments := map[1 := c, 2 := c], held := 2 + 2 * HUGE_LOCK);
  }

  // ---------- The contract's storage and entrypoints ----------

  class Lockdrop {
    var config: Option<Config>
    var totalScore: i128
    var committers: seq<Address>
    var commitments: map<Address, Commitment>
    var allocations: map<Address, i128>
    var claimed: set<Address>
    ghost var held: int

    ghost function View(): State
      reads this
    {
      State(config, totalScore, committers, commitments, allocations, claimed, held)
    }

    constructor ()
      ensures View() == INITIAL && Inv(View())
    {
      config, totalScore, committers := None, 0, [];
      commitments, allocations, claimed, held := map[], map[], {}, 0;
      new;
      AlwaysSolvent([]);
    }

    method StartLockdrop(pool: i128, maxLock: u32, duration: u32, now: u32) returns (r: Result<(), Error>)
      requires Inv(View())
      modifies this
      ensures Inv(View())
      ensures match Start(old(View()), pool, maxLock, duration, now)
              case Ok(after) => r == Ok(()) && View() == after
              case Err(e) => r == Err(e) && View() == old(View())
    {
      if config.Some? && !config.value.finalized {
        return Err(LockdropAlreadyActive);
      }
      if pool <= 0 {
        return Err(ZeroAmount);
      }
      if maxLock == 0 || duration == 0 {
        return Err(InvalidLockDuration);
      }
      StartKeeps(View(), pool, maxLock, duration, now);
      held := held + pool;
      config := Some(Config(pool, maxLock, SatAddU32(now, duration), false));
      totalScore := 0;
      committers := [];
      return Ok(());
    }

    method CommitToLockdrop(user: Address, amount: i128, duration: u32, now: u32) returns (r: Result<i128, Error>)
      requires Inv(View())
      modifies this
      ensures Inv(View())
      ensures match Commit(old(View()), user, amount, duration, now)
              case Ok(after) => r == Ok(after.commitments[user].score) && View() == after
              case Err(e) => r == Err(e) && View() == old(View())
      ensures r.Ok? ==>
                && r.value == amount * duration && held == old(held) + amount
                && commitments == old(commitments)[user := Commitment(amount, duration, amount * duration, now)]
    {
      if config.None? {
        return Err(LockdropNotActive);
      }
      if config.value.finalized {
        return Err(LockdropAlreadyFinalized);
      }
      if now > config.value.endsAt {
        return Err(LockdropEnded);
      }
      if amount <= 0 {
        return Err(ZeroAmount);
      }
      if duration == 0 || duration > config.value.maxLockLedgers {
        return Err(InvalidLockDuration);
      }
      if user in commitments {
        return Err(AlreadyCommitted);
      }
      if |committers| >= MAX_COMMITTERS {
        return Err(LockdropFull);
      }
      var score := Checked(amount * duration);
      if score.None? {
        return Err(ArithmeticError);
      }
      CommitKeeps(View(), user, amount, duration, now);
      held := held + amount;
      commitments := commitments[user := Commitment(amount, duration, score.value, now)];
      committers := committers + [user];
      totalScore := SatAdd(totalScore, score.value);
      return Ok(score.value);
    }

    method FinalizeLockdrop(now: u32) returns (r: Result<(), Error>)
      requires Inv(View())
      modifies this
      ensures r.Ok? ==> (Inv(View()) <==> old(Covered(View())))
      ensures r.Err? ==> Inv(View())
      ensures match Finalize(old(View()), now)
              case Ok(after) => r == Ok(()) && View() == after
              case Err(e) => r == Err(e) && View() == old(View())
    {
      hide Inv, Covered, Shares;
      if config.None? {
        return Err(LockdropNotActive);
      }
      if config.value.finalized {
        return Err(LockdropAlreadyFinalized);
      }
      if now <= config.value.endsAt {
        return Err(LockdropNotEnded);
      }
      ghost var before := View();
      if totalScore > 0 {
        ghost var pool := config.value.totalRewardPool;
        var i := 0;
        SharesOfNobody(allocations, pool, totalScore, committers[..0], commitments);
        while i < |committers|
          invariant 0 <= i <= |committers|
          invariant View() == before.(allocations := allocations)
          invariant allocations == before.allocations
                                   + Shares(pool, before.totalScore, before.committers[..i], before.commitments)
        {
          var user := committers[i];
          SharesExtend(before.allocations, pool, totalScore, committers[..i], user, commitments);
          assert committers[..i + 1] == committers[..i] + [user];
          if user in commitments {
            var product := SatMul(config.value.totalRewardPool, commitments[user].score);
            var allocation := Clamp(TruncDiv(product, totalScore));
            allocations := allocations[user := allocation];
          }
          i := i + 1;
        }
        assert committers[..i] == committers;
      }
      config := Some(config.value.(finalized := true));
      assert before.totalScore <= 0 ==> before.allocations + map[] == before.allocations;
      assert View() == Finalize(before, now).value;
      FinalizeSolventExactly(before, now);
      return Ok(());
    }

    method ClaimLockdropReward(user: Address) returns (r: Result<i128, Error>)
      requires Inv(View())
      modifies this
      ensures Inv(View())
      ensures match Claim(old(View()), user)
              case Ok(after) => r == Ok(Allocation(old(View()), user)) && View() == after
              case Err(e) => r == Err(e) && View() == old(View())
    {
      if config.None? {
        return Err(LockdropNotActive);
      }
      if !config.value.finalized {
        return Err(LockdropNotFinalized);
      }
      if user !in commitments {
        return Err(CommitmentNotFound);
      }
      if user in claimed {
        return Err(AlreadyClaimed);
      }
      var allocation := if user in allocations then allocations[user] else 0;
      if allocation <= 0 {
        return Err(NothingToClaim);
      }
      ClaimKeeps(View(), user);
      held := held - allocation;
      claimed := claimed + {user};
      return Ok(allocation);
    }

    method ExitLockdrop(user: Address, now: u32) returns (r: Result<i128, Error>)
      requires Inv(View())
      modifies this
      ensures Inv(View())
      ensures match Exit(old(View()), user, now)
              case Ok(after) => r == Ok(old(commitments)[user].lockedAmount) && View() == after
              case Err(e) => r == Err(e) && View() == old(View())
    {
      if user !in commitments {
        return Err(CommitmentNotFound);
      }
      var commitment := commitments[user];
      if now < SatAddU32(commitment.committedAt, commitment.lockDuration) {
        return Err(LockStillActive);
      }
      ExitKeeps(View(), user, now);
      held := held - commitment.lockedAmount;
      commitments := commitments - {user};
      return Ok(commitment.lockedAmount);
    }
  }

  lemma {:induction false} SharesOfNobody(
      allocations: map<Address, i128>, pool: i128, totalScore: i128, users: seq<Address>,
      commitments: map<Address, Commitment>)
    requires 0 < totalScore && users == []
    ensures allocations + Shares(pool, totalScore, users, commitments) == allocations
  {
  }

  lemma {:induction false} SharesExtend(allocations: map<Address, i128>, pool: i128, totalScore: i128,
                                        users: seq<Address>, user: Address, commitments: map<Address, Commitment>)
    requires 0 < totalScore
    ensures var sofar := allocations + Shares(pool, totalScore, users, commitments);
            allocations + Shares(pool, totalScore, users + [user], commitments)
            == if user in commitments then sofar[user := Share(pool, commitments[user].score, totalScore)] else sofar
  {
    hide Share;
    assert forall u :: u in users + [user] <==> u in users || u == user;
    if user !in commitments {
      assert Shares(pool, totalScore, users + [user], commitments) == Shares(pool, totalScore, users, commitments);
    }
  }
}
