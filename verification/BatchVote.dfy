/** Batched governance votes (src/batch_vote.rs). */
module BatchVote {
  import opened Numeric
  import opened MapSums

  const MAX_BATCH_VOTES: nat := 10

  datatype Error = PositionNotFound | BatchTooLarge | ArithmeticError

  datatype Vote = Vote(proposalId: u32, support: bool)

  datatype Proposal = Proposal(votesFor: i128, votesAgainst: i128, endsAt: u32, enacted: bool)

  datatype Receipt = Receipt(support: bool, weight: i128, ledger: u32)

  datatype Reason =
    | Success | ProposalNotFound | ProposalEnacted | ProposalCancelled | VotingEnded | AlreadyVoted | NoPosition

  /** One entry of the answer: the proposal and whether, or why not, the vote counted. */
  datatype Answer = Answer(proposalId: u32, reason: Reason)

  type Ballot = (u32, Address)

  datatype State = State(
    proposals: map<u32, Proposal>,
    cancelled: set<u32>,
    voted: set<Ballot>,
    receipts: map<Ballot, Receipt>,
    lastVote: map<Address, u32>)

  // ---------- One entry, and the loop over entries ----------

  function Verdict(s: State, user: Address, vote: Vote, weight: i128, now: u32): Reason {
    var id := vote.proposalId;
    if id !in s.proposals then ProposalNotFound
    else if s.proposals[id].enacted then ProposalEnacted
    else if id in s.cancelled then ProposalCancelled
    else if now > s.proposals[id].endsAt then VotingEnded
    else if (id, user) in s.voted then AlreadyVoted
    else if weight <= 0 then NoPosition
    else Success
  }

  /** A counted vote moves the tally, the voted flag and the receipt; a tally overflow aborts. */
  function CastOne(s: State, user: Address, vote: Vote, weight: i128, now: u32): Result<(State, Answer), Error> {
    var id := vote.proposalId;
    var verdict := Verdict(s, user, vote, weight, now);
    if verdict != Success then Ok((s, Answer(id, verdict)))
    else
      var p := s.proposals[id];
      match Checked((if vote.support then p.votesFor else p.votesAgainst) + weight)
      case None => Err(ArithmeticError)
      case Some(tally) =>
        var updated := if vote.support then p.(votesFor := tally) else p.(votesAgainst := tally);
        Ok((s.(proposals := s.proposals[id := updated],
               voted := s.voted + {(id, user)},
               receipts := s.receipts[(id, user) := Receipt(vote.support, weight, now)]),
            Answer(id, Success)))
  }

  function CastAll(s: State, user: Address, votes: seq<Vote>, weight: i128, now: u32)
    : (r: Result<(State, seq<Answer>), Error>)
    ensures r.Ok? ==> |r.value.1| == |votes|
  {
    if votes == [] then Ok((s, []))
    else
      match CastAll(s, user, votes[..|votes| - 1], weight, now)
      case Err(e) => Err(e)
      case Ok((before, answers)) =>
        match CastOne(before, user, votes[|votes| - 1], weight, now)
        case Err(e) => Err(e)
        case Ok((after, answer)) => Ok((after, answers + [answer]))
  }

  predicate AnySuccess(answers: seq<Answer>) {
    exists i :: 0 <= i < |answers| && answers[i].reason == Success
  }

  function Stamped(s: State, user: Address, answers: seq<Answer>, now: u32): State {
    if AnySuccess(answers) then s.(lastVote := s.lastVote[user := now]) else s
  }

  /** The entrypoint; `shares` and `weight` are the caller's current position and vote weight. */
  function Batch(s: State, user: Address, votes: seq<Vote>, shares: i128, weight: i128, now: u32)
    : Result<(State, seq<Answer>), Error>
  {
    if |votes| > MAX_BATCH_VOTES then Err(BatchTooLarge)
    else if shares <= 0 then Err(PositionNotFound)
    else
      match CastAll(s, user, votes, weight, now)
      case Err(e) => Err(e)
      case Ok((after, answers)) => Ok((Stamped(after, user, answers, now), answers))
  }

  // ---------- A batch is its entries cast one at a time ----------

  /** The entries submitted as separate batches of one, in the same ledger. */
  ghost function OneByOne(s: State, user: Address, votes: seq<Vote>, shares: i128, weight: i128, now: u32)
    : Result<(State, seq<Answer>), Error>
  {
    if votes == [] then Ok((s, []))
    else
      match OneByOne(s, user, votes[..|votes| - 1], shares, weight, now)
      case Err(e) => Err(e)
      case Ok((before, answers)) =>
        match Batch(before, user, [votes[|votes| - 1]], shares, weight, now)
        case Err(e) => Err(e)
        case Ok((after, answer)) => Ok((after, answers + answer))
  }

  lemma {:induction false} SingleBatch(s: State, user: Address, vote: Vote, shares: i128, weight: i128, now: u32)
    requires 0 < shares
    ensures Batch(s, user, [vote], shares, weight, now)
         == match CastOne(s, user, vote, weight, now)
            case Err(e) => Err(e)
            case Ok((after, answer)) => Ok((Stamped(after, user, [answer], now), [answer]))
  {
    assert [vote][..0] == [];
    assert CastAll(s, user, [], weight, now) == Ok((s, []));
    match CastOne(s, user, vote, weight, now)
    case Err(_) =>
    case Ok((after, answer)) => assert [] + [answer] == [answer];
  }

  /** The stamp does not influence a later vote. */
  lemma {:induction false} StampIsIgnored(
      s: State, stamped: map<Address, u32>, user: Address, vote: Vote, weight: i128, now: u32)
    ensures CastOne(s.(lastVote := stamped), user, vote, weight, now)
         == match CastOne(s, user, vote, weight, now)
            case Err(e) => Err(e)
            case Ok((after, answer)) => Ok((after.(lastVote := stamped), answer))
    ensures CastOne(s, user, vote, weight, now).Ok? ==>
              CastOne(s, user, vote, weight, now).value.0.lastVote == s.lastVote
  {
  }

  /** Loop and single calls agree on any list of entries, duplicates included, and overflow together. */
  lemma {:induction false} LoopIsOneByOne(
      s: State, user: Address, votes: seq<Vote>, shares: i128, weight: i128, now: u32)
    requires 0 < shares
    ensures OneByOne(s, user, votes, shares, weight, now)
         == match CastAll(s, user, votes, weight, now)
            case Err(e) => Err(e)
            case Ok((after, answers)) => Ok((Stamped(after, user, answers, now), answers))
    ensures CastAll(s, user, votes, weight, now).Ok? ==>
              CastAll(s, user, votes, weight, now).value.0.lastVote == s.lastVote
  {
    if votes != [] {
      var before, vote := votes[..|votes| - 1], votes[|votes| - 1];
      LoopIsOneByOne(s, user, before, shares, weight, now);
      var loop := CastAll(s, user, before, weight, now);
      if loop.Ok? {
        var (reached, answers) := loop.value;
        var stamped := Stamped(reached, user, answers, now);
        SingleBatch(stamped, user, vote, shares, weight, now);
        StampIsIgnored(reached, stamped.lastVote, user, vote, weight, now);
        assert reached.(lastVote := stamped.lastVote) == stamped;
        hide CastOne;
        match CastOne(reached, user, vote, weight, now)
        case Err(_) =>
        case Ok((after, answer)) =>
          StampOfMore(after, stamped.lastVote, reached, user, answers, answer, now);
      }
    }
  }

  lemma {:induction false} StampOfMore(after: State, stamped: map<Address, u32>, reached: State, user: Address,
                                       answers: seq<Answer>, answer: Answer, now: u32)
    requires after.lastVote == reached.lastVote && stamped == Stamped(reached, user, answers, now).lastVote
    ensures Stamped(after.(lastVote := stamped), user, [answer], now) == Stamped(after, user, answers + [answer], now)
  {
    var more := answers + [answer];
    assert more[|answers|] == answer && [answer][0] == answer;
    assert forall i :: 0 <= i < |answers| ==> more[i] == answers[i];
    assert AnySuccess(more) <==> AnySuccess(answers) || AnySuccess([answer]);
    assert after.lastVote[user := now][user := now] == after.lastVote[user := now];
  }

  /**
    A batch succeeds exactly when its entries do one at a time, with the same proposals, flags,
    receipts, stamp and answers.
   */
  lemma {:induction false} BatchIsOneByOne(
      s: State, user: Address, votes: seq<Vote>, shares: i128, weight: i128, now: u32)
    requires 0 < shares && |votes| <= MAX_BATCH_VOTES
    ensures Batch(s, user, votes, shares, weight, now) == OneByOne(s, user, votes, shares, weight, now)
  {
    LoopIsOneByOne(s, user, votes, shares, weight, now);
  }

  // ---------- Tallies are the sums of receipts ----------

  ghost function SideWeights(s: State, id: u32, support: bool): map<Ballot, int> {
    map b | b in s.receipts && b.0 == id && s.receipts[b].support == support :: s.receipts[b].weight
  }

  ghost predicate Tallied(s: State) {
    && (forall b: Ballot :: b in s.voted <==> b in s.receipts)
    && (forall b: Ballot :: b in s.receipts ==> b.0 in s.proposals && 0 < s.receipts[b].weight)
    && (forall id :: id in s.proposals ==>
          && s.proposals[id].votesFor == Sum(SideWeights(s, id, true))
          && s.proposals[id].votesAgainst == Sum(SideWeights(s, id, false)))
  }

  lemma {:induction false} CastOneTallies(s: State, user: Address, vote: Vote, weight: i128, now: u32)
    requires Tallied(s) && CastOne(s, user, vote, weight, now).Ok?
    ensures Tallied(CastOne(s, user, vote, weight, now).value.0)
  {
    hide Sum, SideWeights;
    var after := CastOne(s, user, vote, weight, now).value.0;
    var id := vote.proposalId;
    if Verdict(s, user, vote, weight, now) == Success {
      assert (id, user) !in s.receipts;
      forall i | i in after.proposals
        ensures after.proposals[i].votesFor == Sum(SideWeights(after, i, true))
        ensures after.proposals[i].votesAgainst == Sum(SideWeights(after, i, false))
      {
        SideGrows(s, after, (id, user), Receipt(vote.support, weight, now), i, true);
        SideGrows(s, after, (id, user), Receipt(vote.support, weight, now), i, false);
      }
    }
  }

  lemma {:induction false} SideGrows(s: State, after: State, ballot: Ballot, receipt: Receipt, id: u32, support: bool)
    requires ballot !in s.receipts && after.receipts == s.receipts[ballot := receipt]
    ensures Sum(SideWeights(after, id, support))
         == Sum(SideWeights(s, id, support))
            + if ballot.0 == id && receipt.support == support then receipt.weight else 0
  {
    hide Sum;
    var m := SideWeights(s, id, support);
    if ballot.0 == id && receipt.support == support {
      assert SideWeights(after, id, support) == m[ballot := receipt.weight];
      SumSet(m, ballot, receipt.weight);
    } else {
      assert SideWeights(after, id, support) == m;
    }
  }

  lemma {:induction false} CastAllTallies(s: State, user: Address, votes: seq<Vote>, weight: i128, now: u32)
    requires Tallied(s) && CastAll(s, user, votes, weight, now).Ok?
    ensures Tallied(CastAll(s, user, votes, weight, now).value.0)
  {
    if votes != [] {
      hide Tallied, CastOne;
      CastAllTallies(s, user, votes[..|votes| - 1], weight, now);
      var before := CastAll(s, user, votes[..|votes| - 1], weight, now).value.0;
      CastOneTallies(before, user, votes[|votes| - 1], weight, now);
    }
  }

  datatype Op =
    | Create(id: u32, endsAt: u32)
    | Enact(id: u32)
    | Cancel(id: u32)
    | Cast(user: Address, votes: seq<Vote>, shares: i128, weight: i128, now: u32)

  ghost function Step(s: State, op: Op): State {
    match op
    case Create(id, endsAt) =>
      if id in s.proposals then s else s.(proposals := s.proposals[id := Proposal(0, 0, endsAt, false)])
    case Enact(id) =>
      if id in s.proposals then s.(proposals := s.proposals[id := s.proposals[id].(enacted := true)]) else s
    case Cancel(id) => s.(cancelled := s.cancelled + {id})
    case Cast(user, votes, shares, weight, now) =>
      match Batch(s, user, votes, shares, weight, now)
      case Ok((after, _)) => after
      case Err(_) => s
  }

  const NO_VOTES := State(map[], {}, {}, map[], map[])

  ghost function Run(ops: seq<Op>): State {
    if ops == [] then NO_VOTES else Step(Run(ops[..|ops| - 1]), ops[|ops| - 1])
  }

  /** After any run each tally is the sum of the receipts on its side, and each user counts once per proposal. */
  lemma {:induction false} TalliesAreReceipts(ops: seq<Op>)
    ensures Tallied(Run(ops))
  {
    if ops != [] {
      TalliesAreReceipts(ops[..|ops| - 1]);
      StepTallies(Run(ops[..|ops| - 1]), ops[|ops| - 1]);
    }
  }

  /** Changes that touch no receipt and no tally of an existing proposal. */
  lemma {:induction false} UntouchedTallies(s: State, after: State)
    requires Tallied(s) && after.receipts == s.receipts && after.voted == s.voted
    requires s.proposals.Keys <= after.proposals.Keys
    requires forall id :: id in after.proposals ==>
               && after.proposals[id].votesFor == (if id in s.proposals then s.proposals[id].votesFor else 0)
               && after.proposals[id].votesAgainst == (if id in s.proposals then s.proposals[id].votesAgainst else 0)
    ensures Tallied(after)
  {
    hide Sum;
    forall id | id in after.proposals
      ensures after.proposals[id].votesFor == Sum(SideWeights(after, id, true))
      ensures after.proposals[id].votesAgainst == Sum(SideWeights(after, id, false))
    {
      assert SideWeights(after, id, true) == SideWeights(s, id, true);
      assert SideWeights(after, id, false) == SideWeights(s, id, false);
      if id !in s.proposals {
        NoSide(s, id, true);
        NoSide(s, id, false);
      }
    }
  }

  lemma {:induction false} StepTallies(s: State, op: Op)
    requires Tallied(s)
    ensures Tallied(Step(s, op))
  {
    hide Tallied, CastAll;
    match op
    case Create(_, _) => UntouchedTallies(s, Step(s, op));
    case Enact(_) => UntouchedTallies(s, Step(s, op));
    case Cancel(_) => UntouchedTallies(s, Step(s, op));
    case Cast(user, votes, shares, weight, now) =>
      if Batch(s, user, votes, shares, weight, now).Ok? {
        CastAllTallies(s, user, votes, weight, now);
        UntouchedTallies(CastAll(s, user, votes, weight, now).value.0, Step(s, op));
      }
  }

  lemma {:induction false} NoSide(s: State, id: u32, support: bool)
    requires Tallied(s) && id !in s.proposals
    ensures Sum(SideWeights(s, id, support)) == 0
  {
    assert SideWeights(s, id, support) == map[];
  }

  // ---------- What was asked for ----------

  /** An entry that counted: who asked for which side of which proposal, with what weight, and when. */
  datatype Ask = Ask(id: u32, user: Address, support: bool, weight: i128, ledger: u32)

  ghost function BallotOf(ask: Ask): Ballot { (ask.id, ask.user) }

  /** The entries of a batch that were answered with success, as the caller put them. */
  ghost function AskedBy(user: Address, votes: seq<Vote>, answers: seq<Answer>, weight: i128, now: u32): seq<Ask>
    requires |votes| == |answers|
  {
    if votes == [] then []
    else
      var n := |votes| - 1;
      AskedBy(user, votes[..n], answers[..n], weight, now)
      + if answers[n].reason == Success then [Ask(votes[n].proposalId, user, votes[n].support, weight, now)] else []
  }

  /** All entries of a run that counted. */
  ghost function Asked(ops: seq<Op>): seq<Ask> {
    if ops == [] then []
    else
      var before, op := ops[..|ops| - 1], ops[|ops| - 1];
      match op
      case Cast(user, votes, shares, weight, now) =>
        (match Batch(Run(before), user, votes, shares, weight, now)
         case Ok((_, answers)) => Asked(before) + AskedBy(user, votes, answers, weight, now)
         case Err(_) => Asked(before))
      case _ => Asked(before)
  }

  /** The weight that asked for a side of a proposal. */
  ghost function WeightAsking(asks: seq<Ask>, id: u32, support: bool): int {
    if asks == [] then 0
    else
      var ask := asks[|asks| - 1];
      WeightAsking(asks[..|asks| - 1], id, support) + if ask.id == id && ask.support == support then ask.weight else 0
  }

  ghost predicate HasAsked(asks: seq<Ask>, ballot: Ballot) {
    exists i :: 0 <= i < |asks| && BallotOf(asks[i]) == ballot
  }

  ghost predicate TalliesBooked(s: State, asks: seq<Ask>) {
    forall id :: id in s.proposals ==>
      && s.proposals[id].votesFor == WeightAsking(asks, id, true)
      && s.proposals[id].votesAgainst == WeightAsking(asks, id, false)
  }

  ghost predicate ReceiptsBooked(s: State, asks: seq<Ask>) {
    && (forall i :: 0 <= i < |asks| ==>
          && asks[i].id in s.proposals && 0 < asks[i].weight && BallotOf(asks[i]) in s.receipts
          && s.receipts[BallotOf(asks[i])] == Receipt(asks[i].support, asks[i].weight, asks[i].ledger))
    && (forall b: Ballot :: b in s.receipts ==> HasAsked(asks, b))
    && (forall b: Ballot :: b in s.voted <==> b in s.receipts)
  }

  ghost predicate OncePerBallot(asks: seq<Ask>) {
    forall i, j :: 0 <= i < j < |asks| ==> BallotOf(asks[i]) != BallotOf(asks[j])
  }

  /** Tallies, flags and receipts show what was asked, once per user and proposal. */
  ghost predicate Booked(s: State, asks: seq<Ask>) {
    TalliesBooked(s, asks) && ReceiptsBooked(s, asks) && OncePerBallot(asks)
  }

  lemma {:induction false} WeightAskingMore(asks: seq<Ask>, ask: Ask, id: u32, support: bool)
    ensures WeightAsking(asks + [ask], id, support)
         == WeightAsking(asks, id, support) + if ask.id == id && ask.support == support then ask.weight else 0
  {
    assert (asks + [ask])[..|asks|] == asks;
  }

  lemma {:induction false} HasAskedMore(asks: seq<Ask>, ask: Ask)
    ensures forall b: Ballot :: HasAsked(asks + [ask], b) <==> HasAsked(asks, b) || b == BallotOf(ask)
  {
    var more := asks + [ask];
    assert more[|asks|] == ask;
    assert forall i :: 0 <= i < |asks| ==> more[i] == asks[i];
    forall b: Ballot | HasAsked(asks, b) ensures HasAsked(more, b) {
      var i :| 0 <= i < |asks| && BallotOf(asks[i]) == b;
      assert BallotOf(more[i]) == b;
    }
  }

  /** The record after one more entry. */
  ghost function WithEntry(asks: seq<Ask>, user: Address, vote: Vote, weight: i128, now: u32, answer: Answer)
    : seq<Ask>
  {
    asks + if answer.reason == Success then [Ask(vote.proposalId, user, vote.support, weight, now)] else []
  }

  lemma {:induction false} CastOneBooks(s: State, asks: seq<Ask>, user: Address, vote: Vote, weight: i128, now: u32)
    requires Booked(s, asks) && CastOne(s, user, vote, weight, now).Ok?
    ensures var (after, answer) := CastOne(s, user, vote, weight, now).value;
            answer.proposalId == vote.proposalId && Booked(after, WithEntry(asks, user, vote, weight, now, answer))
  {
    var (after, answer) := CastOne(s, user, vote, weight, now).value;
    if answer.reason == Success {
      var ask := Ask(vote.proposalId, user, vote.support, weight, now);
      TalliesBookOne(s, asks, user, vote, weight, now);
      ReceiptsBookOne(s, after, asks, ask);
    } else {
      assert asks + [] == asks;
    }
  }

  lemma {:induction false} TalliesBookOne(
      s: State, asks: seq<Ask>, user: Address, vote: Vote, weight: i128, now: u32)
    requires TalliesBooked(s, asks) && CastOne(s, user, vote, weight, now).Ok?
    requires CastOne(s, user, vote, weight, now).value.1.reason == Success
    ensures TalliesBooked(CastOne(s, user, vote, weight, now).value.0,
                          asks + [Ask(vote.proposalId, user, vote.support, weight, now)])
  {
    var after := CastOne(s, user, vote, weight, now).value.0;
    var ask := Ask(vote.proposalId, user, vote.support, weight, now);
    hide WeightAsking;
    forall id | id in after.proposals
      ensures after.proposals[id].votesFor == WeightAsking(asks + [ask], id, true)
      ensures after.proposals[id].votesAgainst == WeightAsking(asks + [ask], id, false)
    {
      WeightAskingMore(asks, ask, id, true);
      WeightAskingMore(asks, ask, id, false);
    }
  }

  lemma {:induction false} ReceiptsBookOne(s: State, after: State, asks: seq<Ask>, ask: Ask)
    requires ReceiptsBooked(s, asks) && OncePerBallot(asks)
    requires BallotOf(ask) !in s.voted && 0 < ask.weight && ask.id in s.proposals
    requires after.proposals.Keys == s.proposals.Keys && after.voted == s.voted + {BallotOf(ask)}
    requires after.receipts == s.receipts[BallotOf(ask) := Receipt(ask.support, ask.weight, ask.ledger)]
    ensures ReceiptsBooked(after, asks + [ask]) && OncePerBallot(asks + [ask])
  {
    HasAskedMore(asks, ask);
    hide HasAsked;
    var more := asks + [ask];
    assert forall i :: 0 <= i < |asks| ==> more[i] == asks[i] && BallotOf(asks[i]) in s.voted;
  }

  lemma {:induction false} AskedByMore(
      user: Address, votes: seq<Vote>, answers: seq<Answer>, vote: Vote, answer: Answer, asks: seq<Ask>,
      weight: i128, now: u32)
    requires |votes| == |answers|
    ensures asks + AskedBy(user, votes + [vote], answers + [answer], weight, now)
         == WithEntry(asks + AskedBy(user, votes, answers, weight, now), user, vote, weight, now, answer)
  {
    assert (votes + [vote])[..|votes|] == votes && (answers + [answer])[..|answers|] == answers;
  }

  lemma {:induction false} CastAllBooks(
      s: State, asks: seq<Ask>, user: Address, votes: seq<Vote>, weight: i128, now: u32)
    requires Booked(s, asks) && CastAll(s, user, votes, weight, now).Ok?
    ensures var (after, answers) := CastAll(s, user, votes, weight, now).value;
            Booked(after, asks + AskedBy(user, votes, answers, weight, now))
  {
    if votes == [] {
      assert asks + [] == asks;
    } else {
      var before, vote := votes[..|votes| - 1], votes[|votes| - 1];
      CastAllBooks(s, asks, user, before, weight, now);
      var (reached, answers) := CastAll(s, user, before, weight, now).value;
      var (after, answer) := CastOne(reached, user, vote, weight, now).value;
      assert before + [vote] == votes;
      hide Booked, CastOne, AskedBy, WithEntry;
      CastOneBooks(reached, asks + AskedBy(user, before, answers, weight, now), user, vote, weight, now);
      AskedByMore(user, before, answers, vote, answer, asks, weight, now);
    }
  }

  /**
    Over any run the votes for a proposal are the weight of the accepted entries that asked to
    support it, the votes against that of those that did not, and each receipt shows the side,
    weight and ledger its user asked for, who counts once.
   */
  lemma {:induction false} TalliesAreAsked(ops: seq<Op>)
    ensures Booked(Run(ops), Asked(ops))
  {
    if ops == [] {
      NothingBooked();
    } else {
      TalliesAreAsked(ops[..|ops| - 1]);
      StepBooks(ops);
    }
  }

  lemma {:induction false} NothingBooked()
    ensures Booked(NO_VOTES, [])
  {
  }

  lemma {:induction false} StepBooks(ops: seq<Op>)
    requires ops != [] && Booked(Run(ops[..|ops| - 1]), Asked(ops[..|ops| - 1]))
    ensures Booked(Run(ops), Asked(ops))
  {
    var before, op := ops[..|ops| - 1], ops[|ops| - 1];
    var s := Run(before);
    if op.Cast? {
      var Cast(user, votes, shares, weight, now) := op;
      hide Booked, CastAll, AskedBy;
      if Batch(s, user, votes, shares, weight, now).Ok? {
        var (cast, answers) := CastAll(s, user, votes, weight, now).value;
        CastAllBooks(s, Asked(before), user, votes, weight, now);
        StampKeepsBooks(cast, user, answers, now, Asked(before) + AskedBy(user, votes, answers, weight, now));
      }
    } else {
      OtherStepBooks(s, op, Asked(before));
      hide Booked;
    }
  }

  lemma {:induction false} OtherStepBooks(s: State, op: Op, asks: seq<Ask>)
    requires !op.Cast? && Booked(s, asks)
    ensures Booked(Step(s, op), asks)
  {
    OtherStepTallies(s, op, asks);
    hide WeightAsking, HasAsked, TalliesBooked, OncePerBallot;
  }

  lemma {:induction false} OtherStepTallies(s: State, op: Op, asks: seq<Ask>)
    requires !op.Cast? && Booked(s, asks)
    ensures TalliesBooked(Step(s, op), asks)
  {
    if op.Create? && op.id !in s.proposals {
      NobodyAsked(s, asks, op.id);
    }
    hide WeightAsking, ReceiptsBooked, OncePerBallot;
  }

  lemma {:induction false} StampKeepsBooks(s: State, user: Address, answers: seq<Answer>, now: u32, asks: seq<Ask>)
    requires Booked(s, asks)
    ensures Booked(Stamped(s, user, answers, now), asks)
  {
    hide WeightAsking, HasAsked, AnySuccess;
  }

  lemma {:induction false} NobodyAsked(s: State, asks: seq<Ask>, id: u32)
    requires Booked(s, asks) && id !in s.proposals
    ensures WeightAsking(asks, id, true) == 0 && WeightAsking(asks, id, false) == 0
  {
    assert forall i :: 0 <= i < |asks| ==> asks[i].id != id;
    hide Booked;
    NoneAsking(asks, id);
  }

  lemma {:induction false} NoneAsking(asks: seq<Ask>, id: u32)
    requires forall i :: 0 <= i < |asks| ==> asks[i].id != id
    ensures WeightAsking(asks, id, true) == 0 && WeightAsking(asks, id, false) == 0
  {
    if asks != [] {
      NoneAsking(asks[..|asks| - 1], id);
    }
  }

  // ---------- How an entry is answered ----------

  /** The last ledger of the proposal, from the call that created it. */
  ghost function CreatedWith(ops: seq<Op>, id: u32): Option<u32> {
    if ops == [] then None
    else
      var before, op := ops[..|ops| - 1], ops[|ops| - 1];
      if op.Create? && op.id == id && CreatedWith(before, id).None? then Some(op.endsAt) else CreatedWith(before, id)
  }

  ghost predicate EnactedBy(ops: seq<Op>, id: u32) {
    ops != [] &&
    (var before, op := ops[..|ops| - 1], ops[|ops| - 1];
     EnactedBy(before, id) || (op == Enact(id) && CreatedWith(before, id).Some?))
  }

  ghost predicate CancelledBy(ops: seq<Op>, id: u32) {
    ops != [] && (CancelledBy(ops[..|ops| - 1], id) || ops[|ops| - 1] == Cancel(id))
  }

  ghost predicate SameTerms(s: State, after: State) {
    && after.proposals.Keys == s.proposals.Keys && after.cancelled == s.cancelled
    && forall id :: id in s.proposals ==>
         after.proposals[id].endsAt == s.proposals[id].endsAt && after.proposals[id].enacted == s.proposals[id].enacted
  }

  lemma {:induction false} CastAllKeepsTerms(s: State, user: Address, votes: seq<Vote>, weight: i128, now: u32)
    requires CastAll(s, user, votes, weight, now).Ok?
    ensures SameTerms(s, CastAll(s, user, votes, weight, now).value.0)
  {
    if votes != [] {
      CastAllKeepsTerms(s, user, votes[..|votes| - 1], weight, now);
    }
  }

  lemma {:induction false} TermsAreHistory(ops: seq<Op>, id: u32)
    ensures id in Run(ops).cancelled <==> CancelledBy(ops, id)
    ensures id in Run(ops).proposals <==> CreatedWith(ops, id).Some?
    ensures id in Run(ops).proposals ==>
              && Run(ops).proposals[id].endsAt == CreatedWith(ops, id).value
              && (Run(ops).proposals[id].enacted <==> EnactedBy(ops, id))
    ensures EnactedBy(ops, id) ==> CreatedWith(ops, id).Some?
  {
    if ops != [] {
      var before, op := ops[..|ops| - 1], ops[|ops| - 1];
      TermsAreHistory(before, id);
      if op.Cast? && Batch(Run(before), op.user, op.votes, op.shares, op.weight, op.now).Ok? {
        CastAllKeepsTerms(Run(before), op.user, op.votes, op.weight, op.now);
      }
      hide CastAll;
    }
  }

  /** The answer an entry deserves, from what was called and asked for before it. */
  ghost function Deserved(ops: seq<Op>, asks: seq<Ask>, user: Address, id: u32, weight: i128, now: u32): Reason {
    if CreatedWith(ops, id).None? then ProposalNotFound
    else if EnactedBy(ops, id) then ProposalEnacted
    else if CancelledBy(ops, id) then ProposalCancelled
    else if CreatedWith(ops, id).value < now then VotingEnded
    else if HasAsked(asks, (id, user)) then AlreadyVoted
    else if weight <= 0 then NoPosition
    else Success
  }

  /**
    Every entry of a batch after any run is answered as it deserves: it counts exactly when its
    proposal was created, never enacted or cancelled, is within its deadline, was not counted for
    this user before, in this batch or earlier, and the user has weight.
   */
  lemma {:induction false} AnsweredExactly(
      ops: seq<Op>, user: Address, votes: seq<Vote>, shares: i128, weight: i128, now: u32, i: nat)
    requires Batch(Run(ops), user, votes, shares, weight, now).Ok? && i < |votes|
    ensures var answers := Batch(Run(ops), user, votes, shares, weight, now).value.1;
            && |answers| == |votes|
            && answers[i] == Answer(votes[i].proposalId, Deserved(ops,
                 Asked(ops) + AskedBy(user, votes[..i], answers[..i], weight, now),
                 user, votes[i].proposalId, weight, now))
  {
    var s := Run(ops);
    AnswerOf(s, user, votes, weight, now, i);
    var (reached, earlier) := CastAll(s, user, votes[..i], weight, now).value;
    TalliesAreAsked(ops);
    CastAllBooks(s, Asked(ops), user, votes[..i], weight, now);
    CastAllKeepsTerms(s, user, votes[..i], weight, now);
    TermsAreHistory(ops, votes[i].proposalId);
    VotedIsAsked(reached, Asked(ops) + AskedBy(user, votes[..i], earlier, weight, now), (votes[i].proposalId, user));
    hide Run, CastAll, Booked, Asked, AskedBy, HasAsked, CreatedWith, EnactedBy, CancelledBy;
  }

  lemma {:induction false} VotedIsAsked(s: State, asks: seq<Ask>, ballot: Ballot)
    requires Booked(s, asks)
    ensures ballot in s.voted <==> HasAsked(asks, ballot)
  {
    if HasAsked(asks, ballot) {
      var i :| 0 <= i < |asks| && BallotOf(asks[i]) == ballot;
    }
  }

  /** Entry `i` is judged in the state its predecessors left. */
  lemma {:induction false} AnswerOf(s: State, user: Address, votes: seq<Vote>, weight: i128, now: u32, i: nat)
    requires CastAll(s, user, votes, weight, now).Ok? && i < |votes|
    ensures CastAll(s, user, votes[..i], weight, now).Ok?
    ensures var answers := CastAll(s, user, votes, weight, now).value.1;
            var (reached, earlier) := CastAll(s, user, votes[..i], weight, now).value;
            && answers[..i] == earlier
            && answers[i] == Answer(votes[i].proposalId, Verdict(reached, user, votes[i], weight, now))
    decreases |votes|
  {
    var n := |votes| - 1;
    var before := votes[..n];
    assert CastAll(s, user, before, weight, now).Ok?;
    var answers := CastAll(s, user, votes, weight, now).value.1;
    assert answers[..n] == CastAll(s, user, before, weight, now).value.1;
    if i < n {
      AnswerOf(s, user, before, weight, now, i);
      assert before[..i] == votes[..i] && answers[..n][..i] == answers[..i];
    }
  }

  // ---------- When a batch goes through ----------

  ghost predicate FirstFor(votes: seq<Vote>, i: nat)
    requires i < |votes|
  {
    forall j :: 0 <= j < i ==> votes[j].proposalId != votes[i].proposalId
  }

  function SideTally(s: State, vote: Vote): i128
    requires vote.proposalId in s.proposals
  {
    var p := s.proposals[vote.proposalId];
    if vote.support then p.votesFor else p.votesAgainst
  }

  /** An entry that would count, as the first for its proposal, and push a tally out of range. */
  ghost predicate OverflowsAt(s: State, user: Address, votes: seq<Vote>, weight: i128, now: u32, i: nat)
    requires i < |votes|
  {
    && FirstFor(votes, i) && Verdict(s, user, votes[i], weight, now) == Success
    && SideTally(s, votes[i]) + weight > I128_MAX
  }

  /** What earlier entries of the batch did to a proposal: nothing, or no entry for it counts any more. */
  ghost predicate Settled(s: State, reached: State, user: Address, votes: seq<Vote>, id: u32, weight: i128, now: u32) {
    && SameTerms(s, reached)
    && if exists j :: 0 <= j < |votes| && votes[j].proposalId == id
       then Verdict(reached, user, Vote(id, true), weight, now) != Success
       else (id in s.proposals ==> reached.proposals[id] == s.proposals[id])
            && ((id, user) in reached.voted <==> (id, user) in s.voted)
  }

  lemma {:induction false} CastAllSettles(s: State, user: Address, votes: seq<Vote>, weight: i128, now: u32, id: u32)
    requires CastAll(s, user, votes, weight, now).Ok?
    ensures Settled(s, CastAll(s, user, votes, weight, now).value.0, user, votes, id, weight, now)
  {
    CastAllKeepsTerms(s, user, votes, weight, now);
    if votes != [] {
      var n := |votes| - 1;
      CastAllSettles(s, user, votes[..n], weight, now, id);
      var reached := CastAll(s, user, votes[..n], weight, now).value.0;
      if exists j :: 0 <= j < n && votes[j].proposalId == id {
        var j :| 0 <= j < n && votes[j].proposalId == id;
        assert votes[..n][j].proposalId == id;
      }
      CastOneSettles(reached, user, votes[n], weight, now, id);
      hide CastOne, Verdict;
    }
  }

  lemma {:induction false} CastOneSettles(s: State, user: Address, vote: Vote, weight: i128, now: u32, id: u32)
    requires CastOne(s, user, vote, weight, now).Ok?
    ensures var after := CastOne(s, user, vote, weight, now).value.0;
            && SameTerms(s, after)
            && (vote.proposalId == id || Verdict(s, user, Vote(id, true), weight, now) != Success ==>
                  Verdict(after, user, Vote(id, true), weight, now) != Success)
            && (vote.proposalId != id ==>
                  && (id in s.proposals ==> after.proposals[id] == s.proposals[id])
                  && ((id, user) in after.voted <==> (id, user) in s.voted))
  {
  }

  lemma {:induction false} CastAllAcceptedExactly(s: State, user: Address, votes: seq<Vote>, weight: i128, now: u32)
    ensures CastAll(s, user, votes, weight, now).Ok?
            <==> forall i :: 0 <= i < |votes| ==> !OverflowsAt(s, user, votes, weight, now, i)
  {
    if votes != [] {
      var n := |votes| - 1;
      var before := votes[..n];
      CastAllAcceptedExactly(s, user, before, weight, now);
      forall i | 0 <= i < n
        ensures OverflowsAt(s, user, before, weight, now, i) == OverflowsAt(s, user, votes, weight, now, i)
      {
        assert before[i] == votes[i];
      }
      if CastAll(s, user, before, weight, now).Ok? {
        var reached := CastAll(s, user, before, weight, now).value.0;
        CastAllSettles(s, user, before, weight, now, votes[n].proposalId);
        LastOverflows(s, reached, user, votes, weight, now);
      }
      hide OverflowsAt, CastOne;
    }
  }

  lemma {:induction false} LastOverflows(
      s: State, reached: State, user: Address, votes: seq<Vote>, weight: i128, now: u32)
    requires votes != []
    requires Settled(s, reached, user, votes[..|votes| - 1], votes[|votes| - 1].proposalId, weight, now)
    ensures CastOne(reached, user, votes[|votes| - 1], weight, now).Err?
            <==> OverflowsAt(s, user, votes, weight, now, |votes| - 1)
  {
    var n := |votes| - 1;
    var before := votes[..n];
    assert forall j :: 0 <= j < n ==> before[j] == votes[j];
    assert Verdict(reached, user, votes[n], weight, now)
        == Verdict(reached, user, Vote(votes[n].proposalId, true), weight, now);
    if !FirstFor(votes, n) {
      var j :| 0 <= j < n && votes[j].proposalId == votes[n].proposalId;
      assert before[j].proposalId == votes[n].proposalId;
    } else {
      assert !exists j :: 0 <= j < |before| && before[j].proposalId == votes[n].proposalId;
    }
  }

  /** The first entry for its proposal, which deserves to count, asks for more than its side can hold. */
  ghost predicate AsksTooMuch(ops: seq<Op>, user: Address, votes: seq<Vote>, weight: i128, now: u32, i: nat)
    requires i < |votes|
  {
    && FirstFor(votes, i)
    && Deserved(ops, Asked(ops), user, votes[i].proposalId, weight, now) == Success
    && WeightAsking(Asked(ops), votes[i].proposalId, votes[i].support) + weight > I128_MAX
  }

  /**
    After any run a batch of at most ten entries from a user with shares goes through exactly
    when no entry that would count pushes what was asked for on its side out of range; then the
    user's last vote is stamped exactly when some entry counts.
   */
  lemma {:induction false} BatchAcceptedExactly(
      ops: seq<Op>, user: Address, votes: seq<Vote>, shares: i128, weight: i128, now: u32)
    ensures var s := Run(ops);
            && (Batch(s, user, votes, shares, weight, now).Ok?
                <==> && |votes| <= 10 && 0 < shares
                     && forall i :: 0 <= i < |votes| ==> !AsksTooMuch(ops, user, votes, weight, now, i))
            && (Batch(s, user, votes, shares, weight, now).Ok? ==>
                  var (after, answers) := Batch(s, user, votes, shares, weight, now).value;
                  after.lastVote == if exists i :: 0 <= i < |answers| && answers[i].reason == Success
                                    then s.lastVote[user := now] else s.lastVote)
  {
    var s := Run(ops);
    CastAllAcceptedExactly(s, user, votes, weight, now);
    if CastAll(s, user, votes, weight, now).Ok? {
      CastAllKeepsStamp(s, user, votes, weight, now);
    }
    TalliesAreAsked(ops);
    forall i | 0 <= i < |votes|
      ensures OverflowsAt(s, user, votes, weight, now, i) <==> AsksTooMuch(ops, user, votes, weight, now, i)
    {
      TermsAreHistory(ops, votes[i].proposalId);
      VotedIsAsked(s, Asked(ops), (votes[i].proposalId, user));
      hide Run, Asked, HasAsked, CreatedWith, EnactedBy, CancelledBy, WeightAsking, FirstFor, ReceiptsBooked;
    }
    hide Run, Asked, AsksTooMuch, OverflowsAt, CastAll, Booked;
  }

  lemma {:induction false} CastAllKeepsStamp(s: State, user: Address, votes: seq<Vote>, weight: i128, now: u32)
    requires CastAll(s, user, votes, weight, now).Ok?
    ensures CastAll(s, user, votes, weight, now).value.0.lastVote == s.lastVote
  {
    if votes != [] {
      CastAllKeepsStamp(s, user, votes[..|votes| - 1], weight, now);
    }
  }

  // ---------- Storage ----------

  class Governance {
    var proposals: map<u32, Proposal>
    var cancelled: set<u32>
    var voted: set<Ballot>
    var receipts: map<Ballot, Receipt>
    var lastVote: map<Address, u32>

    ghost function View(): State
      reads this
    {
      State(proposals, cancelled, voted, receipts, lastVote)
    }

    constructor ()
      ensures View() == NO_VOTES
    {
      proposals, cancelled, voted, receipts, lastVote := map[], {}, {}, map[], map[];
    }

    /** The loop body: one entry, judged and, if it counts, booked. */
    method CastEntry(user: Address, entry: Vote, weight: i128, now: u32) returns (r: Result<Answer, Error>)
      modifies this`proposals, this`voted, this`receipts
      ensures match CastOne(old(View()), user, entry, weight, now)
              case Ok((after, answer)) => r == Ok(answer) && View() == after
              case Err(e) => r == Err(e) && View() == old(View())
      ensures r == Ok(Answer(entry.proposalId, Success)) ==>
                var id := entry.proposalId;
                && id in old(proposals) && id in proposals && (id, user) in receipts
                && receipts[(id, user)] == Receipt(entry.support, weight, now)
                && proposals[id].votesFor == old(proposals)[id].votesFor + (if entry.support then weight else 0)
                && proposals[id].votesAgainst == old(proposals)[id].votesAgainst + (if entry.support then 0 else weight)
    {
      var id := entry.proposalId;
      if id !in proposals {
        return Ok(Answer(id, ProposalNotFound));
      }
      var proposal := proposals[id];
      if proposal.enacted {
        return Ok(Answer(id, ProposalEnacted));
      }
      if id in cancelled {
        return Ok(Answer(id, ProposalCancelled));
      }
      if now > proposal.endsAt {
        return Ok(Answer(id, VotingEnded));
      }
      if (id, user) in voted {
        return Ok(Answer(id, AlreadyVoted));
      }
      if weight <= 0 {
        return Ok(Answer(id, NoPosition));
      }
      var tally := Checked((if entry.support then proposal.votesFor else proposal.votesAgainst) + weight);
      if tally.None? {
        return Err(ArithmeticError);
      }
      proposal := if entry.support then proposal.(votesFor := tally.value) else proposal.(votesAgainst := tally.value);
      proposals := proposals[id := proposal];
      voted := voted + {(id, user)};
      receipts := receipts[(id, user) := Receipt(entry.support, weight, now)];
      return Ok(Answer(id, Success));
    }

    /** An overflow leaves everything as it was; any other outcome of an entry does not disturb its siblings. */
    method CastBatch(user: Address, votes: seq<Vote>, shares: i128, weight: i128, now: u32)
      returns (r: Result<seq<Answer>, Error>)
      modifies this
      ensures match Batch(old(View()), user, votes, shares, weight, now)
              case Ok((after, answers)) => r == Ok(answers) && View() == after
              case Err(e) => r == Err(e) && View() == old(View())
    {
      if |votes| > MAX_BATCH_VOTES {
        return Err(BatchTooLarge);
      }
      if shares <= 0 {
        return Err(PositionNotFound);
      }
      hide CastOne, AnySuccess;
      ghost var start := View();
      var savedProposals, savedVoted, savedReceipts := proposals, voted, receipts;
      var answers: seq<Answer> := [];
      var anySuccess := false;
      var k := 0;
      NothingCast(start, user, weight, now);
      while k < |votes|
        invariant 0 <= k <= |votes|
        invariant CastAll(start, user, votes[..k], weight, now) == Ok((View(), answers))
        invariant anySuccess <==> AnySuccess(answers)
        invariant lastVote == start.lastVote && cancelled == start.cancelled
      {
        hide CastAll;
        NextVote(start, user, votes, k, weight, now);
        var answer := CastEntry(user, votes[k], weight, now);
        if answer.Err? {
          OverflowAborts(start, user, votes, k, weight, now);
          proposals, voted, receipts := savedProposals, savedVoted, savedReceipts;
          return Err(answer.error);
        }
        AnySuccessMore(answers, answer.value);
        anySuccess := anySuccess || answer.value.reason == Success;
        answers := answers + [answer.value];
        k := k + 1;
      }
      assert votes[..k] == votes;
      if anySuccess {
        lastVote := lastVote[user := now];
      }
      return Ok(answers);
    }
  }

  lemma {:induction false} NothingCast(s: State, user: Address, weight: i128, now: u32)
    ensures CastAll(s, user, [], weight, now) == Ok((s, [])) && !AnySuccess([])
  {
  }

  lemma {:induction false} AnySuccessMore(answers: seq<Answer>, answer: Answer)
    ensures AnySuccess(answers + [answer]) <==> AnySuccess(answers) || answer.reason == Success
  {
    var more := answers + [answer];
    assert more[|answers|] == answer;
    assert forall i :: 0 <= i < |answers| ==> more[i] == answers[i];
  }

  lemma {:induction false} NextVote(s: State, user: Address, votes: seq<Vote>, k: nat, weight: i128, now: u32)
    requires k < |votes| && CastAll(s, user, votes[..k], weight, now).Ok?
    ensures var (here, answers) := CastAll(s, user, votes[..k], weight, now).value;
            CastAll(s, user, votes[..k + 1], weight, now)
            == match CastOne(here, user, votes[k], weight, now)
               case Err(e) => Err(e)
               case Ok((after, answer)) => Ok((after, answers + [answer]))
  {
    assert votes[..k + 1][..k] == votes[..k];
  }

  lemma {:induction false} OverflowAborts(s: State, user: Address, votes: seq<Vote>, k: nat, weight: i128, now: u32)
    requires k < |votes| && CastAll(s, user, votes[..k + 1], weight, now).Err?
    ensures CastAll(s, user, votes, weight, now) == CastAll(s, user, votes[..k + 1], weight, now)
    decreases |votes|
  {
    if k + 1 == |votes| {
      assert votes[..k + 1] == votes;
    } else {
      var before := votes[..|votes| - 1];
      assert before[..k + 1] == votes[..k + 1];
      OverflowAborts(s, user, before, k, weight, now);
    }
  }
}
