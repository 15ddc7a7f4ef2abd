/**
  Compacted, pruned balance history and the queries on it (src/balance_checkpoints.rs).

  A history is compared with the plain record of every write ever made: TrueBalance
  is the balance at a ledger, Area its sum over all earlier ledgers.
 */
module BalanceCheckpoints {
  import opened Numeric

  const MAX_CHECKPOINTS: int := 100

  /** Balances below this bound never saturate a cumulative product (2^95). */
  const BALANCE_BOUND: int := 0x8000_0000_0000_0000_0000_0000

  datatype Checkpoint = Checkpoint(ledger: u32, balance: i128, cumulative: i128)

  datatype Error = ZeroAmount | EpochNotFinalized

  datatype Write = Write(ledger: u32, balance: i128)

  // ---------- The record of all writes ----------

  /** The balance at `ledger`: that of the last write at or before it. */
  ghost function TrueBalance(writes: seq<Write>, ledger: int): int {
    if writes == [] then 0
    else
      var last := writes[|writes| - 1];
      if last.ledger <= ledger then last.balance else TrueBalance(writes[..|writes| - 1], ledger)
  }

  /** Sum of TrueBalance over the ledgers [0, end). */
  ghost function Area(writes: seq<Write>, end: nat): int {
    if end == 0 then 0 else Area(writes, end - 1) + TrueBalance(writes, end - 1)
  }

  ghost predicate InOrder(writes: seq<Write>) {
    forall i, j :: 0 <= i < j < |writes| ==> writes[i].ledger <= writes[j].ledger
  }

  ghost predicate Bounded(writes: seq<Write>) {
    forall i :: 0 <= i < |writes| ==> 0 <= writes[i].balance < BALANCE_BOUND
  }

  ghost predicate Lawful(writes: seq<Write>) {
    InOrder(writes) && Bounded(writes)
  }

  lemma {:induction false} LawfulPrefix(writes: seq<Write>, n: nat)
    requires Lawful(writes) && n <= |writes|
    ensures Lawful(writes[..n])
  {
  }

  lemma {:induction false} TrueBalanceBounds(writes: seq<Write>, ledger: int)
    requires Bounded(writes)
    ensures 0 <= TrueBalance(writes, ledger) < BALANCE_BOUND
  {
    if writes != [] {
      TrueBalanceBounds(writes[..|writes| - 1], ledger);
    }
  }

  lemma {:induction false} TrueBalanceAppend(writes: seq<Write>, w: Write, ledger: int)
    ensures TrueBalance(writes + [w], ledger)
         == if w.ledger <= ledger then w.balance else TrueBalance(writes, ledger)
  {
    assert (writes + [w])[..|writes|] == writes;
  }

  lemma {:induction false} AreaAppend(writes: seq<Write>, w: Write, end: nat)
    requires end <= w.ledger
    ensures Area(writes + [w], end) == Area(writes, end)
  {
    if end != 0 {
      AreaAppend(writes, w, end - 1);
      TrueBalanceAppend(writes, w, end - 1);
    }
  }

  /** A constant stretch adds its balance once per ledger. */
  lemma {:induction false} AreaConstant(writes: seq<Write>, start: nat, end: nat, balance: int)
    requires start <= end
    requires forall l :: start <= l < end ==> TrueBalance(writes, l) == balance
    ensures Area(writes, end) == Area(writes, start) + balance * (end - start)
  {
    if start < end {
      AreaConstant(writes, start, end - 1, balance);
      assert balance * (end - start) == balance * (end - 1 - start) + balance;
    }
  }

  lemma {:induction false} AreaBounds(writes: seq<Write>, start: nat, end: nat)
    requires Bounded(writes) && start <= end
    ensures 0 <= Area(writes, start) <= Area(writes, end)
    ensures Area(writes, end) - Area(writes, start) <= (BALANCE_BOUND - 1) * (end - start)
    decreases start + end
  {
    if start < end {
      AreaBounds(writes, start, end - 1);
      TrueBalanceBounds(writes, end - 1);
    } else if start != 0 {
      AreaBounds(writes, start - 1, end - 1);
      TrueBalanceBounds(writes, start - 1);
    }
  }

  /** The area up to any ledger fits in `i128` with room to spare: nothing saturates. */
  lemma {:induction false} AreaFits(writes: seq<Write>, end: u32)
    requires Bounded(writes)
    ensures 0 <= Area(writes, end) <= I128_MAX
  {
    AreaBounds(writes, 0, end);
    MulLe(end, U32_MAX, BALANCE_BOUND - 1);
  }

  /** Equal up to a ledger, equal area there: no area means no balance before it. */
  lemma {:induction false} NoAreaNoBalance(writes: seq<Write>, end: nat, ledger: nat)
    requires Bounded(writes) && Area(writes, end) == 0 && ledger < end
    ensures TrueBalance(writes, ledger) == 0 && Area(writes, ledger) == 0
  {
    AreaBounds(writes, 0, ledger);
    AreaBounds(writes, ledger + 1, end);
    TrueBalanceBounds(writes, ledger);
  }

  // ---------- The stored history ----------

  ghost predicate Ascending(history: seq<Checkpoint>) {
    forall i, j :: 0 <= i < j < |history| ==> history[i].ledger < history[j].ledger
  }

  /** Ledger `l` lies in the stretch that starts at checkpoint `i`. */
  ghost predicate Covers(history: seq<Checkpoint>, i: int, l: int)
    requires 0 <= i < |history|
  {
    history[i].ledger <= l && (i + 1 < |history| ==> l < history[i + 1].ledger)
  }

  /**
    `history` is a faithful compaction of `writes`: every retained stretch carries the
    true balance and the true area before it, and nothing was dropped from a list that
    is not full.
   */
  ghost predicate Represents(history: seq<Checkpoint>, writes: seq<Write>) {
    && |history| <= MAX_CHECKPOINTS
    && Ascending(history)
    && (forall i :: 0 <= i < |history| ==> history[i].cumulative == Area(writes, history[i].ledger))
    && (forall i, l :: 0 <= i < |history| && Covers(history, i, l) ==> TrueBalance(writes, l) == history[i].balance)
    && (history == [] ==> forall l :: TrueBalance(writes, l) == 0)
    && (0 < |history| < MAX_CHECKPOINTS ==> forall l :: l < history[0].ledger ==> TrueBalance(writes, l) == 0)
    && (history != [] ==> writes != [] && history[|history| - 1].ledger <= writes[|writes| - 1].ledger)
  }

  /** The prefix sum at `ledger` when the balance of `c` has lasted until then. */
  function Extended(c: Checkpoint, ledger: u32): i128 {
    SatAdd(c.cumulative, SatMul(c.balance, SatSubU32(ledger, c.ledger)))
  }

  /** The history after a write: skip, overwrite, or append and prune. */
  function Pushed(history: seq<Checkpoint>, ledger: u32, balance: i128): seq<Checkpoint> {
    if history == [] then
      if balance == 0 then [] else [Checkpoint(ledger, balance, 0)]
    else
      var last := history[|history| - 1];
      if last.balance == balance then history
      else if last.ledger == ledger then
        history[..|history| - 1] + [Checkpoint(ledger, balance, last.cumulative)]
      else
        var grown := history + [Checkpoint(ledger, balance, Extended(last, ledger))];
        if |grown| > MAX_CHECKPOINTS then grown[1..] else grown
  }

  /** The last entry at or before `ledger`, found by scanning back from the end. */
  function Scan(history: seq<Checkpoint>, ledger: int): Option<Checkpoint> {
    if history == [] then None
    else if history[|history| - 1].ledger <= ledger then Some(history[|history| - 1])
    else Scan(history[..|history| - 1], ledger)
  }

  function BalanceIn(history: seq<Checkpoint>, ledger: u32): i128 {
    match Scan(history, ledger)
    case Some(c) => c.balance
    case None => 0
  }

  function CumulativeIn(history: seq<Checkpoint>, ledger: u32): i128 {
    match Scan(history, ledger)
    case Some(c) => Extended(c, ledger)
    case None => 0
  }

  function TwabIn(history: seq<Checkpoint>, now: u32, start: u32, end: u32): Result<i128, Error> {
    if end <= start then Err(ZeroAmount)
    else if end > now then Err(EpochNotFinalized)
    else if Scan(history, start).None? && history != [] && history[0].cumulative != 0 then Err(EpochNotFinalized)
    else
      var accumulated := SatSub(CumulativeIn(history, end), CumulativeIn(history, start));
      Ok(Clamp(TruncDiv(accumulated, end - start)))
  }

  // ---------- Every write keeps the history faithful ----------

  /** Saturating multiply-and-add is exact when the exact result is in range. */
  lemma {:induction false} AccumulateExact(start: int, balance: int, elapsed: int, total: int)
    requires 0 <= start && 0 <= balance && 0 <= elapsed
    requires total == start + balance * elapsed && total <= I128_MAX
    ensures SatAdd(start, SatMul(balance, elapsed)) == total
  {
    MulLe(0, balance, elapsed);
  }

  /** Extending the cumulative product of the covering checkpoint gives the true area. */
  lemma {:induction false} AreaOfStretch(history: seq<Checkpoint>, writes: seq<Write>, k: int, ledger: u32)
    requires Represents(history, writes) && Lawful(writes)
    requires 0 <= k < |history| && history[k].ledger <= ledger
    requires k + 1 < |history| ==> ledger <= history[k + 1].ledger
    ensures Area(writes, ledger) == Extended(history[k], ledger)
  {
    var c := history[k];
    forall l | c.ledger <= l < ledger ensures TrueBalance(writes, l) == c.balance {
      assert Covers(history, k, l);
    }
    AreaConstant(writes, c.ledger, ledger, c.balance);
    assert Covers(history, k, c.ledger);
    TrueBalanceBounds(writes, c.ledger);
    AreaFits(writes, ledger);
    AreaFits(writes, c.ledger);
    AccumulateExact(c.cumulative, c.balance, ledger - c.ledger, Area(writes, ledger));
  }

  lemma {:induction false} AppendKeepsPast(history: seq<Checkpoint>, writes: seq<Write>, w: Write)
    requires Represents(history, writes) && (writes != [] ==> writes[|writes| - 1].ledger <= w.ledger)
    ensures forall i :: 0 <= i < |history| ==> history[i].cumulative == Area(writes + [w], history[i].ledger)
    ensures forall l :: TrueBalance(writes + [w], l) == if w.ledger <= l then w.balance else TrueBalance(writes, l)
  {
    hide TrueBalance, Area;
    forall i | 0 <= i < |history| ensures history[i].cumulative == Area(writes + [w], history[i].ledger) {
      assert history[i].ledger <= history[|history| - 1].ledger;
      AreaAppend(writes, w, history[i].ledger);
    }
    forall l ensures TrueBalance(writes + [w], l) == if w.ledger <= l then w.balance else TrueBalance(writes, l) {
      TrueBalanceAppend(writes, w, l);
    }
  }

  lemma {:induction false} PushKeepsFaith(history: seq<Checkpoint>, writes: seq<Write>, w: Write)
    requires Represents(history, writes) && Lawful(writes + [w])
    ensures Represents(Pushed(history, w.ledger, w.balance), writes + [w])
  {
    assert Lawful(writes) by {
      assert (writes + [w])[..|writes|] == writes;
      LawfulPrefix(writes + [w], |writes|);
    }
    assert writes != [] ==> writes[|writes| - 1].ledger <= w.ledger by {
      if writes != [] {
        assert (writes + [w])[|writes| - 1] == writes[|writes| - 1] && (writes + [w])[|writes|] == w;
      }
    }
    if history == [] {
      FirstKeepsFaith(writes, w);
    } else {
      var k := |history| - 1;
      if history[k].balance == w.balance {
        UnchangedKeepsFaith(history, writes, w);
      } else if history[k].ledger == w.ledger {
        OverwriteKeepsFaith(history, writes, w);
      } else {
        AppendKeepsFaith(history, writes, w);
      }
    }
  }

  lemma {:induction false} FirstKeepsFaith(writes: seq<Write>, w: Write)
    requires Represents([], writes) && (writes != [] ==> writes[|writes| - 1].ledger <= w.ledger)
    ensures Represents(Pushed([], w.ledger, w.balance), writes + [w])
  {
    AppendKeepsPast([], writes, w);
    AreaConstant(writes, 0, w.ledger, 0);
    AreaAppend(writes, w, w.ledger);
  }

  lemma {:induction false} UnchangedKeepsFaith(history: seq<Checkpoint>, writes: seq<Write>, w: Write)
    requires Represents(history, writes) && Lawful(writes) && history != []
    requires writes[|writes| - 1].ledger <= w.ledger && history[|history| - 1].balance == w.balance
    ensures Represents(history, writes + [w])
  {
    AppendKeepsPast(history, writes, w);
    forall l | w.ledger <= l ensures TrueBalance(writes, l) == w.balance {
      assert Covers(history, |history| - 1, l);
    }
  }

  lemma {:induction false} OverwriteKeepsFaith(history: seq<Checkpoint>, writes: seq<Write>, w: Write)
    requires Represents(history, writes) && Lawful(writes) && history != []
    requires writes[|writes| - 1].ledger <= w.ledger
    requires history[|history| - 1].ledger == w.ledger && history[|history| - 1].balance != w.balance
    ensures Represents(Pushed(history, w.ledger, w.balance), writes + [w])
  {
    AppendKeepsPast(history, writes, w);
    var after := Pushed(history, w.ledger, w.balance);
    var all := writes + [w];
    assert forall i :: 0 <= i < |history| ==> after[i].ledger == history[i].ledger;
    forall i, l | 0 <= i < |after| && Covers(after, i, l) ensures TrueBalance(all, l) == after[i].balance {
      assert Covers(history, i, l);
      if i + 1 < |after| {
        assert after[i + 1].ledger <= w.ledger;
      }
    }
  }

  lemma {:induction false} AppendKeepsFaith(history: seq<Checkpoint>, writes: seq<Write>, w: Write)
    requires Represents(history, writes) && Lawful(writes) && history != [] && 0 <= w.balance
    requires writes[|writes| - 1].ledger <= w.ledger
    requires history[|history| - 1].ledger < w.ledger && history[|history| - 1].balance != w.balance
    ensures Represents(Pushed(history, w.ledger, w.balance), writes + [w])
  {
    AppendKeepsPast(history, writes, w);
    AreaOfStretch(history, writes, |history| - 1, w.ledger);
    AreaAppend(writes, w, w.ledger);
    var after := Pushed(history, w.ledger, w.balance);
    var all := writes + [w];
    var cut := |history| + 1 - |after|;
    var n := |history|;
    var newest := after[|after| - 1];
    assert newest.ledger == w.ledger && newest.balance == w.balance && newest.cumulative == Area(all, w.ledger);
    assert forall i :: 0 <= i < |after| - 1 ==> after[i] == history[i + cut];
    forall i, l | 0 <= i < |after| && Covers(after, i, l) ensures TrueBalance(all, l) == after[i].balance {
      if i < |after| - 1 {
        assert Covers(history, i + cut, l) by {
          if i + cut + 1 < n {
            assert after[i + 1] == history[i + 1 + cut];
          }
        }
      }
    }
  }

  // ---------- Queries ----------

  lemma {:induction false} ScanFinds(history: seq<Checkpoint>, k: int, ledger: int)
    requires Ascending(history) && 0 <= k < |history| && Covers(history, k, ledger)
    ensures Scan(history, ledger) == Some(history[k])
  {
    if k + 1 < |history| {
      var rest := history[..|history| - 1];
      assert history[k + 1].ledger <= history[|history| - 1].ledger;
      ScanFinds(rest, k, ledger);
    }
  }

  lemma {:induction false} ScanMisses(history: seq<Checkpoint>, ledger: int)
    requires Ascending(history) && (history != [] ==> ledger < history[0].ledger)
    ensures Scan(history, ledger) == None
  {
    if history != [] {
      ScanMisses(history[..|history| - 1], ledger);
    }
  }

  lemma {:induction false} StretchOf(history: seq<Checkpoint>, ledger: int) returns (k: int)
    requires history != [] && history[0].ledger <= ledger
    ensures 0 <= k < |history| && Covers(history, k, ledger)
  {
    k := |history| - 1;
    while history[k].ledger > ledger
      invariant 0 <= k < |history|
      invariant k + 1 < |history| ==> ledger < history[k + 1].ledger
      decreases k
    {
      k := k - 1;
    }
  }

  /** Binary search agrees with the backward scan. */
  method Find(history: seq<Checkpoint>, ledger: u32) returns (found: Option<Checkpoint>)
    requires Ascending(history)
    ensures found == Scan(history, ledger)
  {
    var low, high := 0, |history|;
    while low < high
      invariant 0 <= low <= high <= |history|
      invariant forall i :: 0 <= i < low ==> history[i].ledger <= ledger
      invariant forall i :: high <= i < |history| ==> ledger < history[i].ledger
    {
      var mid := low + (high - low) / 2;
      if history[mid].ledger <= ledger {
        low := mid + 1;
      } else {
        high := mid;
      }
    }
    if low == 0 {
      ScanMisses(history, ledger);
      found := None;
    } else {
      ScanFinds(history, low - 1, ledger);
      found := Some(history[low - 1]);
    }
  }

  lemma {:induction false} BalanceExact(history: seq<Checkpoint>, writes: seq<Write>, ledger: u32)
    requires Represents(history, writes)
    ensures BalanceIn(history, ledger)
         == if history != [] && ledger < history[0].ledger then 0 else TrueBalance(writes, ledger)
  {
    if history != [] && history[0].ledger <= ledger {
      var k := StretchOf(history, ledger);
      ScanFinds(history, k, ledger);
    } else {
      ScanMisses(history, ledger);
    }
  }

  lemma {:induction false} CumulativeExact(history: seq<Checkpoint>, writes: seq<Write>, ledger: u32)
    requires Represents(history, writes) && Lawful(writes)
    ensures CumulativeIn(history, ledger)
         == if history != [] && ledger < history[0].ledger then 0 else Area(writes, ledger)
  {
    if history == [] {
      AreaConstant(writes, 0, ledger, 0);
    } else if history[0].ledger <= ledger {
      var k := StretchOf(history, ledger);
      ScanFinds(history, k, ledger);
      AreaOfStretch(history, writes, k, ledger);
    } else {
      ScanMisses(history, ledger);
    }
  }

  /** The start of the window lies before the oldest checkpoint, and what was dropped there was not all zero. */
  ghost predicate Forgotten(history: seq<Checkpoint>, writes: seq<Write>, start: u32) {
    history != [] && start < history[0].ledger && Area(writes, history[0].ledger) > 0
  }

  /** What a query is promised to answer: the floor of the true average, or one of three rejections. */
  ghost function ExactTwab(history: seq<Checkpoint>, writes: seq<Write>, now: u32, start: u32, end: u32)
    : Result<int, Error>
  {
    if end <= start then Err(ZeroAmount)
    else if end > now || Forgotten(history, writes, start) then Err(EpochNotFinalized)
    else Ok((Area(writes, end) - Area(writes, start)) / (end - start))
  }

  lemma {:induction false} TwabExact(history: seq<Checkpoint>, writes: seq<Write>, now: u32, start: u32, end: u32)
    requires Represents(history, writes) && Lawful(writes)
    ensures TwabIn(history, now, start, end) == ExactTwab(history, writes, now, start, end)
  {
    if start < end <= now {
      ScanIsNone(history, start);
      if Forgotten(history, writes, start) {
        assert history[0].cumulative == Area(writes, history[0].ledger);
      } else {
        OldestCumulative(history, writes, start);
        AcceptedWindow(history, writes, start, end);
      }
    }
  }

  lemma {:induction false} OldestCumulative(history: seq<Checkpoint>, writes: seq<Write>, start: u32)
    requires Represents(history, writes) && Lawful(writes) && !Forgotten(history, writes, start)
    ensures history == [] || history[0].ledger <= start || history[0].cumulative == 0
  {
    if history != [] {
      AreaFits(writes, history[0].ledger);
    }
  }

  lemma {:induction false} AcceptedWindow(history: seq<Checkpoint>, writes: seq<Write>, start: u32, end: u32)
    requires Represents(history, writes) && Lawful(writes) && start < end
    requires !Forgotten(history, writes, start)
    ensures Clamp(TruncDiv(SatSub(CumulativeIn(history, end), CumulativeIn(history, start)), end - start))
         == (Area(writes, end) - Area(writes, start)) / (end - start)
  {
    CumulativeReadsArea(history, writes, start, start);
    CumulativeReadsArea(history, writes, start, end);
    AreaBounds(writes, start, end);
    AreaFits(writes, end);
    AverageFits(Area(writes, end) - Area(writes, start), end - start);
  }

  lemma {:induction false} ScanIsNone(history: seq<Checkpoint>, ledger: u32)
    requires Ascending(history)
    ensures Scan(history, ledger).None? <==> history == [] || ledger < history[0].ledger
  {
    if history != [] && history[0].ledger <= ledger {
      var k := StretchOf(history, ledger);
      ScanFinds(history, k, ledger);
    } else {
      ScanMisses(history, ledger);
    }
  }

  /** Unless the start of a window was forgotten, both edges read the true area. */
  lemma {:induction false} CumulativeReadsArea(history: seq<Checkpoint>, writes: seq<Write>, start: u32, edge: u32)
    requires Represents(history, writes) && Lawful(writes)
    requires start <= edge && !Forgotten(history, writes, start)
    ensures CumulativeIn(history, edge) == Area(writes, edge)
  {
    CumulativeExact(history, writes, edge);
    if history != [] && edge < history[0].ledger {
      AreaFits(writes, history[0].ledger);
      NoAreaNoBalance(writes, history[0].ledger, edge);
    }
  }

  lemma {:induction false} AverageFits(total: int, length: int)
    requires 0 <= total <= I128_MAX && 0 < length
    ensures 0 <= total / length <= I128_MAX && TruncDiv(total, length) == total / length
  {
    FloorMonotone(0, total, length);
    if total / length > total {
      FloorBounds(total, length);
      MulLe(1, length, total / length);
    }
  }

  // ---------- Whole runs ----------

  /** The history after a run of writes, starting from an empty one. */
  ghost function History(writes: seq<Write>): seq<Checkpoint> {
    if writes == [] then []
    else
      var w := writes[|writes| - 1];
      Pushed(History(writes[..|writes| - 1]), w.ledger, w.balance)
  }

  lemma {:induction false} HistoryFaithful(writes: seq<Write>)
    requires Lawful(writes)
    ensures Represents(History(writes), writes)
  {
    if writes != [] {
      var before := writes[..|writes| - 1];
      assert before + [writes[|writes| - 1]] == writes;
      HistoryFaithful(before);
      PushKeepsFaith(History(before), before, writes[|writes| - 1]);
    }
  }

  /** After any lawful run a query is answered exactly, prunings included. */
  lemma {:induction false} TwabOfAnyRun(writes: seq<Write>, now: u32, start: u32, end: u32)
    requires Lawful(writes)
    ensures TwabIn(History(writes), now, start, end) == ExactTwab(History(writes), writes, now, start, end)
    ensures start < end <= now && |History(writes)| < MAX_CHECKPOINTS ==> TwabIn(History(writes), now, start, end).Ok?
  {
    var history := History(writes);
    HistoryFaithful(writes);
    TwabExact(history, writes, now, start, end);
    if 0 < |history| < MAX_CHECKPOINTS {
      AreaConstant(writes, 0, history[0].ledger, 0);
    }
  }

  lemma {:induction false} LaterWritesKeepPast(writes: seq<Write>, more: seq<Write>, end: nat)
    requires forall i :: 0 <= i < |more| ==> end <= more[i].ledger
    ensures Area(writes + more, end) == Area(writes, end)
    ensures forall l :: l < end ==> TrueBalance(writes + more, l) == TrueBalance(writes, l)
  {
    if more == [] {
      assert writes + more == writes;
    } else {
      var w := more[|more| - 1];
      var before := more[..|more| - 1];
      assert writes + more == (writes + before) + [w];
      LaterWritesKeepPast(writes, before, end);
      AreaAppend(writes + before, w, end);
      forall l | l < end ensures TrueBalance(writes + more, l) == TrueBalance(writes, l) {
        TrueBalanceAppend(writes + before, w, l);
      }
    }
  }

  lemma {:induction false} ForgottenForever(writes: seq<Write>, more: seq<Write>, start: u32)
    requires Lawful(writes + more) && Forgotten(History(writes), writes, start)
    ensures Forgotten(History(writes + more), writes + more, start)
  {
    var oldest := History(writes)[0].ledger;
    assert (writes + more)[..|writes|] == writes;
    LawfulPrefix(writes + more, |writes|);
    HistoryFaithful(writes);
    forall i | 0 <= i < |more| ensures oldest <= more[i].ledger {
      assert (writes + more)[|writes| + i] == more[i];
      assert (writes + more)[|writes| - 1] == writes[|writes| - 1];
    }
    LaterWritesKeepPast(writes, more, oldest);
    OldestOnlyAdvances(writes, more);
    AreaBounds(writes + more, oldest, History(writes + more)[0].ledger);
  }

  // ---------- The past, for balances of any size ----------

  /** No balance is negative; the setters refuse such writes. */
  ghost predicate NoneNegative(writes: seq<Write>) {
    forall i :: 0 <= i < |writes| ==> 0 <= writes[i].balance
  }

  /** Each prefix sum is the saturating extension of the one before it. */
  ghost predicate Chained(history: seq<Checkpoint>) {
    && Ascending(history)
    && (forall i :: 0 <= i < |history| ==> 0 <= history[i].balance && 0 <= history[i].cumulative)
    && (forall i :: 0 <= i < |history| - 1 ==> history[i + 1].cumulative == Extended(history[i], history[i + 1].ledger))
  }

  ghost predicate NotAfter(history: seq<Checkpoint>, ledger: int) {
    history != [] ==> history[|history| - 1].ledger <= ledger
  }

  /** A write of the balance that is read anyway records nothing; any other keeps the list within its cap. */
  lemma {:induction false} RedundantWritesRecordNothing(history: seq<Checkpoint>, ledger: u32, balance: i128)
    requires Ascending(history) && NotAfter(history, ledger) && |history| <= 100
    ensures BalanceIn(history, ledger) == balance <==> Pushed(history, ledger, balance) == history
    ensures |Pushed(history, ledger, balance)|
         == if BalanceIn(history, ledger) == balance || (history != [] && history[|history| - 1].ledger == ledger)
            then |history| else Min(|history| + 1, 100)
  {
    if history != [] {
      var after := Pushed(history, ledger, balance);
      assert BalanceIn(history, ledger) == history[|history| - 1].balance;
      assert after[|after| - 1].balance == balance;
      hide BalanceIn;
    }
  }

  /** The history after a write that is neither the first nor redundant, before any pruning. */
  function Grown(history: seq<Checkpoint>, ledger: u32, balance: i128): seq<Checkpoint>
    requires history != []
  {
    var last := history[|history| - 1];
    if last.ledger == ledger then history[..|history| - 1] + [Checkpoint(ledger, balance, last.cumulative)]
    else history + [Checkpoint(ledger, balance, Extended(last, ledger))]
  }

  lemma {:induction false} PushedIs(history: seq<Checkpoint>, ledger: u32, balance: i128)
    ensures Pushed(history, ledger, balance)
         == if history == [] then (if balance == 0 then [] else [Checkpoint(ledger, balance, 0)])
            else if history[|history| - 1].balance == balance then history
            else if history[|history| - 1].ledger != ledger && |history| >= MAX_CHECKPOINTS
            then Grown(history, ledger, balance)[1..]
            else Grown(history, ledger, balance)
  {
  }

  lemma {:induction false} GrownStaysAscending(history: seq<Checkpoint>, ledger: u32, balance: i128)
    requires history != [] && Ascending(history) && NotAfter(history, ledger)
    ensures Ascending(Grown(history, ledger, balance)) && NotAfter(Grown(history, ledger, balance), ledger)
    ensures Grown(history, ledger, balance)[0].ledger == history[0].ledger
  {
    hide Extended;
  }

  lemma {:induction false} PushedAscends(history: seq<Checkpoint>, ledger: u32, balance: i128)
    requires Ascending(history) && NotAfter(history, ledger)
    ensures Ascending(Pushed(history, ledger, balance)) && NotAfter(Pushed(history, ledger, balance), ledger)
    ensures history != [] ==> Pushed(history, ledger, balance) != []
                              && history[0].ledger <= Pushed(history, ledger, balance)[0].ledger
  {
    PushedIs(history, ledger, balance);
    hide Pushed, Grown;
    if history != [] {
      GrownStaysAscending(history, ledger, balance);
      GrownLength(history, ledger, balance);
    }
  }

  lemma {:induction false} GrownLength(history: seq<Checkpoint>, ledger: u32, balance: i128)
    requires history != []
    ensures |history| <= |Grown(history, ledger, balance)|
    ensures history[|history| - 1].ledger != ledger ==> |Grown(history, ledger, balance)| == |history| + 1
  {
  }

  /** On every reachable history, whatever the balances, the binary search has its ascending list. */
  lemma {:induction false} HistoryAscends(writes: seq<Write>)
    requires InOrder(writes)
    ensures Ascending(History(writes))
    ensures NotAfter(History(writes), if writes == [] then 0 else writes[|writes| - 1].ledger)
    ensures History(writes) != [] ==> writes != []
  {
    if writes != [] {
      var before, w := writes[..|writes| - 1], writes[|writes| - 1];
      HistoryAscends(before);
      hide Pushed, Ascending;
      PushedAscends(History(before), w.ledger, w.balance);
    }
  }

  lemma {:induction false} InOrderSplit(writes: seq<Write>, more: seq<Write>)
    requires InOrder(writes + more) && more != []
    ensures var n := |more| - 1;
            && InOrder(writes + more[..n]) && (writes + more)[..|writes + more| - 1] == writes + more[..n]
            && (writes + more)[|writes + more| - 1] == more[n]
            && NotAfter(History(writes + more[..n]), more[n].ledger)
            && Ascending(History(writes + more[..n]))
            && History(writes + more) == Pushed(History(writes + more[..n]), more[n].ledger, more[n].balance)
  {
    var n := |more| - 1;
    var before := writes + more[..n];
    assert (writes + more)[..|writes + more| - 1] == before;
    assert forall i :: 0 <= i < |before| ==> before[i] == (writes + more)[i];
    HistoryAscends(before);
  }

  lemma {:induction false} OldestOnlyAdvances(writes: seq<Write>, more: seq<Write>)
    requires InOrder(writes + more) && History(writes) != []
    ensures History(writes + more) != []
    ensures History(writes)[0].ledger <= History(writes + more)[0].ledger
  {
    if more == [] {
      assert writes + more == writes;
    } else {
      var n := |more| - 1;
      InOrderSplit(writes, more);
      OldestOnlyAdvances(writes, more[..n]);
      hide History, Pushed;
      PushedAscends(History(writes + more[..n]), more[n].ledger, more[n].balance);
    }
  }

  /** Growing does not change what is found before the write, pruning only what lies before the new oldest entry. */
  lemma {:induction false} GrownScan(history: seq<Checkpoint>, ledger: u32, balance: i128, x: int)
    requires history != [] && NotAfter(history, ledger) && x < ledger
    ensures Scan(Grown(history, ledger, balance), x) == Scan(history, x)
  {
    hide Extended;
    var grown := Grown(history, ledger, balance);
    assert grown[..|grown| - 1]
        == if history[|history| - 1].ledger == ledger then history[..|history| - 1] else history;
  }

  lemma {:induction false} CutScan(history: seq<Checkpoint>, x: int)
    requires Ascending(history) && |history| > 1
    ensures Scan(history[1..], x) == if x < history[1].ledger then None else Scan(history, x)
  {
    var rest := history[1..];
    if x < history[1].ledger {
      ScanMisses(rest, x);
    } else {
      var k := StretchOf(rest, x);
      assert Covers(history, k + 1, x);
      ScanFinds(rest, k, x);
      ScanFinds(history, k + 1, x);
    }
  }

  /** A balance of the past, unless its ledger fell before the oldest checkpoint, where it reads zero. */
  ghost predicate KeepsBalance(before: seq<Checkpoint>, after: seq<Checkpoint>, ledger: u32) {
    BalanceIn(after, ledger) == BalanceIn(before, ledger)
    || (after != [] && ledger < after[0].ledger && BalanceIn(after, ledger) == 0)
  }

  lemma {:induction false} PushKeepsBalance(history: seq<Checkpoint>, w: Write, ledger: u32)
    requires Ascending(history) && NotAfter(history, w.ledger) && ledger < w.ledger
    ensures KeepsBalance(history, Pushed(history, w.ledger, w.balance), ledger)
  {
    PushedIs(history, w.ledger, w.balance);
    if history != [] {
      var grown := Grown(history, w.ledger, w.balance);
      GrownStaysAscending(history, w.ledger, w.balance);
      GrownLength(history, w.ledger, w.balance);
      GrownScan(history, w.ledger, w.balance, ledger);
      hide Pushed, Grown, Scan;
      if |grown| > 1 {
        CutScan(grown, ledger);
      }
    }
  }

  /**
    Whatever is written later, a past balance reads the same unless its ledger now precedes the
    oldest checkpoint, where it reads zero.
   */
  lemma {:induction false} PastBalanceNeverChanges(writes: seq<Write>, more: seq<Write>, ledger: u32)
    requires InOrder(writes + more)
    requires forall i :: 0 <= i < |more| ==> ledger < more[i].ledger
    ensures KeepsBalance(History(writes), History(writes + more), ledger)
  {
    if more == [] {
      assert writes + more == writes;
    } else {
      var n := |more| - 1;
      InOrderSplit(writes, more);
      PastBalanceNeverChanges(writes, more[..n], ledger);
      hide History, Pushed, Scan;
      var before := History(writes + more[..n]);
      PushKeepsBalance(before, more[n], ledger);
      PushedAscends(before, more[n].ledger, more[n].balance);
      if before != [] && ledger < before[0].ledger {
        PastOldestIsZero(History(writes + more), ledger);
      }
    }
  }

  lemma {:induction false} PastOldestIsZero(history: seq<Checkpoint>, ledger: u32)
    requires Ascending(history) && history != [] && ledger < history[0].ledger
    ensures BalanceIn(history, ledger) == 0
  {
    ScanMisses(history, ledger);
  }

  /** After any in-order run a balance is read exactly, or as zero before the oldest checkpoint. */
  lemma {:induction false} BalanceOfAnyRun(writes: seq<Write>, ledger: u32)
    requires InOrder(writes)
    ensures var history := History(writes);
            BalanceIn(history, ledger)
            == if history != [] && ledger < history[0].ledger then 0 else TrueBalance(writes, ledger)
  {
    HistoryAscends(writes);
    if writes != [] {
      var before, w := writes[..|writes| - 1], writes[|writes| - 1];
      var history := History(before);
      HistoryAscends(before);
      PushedAscends(history, w.ledger, w.balance);
      BalanceOfAnyRun(before, ledger);
      if w.ledger <= ledger {
        LatestRead(history, w, ledger);
      } else {
        PushKeepsBalance(history, w, ledger);
        hide Pushed, Scan, Ascending;
        if History(writes) != [] && ledger < History(writes)[0].ledger {
          PastOldestIsZero(History(writes), ledger);
        }
      }
    }
  }

  lemma {:induction false} LatestRead(history: seq<Checkpoint>, w: Write, ledger: u32)
    requires Ascending(history) && NotAfter(history, w.ledger) && w.ledger <= ledger
    ensures var after := Pushed(history, w.ledger, w.balance);
            && BalanceIn(after, ledger) == w.balance
            && (after != [] ==> after[0].ledger <= ledger)
  {
    PushedAscends(history, w.ledger, w.balance);
  }

  lemma {:induction false} GrownStaysChained(history: seq<Checkpoint>, ledger: u32, balance: i128)
    requires history != [] && Chained(history) && NotAfter(history, ledger) && 0 <= balance
    ensures Chained(Grown(history, ledger, balance))
  {
    var last := history[|history| - 1];
    MulLe(0, last.balance, SatSubU32(ledger, last.ledger));
    assert 0 <= Extended(last, ledger);
    hide Extended;
    GrownStaysAscending(history, ledger, balance);
    var grown := Grown(history, ledger, balance);
    forall i | 0 <= i < |grown| - 1 ensures grown[i + 1].cumulative == Extended(grown[i], grown[i + 1].ledger) {
      assert grown[i] == history[i];
      if i + 1 < |history| {
        assert grown[i + 1].cumulative == history[i + 1].cumulative && grown[i + 1].ledger == history[i + 1].ledger;
      }
    }
  }

  /** Prefix sums up to the write are as before. */
  lemma {:induction false} GrownCumulative(history: seq<Checkpoint>, ledger: u32, balance: i128, x: u32)
    requires history != [] && Ascending(history) && NotAfter(history, ledger) && x <= ledger
    ensures CumulativeIn(Grown(history, ledger, balance), x) == CumulativeIn(history, x)
  {
    if x < ledger {
      GrownScan(history, ledger, balance, x);
    } else {
      var grown := Grown(history, ledger, balance);
      assert Scan(grown, x) == Some(grown[|grown| - 1]) && Scan(history, x) == Some(history[|history| - 1]);
    }
  }

  /** Cutting the front keeps every prefix sum from the new oldest entry on; before it all read zero. */
  lemma {:induction false} CutCumulative(history: seq<Checkpoint>, x: u32)
    requires Ascending(history) && |history| > 1
    ensures CumulativeIn(history[1..], x) == if x < history[1].ledger then 0 else CumulativeIn(history, x)
  {
    CutScan(history, x);
  }

  lemma {:induction false} ZeroExtension(c: Checkpoint, ledger: u32)
    requires 0 <= c.cumulative && 0 <= c.balance && c.ledger < ledger && Extended(c, ledger) == 0
    ensures c.cumulative == 0 && forall x: u32 :: Extended(c, x) == 0
  {
    MulLe(1, ledger - c.ledger, c.balance);
  }

  /** Where the second entry's prefix sum is zero, nothing was ever held before it. */
  lemma {:induction false} NothingBeforeZero(history: seq<Checkpoint>, x: u32)
    requires Chained(history) && |history| > 1 && history[1].cumulative == 0 && x < history[1].ledger
    ensures history[0].cumulative == 0 && CumulativeIn(history, x) == 0
  {
    hide Extended, Scan;
    assert history[0 + 1].cumulative == Extended(history[0], history[1].ledger);
    ZeroExtension(history[0], history[1].ledger);
    if history[0].ledger <= x {
      ScanFinds(history, 0, x);
    } else {
      ScanMisses(history, x);
    }
  }

  /** The answer for a finished window stays, or an average turns into the pruning error. */
  ghost predicate KeepsAnswer(before: Result<i128, Error>, after: Result<i128, Error>) {
    after == before || (before.Ok? && after == Err(EpochNotFinalized))
  }

  /** What a query on a finished window answers. */
  function WindowTwab(history: seq<Checkpoint>, start: u32, end: u32): Result<i128, Error>
    requires start < end
  {
    TwabIn(history, end, start, end)
  }

  lemma {:induction false} CutKeepsAnswer(history: seq<Checkpoint>, start: u32, end: u32)
    requires Chained(history) && |history| > 1 && start < end
    ensures KeepsAnswer(WindowTwab(history, start, end), WindowTwab(history[1..], start, end))
  {
    CutCumulative(history, start);
    CutCumulative(history, end);
    CutScan(history, start);
    ScanIsNone(history, start);
    if start < history[1].ledger && history[1].cumulative == 0 {
      NothingBeforeZero(history, start);
      if end < history[1].ledger {
        NothingBeforeZero(history, end);
      }
    }
    hide CumulativeIn, Scan;
  }

  lemma {:induction false} GrownKeepsAnswer(history: seq<Checkpoint>, w: Write, start: u32, end: u32)
    requires history != [] && Ascending(history) && NotAfter(history, w.ledger) && start < end <= w.ledger
    ensures WindowTwab(Grown(history, w.ledger, w.balance), start, end) == WindowTwab(history, start, end)
  {
    var grown := Grown(history, w.ledger, w.balance);
    GrownCumulative(history, w.ledger, w.balance, start);
    GrownCumulative(history, w.ledger, w.balance, end);
    GrownScan(history, w.ledger, w.balance, start);
    assert grown[0].cumulative == history[0].cumulative;
    hide CumulativeIn, Scan, Grown;
  }

  lemma {:induction false} PushKeepsAnswer(history: seq<Checkpoint>, w: Write, start: u32, end: u32)
    requires Chained(history) && NotAfter(history, w.ledger) && 0 <= w.balance && start < end <= w.ledger
    ensures Chained(Pushed(history, w.ledger, w.balance))
    ensures KeepsAnswer(WindowTwab(history, start, end), WindowTwab(Pushed(history, w.ledger, w.balance), start, end))
  {
    PushedIs(history, w.ledger, w.balance);
    if history == [] {
      FirstKeepsAnswer(w, start, end);
    } else {
      var grown := Grown(history, w.ledger, w.balance);
      GrownStaysChained(history, w.ledger, w.balance);
      GrownKeepsAnswer(history, w, start, end);
      GrownLength(history, w.ledger, w.balance);
      hide Pushed, Grown, WindowTwab;
      if |grown| > 1 {
        CutKeepsAnswer(grown, start, end);
        CutStaysChained(grown);
      }
    }
  }

  lemma {:induction false} CutStaysChained(history: seq<Checkpoint>)
    requires Chained(history) && history != []
    ensures Chained(history[1..])
  {
    hide Extended;
  }

  lemma {:induction false} FirstKeepsAnswer(w: Write, start: u32, end: u32)
    requires start < end <= w.ledger && 0 <= w.balance
    ensures var first := [Checkpoint(w.ledger, w.balance, 0)];
            Chained(first) && WindowTwab(first, start, end) == WindowTwab([], start, end)
  {
    var first := [Checkpoint(w.ledger, w.balance, 0)];
    assert first[..0] == [];
    assert Scan(first, start) == None;
  }

  lemma {:induction false} HistoryChains(writes: seq<Write>)
    requires InOrder(writes) && NoneNegative(writes)
    ensures Chained(History(writes))
  {
    if writes != [] {
      var before, w := writes[..|writes| - 1], writes[|writes| - 1];
      HistoryChains(before);
      HistoryAscends(before);
      hide Chained, Pushed;
      PushChains(History(before), w);
    }
  }

  lemma {:induction false} PushChains(history: seq<Checkpoint>, w: Write)
    requires Chained(history) && NotAfter(history, w.ledger) && 0 <= w.balance
    ensures Chained(Pushed(history, w.ledger, w.balance))
  {
    PushedIs(history, w.ledger, w.balance);
    hide Pushed, Grown, Extended;
    if history != [] {
      GrownStaysChained(history, w.ledger, w.balance);
      GrownLength(history, w.ledger, w.balance);
      if Grown(history, w.ledger, w.balance) != [] {
        CutStaysChained(Grown(history, w.ledger, w.balance));
      }
    }
  }

  /**
    A finished window: whatever balances were and are written, saturated prefix sums included, its
    answer stays what it was, or is lost to pruning; a lost answer never comes back.
   */
  lemma {:induction false} PastTwabNeverChanges(
      writes: seq<Write>, more: seq<Write>, now: u32, later: u32, start: u32, end: u32)
    requires InOrder(writes + more) && NoneNegative(writes + more) && end <= now <= later
    requires forall i :: 0 <= i < |more| ==> now <= more[i].ledger
    ensures KeepsAnswer(TwabIn(History(writes), now, start, end), TwabIn(History(writes + more), later, start, end))
  {
    hide History, Chained;
    if start < end {
      WindowNeverChanges(writes, more, start, end);
    }
  }

  lemma {:induction false} WindowNeverChanges(writes: seq<Write>, more: seq<Write>, start: u32, end: u32)
    requires InOrder(writes + more) && NoneNegative(writes + more) && start < end
    requires forall i :: 0 <= i < |more| ==> end <= more[i].ledger
    ensures KeepsAnswer(WindowTwab(History(writes), start, end), WindowTwab(History(writes + more), start, end))
  {
    if more == [] {
      assert writes + more == writes;
    } else {
      var n := |more| - 1;
      var before := writes + more[..n];
      InOrderSplit(writes, more);
      assert forall i :: 0 <= i < |before| ==> before[i] == (writes + more)[i];
      assert more[n] == (writes + more)[|writes| + n];
      WindowNeverChanges(writes, more[..n], start, end);
      HistoryChains(before);
      hide History, Pushed, Chained, WindowTwab;
      PushKeepsAnswer(History(before), more[n], start, end);
    }
  }

  // ---------- The write itself ----------

  /** Applies a balance change to a history; `changed` tells whether it must be stored again. */
  method Push(original: seq<Checkpoint>, ledger: u32, balance: i128)
    returns (history: seq<Checkpoint>, changed: bool)
    ensures history == Pushed(original, ledger, balance)
    ensures changed <==> history != original
  {
    history := original;
    var len := |history|;
    if len == 0 {
      if balance == 0 {
        return history, false;
      }
      history := history + [Checkpoint(ledger, balance, 0)];
      return history, true;
    }
    var last := history[len - 1];
    if last.balance == balance {
      return history, false;
    }
    if last.ledger == ledger {
      history := history[len - 1 := Checkpoint(ledger, balance, last.cumulative)];
      assert history[len - 1] != original[len - 1];
    } else {
      var elapsed := SatSubU32(ledger, last.ledger);
      history := history + [Checkpoint(ledger, balance, SatAdd(last.cumulative, SatMul(last.balance, elapsed)))];
      if |history| > MAX_CHECKPOINTS {
        history := history[1..];
      }
      assert history[|history| - 1] != original[len - 1];
    }
    changed := true;
  }
}
