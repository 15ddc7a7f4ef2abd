/**
  Season rankings (src/competitive_season.rs) over the duplicate-free staker registry of
  src/balance.rs.
 */
module CompetitiveSeason {
  import opened Numeric

  const TOP_N: nat := 10
  const MAX_HISTORY: nat := 20

  datatype Error = NotInitialized | EpochNotFinalized | ZeroAmount | Overflow

  datatype Entry = Entry(staker: Address, amount: i128)

  type Shares = map<Address, i128>

  function SharesOf(shares: Shares, staker: Address): i128 {
    if staker in shares then shares[staker] else 0
  }

  // ---------- The reference: a stable descending sort ----------

  ghost predicate Descending(entries: seq<Entry>) {
    forall i, j :: 0 <= i < j < |entries| ==> entries[i].amount >= entries[j].amount
  }

  /** The entries holding exactly `amount`, in order. */
  ghost function Holding(entries: seq<Entry>, amount: int): seq<Entry> {
    if entries == [] then []
    else
      var last := entries[|entries| - 1];
      Holding(entries[..|entries| - 1], amount) + if last.amount == amount then [last] else []
  }

  /** `sorted` orders `entries` by descending amount and keeps equal amounts in their original order. */
  ghost predicate StableSort(sorted: seq<Entry>, entries: seq<Entry>) {
    Descending(sorted) && forall v :: Holding(sorted, v) == Holding(entries, v)
  }

  /** There is only one stable descending sort. */
  lemma {:induction false} StableSortUnique(a: seq<Entry>, b: seq<Entry>)
    requires Descending(a) && Descending(b)
    requires forall v :: Holding(a, v) == Holding(b, v)
    ensures a == b
    decreases |a|
  {
    if a == [] || b == [] {
      if a != [] {
        HoldsLast(a);
      }
      if b != [] {
        HoldsLast(b);
      }
    } else {
      hide Holding;
      LastsAgree(a, b);
      var x, a', b' := a[|a| - 1], a[..|a| - 1], b[..|b| - 1];
      forall v ensures Holding(a', v) == Holding(b', v) {
        DropSameLast(a, b, v);
      }
      StableSortUnique(a', b');
      assert a == a' + [x] && b == b' + [x];
    }
  }

  lemma {:induction false} LastsAgree(a: seq<Entry>, b: seq<Entry>)
    requires a != [] && b != [] && Descending(a) && Descending(b)
    requires forall v :: Holding(a, v) == Holding(b, v)
    ensures a[|a| - 1] == b[|b| - 1]
  {
    var x, y := a[|a| - 1], b[|b| - 1];
    LastIsLeast(a, b);
    LastIsLeast(b, a);
    var v := x.amount;
    assert Holding(a, v)[|Holding(a, v)| - 1] == x;
    assert Holding(b, v)[|Holding(b, v)| - 1] == y;
  }

  lemma {:induction false} DropSameLast(a: seq<Entry>, b: seq<Entry>, v: int)
    requires a != [] && b != [] && a[|a| - 1] == b[|b| - 1] && Holding(a, v) == Holding(b, v)
    ensures Holding(a[..|a| - 1], v) == Holding(b[..|b| - 1], v)
  {
    var x := a[|a| - 1];
    SameSuffix(Holding(a[..|a| - 1], v), Holding(b[..|b| - 1], v), if x.amount == v then [x] else []);
  }

  lemma {:induction false} SameSuffix(a: seq<Entry>, b: seq<Entry>, suffix: seq<Entry>)
    requires a + suffix == b + suffix
    ensures a == b
  {
    assert |a + suffix| == |b + suffix|;
    forall i | 0 <= i < |a| ensures a[i] == b[i] {
      assert (a + suffix)[i] == (b + suffix)[i];
    }
  }

  lemma {:induction false} HoldsLast(entries: seq<Entry>)
    requires entries != []
    ensures Holding(entries, entries[|entries| - 1].amount) != []
  {
  }

  lemma {:induction false} HoldingMember(entries: seq<Entry>, v: int)
    ensures forall e :: e in Holding(entries, v) <==> e in entries && e.amount == v
  {
    if entries != [] {
      HoldingMember(entries[..|entries| - 1], v);
      assert entries == entries[..|entries| - 1] + [entries[|entries| - 1]];
    }
  }

  lemma {:induction false} LastIsLeast(a: seq<Entry>, b: seq<Entry>)
    requires a != [] && b != [] && Descending(a) && Descending(b)
    requires forall v :: Holding(a, v) == Holding(b, v)
    ensures b[|b| - 1].amount <= a[|a| - 1].amount
  {
    var x := a[|a| - 1];
    HoldingMember(a, x.amount);
    HoldingMember(b, x.amount);
    assert x in Holding(b, x.amount);
    var i :| 0 <= i < |b| && b[i] == x;
  }

  // ---------- Insertion, with and without truncation ----------

  /** Inserts before the first strictly smaller amount. */
  ghost function Insert(ranked: seq<Entry>, e: Entry): seq<Entry> {
    if ranked == [] then [e]
    else if e.amount > ranked[0].amount then [e] + ranked
    else [ranked[0]] + Insert(ranked[1..], e)
  }

  ghost function Take(entries: seq<Entry>, n: nat): seq<Entry> {
    if |entries| <= n then entries else entries[..n]
  }

  /** Ranks all entries, cutting to `n` after every insertion. */
  ghost function Ranked(entries: seq<Entry>, n: nat): seq<Entry> {
    if entries == [] then [] else Take(Insert(Ranked(entries[..|entries| - 1], n), entries[|entries| - 1]), n)
  }

  ghost function Sorted(entries: seq<Entry>): seq<Entry> {
    if entries == [] then [] else Insert(Sorted(entries[..|entries| - 1]), entries[|entries| - 1])
  }

  lemma {:induction false} InsertLength(ranked: seq<Entry>, e: Entry)
    ensures |Insert(ranked, e)| == |ranked| + 1
  {
    if ranked != [] {
      InsertLength(ranked[1..], e);
    }
  }

  /** Cutting before an insertion does not change the cut after it. */
  lemma {:induction false} CutBeforeInsert(ranked: seq<Entry>, e: Entry, n: nat)
    ensures Take(Insert(Take(ranked, n), e), n) == Take(Insert(ranked, e), n)
    decreases |ranked|
  {
    InsertLength(ranked, e);
    InsertLength(Take(ranked, n), e);
    if |ranked| > n {
      if n == 0 {
      } else if e.amount > ranked[0].amount {
        assert ([e] + ranked[..n])[..n] == ([e] + ranked)[..n];
      } else {
        var cut := ranked[..n];
        CutBeforeInsert(ranked[1..], e, n - 1);
        assert cut[1..] == ranked[1..][..n - 1] == Take(ranked[1..], n - 1);
        InsertLength(ranked[1..], e);
        InsertLength(cut[1..], e);
        assert ([ranked[0]] + Insert(cut[1..], e))[..n] == [ranked[0]] + Insert(cut[1..], e)[..n - 1];
        assert ([ranked[0]] + Insert(ranked[1..], e))[..n] == [ranked[0]] + Insert(ranked[1..], e)[..n - 1];
      }
    }
  }

  lemma {:induction false} InsertDescends(ranked: seq<Entry>, e: Entry)
    requires Descending(ranked)
    ensures Descending(Insert(ranked, e))
    ensures forall x :: x in Insert(ranked, e) <==> x in ranked || x == e
  {
    if ranked != [] {
      assert ranked == [ranked[0]] + ranked[1..];
      if e.amount <= ranked[0].amount {
        InsertDescends(ranked[1..], e);
        assert forall x :: x in ranked[1..] ==> x.amount <= ranked[0].amount;
      }
    }
  }

  lemma {:induction false} HoldingConcat(a: seq<Entry>, b: seq<Entry>, v: int)
    ensures Holding(a + b, v) == Holding(a, v) + Holding(b, v)
  {
    if b == [] {
      assert a + b == a;
    } else {
      HoldingConcat(a, b[..|b| - 1], v);
      assert (a + b)[..|a + b| - 1] == a + b[..|b| - 1];
    }
  }

  lemma {:induction false} NoneHolding(entries: seq<Entry>, v: int)
    requires forall i :: 0 <= i < |entries| ==> entries[i].amount != v
    ensures Holding(entries, v) == []
  {
    if entries != [] {
      NoneHolding(entries[..|entries| - 1], v);
    }
  }

  lemma {:induction false} HoldingOne(e: Entry, v: int)
    ensures Holding([e], v) == if e.amount == v then [e] else []
  {
    assert [e][..0] == [];
  }

  /** An inserted entry comes after all others of its amount. */
  lemma {:induction false} InsertHolds(ranked: seq<Entry>, e: Entry, v: int)
    requires Descending(ranked)
    ensures Holding(Insert(ranked, e), v) == Holding(ranked, v) + if e.amount == v then [e] else []
  {
    HoldingOne(e, v);
    if ranked != [] {
      if e.amount > ranked[0].amount {
        HoldingConcat([e], ranked, v);
        if v == e.amount {
          NoneHolding(ranked, v);
        }
      } else {
        var first, rest := [ranked[0]], ranked[1..];
        assert ranked == first + rest;
        InsertHolds(rest, e, v);
        hide Holding;
        HoldingConcat(first, rest, v);
        HoldingConcat(first, Insert(rest, e), v);
      }
    }
  }

  lemma {:induction false} SortedIsStable(entries: seq<Entry>)
    ensures StableSort(Sorted(entries), entries)
  {
    if entries != [] {
      var before, e := entries[..|entries| - 1], entries[|entries| - 1];
      SortedIsStable(before);
      InsertDescends(Sorted(before), e);
      forall v ensures Holding(Sorted(entries), v) == Holding(entries, v) {
        InsertHolds(Sorted(before), e, v);
      }
    }
  }

  lemma {:induction false} RankedIsCut(entries: seq<Entry>, n: nat)
    ensures Ranked(entries, n) == Take(Sorted(entries), n)
  {
    if entries != [] {
      RankedIsCut(entries[..|entries| - 1], n);
      CutBeforeInsert(Sorted(entries[..|entries| - 1]), entries[|entries| - 1], n);
    }
  }

  /** Cutting after every insertion leaves the first `n` of any stable descending sort. */
  lemma {:induction false} StreamingIsStableTop(entries: seq<Entry>, sorted: seq<Entry>, n: nat)
    requires StableSort(sorted, entries)
    ensures Ranked(entries, n) == Take(sorted, n)
  {
    RankedIsCut(entries, n);
    SortedIsStable(entries);
    StableSortUnique(Sorted(entries), sorted);
  }

  // ---------- The ranking loop ----------

  /** The positive holders in registry order. */
  ghost function Holders(stakers: seq<Address>, shares: Shares): seq<Entry> {
    if stakers == [] then []
    else
      var staker := stakers[|stakers| - 1];
      Holders(stakers[..|stakers| - 1], shares)
      + if SharesOf(shares, staker) > 0 then [Entry(staker, SharesOf(shares, staker))] else []
  }

  lemma {:induction false} InsertAt(ranked: seq<Entry>, e: Entry, i: nat)
    requires i <= |ranked| && (i < |ranked| ==> ranked[i].amount < e.amount)
    requires forall j :: 0 <= j < i ==> e.amount <= ranked[j].amount
    ensures Insert(ranked, e) == ranked[..i] + [e] + ranked[i..]
  {
    if i != 0 {
      InsertAt(ranked[1..], e, i - 1);
      assert ranked[..i] == [ranked[0]] + ranked[1..][..i - 1];
      assert ranked[i..] == ranked[1..][i - 1..];
    }
  }

  lemma {:induction false} NextStaker(stakers: seq<Address>, shares: Shares, k: nat, n: nat)
    requires k < |stakers|
    ensures var staker := stakers[k];
            var before := Ranked(Holders(stakers[..k], shares), n);
            Ranked(Holders(stakers[..k + 1], shares), n)
            == if SharesOf(shares, staker) > 0
               then Take(Insert(before, Entry(staker, SharesOf(shares, staker))), n) else before
  {
    var staker := stakers[k];
    assert stakers[..k + 1][..k] == stakers[..k];
    var holders := Holders(stakers[..k], shares);
    if SharesOf(shares, staker) > 0 {
      var all := holders + [Entry(staker, SharesOf(shares, staker))];
      assert all[..|all| - 1] == holders;
    } else {
      assert holders + [] == holders;
    }
  }

  /** The body of the ranking loop: inserts before the first smaller amount, then pops down to `n`. */
  method InsertAndCut(original: seq<Entry>, e: Entry, n: nat) returns (ranked: seq<Entry>)
    ensures ranked == Take(Insert(original, e), n)
  {
    hide Insert;
    ranked := original;
    var i := 0;
    while i < |ranked| && !(e.amount > ranked[i].amount)
      invariant 0 <= i <= |ranked|
      invariant forall j :: 0 <= j < i ==> e.amount <= ranked[j].amount
    {
      i := i + 1;
    }
    InsertAt(ranked, e, i);
    if i < |ranked| {
      ranked := ranked[..i] + [e] + ranked[i..];
    } else {
      assert ranked[..i] + [e] + ranked[i..] == ranked + [e];
      ranked := ranked + [e];
    }
    ghost var inserted := ranked;
    while |ranked| > n
      invariant ranked <= inserted && |ranked| >= Min(n, |inserted|)
    {
      ranked := ranked[..|ranked| - 1];
    }
  }

  /** The streaming ranking: the first `n` of the stable descending sort of the positive holders. */
  method TopStakers(stakers: seq<Address>, shares: Shares, n: nat) returns (ranked: seq<Entry>)
    ensures ranked == Ranked(Holders(stakers, shares), n)
    ensures forall sorted :: StableSort(sorted, Holders(stakers, shares)) ==> ranked == Take(sorted, n)
  {
    ranked := [];
    assert stakers[..0] == [] && Holders([], shares) == [] && Ranked([], n) == [];
    hide Holders, Ranked, Insert, StableSort;
    for k := 0 to |stakers|
      invariant ranked == Ranked(Holders(stakers[..k], shares), n)
    {
      var staker := stakers[k];
      var amount := SharesOf(shares, staker);
      NextStaker(stakers, shares, k, n);
      if amount <= 0 {
        continue;
      }
      ranked := InsertAndCut(ranked, Entry(staker, amount), n);
    }
    assert stakers[..|stakers|] == stakers;
    forall sorted | StableSort(sorted, Holders(stakers, shares)) ensures ranked == Take(sorted, n) {
      StreamingIsStableTop(Holders(stakers, shares), sorted, n);
    }
  }

  // ---------- Distinct winners ----------

  ghost predicate DistinctStakers(entries: seq<Entry>) {
    forall i, j :: 0 <= i < j < |entries| ==> entries[i].staker != entries[j].staker
  }

  lemma {:induction false} HoldersDistinct(stakers: seq<Address>, shares: Shares)
    requires NoRepeats(stakers)
    ensures DistinctStakers(Holders(stakers, shares))
    ensures forall e :: e in Holders(stakers, shares) ==> e.staker in stakers
  {
    if stakers != [] {
      HoldersDistinct(stakers[..|stakers| - 1], shares);
    }
  }

  lemma {:induction false} InsertKeepsDistinct(ranked: seq<Entry>, e: Entry)
    requires DistinctStakers(ranked) && forall x :: x in ranked ==> x.staker != e.staker
    ensures DistinctStakers(Insert(ranked, e))
    ensures forall x :: x in Insert(ranked, e) ==> x in ranked || x == e
  {
    if ranked != [] {
      if e.amount <= ranked[0].amount {
        var rest := ranked[1..];
        assert ranked == [ranked[0]] + rest;
        InsertKeepsDistinct(rest, e);
        forall x | x in Insert(rest, e) ensures x.staker != ranked[0].staker {
          if x != e {
            var i :| 0 <= i < |rest| && rest[i] == x;
            assert ranked[i + 1] == x;
          }
        }
      }
    }
  }

  lemma {:induction false} SortedKeepsDistinct(entries: seq<Entry>)
    requires DistinctStakers(entries)
    ensures DistinctStakers(Sorted(entries))
    ensures forall x :: x in Sorted(entries) ==> x in entries
  {
    if entries != [] {
      var before, e := entries[..|entries| - 1], entries[|entries| - 1];
      SortedKeepsDistinct(before);
      forall x | x in Sorted(before) ensures x.staker != e.staker {
        assert x in before;
      }
      InsertKeepsDistinct(Sorted(before), e);
    }
  }

  /** A registry without repeats gives a ranking of distinct stakers. */
  lemma {:induction false} RankedDistinct(stakers: seq<Address>, shares: Shares, n: nat)
    requires NoRepeats(stakers)
    ensures DistinctStakers(Ranked(Holders(stakers, shares), n))
  {
    HoldersDistinct(stakers, shares);
    SortedKeepsDistinct(Holders(stakers, shares));
    RankedIsCut(Holders(stakers, shares), n);
  }

  // ---------- Who beats whom ----------

  /** `x` comes before `y` in the list. */
  ghost predicate Precedes<T>(list: seq<T>, x: T, y: T) {
    exists i, j :: 0 <= i < j < |list| && list[i] == x && list[j] == y
  }

  /** More shares, or as many and registered earlier. */
  ghost predicate Beats(stakers: seq<Address>, x: Entry, y: Entry) {
    x.amount > y.amount || (x.amount == y.amount && Precedes(stakers, x.staker, y.staker))
  }

  lemma {:induction false} PrecedesMore<T>(list: seq<T>, last: T, x: T, y: T)
    ensures Precedes(list + [last], x, y) <==> Precedes(list, x, y) || (x in list && y == last)
  {
    var more := list + [last];
    assert forall i :: 0 <= i < |list| ==> more[i] == list[i];
    assert more[|list|] == last;
    if Precedes(list, x, y) {
      var i, j :| 0 <= i < j < |list| && list[i] == x && list[j] == y;
      assert more[i] == x && more[j] == y;
    }
    if x in list && y == last {
      var i :| 0 <= i < |list| && list[i] == x;
      assert more[i] == x && more[|list|] == y;
    }
    if Precedes(more, x, y) {
      var i, j :| 0 <= i < j < |more| && more[i] == x && more[j] == y;
      if j < |list| {
        assert list[i] == x && list[j] == y;
      }
    }
  }

  /** Entries of one amount keep their order among those holding it. */
  lemma {:induction false} HoldingKeepsOrder(entries: seq<Entry>, x: Entry, y: Entry)
    requires x.amount == y.amount
    ensures Precedes(Holding(entries, x.amount), x, y) <==> Precedes(entries, x, y)
  {
    if entries != [] {
      var before, last := entries[..|entries| - 1], entries[|entries| - 1];
      assert entries == before + [last];
      HoldingKeepsOrder(before, x, y);
      HoldingMember(before, x.amount);
      PrecedesMore(before, last, x, y);
      PrecedesMore(Holding(before, x.amount), last, x, y);
      assert Holding(before, x.amount) + [] == Holding(before, x.amount);
      hide Precedes;
    }
  }

  /** The holders are the registered stakers with shares, each with their own amount, in registry order. */
  lemma {:induction false} HoldersAre(stakers: seq<Address>, shares: Shares, x: Entry, y: Entry)
    ensures x in Holders(stakers, shares)
            <==> x.staker in stakers && x.staker in shares && x.amount == shares[x.staker] > 0
    ensures Precedes(Holders(stakers, shares), x, y) ==> Precedes(stakers, x.staker, y.staker)
  {
    if stakers != [] {
      var before, last := stakers[..|stakers| - 1], stakers[|stakers| - 1];
      assert stakers == before + [last];
      HoldersAre(before, shares, x, y);
      PrecedesMore(before, last, x.staker, y.staker);
      if SharesOf(shares, last) > 0 {
        PrecedesMore(Holders(before, shares), Entry(last, SharesOf(shares, last)), x, y);
      } else {
        assert Holders(before, shares) + [] == Holders(before, shares);
      }
      hide Precedes;
    }
  }

  lemma {:induction false} SortedBeats(stakers: seq<Address>, shares: Shares, i: nat, j: nat)
    requires i < j < |Sorted(Holders(stakers, shares))|
    ensures var sorted := Sorted(Holders(stakers, shares));
            Beats(stakers, sorted[i], sorted[j]) && sorted[i] in Holders(stakers, shares)
  {
    var holders := Holders(stakers, shares);
    var sorted := Sorted(holders);
    SortedIsStable(holders);
    SortedHas(holders, sorted[i]);
    if sorted[i].amount == sorted[j].amount {
      assert Precedes(sorted, sorted[i], sorted[j]);
      HoldingKeepsOrder(sorted, sorted[i], sorted[j]);
      HoldingKeepsOrder(holders, sorted[i], sorted[j]);
      HoldersAre(stakers, shares, sorted[i], sorted[j]);
    }
  }

  lemma {:induction false} SortedHas(entries: seq<Entry>, e: Entry)
    ensures e in Sorted(entries) <==> e in entries
    ensures |Sorted(entries)| == |entries|
  {
    SortedIsStable(entries);
    HoldingMember(Sorted(entries), e.amount);
    HoldingMember(entries, e.amount);
    assert Holding(Sorted(entries), e.amount) == Holding(entries, e.amount);
    SortedLength(entries);
  }

  lemma {:induction false} SortedLength(entries: seq<Entry>)
    ensures |Sorted(entries)| == |entries|
  {
    if entries != [] {
      SortedLength(entries[..|entries| - 1]);
      InsertLength(Sorted(entries[..|entries| - 1]), entries[|entries| - 1]);
    }
  }

  /**
    The ranking without any sort: it lists registered stakers with shares, each beating all after
    it by shares or else by earlier registration, and a staker with shares is missing only when
    the ranking is full and everyone on it beats them.
   */
  lemma {:induction false} RankingBeats(stakers: seq<Address>, shares: Shares, n: nat, e: Entry)
    ensures var ranked := Ranked(Holders(stakers, shares), n);
            && |ranked| <= n
            && (forall i, j :: 0 <= i < j < |ranked| ==> Beats(stakers, ranked[i], ranked[j]))
            && (e in ranked ==> e.staker in stakers && e.staker in shares && e.amount == shares[e.staker] > 0)
            && (e.staker in stakers && e.staker in shares && e.amount == shares[e.staker] > 0 && e !in ranked ==>
                  |ranked| == n && forall i :: 0 <= i < |ranked| ==> Beats(stakers, ranked[i], e))
  {
    var holders := Holders(stakers, shares);
    var sorted, ranked := Sorted(holders), Ranked(holders, n);
    RankedIsCut(holders, n);
    HoldersAre(stakers, shares, e, e);
    SortedHas(holders, e);
    hide Beats, Sorted, Holders, Ranked;
    forall i, j | 0 <= i < j < |ranked| ensures Beats(stakers, ranked[i], ranked[j]) {
      SortedBeats(stakers, shares, i, j);
    }
    if e in sorted && e !in ranked {
      var k :| 0 <= k < |sorted| && sorted[k] == e;
      forall i | 0 <= i < |ranked| ensures Beats(stakers, ranked[i], e) {
        SortedBeats(stakers, shares, i, k);
      }
    }
  }

  // ---------- The registry and the seasons ----------

  datatype Season = Season(
    seasonId: u32, startedAt: u32, endedAt: u32, winner: seq<Address>, prizeAmount: i128, top10: seq<Entry>)

  /** The last `n` of a list. */
  ghost function Newest(seasons: seq<Season>, n: nat): seq<Season> {
    if |seasons| <= n then seasons else seasons[|seasons| - n..]
  }

  class Seasons {
    var stakers: seq<Address>
    var totalStakers: nat
    var shares: Shares
    var current: Option<Season>
    var history: seq<Season>
    var nextId: u32
    ghost var ended: seq<Season>

    /** The history holds the newest 20 of all seasons ever ended, and nobody is registered twice. */
    ghost predicate Valid()
      reads this
    {
      && NoRepeats(stakers) && totalStakers == |stakers|
      && history == Newest(ended, MAX_HISTORY)
      && (forall i :: 0 <= i < |ended| ==> DistinctStakers(ended[i].top10))
    }

    constructor ()
      ensures Valid() && stakers == [] && ended == []
    {
      stakers, totalStakers, shares := [], 0, map[];
      current, history, nextId, ended := None, [], 0, [];
    }

    method RegisterStaker(user: Address)
      requires Valid()
      modifies this`stakers, this`totalStakers
      ensures Valid()
      ensures stakers == if user in old(stakers) then old(stakers) else old(stakers) + [user]
    {
      if user !in stakers {
        stakers := stakers + [user];
      }
      totalStakers := |stakers|;
    }

    method StartSeason(duration: u32, prize: i128, now: u32) returns (r: Result<u32, Error>)
      requires Valid()
      modifies this`current, this`nextId
      ensures Valid()
      ensures r.Ok? <==> duration > 0 && prize >= 0 && now + duration <= U32_MAX && old(nextId) < U32_MAX
      ensures r.Ok? ==> r.value == old(nextId) && nextId == old(nextId) + 1
                        && current == Some(Season(old(nextId), now, now + duration, [], prize, []))
      ensures r.Err? ==> current == old(current) && nextId == old(nextId)
    {
      if duration == 0 || prize < 0 {
        return Err(ZeroAmount);
      }
      var end: int := now + duration;
      if end > U32_MAX || nextId == U32_MAX {
        return Err(Overflow);
      }
      r := Ok(nextId);
      current := Some(Season(nextId, now, end, [], prize, []));
      nextId := nextId + 1;
    }

    /** Ends the season: its top ten is the stable ranking of the registry, its winner the first of them. */
    method EndSeason(now: u32) returns (r: Result<Season, Error>)
      requires Valid()
      modifies this`current, this`history, this`ended
      ensures Valid()
      ensures r.Ok? <==> old(current).Some? && old(current).value.endedAt <= now
      ensures r.Err? ==> current == old(current) && ended == old(ended)
                         && r.error == if old(current).None? then NotInitialized else EpochNotFinalized
      ensures r.Ok? ==>
                && current == None && ended == old(ended) + [r.value]
                && r.value.top10 == Ranked(Holders(stakers, shares), TOP_N)
                && r.value.winner == (if r.value.top10 == [] then [] else [r.value.top10[0].staker])
                && r.value == old(current).value.(endedAt := now, top10 := r.value.top10, winner := r.value.winner)
    {
      hide Holders, Ranked, Newest, DistinctStakers, NoRepeats;
      if current.None? {
        return Err(NotInitialized);
      }
      var season := current.value;
      if now < season.endedAt {
        return Err(EpochNotFinalized);
      }
      var ranked := TopStakers(stakers, shares, TOP_N);
      RankedDistinct(stakers, shares, TOP_N);
      season := season.(top10 := ranked, winner := if |ranked| > 0 then [ranked[0].staker] else [], endedAt := now);
      ghost var before := history;
      while |history| >= MAX_HISTORY
        invariant |history| <= |before| && history == before[|before| - |history|..]
        invariant |before| < MAX_HISTORY ==> history == before
        invariant |before| >= MAX_HISTORY ==> |history| >= MAX_HISTORY - 1
        invariant ended == old(ended) && current == old(current)
      {
        history := history[1..];
      }
      NewestAppend(ended, season, before, history);
      history := history + [season];
      ended := ended + [season];
      current := None;
      return Ok(season);
    }
  }

  lemma {:induction false} NewestAppend(ended: seq<Season>, season: Season, before: seq<Season>, kept: seq<Season>)
    requires before == Newest(ended, MAX_HISTORY) && |kept| <= |before|
    requires kept == before[|before| - |kept|..] && |kept| == Min(|before|, MAX_HISTORY - 1)
    ensures kept + [season] == Newest(ended + [season], MAX_HISTORY)
  {
  }
}
