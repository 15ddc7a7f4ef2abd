/**
  A spending window that restarts once its length has elapsed. Shared by the daily
  withdrawal limit and the epoch reward cap.
 */
module RollingWindow {
  import opened Numeric

  datatype Window = Window(start: u32, used: i128)

  datatype Payment = Payment(ledger: u32, amount: int)

  /** The stored window while it lasts, else a fresh one starting now. */
  function Current(stored: Option<Window>, length: u32, now: u32): Window {
    if stored.Some? && SatSubU32(now, stored.value.start) < length then stored.value else Window(now, 0)
  }

  // ---------- Sums over the payment record ----------

  /** Everything paid at ledgers in [start, end). */
  ghost function PaidIn(payments: seq<Payment>, start: int, end: int): int {
    if payments == [] then 0
    else
      var p := payments[|payments| - 1];
      PaidIn(payments[..|payments| - 1], start, end) + if start <= p.ledger < end then p.amount else 0
  }

  /** Everything paid at or after `start`. */
  ghost function PaidSince(payments: seq<Payment>, start: int): int {
    if payments == [] then 0
    else
      var p := payments[|payments| - 1];
      PaidSince(payments[..|payments| - 1], start) + if start <= p.ledger then p.amount else 0
  }

  /** Everything paid in the `length` consecutive ledgers from `start`. */
  ghost function PaidDuring(payments: seq<Payment>, start: int, length: u32): int {
    PaidIn(payments, start, start + length)
  }

  ghost predicate NonNegative(payments: seq<Payment>) {
    forall p :: p in payments ==> 0 <= p.amount
  }

  lemma {:induction false} PaidAppend(payments: seq<Payment>, p: Payment, start: int, end: int)
    ensures PaidIn(payments + [p], start, end)
         == PaidIn(payments, start, end) + if start <= p.ledger < end then p.amount else 0
    ensures PaidSince(payments + [p], start)
         == PaidSince(payments, start) + if start <= p.ledger then p.amount else 0
  {
    assert (payments + [p])[..|payments|] == payments;
  }

  lemma {:induction false} PaidSplit(payments: seq<Payment>, start: int, middle: int, end: int)
    requires NonNegative(payments) && start <= middle
    ensures PaidIn(payments, start, end) <= PaidIn(payments, start, middle) + PaidSince(payments, middle)
    ensures PaidIn(payments, start, end) <= PaidSince(payments, start)
    ensures 0 <= PaidSince(payments, middle) <= PaidSince(payments, start)
  {
    if payments != [] {
      PaidSplit(payments[..|payments| - 1], start, middle, end);
    }
  }

  lemma {:induction false} PaidIsNonNegative(payments: seq<Payment>, start: int, end: int)
    requires NonNegative(payments)
    ensures 0 <= PaidIn(payments, start, end)
  {
    if payments != [] {
      PaidIsNonNegative(payments[..|payments| - 1], start, end);
    }
  }

  lemma {:induction false} NothingPaidYet(payments: seq<Payment>, start: int, end: int)
    requires forall p :: p in payments ==> p.ledger < start
    ensures PaidIn(payments, start, end) == 0
  {
    if payments != [] {
      NothingPaidYet(payments[..|payments| - 1], start, end);
    }
  }

  lemma {:induction false} NothingSince(payments: seq<Payment>, start: int)
    requires forall p :: p in payments ==> p.ledger < start
    ensures PaidSince(payments, start) == 0
  {
    if payments != [] {
      NothingSince(payments[..|payments| - 1], start);
    }
  }

  // ---------- The bound ----------

  /**
    The window counts at least the payments made since it started (it may have been opened before
    the record was), and the record obeys the bound so far.
   */
  ghost predicate Accounts(stored: Option<Window>, payments: seq<Payment>, length: u32, cap: int) {
    && NonNegative(payments)
    && (stored.None? ==> payments == [])
    && (stored.Some? ==>
          var w := stored.value;
          && 0 <= PaidSince(payments, w.start) <= Min(w.used, cap)
          && (forall p :: p in payments ==> p.ledger < w.start + length)
          && (forall a :: w.start < a + length ==> PaidIn(payments, a, w.start) <= cap))
    && (forall a :: PaidDuring(payments, a, length) <= 2 * cap)
  }

  /** The window counts nothing but the payments made since it started. */
  ghost predicate Exact(stored: Option<Window>, payments: seq<Payment>) {
    stored.Some? ==> stored.value.used == PaidSince(payments, stored.value.start)
  }

  /** A payment within the current window's allowance keeps the accounts. */
  lemma {:induction false} PayKeepsAccounts(
      stored: Option<Window>, payments: seq<Payment>, length: u32, cap: int, now: u32, amount: int)
    requires Accounts(stored, payments, length, cap) && 0 < length
    requires stored.Some? ==> stored.value.start <= now
    requires 0 <= amount && Current(stored, length, now).used + amount <= cap <= I128_MAX
    ensures var w := Current(stored, length, now);
            Accounts(Some(Window(w.start, w.used + amount)), payments + [Payment(now, amount)], length, cap)
  {
    var w := Current(stored, length, now);
    var paid := payments + [Payment(now, amount)];
    assert 0 <= PaidSince(payments, w.start) <= w.used by {
      if stored.None? || stored.value != w {
        NothingSince(payments, now);
      }
    }
    PaidAppend(payments, Payment(now, amount), w.start, now);
    forall a | w.start < a + length ensures PaidIn(paid, a, w.start) <= cap {
      PaidAppend(payments, Payment(now, amount), a, w.start);
      if stored.Some? && stored.value != w {
        PaidSplit(payments, stored.value.start, a, w.start);
        PaidSplit(payments, a, a, w.start);
      }
    }
    forall a ensures PaidDuring(paid, a, length) <= 2 * cap {
      assert PaidDuring(payments, a, length) <= 2 * cap;
      PaidAppend(payments, Payment(now, amount), a, a + length);
      if a <= now < a + length {
        if a <= w.start {
          PaidSplit(paid, a, w.start, a + length);
        } else {
          PaidSplit(paid, w.start, a, a + length);
          PaidSplit(paid, a, a, a + length);
        }
      }
    }
  }

  lemma {:induction false} PayKeepsExact(
      stored: Option<Window>, payments: seq<Payment>, length: u32, cap: int, now: u32, amount: int)
    requires Accounts(stored, payments, length, cap) && Exact(stored, payments)
    requires FitsI128(Current(stored, length, now).used + amount)
    requires stored.Some? ==> stored.value.start <= now
    ensures var w := Current(stored, length, now);
            Exact(Some(Window(w.start, w.used + amount)), payments + [Payment(now, amount)])
  {
    var w := Current(stored, length, now);
    PaidAppend(payments, Payment(now, amount), w.start, now);
    if stored.None? || stored.value != w {
      NothingSince(payments, now);
    }
  }

  lemma {:induction false} NoPaymentsYet(stored: Option<Window>, length: u32, cap: int)
    requires 0 <= cap && (stored.Some? ==> 0 <= stored.value.used)
    ensures Accounts(stored, [], length, cap)
  {
  }

  /** The window in force covers `now` and counts what was paid since it started. */
  lemma {:induction false} CurrentIsAccounted(
      stored: Option<Window>, payments: seq<Payment>, length: u32, cap: int, now: u32)
    requires Accounts(stored, payments, length, cap) && 0 < length && 0 <= cap
    requires stored.Some? ==> stored.value.start <= now
    ensures var w := Current(stored, length, now);
            && w.start <= now < w.start + length
            && 0 <= PaidSince(payments, w.start) <= Min(w.used, cap)
            && (Exact(stored, payments) ==> w.used == PaidSince(payments, w.start))
            && (forall p :: p in payments ==> p.ledger < w.start + length)
  {
    if stored.None? || stored.value != Current(stored, length, now) {
      NothingSince(payments, now);
    }
  }

  // ---------- Stretches of any start ----------

  ghost predicate NoneAfter(payments: seq<Payment>, ledger: int) {
    forall p :: p in payments ==> p.ledger <= ledger
  }

  /** A record of non-negative payments up to `now`. */
  ghost predicate Recorded(payments: seq<Payment>, now: int) {
    NonNegative(payments) && NoneAfter(payments, now)
  }

  lemma {:induction false} RecordedLater(payments: seq<Payment>, before: int, now: u32, amount: int)
    requires Recorded(payments, before) && before <= now && 0 <= amount
    ensures Recorded(payments, now) && Recorded(payments + [Payment(now, amount)], now)
  {
  }

  ghost predicate EveryStretchWithin(payments: seq<Payment>, length: u32, cap: int) {
    forall a :: PaidDuring(payments, a, length) <= cap
  }

  /** What the `length` ledgers ending with `now` have paid so far. */
  ghost function Trailing(payments: seq<Payment>, length: u32, now: u32): int {
    PaidDuring(payments, now - length + 1, length)
  }

  lemma {:induction false} ShorterPastPaysLess(payments: seq<Payment>, earlier: int, start: int, now: int, end: int)
    requires Recorded(payments, now)
    requires earlier <= start && now < end
    ensures PaidIn(payments, start, end) <= PaidIn(payments, earlier, now + 1)
  {
    if payments != [] {
      ShorterPastPaysLess(payments[..|payments| - 1], earlier, start, now, end);
    }
  }

  /** One more payment keeps every stretch within the cap exactly when the trailing stretch has room for it. */
  lemma {:induction false} TrailingDecides(payments: seq<Payment>, p: Payment, length: u32, cap: int)
    requires Recorded(payments, p.ledger) && 0 <= p.amount && 0 < length
    ensures EveryStretchWithin(payments + [p], length, cap)
            <==> EveryStretchWithin(payments, length, cap) && p.amount <= cap - Trailing(payments, length, p.ledger)
  {
    var more, first := payments + [p], p.ledger - length + 1;
    PaidAppend(payments, p, first, first + length);
    forall a ensures PaidDuring(payments, a, length) <= PaidDuring(more, a, length) {
      PaidAppend(payments, p, a, a + length);
    }
    if EveryStretchWithin(more, length, cap) {
      assert PaidDuring(more, first, length) <= cap;
      assert forall a :: PaidDuring(more, a, length) <= cap;
    } else if EveryStretchWithin(payments, length, cap) && p.amount <= cap - Trailing(payments, length, p.ledger) {
      forall a ensures PaidDuring(more, a, length) <= cap {
        PaidAppend(payments, p, a, a + length);
        if a <= p.ledger < a + length {
          ShorterPastPaysLess(payments, first, a, p.ledger, a + length);
        } else {
          assert PaidDuring(payments, a, length) <= cap;
        }
      }
    }
  }
}
