/** Rolling send limits: the three sliding sums checked under the sender's wallet lock,
    and what that check guarantees about every window at every instant. */
module Limits {
  import opened Wrappers
  import opened Tables

  const DAY_MS := 24 * 60 * 60 * 1000

  /** The configured ceilings; the environment schema admits positive integers only. */
  datatype Limits = Limits(daily: nat, weekly: nat, monthly: nat)

  datatype Totals = Totals(daily: int, weekly: int, monthly: int)
  datatype Windows = Windows(daily: int, weekly: int, monthly: int)

  function WindowsSince(now: int): Windows {
    Windows(now - DAY_MS, now - 7 * DAY_MS, now - 30 * DAY_MS)
  }

  /** One aggregate: what `sender` moved in succeeded transfers created at or after `since`. */
  function SumSince(rows: seq<Transfer>, sender: UserId, since: int): int {
    if rows == [] then 0
    else
      var row := rows[|rows| - 1];
      SumSince(rows[..|rows| - 1], sender, since)
      + if row.sender == sender && row.status == TransferSucceeded && row.createdAt >= since
        then row.amount else 0
  }

  /** The query as written: one scan, pre-filtered to the widest window, with three FILTERs. */
  function SumSentByWindow(rows: seq<Transfer>, sender: UserId, w: Windows): Totals {
    if rows == [] then Totals(0, 0, 0)
    else
      var row := rows[|rows| - 1];
      var t := SumSentByWindow(rows[..|rows| - 1], sender, w);
      if row.sender == sender && row.status == TransferSucceeded && row.createdAt >= w.monthly then
        Totals(t.daily + if row.createdAt >= w.daily then row.amount else 0,
               t.weekly + if row.createdAt >= w.weekly then row.amount else 0,
               t.monthly + row.amount)
      else t
  }

  /** Checks the windows in the order daily, weekly, monthly; all three must admit the amount. */
  predicate WithinLimits(lim: Limits, rows: seq<Transfer>, sender: UserId, amount: int, now: int) {
    var t := SumSentByWindow(rows, sender, WindowsSince(now));
    && t.daily + amount <= lim.daily
    && t.weekly + amount <= lim.weekly
    && t.monthly + amount <= lim.monthly
  }

  /** The single pre-filtered scan computes the three unfiltered sums, because the
      windows are nested. */
  lemma {:induction false} OneScanIsThreeSums(rows: seq<Transfer>, sender: UserId, now: int)
    ensures var w := WindowsSince(now);
            SumSentByWindow(rows, sender, w)
            == Totals(SumSince(rows, sender, w.daily), SumSince(rows, sender, w.weekly),
                      SumSince(rows, sender, w.monthly))
  {
    if rows != [] {
      OneScanIsThreeSums(rows[..|rows| - 1], sender, now);
    }
  }

  /** Appending another sender's row leaves this sender's sums alone. */
  lemma OtherSendersDoNotCount(rows: seq<Transfer>, row: Transfer, sender: UserId, w: Windows)
    requires row.sender != sender
    ensures SumSentByWindow(rows + [row], sender, w) == SumSentByWindow(rows, sender, w)
  {
    assert (rows + [row])[..|rows|] == rows;
  }

  predicate PositiveAmounts(rows: seq<Transfer>) {
    forall i :: 0 <= i < |rows| ==> rows[i].amount > 0
  }

  /** An earlier start can only add rows to the sum. */
  lemma {:induction false} EarlierStartSumsMore(rows: seq<Transfer>, sender: UserId, since: int, later: int)
    requires PositiveAmounts(rows) && since <= later
    ensures 0 <= SumSince(rows, sender, later) <= SumSince(rows, sender, since)
  {
    if rows != [] {
      EarlierStartSumsMore(rows[..|rows| - 1], sender, since, later);
    }
  }

  /** A check that passed with `now` also passes with any later instant: what the row's own
      created_at, taken after the check, inherits from it. */
  lemma LaterCheckAlsoPasses(lim: Limits, rows: seq<Transfer>, sender: UserId, amount: int, now: int, later: int)
    requires PositiveAmounts(rows) && now <= later
    requires WithinLimits(lim, rows, sender, amount, now)
    ensures WithinLimits(lim, rows, sender, amount, later)
  {
    OneScanIsThreeSums(rows, sender, now);
    OneScanIsThreeSums(rows, sender, later);
    var a, b := WindowsSince(now), WindowsSince(later);
    EarlierStartSumsMore(rows, sender, a.daily, b.daily);
    EarlierStartSumsMore(rows, sender, a.weekly, b.weekly);
    EarlierStartSumsMore(rows, sender, a.monthly, b.monthly);
  }

  /** Every row was within the limits, measured at its own creation instant against the
      rows committed before it. */
  predicate EachRowChecked(lim: Limits, rows: seq<Transfer>) {
    forall i :: 0 <= i < |rows| ==>
      WithinLimits(lim, rows[..i], rows[i].sender, rows[i].amount, rows[i].createdAt)
  }

  /** Appending a row that passed its check keeps every row checked. */
  lemma CheckedRowAppends(lim: Limits, rows: seq<Transfer>, row: Transfer)
    requires EachRowChecked(lim, rows)
    requires WithinLimits(lim, rows, row.sender, row.amount, row.createdAt)
    ensures EachRowChecked(lim, rows + [row])
  {
    var all := rows + [row];
    forall i | 0 <= i < |all|
      ensures WithinLimits(lim, all[..i], all[i].sender, all[i].amount, all[i].createdAt)
    {
      assert all[..i] == rows[..i];
      assert rows[..|rows|] == rows;
    }
  }

  /** What `sender` moved between two instants, both included. */
  function SumBetween(rows: seq<Transfer>, sender: UserId, from: int, to: int): int {
    if rows == [] then 0
    else
      var row := rows[|rows| - 1];
      SumBetween(rows[..|rows| - 1], sender, from, to)
      + if row.sender == sender && row.status == TransferSucceeded && from <= row.createdAt <= to
        then row.amount else 0
  }

  lemma {:induction false} BetweenIsAtMostSince(rows: seq<Transfer>, sender: UserId, from: int, to: int)
    requires PositiveAmounts(rows)
    ensures 0 <= SumBetween(rows, sender, from, to) <= SumSince(rows, sender, from)
  {
    if rows != [] {
      BetweenIsAtMostSince(rows[..|rows| - 1], sender, from, to);
    }
  }

  datatype Period = Daily | Weekly | Monthly

  function Span(p: Period): int {
    match p case Daily => DAY_MS case Weekly => 7 * DAY_MS case Monthly => 30 * DAY_MS
  }

  function Ceiling(lim: Limits, p: Period): nat {
    match p case Daily => lim.daily case Weekly => lim.weekly case Monthly => lim.monthly
  }

  /** The check admits an amount exactly when, for every period, the amount on top of what was sent
      since the start of the window stays within the ceiling. */
  lemma CheckIsExact(lim: Limits, rows: seq<Transfer>, sender: UserId, amount: int, now: int)
    ensures WithinLimits(lim, rows, sender, amount, now)
            <==> forall p: Period :: SumSince(rows, sender, now - Span(p)) + amount <= Ceiling(lim, p)
  {
    OneScanIsThreeSums(rows, sender, now);
    if WithinLimits(lim, rows, sender, amount, now) {
      forall p: Period ensures SumSince(rows, sender, now - Span(p)) + amount <= Ceiling(lim, p) {
        match p case Daily => case Weekly => case Monthly =>
      }
    } else {
      var t := SumSentByWindow(rows, sender, WindowsSince(now));
      var p := if t.daily + amount > lim.daily then Daily else if t.weekly + amount > lim.weekly then Weekly else Monthly;
      assert SumSince(rows, sender, now - Span(p)) + amount > Ceiling(lim, p);
    }
  }

  /** The claim about windows: if every row passed its check, then for every sender, every
      instant `t` and every period, what was sent in the closed window ending at `t` is
      within the limit. The clock need not be monotone between rows. */
  lemma {:induction false} EveryWindowObeysItsLimit(
    lim: Limits, rows: seq<Transfer>, sender: UserId, p: Period, t: int)
    requires PositiveAmounts(rows) && EachRowChecked(lim, rows)
    ensures SumBetween(rows, sender, t - Span(p), t) <= Ceiling(lim, p)
  {
    if rows != [] {
      var n := |rows| - 1;
      var before, row := rows[..n], rows[n];
      forall i | 0 <= i < n
        ensures WithinLimits(lim, before[..i], before[i].sender, before[i].amount, before[i].createdAt)
      {
        assert before[..i] == rows[..i];
      }
      EveryWindowObeysItsLimit(lim, before, sender, p, t);
      if row.sender == sender && row.status == TransferSucceeded && t - Span(p) <= row.createdAt <= t {
        // The last committed row of the window saw every other row of the window.
        assert WithinLimits(lim, before, sender, row.amount, row.createdAt);
        OneScanIsThreeSums(before, sender, row.createdAt);
        EarlierStartSumsMore(before, sender, row.createdAt - Span(p), t - Span(p));
        BetweenIsAtMostSince(before, sender, t - Span(p), t);
      }
    }
  }

  /** Appending `row`, whose check used `now`, leaves this sender's window ending at `t` within its
      limit. */
  predicate AppendsSafely(lim: Limits, rows: seq<Transfer>, row: Transfer, now: int, p: Period, t: int) {
    PositiveAmounts(rows) && EachRowChecked(lim, rows) && row.amount > 0
    && WithinLimits(lim, rows, row.sender, row.amount, now)
    ==> SumBetween(rows + [row], row.sender, t - Span(p), t) <= Ceiling(lim, p)
  }

  lemma LaterRowAppendsSafely(lim: Limits, rows: seq<Transfer>, row: Transfer, now: int, p: Period, t: int)
    requires now <= row.createdAt
    ensures AppendsSafely(lim, rows, row, now, p, t)
  {
    hide WithinLimits, SumBetween, EachRowChecked;
    if PositiveAmounts(rows) && EachRowChecked(lim, rows) && row.amount > 0
       && WithinLimits(lim, rows, row.sender, row.amount, now) {
      LaterCheckAlsoPasses(lim, rows, row.sender, row.amount, now, row.createdAt);
      CheckedRowAppends(lim, rows, row);
      EveryWindowObeysItsLimit(lim, rows + [row], row.sender, p, t);
    }
  }

  lemma OneRow(row: Transfer, sender: UserId, since: int, to: int)
    ensures SumSince([row], sender, since)
            == if row.sender == sender && row.status == TransferSucceeded && row.createdAt >= since then row.amount else 0
    ensures SumBetween([row], sender, since, to)
            == if row.sender == sender && row.status == TransferSucceeded && since <= row.createdAt <= to then row.amount else 0
  {
    assert [row][..0] == [];
  }

  /** Whenever a row's created_at lies before the instant of its check, a window can exceed its limit:
      a first row too old for the check is still inside the daily window ending at created_at. */
  lemma EarlierRowBreaksTheWindow(created: int, now: int)
    returns (lim: Limits, rows: seq<Transfer>, row: Transfer)
    requires created < now
    ensures row.createdAt == created && !AppendsSafely(lim, rows, row, now, Daily, created)
  {
    lim := Limits(10, 100, 100);
    var before := if created < now - DAY_MS - 1 then created else now - DAY_MS - 1;
    var first := Transfer(Uuid(0, TransferSlot), 1, 2, 1, 2, 10, None, TransferSucceeded, None, before);
    row := first.(id := Uuid(1, TransferSlot), createdAt := created);
    rows := [first];
    forall p: Period ensures SumSince([], 1, before - Span(p)) + 10 <= Ceiling(lim, p) {}
    CheckIsExact(lim, [], 1, 10, before);
    assert EachRowChecked(lim, rows) by { assert rows[..0] == []; }
    forall p: Period ensures SumSince(rows, 1, now - Span(p)) + 10 <= Ceiling(lim, p) {
      OneRow(first, 1, now - Span(p), now);
    }
    CheckIsExact(lim, rows, 1, 10, now);
    OneRow(first, 1, created - DAY_MS, created);
    assert (rows + [row])[..1] == rows;
  }

  /** The claim about windows survives every appended row exactly when the row's created_at is not
      before the clock reading of its own check. */
  lemma WindowsNeedTheClockToRun(created: int, now: int)
    ensures now <= created
            <==> forall lim, rows, row: Transfer, p, t | row.createdAt == created :: AppendsSafely(lim, rows, row, now, p, t)
  {
    hide AppendsSafely;
    if now <= created {
      forall lim, rows, row: Transfer, p, t | row.createdAt == created ensures AppendsSafely(lim, rows, row, now, p, t) {
        LaterRowAppendsSafely(lim, rows, row, now, p, t);
      }
    } else {
      var lim, rows, row := EarlierRowBreaksTheWindow(created, now);
    }
  }

  /** What one more row adds to the three sums: its amount, to each window whose start is not after its
      creation, if it is this sender's and has succeeded; else nothing. */
  lemma EachRowCounts(rows: seq<Transfer>, row: Transfer, sender: UserId, now: int)
    ensures var before := SumSentByWindow(rows, sender, WindowsSince(now));
            var after := SumSentByWindow(rows + [row], sender, WindowsSince(now));
            if row.sender == sender && row.status == TransferSucceeded then
              && after.daily == before.daily + (if now - 86_400_000 <= row.createdAt then row.amount else 0)
              && after.weekly == before.weekly + (if now - 604_800_000 <= row.createdAt then row.amount else 0)
              && after.monthly == before.monthly + (if now - 2_592_000_000 <= row.createdAt then row.amount else 0)
            else after == before
    ensures SumSentByWindow([], sender, WindowsSince(now)) == Totals(0, 0, 0)
  {
    assert (rows + [row])[..|rows|] == rows;
  }
}
