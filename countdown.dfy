/**
 * The election countdown shown in the hero and vote sections: whole days left
 * until the election date, rounded up and never negative.
 *
 * The clock reading and the parsed election date are millisecond timestamps
 * (what `getTime()` returns), passed in as integers.
 */
module Countdown {

  /** `1000 * 60 * 60 * 24`, one day in milliseconds. */
  const MsPerDay: int := 1000 * 60 * 60 * 24

  /** `new Date('2026-02-08')`: a date-only string is read as midnight UTC, 2026-02-08T00:00:00Z. */
  const ElectionDateMs: int := 1770508800000

  /** Start of 2026-02-01 (UTC), one week before the election. */
  const OneWeekBeforeMs: int := 1769904000000

  /** `Math.ceil(ms / MsPerDay)`, as an integer ceiling division. */
  function CeilDays(ms: int): (d: int)
    ensures (d - 1) * MsPerDay < ms <= d * MsPerDay
  {
    -((-ms) / MsPerDay)
  }

  /** `daysLeft`: the rounded-up number of days from `nowMs` to `targetMs`, clamped at 0. */
  function DaysLeft(targetMs: int, nowMs: int): (d: nat)
    ensures d > 0 <==> nowMs < targetMs
    ensures d > 0 ==> (d - 1) * MsPerDay < targetMs - nowMs <= d * MsPerDay
  {
    var days := CeilDays(targetMs - nowMs);
    if days > 0 then days else 0
  }

  /** Any time within the n-th day before the target shows exactly n days. */
  lemma DaysLeftWithinDay(targetMs: int, nowMs: int, n: nat)
    requires n > 0
    requires (n - 1) * MsPerDay < targetMs - nowMs <= n * MsPerDay
    ensures DaysLeft(targetMs, nowMs) == n
  {
  }

  /** The countdown never goes up as time passes. */
  lemma DaysLeftMonotone(targetMs: int, earlierMs: int, laterMs: int)
    requires earlierMs <= laterMs
    ensures DaysLeft(targetMs, laterMs) <= DaysLeft(targetMs, earlierMs)
  {
  }

  /** Any time on 2026-02-01 (UTC) the page shows 7 days left. */
  lemma SevenDaysOnFebruaryFirst(nowMs: int)
    requires OneWeekBeforeMs <= nowMs < OneWeekBeforeMs + MsPerDay
    ensures DaysLeft(ElectionDateMs, nowMs) == 7
  {
    DaysLeftWithinDay(ElectionDateMs, nowMs, 7);
  }
}
