/** Calendar dates as day numbers: day 0 is 1970-01-01, a Thursday.
    Only the date arithmetic the interest engine relies on is modelled. */
module Dates {

  /** Day of the week, 0 = Monday ... 6 = Sunday. */
  function Weekday(d: int): (w: int)
    ensures 0 <= w < 7
    ensures d == 0 ==> w == 3
  {
    (d + 3) % 7
  }

  /** Start of the Monday-based week containing d. */
  function MondayOf(d: int): (m: int)
    ensures m <= d < m + 7
    ensures Weekday(m) == 0
  {
    d - Weekday(d)
  }

  /** Whole weeks in a span of x days, rounded toward zero as date libraries
      count whole units (Dafny's own division rounds down). */
  function TruncWeeks(x: int): (q: int)
    ensures x >= 0 ==> 0 <= 7 * q <= x < 7 * q + 7
    ensures x < 0 ==> 7 * q - 7 < x <= 7 * q <= 0
  {
    if x >= 0 then x / 7 else -((-x) / 7)
  }

  /** Whole weeks from earlier to later, truncated toward zero (negative when
      later comes first). */
  function WeeksBetween(later: int, earlier: int): (w: int)
    ensures later >= earlier ==> w >= 0 && 7 * w <= later - earlier < 7 * w + 7
    ensures later < earlier ==> 7 * w - 7 < later - earlier <= 7 * w <= 0
  {
    TruncWeeks(later - earlier)
  }

  lemma WeeksBetweenMondays(later: int, earlier: int)
    requires Weekday(later) == 0 && Weekday(earlier) == 0
    ensures 7 * WeeksBetween(later, earlier) == later - earlier
  {
    var x := later - earlier;
    assert x % 7 == 0 by {
      assert (later + 3) % 7 == (earlier + 3) % 7;
    }
  }
}
