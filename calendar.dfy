/** Dates as day numbers, and the Monday-to-Sunday week that contains a day. */
module Calendar {

  /** A date is its proleptic Gregorian ordinal, as Python's `date.toordinal()`
      gives it: day 1 is 0001-01-01, a Monday. `d + k` is `d + timedelta(days=k)`. */
  type Date = int

  /** Python's `date.weekday()`: 0 for Monday up to 6 for Sunday. */
  function Weekday(d: Date): (w: int)
    ensures 0 <= w < 7
  {
    (d + 6) % 7
  }

  /** `today - timedelta(days=today.weekday())`: the Monday on or before `today`. */
  function WeekStart(today: Date): (s: Date)
    ensures Weekday(s) == 0
    ensures s <= today <= s + 6
  {
    today - Weekday(today)
  }

  /** `week_start + timedelta(days=6)`: the Sunday that closes the week of `today`. */
  function WeekEnd(today: Date): (e: Date)
    ensures Weekday(e) == 6
    ensures WeekStart(today) <= today <= e
    ensures e - WeekStart(today) == 6
  {
    WeekStart(today) + 6
  }

  /** Any Monday whose week holds `d` is the week start of `d`: weeks do not overlap. */
  lemma MondayOfWeekUnique(m: Date, d: Date)
    requires Weekday(m) == 0
    requires m <= d <= m + 6
    ensures WeekStart(d) == m
  {
    var k := d - m;
    assert (m + 6) % 7 == 0;
    assert (d + 6) % 7 == ((m + 6) + k) % 7;
    assert ((m + 6) + k) % 7 == k;
  }

  /** Every day of one week has the same week start, so reviews generated on any
      day of that week share one key. */
  lemma SameWeekSameStart(d1: Date, d2: Date)
    requires WeekStart(d1) <= d2 <= WeekEnd(d1)
    ensures WeekStart(d2) == WeekStart(d1)
    ensures WeekEnd(d2) == WeekEnd(d1)
  {
    MondayOfWeekUnique(WeekStart(d1), d2);
  }
}
