/**
 * Naive datetimes as integer instants. An `Instant` counts microseconds from
 * 0001-01-01T00:00 (Python's `datetime.min`) in the proleptic Gregorian
 * calendar, so differences are `timedelta`s and floors are exact.
 */
module Clock {

  type Instant = int

  const SECOND: int := 1_000_000
  const MINUTE: int := 60_000_000
  const HOUR: int := 3_600_000_000
  const DAY: int := 86_400_000_000

  /** pandas' `Series.dt.floor("H")`. */
  function HourFloor(t: Instant): (r: Instant)
    ensures r <= t < r + HOUR
    ensures r % HOUR == 0
  {
    t - t % HOUR
  }

  /** pandas' `Series.dt.hour`: the hour of day, 0 to 23. */
  function HourOfDay(t: Instant): (h: int)
    ensures 0 <= h < 24
  {
    (t / HOUR) % 24
  }

  predicate IsLeapYear(y: int)
  {
    y % 4 == 0 && (y % 100 != 0 || y % 400 == 0)
  }

  function DaysInMonth(y: int, m: int): (n: int)
    requires 1 <= m <= 12
    ensures 28 <= n <= 31
  {
    if m == 2 then (if IsLeapYear(y) then 29 else 28)
    else if m == 4 || m == 6 || m == 9 || m == 11 then 30
    else 31
  }

  /** Days in the months of year `y` before month `m`. */
  function DaysBeforeMonth(y: int, m: int): (n: nat)
    requires 1 <= m <= 13
  {
    if m == 1 then 0 else DaysBeforeMonth(y, m - 1) + DaysInMonth(y, m - 1)
  }

  /** Days from 0001-01-01 to the first day of year `y`. */
  function DaysBeforeYear(y: int): (n: nat)
    requires y >= 1
  {
    365 * (y - 1) + (y - 1) / 4 - (y - 1) / 100 + (y - 1) / 400
  }

  /** A naive `datetime` to the minute, as the fixed formats produce it. */
  datatype Civil = Civil(year: int, month: int, day: int, hour: int, minute: int) {
    /** What `datetime(year, month, day, hour, minute)` accepts. */
    predicate Valid()
    {
      && 1 <= year <= 9999
      && 1 <= month <= 12
      && 1 <= day <= DaysInMonth(year, month)
      && 0 <= hour <= 23
      && 0 <= minute <= 59
    }
  }

  /** `date.toordinal() - 1`: whole days since 0001-01-01. */
  function DayNumber(c: Civil): (n: nat)
    requires c.Valid()
  {
    DaysBeforeYear(c.year) + DaysBeforeMonth(c.year, c.month) + c.day - 1
  }

  function ToInstant(c: Civil): (t: Instant)
    requires c.Valid()
    ensures t >= 0
  {
    DayNumber(c) * DAY + c.hour * HOUR + c.minute * MINUTE
  }

  lemma DivModOf(x: int, k: int, q: int, r: int)
    requires k > 0 && 0 <= r < k && x == q * k + r
    ensures x / k == q && x % k == r
  {
    var d := x / k - q;
    assert d * k == (x / k) * k - q * k;
    assert d * k == r - x % k;
    if d > 0 {
      MulAtLeast(d, k);
      assert false;
    } else if d < 0 {
      MulAtMost(d, k);
      assert false;
    }
  }

  lemma MulAtMost(a: int, k: int)
    requires a <= -1 && k > 0
    ensures a * k <= -k
    decreases -a
  {
    if a < -1 { MulAtMost(a + 1, k); assert a * k == (a + 1) * k - k; }
  }

  lemma MulAtLeast(a: int, k: int)
    requires a >= 1 && k > 0
    ensures a * k >= k
  {
    if a > 1 { MulAtLeast(a - 1, k); assert a * k == (a - 1) * k + k; }
  }

  /**
   * The instant of a parsed datetime keeps its fields: it is a whole minute,
   * its hour of day is the datetime's hour, and its hour floor is the same
   * datetime with the minutes cleared.
   */
  lemma ToInstantFields(c: Civil)
    requires c.Valid()
    ensures ToInstant(c) % MINUTE == 0
    ensures HourOfDay(ToInstant(c)) == c.hour
    ensures HourFloor(ToInstant(c)) == ToInstant(c.(minute := 0))
  {
    var t := ToInstant(c);
    var days := DayNumber(c);
    assert t == ((days * 24 + c.hour) * 60 + c.minute) * MINUTE;
    assert t == (days * 24 + c.hour) * HOUR + c.minute * MINUTE;
    DivModOf(t, MINUTE, (days * 24 + c.hour) * 60 + c.minute, 0);
    DivModOf(t, HOUR, days * 24 + c.hour, c.minute * MINUTE);
    DivModOf(days * 24 + c.hour, 24, days, c.hour);
  }
}
