/** Durations on the nanosecond timeline and the two ways the code turns them into days. */
module Time {

  const Hour: int := 3_600_000_000_000
  const Day: int := 86_400_000_000_000
  /** `AddDate(0, 0, 30)` taken as a fixed thirty 24-hour days. */
  const ThirtyDays: int := 2_592_000_000_000_000

  /** Go's `int(d.Hours() / 24)`: whole days in the duration `d`, truncated toward zero. */
  function WholeDays(d: int): (n: int)
    ensures 0 <= d ==> 0 <= n && n * Day <= d < n * Day + Day
    ensures d < 0 ==> n <= 0 && n * Day - Day < d <= n * Day
  {
    if d >= 0 then d / Day else -((-d) / Day)
  }

  /** A longer duration never has fewer whole days. */
  lemma WholeDaysMonotonic(d1: int, d2: int)
    requires d1 <= d2
    ensures WholeDays(d1) <= WholeDays(d2)
  {
  }

  /** Go's `d.Hours() / 24` kept fractional, as a real. */
  function FractionalDays(d: int): (x: real)
    ensures x * (Day as real) == d as real
  {
    d as real / Day as real
  }

  /** Comparing fractional days with a whole number of days is comparing the durations. */
  lemma FractionalDaysAtMost(d: int, k: int)
    ensures FractionalDays(d) <= k as real <==> d <= k * Day
  {
    var x := FractionalDays(d);
    var day := Day as real;
    assert x * day == d as real;
    assert (k * Day) as real == (k as real) * day;
    if x <= k as real {
      assert x * day <= (k as real) * day;
    } else {
      assert x * day > (k as real) * day;
    }
  }
}
