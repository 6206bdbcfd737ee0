/** Civil dates as day ordinals, and the JavaScript integer arithmetic the app relies on.

    The calendar library the app uses (Jalali parsing in the Asia/Tehran time zone) is
    replaced by plain day ordinals.  Ordinals are counted so that ordinal 0 is a Saturday,
    which fixes the Jalali day-of-week numbering (0 = Saturday ... 6 = Friday). */
module Calendar {

  /** A civil date, as the number of days since a fixed Saturday. */
  type Day = int

  /** Jalali day of the week: 0 = Saturday, 1 = Sunday, ..., 5 = Thursday, 6 = Friday. */
  function JDay(d: Day): (w: int)
    ensures 0 <= w < 7
  {
    d % 7
  }

  /** Thursday and Friday are the weekend. */
  predicate IsWeekend(d: Day)
  {
    JDay(d) == 5 || JDay(d) == 6
  }

  /** The Saturday that starts the week of `d`. */
  function WeekStart(d: Day): (s: Day)
    ensures s <= d < s + 7
    ensures JDay(s) == 0
  {
    d - JDay(d)
  }

  /** Division truncating toward zero, as a time difference is rounded by the date library. */
  function TruncDiv(a: int, b: int): int
    requires b > 0
  {
    if a >= 0 then a / b else -((-a) / b)
  }

  /** JavaScript's `a % b` on integers: the remainder of the truncating division, which
      takes the sign of the dividend. */
  function JsRem(a: int, b: int): (r: int)
    requires b > 0
    ensures a >= 0 ==> 0 <= r < b
    ensures a < 0 ==> -b < r <= 0
    ensures a == b * TruncDiv(a, b) + r
  {
    a - b * TruncDiv(a, b)
  }

  /** Whole days from `from` to `to` (`to.diff(from, 'days')` of two start-of-day moments). */
  function DayDiff(to: Day, from: Day): int
  {
    to - from
  }

  /** Whole weeks from `from` to `to` (`to.diff(from, 'weeks')`): the day difference
      divided by seven, truncated toward zero. */
  function WeekDiff(to: Day, from: Day): (w: int)
    ensures DayDiff(to, from) >= 0 ==> 7 * w <= DayDiff(to, from) < 7 * w + 7
    ensures DayDiff(to, from) < 0 ==> 7 * w - 7 < DayDiff(to, from) <= 7 * w
  {
    TruncDiv(DayDiff(to, from), 7)
  }

  /** Number of Saturday-started calendar weeks from the week of `from` to the week of `to`. */
  function CalendarWeekDiff(to: Day, from: Day): (w: int)
    ensures 7 * w == WeekStart(to) - WeekStart(from)
  {
    WeekStartsDiffer(to, from);
    (WeekStart(to) - WeekStart(from)) / 7
  }

  lemma WeekStartsDiffer(a: Day, b: Day)
    ensures (WeekStart(a) - WeekStart(b)) % 7 == 0
  {
    assert WeekStart(a) == 7 * (a / 7);
    assert WeekStart(b) == 7 * (b / 7);
    MultipleMod(a / 7 - b / 7, 7);
    assert WeekStart(a) - WeekStart(b) == 7 * (a / 7 - b / 7);
  }

  /** A product with a positive factor keeps the other factor's sign, by at least `m`. */
  lemma ProductSign(m: int, k: int)
    requires m > 0
    ensures k >= 1 ==> m * k >= m
    ensures k <= -1 ==> m * k <= -m
  {
    assert m * k == m * (k - 1) + m;
    assert m * k == m * (k + 1) - m;
  }

  /** The only multiple of `m` strictly between `-m` and `m` is zero. */
  lemma SmallMultiple(m: int, k: int)
    requires m > 0
    requires -m < m * k < m
    ensures k == 0
  {
    ProductSign(m, k);
  }

  /** A number in `[0, m)` is its own remainder. */
  lemma SmallMod(x: int, m: int)
    requires 0 <= x < m
    ensures x % m == x
  {
    assert x == m * (x / m) + x % m;
    SmallMultiple(m, x / m);
  }

  /** A multiple of `m` leaves no remainder. */
  lemma MultipleMod(k: int, m: int)
    requires m > 0
    ensures (m * k) % m == 0
  {
    var x := m * k;
    assert x == m * (x / m) + x % m;
    assert m * (k - x / m) == x % m;
    SmallMultiple(m, k - x / m);
  }

  /** Adding a multiple of `m` does not change the (Euclidean) remainder. */
  lemma ModAddMultiple(a: int, n: int, m: int)
    requires m > 0
    ensures (a + m * n) % m == a % m
  {
    var x := a + m * n;
    assert x == m * (x / m) + x % m;
    assert a == m * (a / m) + a % m;
    assert m * (x / m - a / m - n) == a % m - x % m;
    SmallMultiple(m, x / m - a / m - n);
  }

  /** JavaScript's remainder agrees with the Euclidean one up to a multiple of `b`. */
  lemma JsRemCongruent(a: int, b: int)
    requires b > 0
    ensures (a - JsRem(a, b)) % b == 0
    ensures JsRem(a, b) % b == a % b
  {
    MultipleMod(TruncDiv(a, b), b);
    ModAddMultiple(JsRem(a, b), TruncDiv(a, b), b);
  }

  /** JavaScript's remainder is zero exactly when the Euclidean one is. */
  lemma JsRemZeroIff(a: int, b: int)
    requires b > 0
    ensures JsRem(a, b) == 0 <==> a % b == 0
  {
    var r := JsRem(a, b);
    JsRemCongruent(a, b);
    if r < 0 {
      ModAddMultiple(r, 1, b);
      SmallMod(r + b, b);
    } else {
      SmallMod(r, b);
    }
  }

  /** The weekend is the last two days of each Saturday-started week, whole weeks later or
      earlier alike. */
  lemma WeekendIsWeekTail(d: Day, n: int)
    ensures IsWeekend(d) <==> d - WeekStart(d) >= 5
    ensures IsWeekend(d + 7 * n) == IsWeekend(d)
  {
    ModAddMultiple(d, n, 7);
  }
}
