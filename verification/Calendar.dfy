// UTC calendar months, counted from January 1970.
module Calendar {
  import opened Schema

  const DAY: nat := 86400000

  predicate IsLeap(year: nat) { year % 4 == 0 && (year % 100 != 0 || year % 400 == 0) }

  function DaysIn(month: nat): (d: nat)
    ensures 28 <= d <= 31
  {
    var m := month % 12;
    if m == 1 then (if IsLeap(1970 + month / 12) then 29 else 28)
    else if m == 3 || m == 5 || m == 8 || m == 10 then 30
    else 31
  }

  /** Days before the month's first. */
  function FirstDay(month: nat): nat {
    if month == 0 then 0 else FirstDay(month - 1) + DaysIn(month - 1)
  }

  function MonthFrom(day: nat, month: nat): (m: nat)
    requires FirstDay(month) <= day
    ensures FirstDay(m) <= day < FirstDay(m + 1)
    decreases day - FirstDay(month)
  {
    if day < FirstDay(month + 1) then month else MonthFrom(day, month + 1)
  }

  /** date_trunc('month', t) */
  function MonthOf(t: Millis): (m: nat)
    ensures FirstDay(m) <= t / DAY < FirstDay(m + 1)
  {
    MonthFrom(t / DAY, 0)
  }

  /**
   * now() - interval 'n months': the same day and time n months earlier, on the last day of that
   * month where it has no such day. Instants before 1970 stand for the epoch.
   */
  function MinusMonths(now: Millis, n: nat): Millis {
    var month := MonthOf(now);
    if month < n then 0
    else
      var day := now / DAY - FirstDay(month);
      var clamped := if day < DaysIn(month - n) then day else DaysIn(month - n) - 1;
      (FirstDay(month - n) + clamped) * DAY + now % DAY
  }

  lemma {:induction false} FirstDayGrows(a: nat, b: nat)
    requires a <= b
    ensures FirstDay(a) <= FirstDay(b)
    decreases b
  {
    if a < b { FirstDayGrows(a, b - 1); }
  }

  lemma MonthIs(t: Millis, m: nat)
    requires FirstDay(m) <= t / DAY < FirstDay(m + 1)
    ensures MonthOf(t) == m
  {
    var k := MonthOf(t);
    if k < m { FirstDayGrows(k + 1, m); }
    if m < k { FirstDayGrows(m + 1, k); }
  }

  lemma MonthGrows(s: Millis, t: Millis)
    requires s <= t
    ensures MonthOf(s) <= MonthOf(t)
  {
    assert s / DAY <= t / DAY;
    if MonthOf(t) < MonthOf(s) { FirstDayGrows(MonthOf(t) + 1, MonthOf(s)); }
  }

  /** Subtracting months lands in the month that many back. */
  lemma MinusMonthsLands(now: Millis, n: nat)
    requires n <= MonthOf(now)
    ensures MonthOf(MinusMonths(now, n)) == MonthOf(now) - n
  {
    var month := MonthOf(now);
    var day := now / DAY - FirstDay(month);
    var clamped := if day < DaysIn(month - n) then day else DaysIn(month - n) - 1;
    var days := FirstDay(month - n) + clamped;
    assert (days * DAY + now % DAY) / DAY == days;
    MonthIs(MinusMonths(now, n), month - n);
  }

  /** Which day of its month an instant falls on, from 0. */
  function DayOfMonth(t: Millis): nat { t / DAY - FirstDay(MonthOf(t)) }

  /** It keeps the time of day, and the day of the month unless that month is too short: then it is the last one. */
  lemma MinusMonthsKeepsDayAndTime(now: Millis, n: nat)
    requires n <= MonthOf(now)
    ensures var then_ := MinusMonths(now, n);
            && then_ % DAY == now % DAY
            && DayOfMonth(then_) == (if DayOfMonth(now) < DaysIn(MonthOf(then_)) then DayOfMonth(now)
                                     else DaysIn(MonthOf(then_)) - 1)
  {
    MinusMonthsLands(now, n);
    var month, day := MonthOf(now) - n, DayOfMonth(now);
    var days := FirstDay(month) + (if day < DaysIn(month) then day else DaysIn(month) - 1);
    hide FirstDay, DaysIn, MonthOf;
    assert MinusMonths(now, n) == days * DAY + now % DAY;
    assert (days * DAY + now % DAY) / DAY == days && (days * DAY + now % DAY) % DAY == now % DAY;
  }

  lemma MonthOfYear(year: nat, k: nat)
    requires k < 12
    ensures (12 * year + k) % 12 == k && (12 * year + k) / 12 == year
  {
    hide *;
  }

  lemma NextMonth(month: nat)
    ensures FirstDay(month + 1) == FirstDay(month) + DaysIn(month)
  {
    hide DaysIn;
  }

  /** Days of a common year before each of its months, and the year's length. */
  const DAYS_BEFORE: seq<nat> := [0, 31, 59, 90, 120, 151, 181, 212, 243, 273, 304, 334, 365]

  /** Every year follows that table, one day later from March on in leap years. */
  lemma YearTable(year: nat, k: nat)
    requires k <= 12
    ensures FirstDay(12 * year + k)
            == FirstDay(12 * year) + DAYS_BEFORE[k] + (if k >= 2 && IsLeap(1970 + year) then 1 else 0)
  {
    if k > 0 {
      YearTable(year, k - 1);
      NextMonth(12 * year + k - 1);
      MonthOfYear(year, k - 1);
    }
    hide FirstDay;
  }

  /** Years before `year` that have a leap day, counted from the start of the era. */
  function LeapYearsBefore(year: nat): int {
    (year - 1) / 4 - (year - 1) / 100 + (year - 1) / 400
  }

  lemma QuotientGrows(year: int, k: int)
    requires k > 0
    ensures year / k == (year - 1) / k + (if year % k == 0 then 1 else 0)
  {
    var q, r := (year - 1) / k, (year - 1) % k;
    assert year == k * q + (r + 1);
    if r + 1 == k {
      assert year == k * (q + 1);
      QuotientIs(year, k, q + 1, 0);
    } else {
      QuotientIs(year, k, q, r + 1);
    }
  }

  lemma QuotientIs(n: int, k: int, q: int, r: int)
    requires k > 0 && n == k * q + r && 0 <= r < k
    ensures n / k == q && n % k == r
  {
    var d := n / k - q;
    assert k * d == r - n % k;
    Multiples(k, d);
  }

  lemma Multiples(k: int, d: int)
    requires k > 0
    ensures d >= 1 ==> k * d >= k
    ensures d <= -1 ==> k * d <= -k
  {
  }

  lemma OneMoreLeapYear(year: nat)
    ensures LeapYearsBefore(year + 1) == LeapYearsBefore(year) + (if IsLeap(year) then 1 else 0)
  {
    QuotientGrows(year, 4);
    QuotientGrows(year, 100);
    QuotientGrows(year, 400);
    CenturiesDivide(year);
    OneMore((year - 1) / 4, (year - 1) / 100, (year - 1) / 400, year % 4 == 0, year % 100 == 0, year % 400 == 0);
  }

  lemma CenturiesDivide(year: int)
    ensures year % 400 == 0 ==> year % 100 == 0
    ensures year % 100 == 0 ==> year % 4 == 0
  {
    if year % 400 == 0 { QuotientIs(year, 100, 4 * (year / 400), 0); }
    if year % 100 == 0 { QuotientIs(year, 4, 25 * (year / 100), 0); }
  }

  /** What the rule of fours, hundreds and four hundreds adds up to. */
  lemma OneMore(q4: int, q100: int, q400: int, by4: bool, by100: bool, by400: bool)
    requires (by400 ==> by100) && (by100 ==> by4)
    ensures q4 + (if by4 then 1 else 0) - (q100 + (if by100 then 1 else 0)) + (q400 + (if by400 then 1 else 0))
            == q4 - q100 + q400 + (if by4 && (!by100 || by400) then 1 else 0)
  {
  }

  /** New Year's Day of 1970 + year: 365 days a year and one more for each leap year gone by. */
  lemma {:induction false} NewYearsDay(year: nat)
    ensures FirstDay(12 * year) == 365 * year + LeapYearsBefore(1970 + year) - LeapYearsBefore(1970)
  {
    if year > 0 {
      NewYearsDay(year - 1);
      YearTable(year - 1, 12);
      OneMoreLeapYear(1970 + year - 1);
      assert 12 * (year - 1) + 12 == 12 * year;
    }
    hide FirstDay, LeapYearsBefore, IsLeap;
  }
}
