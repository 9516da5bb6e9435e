/** Calendar arithmetic behind the month partitioning and the per-period
    budgets: proleptic Gregorian dates, a day index counted from 1970-01-01
    (the epoch of the JavaScript clock), the weekday that `Date.getDay`
    reports, and "YYYY-MM" month keys with their one-month steps. */
module Dates {

  import opened Collections

  /** A calendar date as year, month (1-12) and day of month. */
  datatype Date = Date(year: int, month: int, day: int)

  /** A month key, the value the program writes as "YYYY-MM". */
  datatype MonthKey = MonthKey(year: int, month: int)

  predicate IsLeap(y: int)
  {
    y % 4 == 0 && (y % 100 != 0 || y % 400 == 0)
  }

  function DaysInMonth(y: int, m: int): (r: int)
    requires 1 <= m <= 12
    ensures 28 <= r <= 31
    ensures m == 2 ==> (r == 29 <==> IsLeap(y))
  {
    if m == 2 then (if IsLeap(y) then 29 else 28)
    else if m == 4 || m == 6 || m == 9 || m == 11 then 30
    else 31
  }

  predicate IsValidDate(d: Date)
  {
    1 <= d.month <= 12 && 1 <= d.day <= DaysInMonth(d.year, d.month)
  }

  /** Dates that exist on the calendar; every stored transaction date is one. */
  type CalendarDate = d: Date | IsValidDate(d) witness Date(1970, 1, 1)

  /** Month keys with a month in 1..12. */
  type Month = k: MonthKey | 1 <= k.month <= 12 witness MonthKey(1970, 1)

  function YearLength(y: int): int
  {
    if IsLeap(y) then 366 else 365
  }

  /** Leap years among 1..y (shifted consistently for y <= 0). */
  function LeapsThrough(y: int): int
  {
    y / 4 - y / 100 + y / 400
  }

  function DaysBeforeYear(y: int): int
  {
    365 * (y - 1970) + LeapsThrough(y - 1) - LeapsThrough(1969)
  }

  function DaysBeforeMonth(y: int, m: int): int
    requires 1 <= m <= 12
  {
    var common :=
      if m == 1 then 0 else if m == 2 then 31 else if m == 3 then 59
      else if m == 4 then 90 else if m == 5 then 120 else if m == 6 then 151
      else if m == 7 then 181 else if m == 8 then 212 else if m == 9 then 243
      else if m == 10 then 273 else if m == 11 then 304 else 334;
    if m > 2 && IsLeap(y) then common + 1 else common
  }

  /** Days since 1970-01-01; the day-resolution view of `Date.getTime()`. */
  function DayIndex(d: CalendarDate): int
  {
    DaysBeforeYear(d.year) + DaysBeforeMonth(d.year, d.month) + d.day - 1
  }

  /** `Date.getDay()`: 0 for Sunday through 6 for Saturday. */
  function Weekday(d: CalendarDate): (r: int)
    ensures 0 <= r < 7
  {
    (DayIndex(d) + 4) % 7
  }

  lemma EpochIsThursday()
    ensures DayIndex(Date(1970, 1, 1)) == 0
    ensures Weekday(Date(1970, 1, 1)) == 4
  {
  }

  /** Leap-count differences: each of the three floor terms steps by one
      exactly at multiples of its divisor. */
  lemma FloorStep(y: int, q: int)
    requires q == 4 || q == 100 || q == 400
    ensures y / q - (y - 1) / q == (if y % q == 0 then 1 else 0)
  {
    if q == 4 {
      assert y / 4 - (y - 1) / 4 == (if y % 4 == 0 then 1 else 0);
    } else if q == 100 {
      assert y / 100 - (y - 1) / 100 == (if y % 100 == 0 then 1 else 0);
    } else {
      assert y / 400 - (y - 1) / 400 == (if y % 400 == 0 then 1 else 0);
    }
  }

  lemma {:induction false} YearStep(y: int)
    ensures DaysBeforeYear(y + 1) == DaysBeforeYear(y) + YearLength(y)
  {
    FloorStep(y, 4);
    FloorStep(y, 100);
    FloorStep(y, 400);
    assert LeapsThrough(y) - LeapsThrough(y - 1) == (if IsLeap(y) then 1 else 0) by {
      if y % 400 == 0 {
        MultipleOf400(y);
      } else if y % 100 == 0 {
        MultipleOf100(y);
      }
    }
  }

  /** A multiple of 400 is a multiple of 100 and of 4. */
  lemma MultipleOf400(y: int)
    requires y % 400 == 0
    ensures y % 100 == 0 && y % 4 == 0
  {
    var m := 4 * (y / 400);
    assert y == 100 * m;
    MultipleOf100(y);
  }

  /** A multiple of 100 is a multiple of 4. */
  lemma MultipleOf100(y: int)
    requires y % 100 == 0
    ensures y % 4 == 0
  {
    var k := y / 100;
    assert y == 4 * (25 * k);
  }

  /** The month ordinal 12 * year + (month - 1): consecutive months are
      consecutive integers. */
  function Ordinal(k: MonthKey): int
  {
    12 * k.year + k.month - 1
  }

  function FromOrdinal(n: int): (k: Month)
    ensures Ordinal(k) == n
  {
    MonthKey(n / 12, n % 12 + 1)
  }

  lemma OrdinalInjective(a: Month, b: Month)
    ensures Ordinal(a) == Ordinal(b) <==> a == b
  {
  }

  /** The key of the month a date lies in (`getMonthKey`). */
  function MonthOf(d: CalendarDate): (k: Month)
    ensures k.year == d.year && k.month == d.month
  {
    MonthKey(d.year, d.month)
  }

  function FirstDay(k: Month): CalendarDate
  {
    Date(k.year, k.month, 1)
  }

  function LastDay(k: Month): CalendarDate
  {
    Date(k.year, k.month, DaysInMonth(k.year, k.month))
  }

  /** `addMonths(date, 1)` on the first of the month, as a key. */
  function NextMonth(k: Month): (r: Month)
    ensures Ordinal(r) == Ordinal(k) + 1
    ensures k.month < 12 ==> r == MonthKey(k.year, k.month + 1)
    ensures k.month == 12 ==> r == MonthKey(k.year + 1, 1)
  {
    if k.month == 12 then MonthKey(k.year + 1, 1) else MonthKey(k.year, k.month + 1)
  }

  /** `subMonths(date, 1)` on the first of the month, as a key. */
  function PrevMonth(k: Month): (r: Month)
    ensures Ordinal(r) == Ordinal(k) - 1
    ensures k.month > 1 ==> r == MonthKey(k.year, k.month - 1)
    ensures k.month == 1 ==> r == MonthKey(k.year - 1, 12)
  {
    if k.month == 1 then MonthKey(k.year - 1, 12) else MonthKey(k.year, k.month - 1)
  }

  lemma NextPrevInverse(k: Month)
    ensures PrevMonth(NextMonth(k)) == k
    ensures NextMonth(PrevMonth(k)) == k
  {
  }

  /** The first day of the following month comes right after the last day
      of this one. */
  lemma {:induction false} NextMonthStart(k: Month)
    ensures DayIndex(FirstDay(NextMonth(k))) == DayIndex(LastDay(k)) + 1
  {
    if k.month == 12 {
      YearStep(k.year);
    }
  }

  /** First days of months grow with the month ordinal, and a later month
      starts after every day of an earlier one. */
  lemma {:induction false} MonthStartsIncrease(a: Month, b: Month)
    requires Ordinal(a) < Ordinal(b)
    ensures DayIndex(FirstDay(b)) > DayIndex(LastDay(a))
    decreases Ordinal(b) - Ordinal(a)
  {
    NextMonthStart(a);
    var n := NextMonth(a);
    if Ordinal(n) < Ordinal(b) {
      MonthStartsIncrease(n, b);
      assert DayIndex(LastDay(n)) >= DayIndex(FirstDay(n));
    } else {
      OrdinalInjective(n, b);
    }
  }

  /** `isWithinInterval(date, {start: startOfMonth, end: endOfMonth})` at day
      resolution: the date lies between the first and the last day of the
      month, both inclusive. */
  predicate InMonth(d: CalendarDate, k: Month)
  {
    DayIndex(FirstDay(k)) <= DayIndex(d) <= DayIndex(LastDay(k))
  }

  /** A date lies in a month exactly when its year and month are the key's. */
  lemma {:induction false} InMonthIff(d: CalendarDate, k: Month)
    ensures InMonth(d, k) <==> d.year == k.year && d.month == k.month
  {
    var own := MonthOf(d);
    assert DayIndex(FirstDay(own)) <= DayIndex(d) <= DayIndex(LastDay(own));
    if Ordinal(own) < Ordinal(k) {
      MonthStartsIncrease(own, k);
    } else if Ordinal(k) < Ordinal(own) {
      MonthStartsIncrease(k, own);
    } else {
      OrdinalInjective(own, k);
    }
  }

  /** Every date lies in exactly one month: its own. */
  lemma InMonthUnique(d: CalendarDate, a: Month, b: Month)
    requires InMonth(d, a) && InMonth(d, b)
    ensures a == b
  {
    InMonthIff(d, a);
    InMonthIff(d, b);
  }

  /** A sortable stamp of a date: year, then month, then day. */
  function Stamp(d: CalendarDate): int
  {
    10000 * d.year + 100 * d.month + d.day
  }

  /** Days of one month are numbered consecutively. */
  lemma SameMonthDays(a: CalendarDate, b: CalendarDate)
    requires a.year == b.year && a.month == b.month
    ensures DayIndex(a) - DayIndex(b) == a.day - b.day
  {
  }

  /** Stamps order dates exactly as the clock does. */
  lemma {:induction false} StampMatchesDayIndex(a: CalendarDate, b: CalendarDate)
    ensures Stamp(a) <= Stamp(b) <==> DayIndex(a) <= DayIndex(b)
  {
    var ka, kb := MonthOf(a), MonthOf(b);
    if Ordinal(ka) < Ordinal(kb) {
      EarlierMonthEarlierDay(a, b);
    } else if Ordinal(kb) < Ordinal(ka) {
      EarlierMonthEarlierDay(b, a);
    } else {
      OrdinalInjective(ka, kb);
      SameMonthDays(a, b);
    }
  }

  /** A date in an earlier month is earlier by both measures. */
  lemma EarlierMonthEarlierDay(a: CalendarDate, b: CalendarDate)
    requires Ordinal(MonthOf(a)) < Ordinal(MonthOf(b))
    ensures Stamp(a) < Stamp(b) && DayIndex(a) < DayIndex(b)
  {
    var ka, kb := MonthOf(a), MonthOf(b);
    assert Stamp(a) < Stamp(b) by {
      assert a.day <= 31 && b.day >= 1;
      assert a.year < b.year || (a.year == b.year && a.month < b.month);
    }
    assert DayIndex(a) <= DayIndex(LastDay(ka)) by {
      InMonthIff(a, ka);
    }
    assert DayIndex(FirstDay(kb)) <= DayIndex(b) by {
      InMonthIff(b, kb);
    }
    MonthStartsIncrease(ka, kb);
  }

  // ---- "YYYY-MM" text ----

  function DigitChar(n: int): char
    requires 0 <= n <= 9
  {
    ('0' as int + n) as char
  }

  function DigitValue(c: char): int
  {
    c as int - '0' as int
  }

  predicate IsDigit(c: char)
  {
    '0' <= c <= '9'
  }

  /** `format(date, 'yyyy-MM')` for years 0..9999: four year digits, a dash,
      two month digits. */
  function KeyString(k: Month): (s: string)
    requires 0 <= k.year <= 9999
    ensures |s| == 7 && s[4] == '-'
    ensures forall i :: 0 <= i < 7 && i != 4 ==> IsDigit(s[i])
  {
    [DigitChar(k.year / 1000), DigitChar(k.year / 100 % 10), DigitChar(k.year / 10 % 10),
     DigitChar(k.year % 10), '-', DigitChar(k.month / 10), DigitChar(k.month % 10)]
  }

  /** Reads a "YYYY-MM" key back; `None` for any other text. */
  function ParseKey(s: string): (r: Option<Month>)
    ensures r.Some? ==> 0 <= r.value.year <= 9999
  {
    if |s| == 7 && s[4] == '-' && IsDigit(s[0]) && IsDigit(s[1]) && IsDigit(s[2])
       && IsDigit(s[3]) && IsDigit(s[5]) && IsDigit(s[6])
    then
      var y := 1000 * DigitValue(s[0]) + 100 * DigitValue(s[1]) + 10 * DigitValue(s[2]) + DigitValue(s[3]);
      var m := 10 * DigitValue(s[5]) + DigitValue(s[6]);
      if 1 <= m <= 12 then Some(MonthKey(y, m)) else None
    else None
  }

  lemma YearDigits(y: int)
    requires 0 <= y <= 9999
    ensures 1000 * (y / 1000) + 100 * (y / 100 % 10) + 10 * (y / 10 % 10) + y % 10 == y
  {
    var d10 := y / 10;
    var d100 := y / 100;
    assert y == 10 * d10 + y % 10;
    assert d10 == 10 * (d10 / 10) + d10 % 10;
    assert d10 / 10 == d100;
    assert d100 == 10 * (d100 / 10) + d100 % 10;
    assert d100 / 10 == y / 1000;
  }

  lemma KeyStringRoundTrip(k: Month)
    requires 0 <= k.year <= 9999
    ensures ParseKey(KeyString(k)) == Some(k)
  {
    var s := KeyString(k);
    assert DigitValue(s[0]) == k.year / 1000;
    assert DigitValue(s[1]) == k.year / 100 % 10;
    assert DigitValue(s[2]) == k.year / 10 % 10;
    assert DigitValue(s[3]) == k.year % 10;
    assert DigitValue(s[5]) == k.month / 10;
    assert DigitValue(s[6]) == k.month % 10;
    YearDigits(k.year);
  }
}
