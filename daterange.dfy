/** `getMayJuneRange`: the scored window, from May 1 00:00 UTC to June 1
    00:00 UTC of a given year, as time values (milliseconds since the epoch).
    `Date.UTC` is written out with the day arithmetic of the ECMAScript
    language specification (DayFromYear, InLeapYear, MakeDay, MakeDate). */
module DateRange {

  const MsPerDay: int := 86_400_000

  /** Days from 1970-01-01 to January 1 of year `y` (floor divisions). */
  function DayFromYear(y: int): int {
    365 * (y - 1970) + (y - 1969) / 4 - (y - 1901) / 100 + (y - 1601) / 400
  }

  predicate InLeapYear(y: int) {
    y % 4 == 0 && (y % 100 != 0 || y % 400 == 0)
  }

  function DaysInYear(y: int): int {
    if InLeapYear(y) then 366 else 365
  }

  /** Days in month `m` (0 = January), February depending on `leap`. */
  function DaysInMonth(m: int, leap: bool): int
    requires 0 <= m < 12
  {
    if m == 1 then (if leap then 29 else 28)
    else if m == 3 || m == 5 || m == 8 || m == 10 then 30
    else 31
  }

  /** Days in the months of a year before month `m`. */
  function DaysBeforeMonth(m: int, leap: bool): int
    requires 0 <= m < 12
  {
    if m == 0 then 0 else DaysBeforeMonth(m - 1, leap) + DaysInMonth(m - 1, leap)
  }

  /** MakeDay: the day number of `date` in 0-based `month` of `year`, months
      past December rolling into later years. */
  function MakeDay(year: int, month: int, date: int): int {
    var ym := year + month / 12;
    var mn := month % 12;
    DayFromYear(ym) + DaysBeforeMonth(mn, InLeapYear(ym)) + date - 1
  }

  /** MakeDate of a day number at time 00:00:00.000. */
  function DayStart(day: int): int {
    day * 86_400_000
  }

  /** `Date.UTC(year, month, date)` at midnight; a year from 0 to 99 means 1900 + year. */
  function DateUtc(year: int, month: int, date: int): int {
    var fullYear := if 0 <= year <= 99 then 1900 + year else year;
    DayStart(MakeDay(fullYear, month, date))
  }

  /** The window `[May 1, June 1)` of year `yr`: 31 whole days starting at midnight. */
  function MayJuneRange(yr: int): (window: (int, int))
    ensures window.1 - window.0 == 31 * MsPerDay
    ensures window.0 % MsPerDay == 0
  {
    var fullYear := if 0 <= yr <= 99 then 1900 + yr else yr;
    MayIsThirtyOneDays(fullYear);
    DayStartsAtMidnight(MakeDay(fullYear, 4, 1));
    (DateUtc(yr, 4, 1), DateUtc(yr, 5, 1))
  }

  lemma MayIsThirtyOneDays(y: int)
    ensures MakeDay(y, 5, 1) == MakeDay(y, 4, 1) + 31
  {
    var leap := InLeapYear(y);
    assert DaysBeforeMonth(5, leap) == DaysBeforeMonth(4, leap) + DaysInMonth(4, leap);
  }

  lemma DayStartsAtMidnight(day: int)
    ensures DayStart(day) % MsPerDay == 0
  {
    var t := DayStart(day);
    assert t == 86_400_000 * day;
  }

  /** DayFromYear counts whole years: consecutive years are DaysInYear apart. */
  lemma DayFromYearStep(y: int)
    ensures DayFromYear(y + 1) - DayFromYear(y) == DaysInYear(y)
  {
    StepBy4(y);
    StepBy100(y);
    StepBy400(y);
    Divisibility(y);
  }

  /** The leap-day term of DayFromYear grows by one after a year divisible by 4. */
  lemma StepBy4(y: int)
    ensures (y - 1968) / 4 - (y - 1969) / 4 == if y % 4 == 0 then 1 else 0
  {
    FloorStep(y - 1969, 4);
    Quotient(y - 1968, 4, y / 4 - 492, y % 4);
  }

  /** The century term grows by one after a year divisible by 100. */
  lemma StepBy100(y: int)
    ensures (y - 1900) / 100 - (y - 1901) / 100 == if y % 100 == 0 then 1 else 0
  {
    FloorStep(y - 1901, 100);
    Quotient(y - 1900, 100, y / 100 - 19, y % 100);
  }

  /** The 400-year term grows by one after a year divisible by 400. */
  lemma StepBy400(y: int)
    ensures (y - 1600) / 400 - (y - 1601) / 400 == if y % 400 == 0 then 1 else 0
  {
    FloorStep(y - 1601, 400);
    Quotient(y - 1600, 400, y / 400 - 4, y % 400);
  }

  /** A multiple of 400 is a multiple of 100, and a multiple of 100 one of 4. */
  lemma Divisibility(y: int)
    ensures y % 400 == 0 ==> y % 100 == 0
    ensures y % 100 == 0 ==> y % 4 == 0
  {
    if y % 400 == 0 {
      Quotient(y, 400, y / 400, 0);
      Quotient(y, 100, 4 * (y / 400), 0);
    }
    if y % 100 == 0 {
      Quotient(y, 100, y / 100, 0);
      Quotient(y, 4, 25 * (y / 100), 0);
    }
  }

  /** Floor division by a positive constant steps up by one exactly at multiples. */
  lemma FloorStep(x: int, d: int)
    requires d == 4 || d == 100 || d == 400
    ensures (x + 1) / d - x / d == if (x + 1) % d == 0 then 1 else 0
  {
    var q, r := x / d, x % d;
    Quotient(x, d, q, r);
    if r < d - 1 {
      Quotient(x + 1, d, q, r + 1);
    } else {
      Quotient(x + 1, d, q + 1, 0);
    }
  }

  /** Quotient and remainder are unique. */
  lemma Quotient(x: int, d: int, q: int, r: int)
    requires d == 4 || d == 100 || d == 400
    requires x == d * q + r && 0 <= r < d
    ensures x / d == q && x % d == r
  {
    if d == 4 {
      assert x == 4 * q + r;
    } else if d == 100 {
      assert x == 100 * q + r;
    } else {
      assert x == 400 * q + r;
    }
  }

  /** Consecutive years' windows start 365 days apart, or 366 when the later
      year is a leap year (its February lies between the two). */
  lemma MayJuneRangeNextYear(yr: int)
    requires yr >= 100
    ensures MayJuneRange(yr + 1).0 - MayJuneRange(yr).0 == DaysInYear(yr + 1) * MsPerDay
  {
    var d0 := DayFromYear(yr) + DaysBeforeMonth(4, InLeapYear(yr));
    var d1 := DayFromYear(yr + 1) + DaysBeforeMonth(4, InLeapYear(yr + 1));
    assert MayJuneRange(yr).0 == DayStart(d0);
    assert MayJuneRange(yr + 1).0 == DayStart(d1);
    assert d1 - d0 == DaysInYear(yr + 1) by {
      DayFromYearStep(yr);
      DaysBeforeMay(InLeapYear(yr));
      DaysBeforeMay(InLeapYear(yr + 1));
    }
  }

  lemma DaysBeforeMay(leap: bool)
    ensures DaysBeforeMonth(4, leap) == if leap then 121 else 120
  {
    if leap {
      assert DaysBeforeMonth(4, true) == 121;
    } else {
      assert DaysBeforeMonth(4, false) == 120;
    }
  }

  /** `Date.UTC` reads a year from 0 to 99 as 1900 + year, so the window of
      year 25 is the window of 1925. */
  lemma TwoDigitYears(yr: int)
    requires 0 <= yr <= 99
    ensures MayJuneRange(yr) == MayJuneRange(1900 + yr)
  {
  }

  /** The 2025 window: 2025-05-01T00:00:00.000Z to 2025-06-01T00:00:00.000Z. */
  lemma MayJuneRange2025()
    ensures MayJuneRange(2025) == (1746057600000, 1748736000000)
  {
    MakeDay2025();
  }

  lemma MakeDay2025()
    ensures MakeDay(2025, 4, 1) == 20209 && MakeDay(2025, 5, 1) == 20240
  {
    DayFromYear2025();
    assert !InLeapYear(2025);
    assert DaysBeforeMonth(4, false) == 120;
    assert DaysBeforeMonth(5, false) == 151;
  }

  lemma DayFromYear2025()
    ensures DayFromYear(2025) == 20089
  {
    assert (2025 - 1969) / 4 == 14;
    assert (2025 - 1901) / 100 == 1;
    assert (2025 - 1601) / 400 == 1;
  }
}
