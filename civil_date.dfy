/** Civil dates of the ISO 8601 proleptic Gregorian calendar, the whole-month
    difference `ChronoUnit.MONTHS.between(start, end)` that `setDateFromTo`
    computes on two `LocalDate`s, and the `java.util.Date` instants it starts from. */
module CivilDate {

  import opened JavaMath

  /** A `LocalDate`: year, month of year (1..12) and day of month. */
  datatype Date = Date(year: int, month: int, day: int)

  predicate IsLeapYear(year: int) {
    year % 4 == 0 && (year % 100 != 0 || year % 400 == 0)
  }

  function DaysInMonth(year: int, month: int): (n: int)
    requires 1 <= month <= 12
    ensures 28 <= n <= 31
    ensures n == 31 <==> month in {1, 3, 5, 7, 8, 10, 12}
    ensures n == 30 <==> month in {4, 6, 9, 11}
    ensures n == 29 <==> month == 2 && IsLeapYear(year)
    ensures n == 28 <==> month == 2 && !IsLeapYear(year)
  {
    if month == 2 then (if IsLeapYear(year) then 29 else 28)
    else if month in {4, 6, 9, 11} then 30
    else 31
  }

  /** A date that exists in the proleptic Gregorian calendar. */
  predicate IsCalendarDate(d: Date) {
    1 <= d.month <= 12 && 1 <= d.day <= DaysInMonth(d.year, d.month)
  }

  /** A calendar date whose year prints as exactly four digits under `yyyy`,
      the range in which the `"yyyy-MM-dd"` text that `setDateFromTo` hands
      from `SimpleDateFormat` to `LocalDate.parse` reads back as the same date. */
  predicate Valid(d: Date) {
    IsCalendarDate(d) && 1 <= d.year <= 9999
  }

  /** A `java.util.Date`: the civil date it shows in the formatter's time zone,
      plus where in that day it falls.  Two instants are equal (`compareTo == 0`)
      exactly when both parts are. */
  datatype Instant = Instant(date: Date, millisOfDay: int)

  predicate ValidInstant(t: Instant) {
    Valid(t.date) && 0 <= t.millisOfDay < 86_400_000
  }

  /** `LocalDate.getProlepticMonth`: months counted from January of year 0. */
  function ProlepticMonth(d: Date): int {
    d.year * 12 + d.month - 1
  }

  /** Calendar order: `a` is on or before `b`. */
  predicate NotAfter(a: Date, b: Date) {
    a.year < b.year || (a.year == b.year && (a.month < b.month || (a.month == b.month && a.day <= b.day)))
  }

  /** Moving `start` forward by `k` calendar months, keeping its day of month
      as it is (no clamping to the target month's length), does not pass `end`. */
  predicate ShiftNotAfter(start: Date, k: int, end: Date) {
    var target := ProlepticMonth(start) + k;
    target < ProlepticMonth(end) || (target == ProlepticMonth(end) && start.day <= end.day)
  }

  /** `ChronoUnit.MONTHS.between(start, end)`, i.e. `LocalDate.monthsUntil`:
      each date is packed as `prolepticMonth * 32 + day`, and the difference of
      the packed values is divided by 32 with the JVM's truncating division. */
  function MonthsBetween(start: Date, end: Date): (r: int)
    requires IsCalendarDate(start) && IsCalendarDate(end)
    ensures NotAfter(start, end) ==> r >= 0
    ensures NotAfter(end, start) ==> r <= 0
  {
    PackedOrder(ProlepticMonth(start), start.day, ProlepticMonth(end), end.day);
    PackedOrder(ProlepticMonth(end), end.day, ProlepticMonth(start), start.day);
    var packedStart := ProlepticMonth(start) * 32 + start.day;
    var packedEnd := ProlepticMonth(end) * 32 + end.day;
    Quot(packedEnd - packedStart, 32)
  }

  /** With days of month in 1..31, packing as `month * 32 + day` keeps the
      lexicographic order of (month, day). */
  lemma PackedOrder(monthA: int, dayA: int, monthB: int, dayB: int)
    requires 1 <= dayA <= 31 && 1 <= dayB <= 31
    ensures (monthA < monthB || (monthA == monthB && dayA <= dayB)) <==> monthA * 32 + dayA <= monthB * 32 + dayB
  {
  }

  /** The whole-month difference of two ordered dates is the number of whole
      months that fit between them: shifting `start` forward by `k` months
      stays on or before `end` exactly when `k` is at most the difference.  A
      trailing partial month is not counted. */
  lemma MonthsBetweenCountsWholeMonths(start: Date, end: Date)
    requires IsCalendarDate(start) && IsCalendarDate(end) && NotAfter(start, end)
    ensures MonthsBetween(start, end) >= 0
    ensures forall k :: ShiftNotAfter(start, k, end) <==> k <= MonthsBetween(start, end)
  {
    var m := MonthsBetween(start, end);
    var span := (ProlepticMonth(end) * 32 + end.day) - (ProlepticMonth(start) * 32 + start.day);
    assert 0 <= span - m * 32 < 32;
    forall k
      ensures ShiftNotAfter(start, k, end) <==> k <= m
    {
      PackedOrder(ProlepticMonth(start) + k, start.day, ProlepticMonth(end), end.day);
      assert ShiftNotAfter(start, k, end) <==> k * 32 <= span;
    }
  }

  /** Swapping the dates negates the difference, so a reversed range counts
      the same whole months, negatively. */
  lemma MonthsBetweenAntisymmetric(start: Date, end: Date)
    requires IsCalendarDate(start) && IsCalendarDate(end)
    ensures MonthsBetween(end, start) == -MonthsBetween(start, end)
  {
    var span := (ProlepticMonth(end) * 32 + end.day) - (ProlepticMonth(start) * 32 + start.day);
    QuotRemNegate(span, 32);
  }

  /** Worked values: Jan 15 to Mar 14 is one whole month; Jan 1 2020 to Jul 1
      2021 is eighteen; Jan 31 to Feb 29 is none, because the day of month is
      compared as it is and not clamped to the shorter month. */
  lemma MonthsBetweenExamples()
    ensures MonthsBetween(Date(2020, 1, 15), Date(2020, 3, 14)) == 1
    ensures MonthsBetween(Date(2020, 1, 1), Date(2021, 7, 1)) == 18
    ensures MonthsBetween(Date(2020, 1, 31), Date(2020, 2, 29)) == 0
    ensures MonthsBetween(Date(2020, 3, 1), Date(2020, 1, 1)) == -2
  {
  }
}
