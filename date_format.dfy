/** `SimpleDateFormat("MMM yyyy", Locale.US)`: the month-and-year token that
    `setDateFromTo` prints for each end of a range, and its inverse. */
module DateFormat {

  import opened Wrappers
  import opened Decimal
  import opened CivilDate

  /** The US English short month names that `MMM` prints. */
  const MonthNames: seq<string> :=
    ["Jan", "Feb", "Mar", "Apr", "May", "Jun", "Jul", "Aug", "Sep", "Oct", "Nov", "Dec"]

  function MonthAbbrev(month: int): (r: string)
    requires 1 <= month <= 12
    ensures |r| == 3 && ' ' !in r
  {
    MonthNames[month - 1]
  }

  /** The month whose short name is `s`, if any. */
  function MonthOfAbbrev(s: string): (r: Option<int>)
    ensures r.Some? ==> 1 <= r.value <= 12
  {
    if s == "Jan" then Some(1) else if s == "Feb" then Some(2) else if s == "Mar" then Some(3)
    else if s == "Apr" then Some(4) else if s == "May" then Some(5) else if s == "Jun" then Some(6)
    else if s == "Jul" then Some(7) else if s == "Aug" then Some(8) else if s == "Sep" then Some(9)
    else if s == "Oct" then Some(10) else if s == "Nov" then Some(11) else if s == "Dec" then Some(12)
    else None
  }

  /** Each short name reads back as its own month. */
  lemma MonthAbbrevRoundTrip(month: int)
    requires 1 <= month <= 12
    ensures MonthOfAbbrev(MonthAbbrev(month)) == Some(month)
  {
  }

  /** `yyyy`: the year zero-padded to four digits. */
  function Year4(year: int): (r: string)
    requires 1 <= year <= 9999
    ensures |r| == 4 && AllDigits(r)
  {
    var tens := year / 10;
    var hundreds := tens / 10;
    var thousands := hundreds / 10;
    [DigitChar(thousands), DigitChar(hundreds % 10), DigitChar(tens % 10), DigitChar(year % 10)]
  }

  /** The four digits spell the year itself. */
  lemma Year4RoundTrip(year: int)
    requires 1 <= year <= 9999
    ensures ParseNat(Year4(year)) == year
  {
    var r := Year4(year);
    var d0, d1, d2, d3 := r[0], r[1], r[2], r[3];
    ParseNatSnoc([], d0);
    ParseNatSnoc([d0], d1);
    ParseNatSnoc([d0, d1], d2);
    ParseNatSnoc([d0, d1, d2], d3);
    assert [] + [d0] == [d0] && [d0] + [d1] == [d0, d1];
    assert [d0, d1] + [d2] == [d0, d1, d2] && [d0, d1, d2] + [d3] == [d0, d1, d2, d3] == r;
  }

  /** `"MMM yyyy"`, e.g. `"Mar 2021"`; only the month and year of the date show. */
  function MonthYear(d: Date): (r: string)
    requires Valid(d)
    ensures |r| == 8 && r[3] == ' '
  {
    MonthAbbrev(d.month) + " " + Year4(d.year)
  }

  /** Reads a `"MMM yyyy"` token back as (month, year). */
  function ParseMonthYear(s: string): Option<(int, int)> {
    if |s| == 8 && s[3] == ' ' && MonthOfAbbrev(s[..3]).Some? && AllDigits(s[4..]) then
      Some((MonthOfAbbrev(s[..3]).value, ParseNat(s[4..])))
    else None
  }

  /** The token is an encoding of the month and the year: reading it back
      gives both. */
  lemma ParseMonthYearRoundTrip(d: Date)
    requires Valid(d)
    ensures ParseMonthYear(MonthYear(d)) == Some((d.month, d.year))
  {
    var r := MonthYear(d);
    assert r[..3] == MonthAbbrev(d.month) && r[4..] == Year4(d.year);
    MonthAbbrevRoundTrip(d.month);
    Year4RoundTrip(d.year);
  }

  /** Two dates print the same token exactly when they fall in the same month
      of the same year; the day and the time of day never show. */
  lemma MonthYearSameMonth(a: Date, b: Date)
    requires Valid(a) && Valid(b)
    ensures MonthYear(a) == MonthYear(b) <==> a.month == b.month && a.year == b.year
  {
    ParseMonthYearRoundTrip(a);
    ParseMonthYearRoundTrip(b);
  }

  /** Month names are English abbreviations followed by the four-digit year. */
  lemma MonthYearExamples()
    ensures MonthYear(Date(2020, 1, 1)) == "Jan 2020"
    ensures MonthYear(Date(2020, 3, 1)) == "Mar 2020"
    ensures MonthYear(Date(2021, 7, 1)) == "Jul 2021"
  {
    assert MonthYear(Date(2020, 1, 1)) == "Jan 2020";
    assert MonthYear(Date(2020, 3, 1)) == "Mar 2020";
    assert MonthYear(Date(2021, 7, 1)) == "Jul 2021";
  }
}
