/** The label `TextView.setDateFromTo` writes for a pair of dates: one
    `"MMM yyyy"` token for a single instant, otherwise
    `"<from> - <to> | <duration>"`, with the duration counted in whole months
    and split into years and months by the JVM's truncating division. */
module DateRange {

  import opened Wrappers
  import opened JavaMath
  import opened Decimal
  import opened CivilDate
  import opened DateFormat

  const YearSuffix: string := " year(s)"
  const MonthSuffix: string := " month(s)"

  predicate EndsWith(s: string, suffix: string) {
    |s| >= |suffix| && s[|s| - |suffix|..] == suffix
  }

  /** The duration text `d` for a whole-month difference `diff`: years and
      months as `"Y.M year(s)"` when the truncated year count is positive,
      otherwise the truncated remainder alone as `"M month(s)"`. */
  function DurationLabel(diff: int): (r: string)
    ensures EndsWith(r, YearSuffix) <==> diff >= 12
    ensures EndsWith(r, MonthSuffix) <==> diff < 12
  {
    var diffYear := Quot(diff, 12);
    var diffMonth := Rem(diff, 12);
    if diffYear > 0 then
      var r := Show(diffYear) + "." + Show(diffMonth) + YearSuffix;
      assert r[|r| - |YearSuffix|..] == YearSuffix;
      assert r[|r| - |MonthSuffix|..][2] == 'y';
      r
    else
      var r := Show(diffMonth) + MonthSuffix;
      assert r[|r| - |MonthSuffix|..] == MonthSuffix;
      assert r[|r| - |YearSuffix|..][0] == 'm';
      r
  }

  /** The duration reads in years exactly from twelve months on, and in
      months for everything shorter, reversed ranges included. */
  lemma DurationLabelSuffix(diff: int)
    ensures EndsWith(DurationLabel(diff), YearSuffix) <==> diff >= 12
    ensures EndsWith(DurationLabel(diff), MonthSuffix) <==> diff < 12
  {
    var r := DurationLabel(diff);
    if Quot(diff, 12) > 0 {
      assert r[|r| - |YearSuffix|..] == YearSuffix;
      assert r[|r| - |MonthSuffix|..][2] == 'y';
    } else {
      assert r[|r| - |MonthSuffix|..] == MonthSuffix;
      assert r[|r| - |YearSuffix|..][0] == 'm';
    }
  }

  /** The split of `diff` into `diffYear = diff / 12` and `diffMonth = diff % 12`
      on a `Long`: it recombines to `diff`, the month part stays below twelve in
      magnitude and takes the sign of `diff`, and the year part is positive
      exactly from twelve months on. */
  lemma DurationSplit(diff: int)
    ensures Quot(diff, 12) * 12 + Rem(diff, 12) == diff
    ensures -12 < Rem(diff, 12) < 12
    ensures diff >= 0 ==> Quot(diff, 12) >= 0 && Rem(diff, 12) >= 0
    ensures diff <= 0 ==> Quot(diff, 12) <= 0 && Rem(diff, 12) <= 0
    ensures Quot(diff, 12) > 0 <==> diff >= 12
  {
  }

  /** The text before the first `sep` in `s` and the text after it. */
  function SplitAt(s: string, sep: char): Option<(string, string)> {
    if s == [] then None
    else if s[0] == sep then Some(([], s[1..]))
    else match SplitAt(s[1..], sep)
      case None => None
      case Some((before, after)) => Some(([s[0]] + before, after))
  }

  lemma {:induction false} SplitAtFirst(before: string, sep: char, after: string)
    requires sep !in before
    ensures SplitAt(before + [sep] + after, sep) == Some((before, after))
  {
    var s := before + [sep] + after;
    if before == [] {
      assert s[0] == sep && s[1..] == after;
    } else {
      assert s[0] == before[0] != sep;
      assert s[1..] == before[1..] + [sep] + after;
      SplitAtFirst(before[1..], sep, after);
      assert [s[0]] + before[1..] == before;
    }
  }

  /** Reads a duration text back as a number of months. */
  function ParseDuration(s: string): Option<int> {
    if EndsWith(s, YearSuffix) then
      match SplitAt(s[..|s| - |YearSuffix|], '.')
      case Some((years, months)) =>
        if |years| >= 1 && |months| >= 1 && AllDigits(years) && AllDigits(months)
        then Some(12 * ParseNat(years) + ParseNat(months))
        else None
      case None => None
    else if EndsWith(s, MonthSuffix) then ParseInt(s[..|s| - |MonthSuffix|])
    else None
  }

  /** How many months a duration text gives back: all of them for a forward
      range; for a reversed range only the truncated remainder, because the
      negative year count is never printed. */
  function DisplayedMonths(diff: int): (n: int)
    ensures diff > -12 ==> n == diff
    ensures diff < 0 ==> n == Rem(diff, 12) && -12 < n <= 0
    ensures -12 < n < 12 || n == diff
  {
    if diff >= 0 then diff else Rem(diff, 12)
  }

  /** The duration text is an encoding of the month difference: reading it
      back recovers `diff` whenever `diff > -12`. */
  lemma ParseDurationLabel(diff: int)
    ensures ParseDuration(DurationLabel(diff)) == Some(DisplayedMonths(diff))
  {
    var diffYear, diffMonth := Quot(diff, 12), Rem(diff, 12);
    var r := DurationLabel(diff);
    DurationLabelSuffix(diff);
    if diffYear > 0 {
      var ys, ms := ShowNat(diffYear), ShowNat(diffMonth);
      assert r == ys + "." + ms + YearSuffix;
      assert r[..|r| - |YearSuffix|] == ys + ['.'] + ms;
      assert !IsDigit('.');
      SplitAtFirst(ys, '.', ms);
      ParseShowNat(diffYear);
      ParseShowNat(diffMonth);
    } else {
      assert r == Show(diffMonth) + MonthSuffix;
      assert r[..|r| - |MonthSuffix|] == Show(diffMonth);
      ParseShow(diffMonth);
    }
  }

  /** A reversed range loses its whole years: `-14` months prints as
      `"-2 month(s)"`, the same as `-2`. */
  lemma ReversedRangeDropsYears(diff: int)
    requires diff <= 0
    ensures DurationLabel(diff - 12) == DurationLabel(diff)
  {
    QuotRemNegate(diff, 12);
    QuotRemNegate(diff - 12, 12);
  }

  /** Below twelve months only the truncated remainder is printed. */
  lemma DurationLabelMonthForm(diff: int)
    requires diff < 12
    ensures DurationLabel(diff) == Show(Rem(diff, 12)) + MonthSuffix
  {
  }

  /** From twelve months on, years and months are printed, both unsigned. */
  lemma DurationLabelYearForm(diff: int)
    requires diff >= 12
    ensures DurationLabel(diff) == ShowNat(diff / 12) + "." + ShowNat(diff % 12) + YearSuffix
  {
  }

  /** Eighteen months print as one year and six months. */
  lemma DurationLabelEighteenMonths()
    ensures DurationLabel(18) == "1.6 year(s)"
  {
    DurationLabelYearForm(18);
    assert ShowNat(1) == "1" && ShowNat(6) == "6";
  }

  /** Twenty-two months print as one year and ten: the month part is not
      zero-padded. */
  lemma DurationLabelTwentyTwoMonths()
    ensures DurationLabel(22) == "1.10 year(s)"
  {
    DurationLabelYearForm(22);
    assert ShowNat(1) == "1";
    assert ShowNat(10) == "10" by {
      assert ShowNat(10) == ShowNat(1) + [DigitChar(0)];
    }
  }

  /** A short forward range prints months only. */
  lemma DurationLabelTwoMonths()
    ensures DurationLabel(2) == "2 month(s)"
  {
    DurationLabelMonthForm(2);
    assert Rem(2, 12) == 2 && Show(2) == "2";
  }

  /** An empty range prints zero months. */
  lemma DurationLabelZeroMonths()
    ensures DurationLabel(0) == "0 month(s)"
  {
    DurationLabelMonthForm(0);
    assert Rem(0, 12) == 0 && Show(0) == "0";
  }

  /** Two months back prints a negative month count. */
  lemma DurationLabelTwoMonthsBack()
    ensures DurationLabel(-2) == "-2 month(s)"
  {
    DurationLabelMonthForm(-2);
    assert Rem(-2, 12) == -2 && Show(-2) == "-2";
  }

  /** A whole year back prints as zero months: the year count never shows. */
  lemma DurationLabelYearBack()
    ensures DurationLabel(-12) == "0 month(s)"
  {
    DurationLabelMonthForm(-12);
    assert Rem(-12, 12) == 0 && Show(0) == "0";
  }

  /** The text `setDateFromTo` writes when both dates are present: the single
      token of `from` when the two are the same instant, otherwise both tokens
      in order and the duration between their civil dates. */
  function RangeLabel(from: Instant, to: Instant): (r: string)
    requires ValidInstant(from) && ValidInstant(to)
    // a lone token exactly when the instants are equal
    ensures from == to ==> |r| == 8
    ensures from != to ==> |r| > 22
    ensures r[..8] == MonthYear(from.date)
    ensures from != to ==> r[8..11] == " - " && r[11..19] == MonthYear(to.date) && r[19..22] == " | "
  {
    var a := MonthYear(from.date);
    if from == to then a
    else
      var b := MonthYear(to.date);
      var d := DurationLabel(MonthsBetween(from.date, to.date));
      SpanSlices(a, b, d);
      a + " - " + b + " | " + d
  }

  lemma SpanSlices(a: string, b: string, d: string)
    requires |a| == 8 && |b| == 8
    ensures var r := a + " - " + b + " | " + d;
      |r| == 22 + |d| && r[..8] == a && r[8..11] == " - " && r[11..19] == b && r[19..22] == " | " && r[22..] == d
  {
  }

  /** What a label says: one month and year, or a span with its month count. */
  datatype LabelParts =
    | Point(month: int, year: int)
    | Span(fromMonth: int, fromYear: int, toMonth: int, toYear: int, months: int)

  /** Reads a label back into its parts. */
  function ParseLabel(s: string): Option<LabelParts> {
    if |s| == 8 then
      match ParseMonthYear(s)
      case Some((month, year)) => Some(Point(month, year))
      case None => None
    else if |s| > 22 && s[8..11] == " - " && s[19..22] == " | " then
      match (ParseMonthYear(s[..8]), ParseMonthYear(s[11..19]), ParseDuration(s[22..]))
      case (Some((m1, y1)), Some((m2, y2)), Some(n)) => Some(Span(m1, y1, m2, y2, n))
      case _ => None
    else None
  }

  /** A label determines what was shown: for equal instants the month and
      year of `from` alone; otherwise the months and years of both ends, in
      order, and the whole-month difference between them (for a reversed
      range of a year or more, only its truncated remainder). */
  lemma ParseRangeLabel(from: Instant, to: Instant)
    requires ValidInstant(from) && ValidInstant(to)
    ensures ParseLabel(RangeLabel(from, to)) ==
      if from == to then Some(Point(from.date.month, from.date.year))
      else Some(Span(from.date.month, from.date.year, to.date.month, to.date.year,
                     DisplayedMonths(MonthsBetween(from.date, to.date))))
  {
    var r := RangeLabel(from, to);
    ParseMonthYearRoundTrip(from.date);
    ParseMonthYearRoundTrip(to.date);
    if from != to {
      var diff := MonthsBetween(from.date, to.date);
      SpanSlices(MonthYear(from.date), MonthYear(to.date), DurationLabel(diff));
      ParseDurationLabel(diff);
    }
  }

  /** Two instants on the same day that differ in time of day are not equal,
      so they print as a range of zero months rather than a single token. */
  lemma SameDayDifferentTimes(d: Date, t1: int, t2: int)
    requires Valid(d) && 0 <= t1 < 86_400_000 && 0 <= t2 < 86_400_000 && t1 != t2
    ensures RangeLabel(Instant(d, t1), Instant(d, t2)) ==
      MonthYear(d) + " - " + MonthYear(d) + " | 0 month(s)"
  {
    assert MonthsBetween(d, d) == 0;
    assert DurationLabel(0) == "0 month(s)" by {
      DurationLabelZeroMonths();
    }
  }

  /** Two different instants always print as `a - b | d`: the token of
      `from`, then the token of `to`, then the duration between their dates. */
  lemma RangeLabelOfSpan(from: Instant, to: Instant)
    requires ValidInstant(from) && ValidInstant(to) && from != to
    ensures RangeLabel(from, to) ==
      MonthYear(from.date) + " - " + MonthYear(to.date) + " | " + DurationLabel(MonthsBetween(from.date, to.date))
  {
  }

  /** One instant prints as its own token. */
  lemma RangeLabelPointExample()
    ensures RangeLabel(Instant(Date(2020, 1, 1), 0), Instant(Date(2020, 1, 1), 0)) == "Jan 2020"
  {
    MonthYearExamples();
  }

  /** Eighteen months from Jan 2020 print with their years and months. */
  lemma RangeLabelYearsExample()
    ensures RangeLabel(Instant(Date(2020, 1, 1), 0), Instant(Date(2021, 7, 1), 0)) ==
      "Jan 2020 - Jul 2021 | 1.6 year(s)"
  {
    var jan2020, jul2021 := Date(2020, 1, 1), Date(2021, 7, 1);
    calc {
      RangeLabel(Instant(jan2020, 0), Instant(jul2021, 0));
      { RangeLabelOfSpan(Instant(jan2020, 0), Instant(jul2021, 0)); }
      MonthYear(jan2020) + " - " + MonthYear(jul2021) + " | " + DurationLabel(MonthsBetween(jan2020, jul2021));
      { MonthsBetweenExamples(); MonthYearExamples(); }
      "Jan 2020" + " - " + "Jul 2021" + " | " + DurationLabel(18);
      { DurationLabelEighteenMonths(); }
      "Jan 2020" + " - " + "Jul 2021" + " | " + "1.6 year(s)";
      "Jan 2020 - Jul 2021 | 1.6 year(s)";
    }
  }

  /** Two months forward print as months only. */
  lemma RangeLabelMonthsExample()
    ensures RangeLabel(Instant(Date(2020, 1, 1), 0), Instant(Date(2020, 3, 1), 0)) ==
      "Jan 2020 - Mar 2020 | 2 month(s)"
  {
    var jan2020, mar2020 := Date(2020, 1, 1), Date(2020, 3, 1);
    calc {
      RangeLabel(Instant(jan2020, 0), Instant(mar2020, 0));
      { RangeLabelOfSpan(Instant(jan2020, 0), Instant(mar2020, 0)); }
      MonthYear(jan2020) + " - " + MonthYear(mar2020) + " | " + DurationLabel(MonthsBetween(jan2020, mar2020));
      { assert MonthsBetween(jan2020, mar2020) == 2; MonthYearExamples(); }
      "Jan 2020" + " - " + "Mar 2020" + " | " + DurationLabel(2);
      { DurationLabelTwoMonths(); }
      "Jan 2020" + " - " + "Mar 2020" + " | " + "2 month(s)";
      "Jan 2020 - Mar 2020 | 2 month(s)";
    }
  }

  /** A range given end first prints a negative month count. */
  lemma RangeLabelReversedExample()
    ensures RangeLabel(Instant(Date(2020, 3, 1), 0), Instant(Date(2020, 1, 1), 0)) ==
      "Mar 2020 - Jan 2020 | -2 month(s)"
  {
    var jan2020, mar2020 := Date(2020, 1, 1), Date(2020, 3, 1);
    calc {
      RangeLabel(Instant(mar2020, 0), Instant(jan2020, 0));
      { RangeLabelOfSpan(Instant(mar2020, 0), Instant(jan2020, 0)); }
      MonthYear(mar2020) + " - " + MonthYear(jan2020) + " | " + DurationLabel(MonthsBetween(mar2020, jan2020));
      { MonthsBetweenExamples(); MonthYearExamples(); }
      "Mar 2020" + " - " + "Jan 2020" + " | " + DurationLabel(-2);
      { DurationLabelTwoMonthsBack(); }
      "Mar 2020" + " - " + "Jan 2020" + " | " + "-2 month(s)";
      "Mar 2020 - Jan 2020 | -2 month(s)";
    }
  }
}
