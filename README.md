# Portfolio app binding adapters — a verified model

The Android portfolio app binds its layouts to data through a handful of
data-binding adapters in `BindingAdapters.kt`. Two groups of them carry logic:

* `TextView.setDateFromTo` turns a pair of optional `java.util.Date`s into a
  label. A missing date leaves the text alone. Two equal instants show one
  `"MMM yyyy"` token (`"Mar 2021"`). Any other pair shows
  `"<from> - <to> | <duration>"`. The duration is the whole-month difference
  `ChronoUnit.MONTHS.between` of the two civil dates. It is split by the JVM's
  truncating `/ 12` and `% 12` and printed as `"Y.M year(s)"` when the year
  count is positive, otherwise as `"M month(s)"`.
* `setSocialIcon`, `setCategoryIcon`, `setButtonIcon` and `setButtonBackground`
  map a string tag to a drawable or a button tint. Each table has a default for
  unlisted tags. A null tag changes nothing.

The model is split into modules by concern:

| file | module | what it holds |
|---|---|---|
| `wrappers.dfy` | `Wrappers` | `Option`, for nullable inputs and parser results |
| `java_math.dfy` | `JavaMath` | `Quot`/`Rem`: `Long` division and remainder, truncating toward zero |
| `decimal.dfy` | `Decimal` | decimal printing of integers as string templates do, and its parser |
| `civil_date.dfy` | `CivilDate` | proleptic Gregorian dates, instants, `MonthsBetween` |
| `date_format.dfy` | `DateFormat` | the `"MMM yyyy"` token and its parser |
| `date_range.dfy` | `DateRange` | the duration text, the full label, and their parsers |
| `resources.dfy` | `Resources` | the four tag tables and their reverse tables |
| `binding_adapters.dfy` | `BindingAdapters` | `TextView`, `ImageView`, `MaterialButton` and the adapters as state updates |

Every renderer has a parser beside it and a round-trip lemma. The month
difference also has an independent description: it is the largest number of
months by which `start` can be moved forward, with its day of month kept, and
still not pass `end`.

`setDateFromTo` tests instant equality (`dateFrom.compareTo(dateTo) == 0`,
`BindingAdapters.kt:66`), not calendar-day equality. Two instants on the same
day at different times therefore print as `"Jan 2020 - Jan 2020 | 0 month(s)"`
(`DateRange.SameDayDifferentTimes`). For a reversed range the code prints a
truncated, non-positive month count and never prints the negative year part
(`DateRange.ReversedRangeDropsYears`).

## Model

| member | source | states |
|---|---|---|
| `JavaMath.Quot` | app/src/main/java/me/tumur/portfolio/utils/adapters/bindingAdapters/BindingAdapters.kt:86 | `diff / 12` on a `Long` rounds toward zero: down for non-negative dividends, up for negative ones |
| `JavaMath.Rem` | app/src/main/java/me/tumur/portfolio/utils/adapters/bindingAdapters/BindingAdapters.kt:87 | `diff % 12` recombines with the quotient to `diff`, stays below the divisor in magnitude and takes the dividend's sign |
| `JavaMath.QuotRemNegate` | app/src/main/java/me/tumur/portfolio/utils/adapters/bindingAdapters/BindingAdapters.kt:86-87 | negating the dividend negates both the quotient and the remainder |
| `Decimal.ShowNat` | app/src/main/java/me/tumur/portfolio/utils/adapters/bindingAdapters/BindingAdapters.kt:88 | a natural number prints as at least one digit, with no leading zero unless it is zero |
| `Decimal.Show` | app/src/main/java/me/tumur/portfolio/utils/adapters/bindingAdapters/BindingAdapters.kt:88 | a `Long` in a string template prints unpadded, with a `-` before the magnitude of a negative value |
| `Decimal.ParseShowNat` | app/src/main/java/me/tumur/portfolio/utils/adapters/bindingAdapters/BindingAdapters.kt:88 | reading the printed digits back gives the number |
| `Decimal.ParseShow` | app/src/main/java/me/tumur/portfolio/utils/adapters/bindingAdapters/BindingAdapters.kt:88 | reading a printed, possibly negative, integer back gives the integer |
| `CivilDate.DaysInMonth` | app/src/main/java/me/tumur/portfolio/utils/adapters/bindingAdapters/BindingAdapters.kt:80-82 | month lengths of the proleptic Gregorian calendar that `LocalDate` accepts: 31 exactly for January, March, May, July, August, October and December, 30 exactly for April, June, September and November, 29 exactly for February of a leap year, 28 exactly for February of other years |
| `CivilDate.MonthsBetween` | app/src/main/java/me/tumur/portfolio/utils/adapters/bindingAdapters/BindingAdapters.kt:85 | `ChronoUnit.MONTHS.between(start, end)`: non-negative when `start` is on or before `end`, non-positive when `end` is on or before `start` |
| `CivilDate.MonthsBetweenCountsWholeMonths` | app/src/main/java/me/tumur/portfolio/utils/adapters/bindingAdapters/BindingAdapters.kt:85 | for ordered dates, moving `start` forward by `k` months with its day kept stays on or before `end` exactly when `k` is at most the difference; a trailing partial month does not count |
| `CivilDate.MonthsBetweenAntisymmetric` | app/src/main/java/me/tumur/portfolio/utils/adapters/bindingAdapters/BindingAdapters.kt:85 | swapping the two dates negates the difference |
| `CivilDate.MonthsBetweenExamples` | app/src/main/java/me/tumur/portfolio/utils/adapters/bindingAdapters/BindingAdapters.kt:85 | Jan 15 to Mar 14 is 1 month, Jan 1 2020 to Jul 1 2021 is 18, Jan 31 to Feb 29 is 0, Mar 1 back to Jan 1 is -2 |
| `DateFormat.MonthAbbrev` | app/src/main/java/me/tumur/portfolio/utils/adapters/bindingAdapters/BindingAdapters.kt:67-68 | `MMM` in `Locale.US` is a three-letter month name without spaces |
| `DateFormat.MonthAbbrevRoundTrip` | app/src/main/java/me/tumur/portfolio/utils/adapters/bindingAdapters/BindingAdapters.kt:67-68 | each month name reads back as its own month, so the twelve names are distinct |
| `DateFormat.Year4` | app/src/main/java/me/tumur/portfolio/utils/adapters/bindingAdapters/BindingAdapters.kt:67-68 | `yyyy` prints exactly four digits |
| `DateFormat.Year4RoundTrip` | app/src/main/java/me/tumur/portfolio/utils/adapters/bindingAdapters/BindingAdapters.kt:67-68 | the four digits spell the year itself, zero-padded |
| `DateFormat.MonthYear` | app/src/main/java/me/tumur/portfolio/utils/adapters/bindingAdapters/BindingAdapters.kt:67-68 | `"MMM yyyy"` is eight characters with a space after the month name |
| `DateFormat.ParseMonthYearRoundTrip` | app/src/main/java/me/tumur/portfolio/utils/adapters/bindingAdapters/BindingAdapters.kt:67-68 | the token reads back as the date's month and year |
| `DateFormat.MonthYearSameMonth` | app/src/main/java/me/tumur/portfolio/utils/adapters/bindingAdapters/BindingAdapters.kt:72-74 | two dates print the same token exactly when they share month and year; day and time never show |
| `DateFormat.MonthYearExamples` | app/src/main/java/me/tumur/portfolio/utils/adapters/bindingAdapters/BindingAdapters.kt:67-68 | sample tokens: `"Jan 2020"`, `"Mar 2020"`, `"Jul 2021"` |
| `DateRange.DurationLabel` | app/src/main/java/me/tumur/portfolio/utils/adapters/bindingAdapters/BindingAdapters.kt:86-88 | the duration text for `diff`: it ends in `" year(s)"` exactly when `diff >= 12` and in `" month(s)"` exactly when `diff < 12`; `DurationLabelYearForm`/`DurationLabelMonthForm` give its two shapes and `ParseDurationLabel` reads the month count back |
| `DateRange.DurationLabelSuffix` | app/src/main/java/me/tumur/portfolio/utils/adapters/bindingAdapters/BindingAdapters.kt:86-88 | the duration ends in `" year(s)"` exactly when `diff >= 12` and in `" month(s)"` exactly when `diff < 12`, reversed ranges included |
| `DateRange.DurationLabelYearForm` | app/src/main/java/me/tumur/portfolio/utils/adapters/bindingAdapters/BindingAdapters.kt:86-88 | from twelve months on, the text is the unsigned, unpadded years, a dot, the unsigned months and `" year(s)"` |
| `DateRange.DurationLabelMonthForm` | app/src/main/java/me/tumur/portfolio/utils/adapters/bindingAdapters/BindingAdapters.kt:86-88 | below twelve months, the text is the signed truncated remainder and `" month(s)"`; the year count never shows |
| `DateRange.DurationSplit` | app/src/main/java/me/tumur/portfolio/utils/adapters/bindingAdapters/BindingAdapters.kt:86-87 | `diffYear * 12 + diffMonth == diff`, `abs(diffMonth) < 12`, both parts take the sign of `diff`, and `diffYear > 0` exactly when `diff >= 12` |
| `DateRange.DisplayedMonths` | app/src/main/java/me/tumur/portfolio/utils/adapters/bindingAdapters/BindingAdapters.kt:86-88 | the month count a duration text carries: `diff` itself whenever `diff > -12`, and for every reversed range the non-positive truncated remainder `diff % 12` |
| `DateRange.ParseDurationLabel` | app/src/main/java/me/tumur/portfolio/utils/adapters/bindingAdapters/BindingAdapters.kt:86-88 | reading the duration text back recovers the whole month difference of any forward range; a reversed range gives back only its truncated remainder |
| `DateRange.ReversedRangeDropsYears` | app/src/main/java/me/tumur/portfolio/utils/adapters/bindingAdapters/BindingAdapters.kt:86-88 | for a reversed range, a year more makes no difference to the duration text |
| `DateRange.DurationLabelEighteenMonths` | app/src/main/java/me/tumur/portfolio/utils/adapters/bindingAdapters/BindingAdapters.kt:88 | 18 months print as `"1.6 year(s)"` |
| `DateRange.DurationLabelTwentyTwoMonths` | app/src/main/java/me/tumur/portfolio/utils/adapters/bindingAdapters/BindingAdapters.kt:88 | 22 months print as `"1.10 year(s)"`: the month part is unpadded |
| `DateRange.DurationLabelTwoMonths` | app/src/main/java/me/tumur/portfolio/utils/adapters/bindingAdapters/BindingAdapters.kt:88 | 2 months print as `"2 month(s)"` |
| `DateRange.DurationLabelZeroMonths` | app/src/main/java/me/tumur/portfolio/utils/adapters/bindingAdapters/BindingAdapters.kt:88 | 0 months print as `"0 month(s)"` |
| `DateRange.DurationLabelTwoMonthsBack` | app/src/main/java/me/tumur/portfolio/utils/adapters/bindingAdapters/BindingAdapters.kt:86-88 | -2 months print as `"-2 month(s)"` |
| `DateRange.DurationLabelYearBack` | app/src/main/java/me/tumur/portfolio/utils/adapters/bindingAdapters/BindingAdapters.kt:86-88 | -12 months print as `"0 month(s)"`, as truncating `/` and `%` give |
| `DateRange.RangeLabel` | app/src/main/java/me/tumur/portfolio/utils/adapters/bindingAdapters/BindingAdapters.kt:66-91 | the label is a lone 8-character token exactly when the instants are equal; it always starts with the token of `from`; otherwise `" - "`, the token of `to` and `" \| "` follow in that order |
| `DateRange.ParseRangeLabel` | app/src/main/java/me/tumur/portfolio/utils/adapters/bindingAdapters/BindingAdapters.kt:66-91 | reading a label back gives the month and year of `from` alone for equal instants, and otherwise both ends in order with the month difference between them |
| `DateRange.RangeLabelOfSpan` | app/src/main/java/me/tumur/portfolio/utils/adapters/bindingAdapters/BindingAdapters.kt:72-91 | different instants always print as `a + " - " + b + " \| " + d` |
| `DateRange.SameDayDifferentTimes` | app/src/main/java/me/tumur/portfolio/utils/adapters/bindingAdapters/BindingAdapters.kt:66 | equality is equality of instants: the same day at two times prints as a zero-month range, not as one token |
| `DateRange.RangeLabelPointExample` | app/src/main/java/me/tumur/portfolio/utils/adapters/bindingAdapters/BindingAdapters.kt:66-69 | Jan 1 2020 with itself prints `"Jan 2020"` |
| `DateRange.RangeLabelYearsExample` | app/src/main/java/me/tumur/portfolio/utils/adapters/bindingAdapters/BindingAdapters.kt:72-91 | Jan 1 2020 to Jul 1 2021 prints `"Jan 2020 - Jul 2021 \| 1.6 year(s)"` |
| `DateRange.RangeLabelMonthsExample` | app/src/main/java/me/tumur/portfolio/utils/adapters/bindingAdapters/BindingAdapters.kt:72-91 | Jan 1 to Mar 1 2020 prints `"Jan 2020 - Mar 2020 \| 2 month(s)"` |
| `DateRange.RangeLabelReversedExample` | app/src/main/java/me/tumur/portfolio/utils/adapters/bindingAdapters/BindingAdapters.kt:72-91 | Mar 1 back to Jan 1 2020 prints `"Mar 2020 - Jan 2020 \| -2 month(s)"` |
| `Resources.SocialIcon` | app/src/main/java/me/tumur/portfolio/utils/adapters/bindingAdapters/BindingAdapters.kt:101-107 | GITHUB, LINKEDIN, TWITTER and PDF each get their own icon, which reads back as that tag; every other tag gets the globe |
| `Resources.CategoryIcon` | app/src/main/java/me/tumur/portfolio/utils/adapters/bindingAdapters/BindingAdapters.kt:115-122 | ANDROID, WEB and CODE each get their own icon, which reads back as that tag; every other tag gets the structure icon |
| `Resources.ButtonIcon` | app/src/main/java/me/tumur/portfolio/utils/adapters/bindingAdapters/BindingAdapters.kt:129-138 | GITHUB, GOOGLE, WEB, YOUTUBE and TWITTER each get their own icon, which reads back as that tag; every other tag gets the pdf icon |
| `Resources.ButtonBackground` | app/src/main/java/me/tumur/portfolio/utils/adapters/bindingAdapters/BindingAdapters.kt:145-151 | GITHUB, GOOGLE, WEB and TWITTER each get their own tint, which reads back as that tag; every other tag, YOUTUBE included, gets the youtube tint |
| `Resources.ButtonIconMatchesBackground` | app/src/main/java/me/tumur/portfolio/utils/adapters/bindingAdapters/BindingAdapters.kt:127-151 | a listed button tag gets icon and tint of the same service; any other tag gets the pdf icon on the youtube tint |
| `BindingAdapters.TextView.SetDateFromTo` | app/src/main/java/me/tumur/portfolio/utils/adapters/bindingAdapters/BindingAdapters.kt:62-95 | with a date missing the text is unchanged; with both present the text becomes `RangeLabel(from, to)` |
| `BindingAdapters.ImageView.SetSocialIcon` | app/src/main/java/me/tumur/portfolio/utils/adapters/bindingAdapters/BindingAdapters.kt:98-109 | a null tag leaves the image unchanged; otherwise the image becomes the social icon of the tag |
| `BindingAdapters.ImageView.SetCategoryIcon` | app/src/main/java/me/tumur/portfolio/utils/adapters/bindingAdapters/BindingAdapters.kt:112-124 | a null tag leaves the image unchanged; otherwise the image becomes the category icon of the tag |
| `BindingAdapters.MaterialButton.SetButtonIcon` | app/src/main/java/me/tumur/portfolio/utils/adapters/bindingAdapters/BindingAdapters.kt:126-140 | a null tag leaves the button unchanged; otherwise only the icon changes, to the button icon of the tag |
| `BindingAdapters.MaterialButton.SetButtonBackground` | app/src/main/java/me/tumur/portfolio/utils/adapters/bindingAdapters/BindingAdapters.kt:142-153 | a null tag leaves the button unchanged; otherwise only the tint changes, to the button tint of the tag |

## Left out

- `setImage` (lines 26-44): Glide network and cache loading, scheduled asynchronously after layout; a foreign library doing I/O.
- `setSvgIcon` (lines 47-50) and `setWebView` (lines 53-58): one-line hand-offs to `ImageView.setImageResource` and `WebView.loadUrl`, with no logic of their own.
- The `"yyyy-MM-dd"` round trip through `SimpleDateFormat` and `LocalDate.parse` (lines 76-82) is modelled directly. Each instant is projected onto the civil date it shows. The null check on line 84 always holds after a successful parse, so it has no branch in the model.
- `java.util.Date` is modelled as a civil date plus a time of day. Time zones, daylight-saving overlaps and `SimpleDateFormat`'s locale machinery are not modelled. `MMM` is the fixed US English table.
- `CivilDate.Valid` keeps years in 1..9999. The model does not cover years BC or years of five or more digits: `yyyy` would print them as a year of era or unpadded, and `LocalDate.parse` would read them differently or throw. Every date is read in the proleptic Gregorian calendar. `java.util.Date` shows dates before the 1582 Gregorian reform in the Julian calendar. A Julian-only leap day such as 29 Feb 1500 is not a valid proleptic Gregorian date; `LocalDate.parse` with its default smart resolver clamps it to 28 Feb, so the month difference would be computed from the 28th. That path is not modelled.
- The `Long` overflow in `MonthsBetween` cannot happen for years in 1..9999, so integers are unbounded in the model.
- The tag constants live in `Constants.kt` and `BsConstants.kt`, which are not part of this model. Each constant is taken to be its own name (`"GITHUB"`, `"WEB"`, …). The tables only rely on the tags within one table being distinct.
- Android resource ids, `ContextCompat.getColorStateList` and the themes behind them are modelled as the symbolic enums `Drawable` and `ButtonColor`.
- How the data-binding framework decides when to call an adapter (`requireAll`, rebinding) is not modelled. Each method models one call.
