# Gas-network incident dashboard: the aggregation layer

`dashboard.py` is a Streamlit page about gas-pipe ruptures ("roturas") in
the neighbourhoods ("barrios") of a city. Under its widgets, charts and
PDF export sits a small aggregation layer over the incident table. This
project models that layer in Dafny and proves what it computes.

Each incident is abstracted to a record `Incidents.Incident` holding
year, month (1-12), weekday (0 = Monday … 6 = Sunday), hour (0-23) and
neighbourhood. The modules follow the page's sections:

- `Forecast`: the constant 12-month forecast table of
  `cargar_predicciones`, cut to the selected horizon, and the "critical
  month" headline.
- `Monthly`: the monthly series (one bucket per calendar month from the
  first to the last record, empty months included) and its mean.
- `MonthLabels`: Spanish "Mes Año" labels, their parsing with the
  inverse table, and the month selector's options ("Todos" and the 12
  most recent months, newest first).
- `MonthFilter`: the spatial tab's month filter, with its two fallbacks
  to the whole history.
- `Ranking`: `value_counts()` of the neighbourhood, the top N, the
  detail table, the concentration metric, the most affected
  neighbourhood, the severity colour loop and the PDF ranking rows.
- `Temporal`: the weekday histogram (zero-filled) and hour counts (only
  the hours that occur), the critical day and hour, the four periods of
  the day and the weekday/weekend ratio.
- `Stats`, `Text`, `Incidents`, `Wrappers`: sums, first maxima,
  percentages, Python's `str.split` and `int`, counting over records, and
  `Option`.

Python semantics the model keeps:

- pandas `idxmax` and Python `max(key=...)` return the FIRST maximum
  (`Stats.FirstMax`).
- `str.split()` splits on Python's whitespace characters.
- `int()` accepts an optional sign followed by ASCII digits.
- A failed lookup, parse or index (`KeyError`, `ValueError`,
  `IndexError`) becomes `None`.
- Division by zero producing NaN becomes `None`. A positive count over
  zero months is infinite, which lands in the top severity band.

The severity bands compare `count / months` with 2, 1.5 and 1. The model
compares by cross-multiplying instead (`count > 2 * months`,
`2 * count > 3 * months`, `count > months`). `Ranking.BandMatchesRate`
proves this agrees with the real-valued rate. Percentages and rates are
Dafny `real`s, stated through `p * whole == 100 * part`.

Two imperative loops of the source are methods with loop invariants: the
colour loop (`Ranking.SeverityColours`) and the PDF row loop
(`Ranking.PdfRows`). The month filter, which reassigns two variables
across branches, is a function returning the table, the title suffix and
the notice shown.

## Model

| member | source | states |
|---|---|---|
| Stats.FirstMax | dashboard.py:223 | the chosen index holds a value at least every other value, and every earlier value is strictly smaller (first maximum, as `idxmax` and `max` pick it) |
| Stats.Percent | dashboard.py:412 | the percentage times the whole equals 100 times the part |
| Stats.PercentBounds | dashboard.py:410-412 | a part no larger than the whole is at most 100 %, and exactly 100 % iff part equals whole |
| Text.Split | dashboard.py:336 | every piece `split()` returns is a non-empty run of non-whitespace characters, and the pieces joined together are exactly the string's non-whitespace characters in order |
| Text.SplitAtSpace | dashboard.py:336 | splitting at any whitespace character gives the words before it followed by the words after it; with `Text.SplitWord` this fixes the result on every string as the maximal non-whitespace runs |
| Text.SplitWord | dashboard.py:336 | a string without whitespace splits to itself alone |
| Text.SplitJoin | dashboard.py:336 | splitting two words joined by a space gives exactly those two words |
| Text.ParseInt | dashboard.py:338 | `int()` of a string succeeds exactly on an optional sign followed by one or more digits; the value is the decimal value of the digits, negated after a '-' |
| Text.ParseIntOfNatToString | dashboard.py:338 | `int(str(n)) == n` for every natural year |
| Text.ParseIntOfNegated | dashboard.py:338 | `int("-" + str(n)) == -n` for every natural n |
| Incidents.MonthKeyRoundTrip | dashboard.py:164 | the calendar-month key of (year, month) gives back that year and month |
| Incidents.Histogram | dashboard.py:501 | a reindexed group-by: exactly n entries, entry i the number of records with feature value lo + i, zero when none |
| Incidents.HistogramTotal | dashboard.py:68 | when every record's feature lies in the histogram's range, its entries sum to the number of records |
| Incidents.CountInSplit | dashboard.py:573-576 | counts over adjacent ranges `[lo, mid)` and `[mid, hi)` add up to the count over `[lo, hi)` |
| Forecast.ForecastTable | dashboard.py:105-130 | 12 rows for consecutive months from August 2025, each with lower bound ≤ prediction ≤ upper bound and labelled "Mes Año" with the month's Spanish name |
| Forecast.Head | dashboard.py:262 | `head(h)`: min(h, 12) rows, equal to the first rows of the table |
| Forecast.HorizonTable | dashboard.py:146-148 | each horizon offered (3, 6, 9, 12) yields exactly that many rows, each within its interval |
| Forecast.IdxMax | dashboard.py:223 | `idxmax()` on the prediction column: an index whose prediction is at least every row's, with every earlier row strictly smaller |
| Forecast.CriticalAt | dashboard.py:223-227 | the first word of a forecast row's label is its month name; the headline carries that name and the row's prediction |
| Forecast.CriticalMonth | dashboard.py:223-224 | the offered horizon has h rows; the headline is the month name and the prediction of the row `idxmax()` picks among them, and that prediction is at least every prediction within the horizon |
| Monthly.MonthlySeries | dashboard.py:68-69 | no buckets iff no records; buckets run from the first record's month to the last record's month with no gap; bucket i counts the records of its month; buckets sum to the record count |
| Monthly.MonthlyMean | dashboard.py:206 | None (NaN) iff there are no records, otherwise records divided by buckets |
| Monthly.MeanOverSpan | dashboard.py:206 | the mean is the record count over the number of calendar months from the first to the last record, both included |
| Monthly.EmptyMonthIsZero | dashboard.py:68 | a month inside the span with no record is a zero bucket, not a missing one |
| MonthLabels.MonthName | dashboard.py:157-161 | the `meses_es` name of a month is a single word that `meses_inv` maps back to the same month |
| MonthLabels.FormatLabel | dashboard.py:125 | `f"{meses_es[m]} {y}"` splits into exactly the month's name and the year's digits; partners: `LabelRoundTrip` and `LabelInjective` |
| MonthLabels.ParseLabel | dashboard.py:336-338 | succeeds exactly when the label has at least two words, the first is a `meses_inv` name and the second is an `int()` literal (otherwise the `IndexError`, `KeyError` or `ValueError` of the source); the month is the one named by the first word and the year is `int()` of the second |
| MonthLabels.LabelRoundTrip | dashboard.py:331-338 | parsing the label built for (month, year) gives back (year, month), for every month 1-12 and every year |
| MonthLabels.LabelFirstWord | dashboard.py:227 | the first word of a label is the month name |
| MonthLabels.LabelInjective | dashboard.py:166 | distinct (month, year) pairs get distinct labels |
| MonthLabels.AllIsNotALabel | dashboard.py:168 | "Todos" does not parse as a month label |
| MonthLabels.DistinctMonthsDescending | dashboard.py:164-166 | the distinct months of the records, strictly newest first, and exactly those months |
| MonthLabels.RecentMonths | dashboard.py:166 | at most 12 months, strictly descending, all recorded, and any recorded month left out is older than all 12 kept |
| MonthLabels.KeyLabel | dashboard.py:166 | the label of a month key parses back to a non-negative year and a month whose key is that key |
| MonthLabels.MonthOptions | dashboard.py:168 | "Todos" first, then one label per recent month in the same order |
| MonthLabels.OptionsParseToRecordedMonths | dashboard.py:166-168 | every option after "Todos" parses to the month of some recorded incident |
| MonthLabels.OptionsDistinct | dashboard.py:166-168 | no option appears twice |
| MonthFilter.SelectMonth | dashboard.py:340-343 | the rows of the given year and month, each as often as in the table, and no others |
| MonthFilter.FilterByMonth | dashboard.py:328-356 | "Todos": whole table, quiet. Unparsable label: whole table, error notice. Parsed month with records: exactly those records, quiet, title " - " + label. Parsed month without records: whole table, no-data warning. The result is empty only when the table is |
| MonthFilter.FilterKeepsRecords | dashboard.py:340-343 | every filtered row is a row of the table |
| MonthFilter.OfferedMonthNeverFallsBack | dashboard.py:328-356 | selecting any offered month never falls back: quiet, non-empty, titled with that label |
| Ranking.SortByCount | dashboard.py:359 | counts non-increasing, a permutation of the input, same total |
| Ranking.ValueCounts | dashboard.py:359 | one entry per distinct neighbourhood with its true count (positive), counts non-increasing, totals summing to the record count |
| Ranking.TopBarrios | dashboard.py:359 | min(N, distinct neighbourhoods) entries, the first ones of `value_counts()` |
| Ranking.TopBarriosAreTheTop | dashboard.py:359 | the top entries are distinct with true counts, non-increasing, and no neighbourhood left out has more incidents than any shown |
| Ranking.TopShare | dashboard.py:410-411 | the top counts sum to at most the filtered total, and to all of it iff N reaches the number of distinct neighbourhoods |
| Ranking.Concentration | dashboard.py:410-412 | None (NaN) iff the table is empty; otherwise `total_top / total_general * 100`: the value times the record count is 100 times the sum of the top counts; at most 100 %, and exactly 100 % iff N covers every neighbourhood |
| Ranking.MostAffected | dashboard.py:420-421 | None iff the ranking is empty; otherwise a recorded neighbourhood with its true count, at least every neighbourhood's count |
| Ranking.RankRowOf | dashboard.py:441-449 | one detail row: rank, neighbourhood and count as given, percentage of the total, per-month rate present exactly when the all-months flag is set (the caller sets it for "Todos") |
| Ranking.RankingTable | dashboard.py:441-449 | as many rows as the top; ranks 1..len; each row the top's neighbourhood with its true, positive count, its percentage of the filtered total, and a per-month rate exactly when all months are shown |
| Ranking.SpatialRanking | dashboard.py:359-449 | the table shown for a selection: one row per top neighbourhood of the filtered rows, ranks 1..len, each count that neighbourhood's positive count in the filtered rows, its percentage of the filtered total, and a per-month rate over the whole history's monthly buckets exactly when the selection is "Todos" (a month that falls back to the whole table shows none) |
| Ranking.BandOf | dashboard.py:372-381 | with months > 0, the band is "very high" iff count/months > 2, "high" iff it lies in (1.5, 2], "medium" iff in (1, 1.5], "low" iff at most 1; with no months, a positive count is "very high" (infinite rate) and zero is "low" (NaN); partners: `BandMatchesRate`, `BandMonotone` |
| Ranking.BandMatchesRate | dashboard.py:372-380 | the cross-multiplied band is "very high" iff rate > 2, "high" iff 1.5 < rate ≤ 2, "medium" iff 1 < rate ≤ 1.5, "low" iff rate ≤ 1 |
| Ranking.BandMonotone | dashboard.py:372-380 | a larger count never gets a milder band |
| Ranking.SeverityColours | dashboard.py:371-383 | one colour per ranked neighbourhood: its band's colour when every month is shown, the uniform blue otherwise |
| Ranking.SpatialColours | dashboard.py:359-383 | the bar colours for a selection: one per top neighbourhood of the filtered rows, each the band colour of its count over the whole history's monthly buckets when the selection is "Todos", the uniform blue otherwise |
| Ranking.Abbreviate | dashboard.py:819 | names up to the width are kept; longer names become their first `width` characters followed by "..." |
| Ranking.PdfRowOf | dashboard.py:817-826 | one PDF row: rank and count as given, shortened name, count over months, percentage of all incidents |
| Ranking.PdfRows | dashboard.py:816-826 | the loop yields one row per ranked entry, ranked from 1, with that entry's name, count, rate and percentage |
| Ranking.PdfRankingRows | dashboard.py:810-826 | PDF rows for the whole table: one per top neighbourhood, true counts, rate over every monthly bucket, percentage of all incidents |
| Temporal.DayHistogram | dashboard.py:501 | exactly 7 entries, entry d the number of incidents on weekday d (zero when none), summing to the record count |
| Temporal.Share | dashboard.py:529 | None (NaN) iff there are no incidents, otherwise the count's percentage of them |
| Temporal.CriticalDay | dashboard.py:527-529 | the first weekday with the most incidents, its count, and its share; Monday with 0 when there are no incidents |
| Temporal.KeepNonEmpty | dashboard.py:465 | keeps exactly the rows with a positive count; an ascending input gives an ascending result |
| Temporal.HourCounts | dashboard.py:465 | a (hour, count) row exactly for each hour with incidents, carrying that hour's count, hours ascending |
| Temporal.HourCountsTotal | dashboard.py:465 | the hourly counts sum to the record count |
| Temporal.CriticalHour | dashboard.py:492-493 | None iff there are no incidents (`idxmax` raises); otherwise the earliest hour whose count is at least every hour's count |
| Temporal.EarliestMax | dashboard.py:492-493 | on the hourly counts of a table: a recorded hour with its count, at least every hour's count, every earlier hour strictly fewer |
| Temporal.HourShare | dashboard.py:494 | None iff there are no incidents; otherwise the critical hour's share of all incidents (`Share`), positive and at most 100 % |
| Temporal.PeriodCounts | dashboard.py:573-576 | four counts, period k counting hours 6k to 6k+5 |
| Temporal.PeriodsPartition | dashboard.py:573-576 | the four periods account for every incident |
| Temporal.CriticalPeriod | dashboard.py:578-581 | the first period, in the order Madrugada, Mañana, Tarde, Noche, with the most incidents |
| Temporal.WeekdayCount | dashboard.py:591 | the incidents from Monday to Friday: the sum of the weekday counts of days 0-4 |
| Temporal.WeekendCount | dashboard.py:592 | the incidents on Saturday and Sunday: the weekday counts of days 5 and 6 |
| Temporal.WeekSplit | dashboard.py:591-592 | Monday-Friday and weekend counts add up to every incident |
| Temporal.WeekRatio | dashboard.py:593 | 0 when there is no weekend incident, otherwise the ratio times the weekend count equals the weekday count |
| Temporal.WeekRatioAboveOne | dashboard.py:593 | with weekend incidents, the ratio exceeds 1 exactly when working days have more incidents |

## Left out

- Streamlit layout, widgets, CSS, `st.cache_data`, metric formatting and messages: user interface. The horizon, month and N come in as parameters.
- Plotly figures and the day-by-hour heatmap (lines 536-556). Line 537 takes for granted that all seven weekdays occur; nothing here relies on that.
- Reading the Excel file and pandas' date coercion (lines 55-58): file I/O. Records arrive already split into year, month, weekday, hour and neighbourhood.
- The seeded random synthetic dataset (lines 76-84): a random-number generator. Its monthly series (lines 95-96) is the same computation as lines 68-69.
- `generar_pdf_reporte`'s document building, file name from the clock, file writing and download button (lines 706-898): I/O and a foreign library. Only the ranking rows (816-826) are modelled. The page itself never calls this function.
- Rows with no neighbourhood, which `value_counts()` drops (NaN): every record here has one.
- Float formatting (`:.1f`, `:.2f`, `round(2)`): values are exact reals; rounding for display is not modelled.
- Ranking.ValueCounts: ties are broken by first appearance in the table, then a stable sort by descending count. pandas leaves the tie order unspecified, so only non-increasing counts are claimed.
- Forecast.CriticalMonth: requires a horizon the selector offers (3, 6, 9 or 12). Other values never reach it.
- Text.ParseInt: underscores between digits, surrounding whitespace (already removed by `split()`) and non-ASCII digits, which Python's `int()` also accepts, are not modelled. They cannot occur in a label built by the page.
- The forecast delta percentage (line 218), the horizon total (line 320), the next-month value (line 214) and the critical neighbourhood's monthly prediction (line 431): single divisions or sums for display, left with the rest of the metrics.
- The text of the critical-hour message and recommendations (hours `(h+1) % 24` and `(h+2) % 24`, lines 496 and 567): display only.
- The 20-character shortening of the most affected name (line 425): the same operation as `Ranking.Abbreviate` with width 20.
- Hard-coded model diagnostics and prose (lines 604-692): no behaviour.
