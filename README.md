# API usage history and report, in Dafny

This project models the core of `index.ts`, a script that runs every two hours. Each run reads the
remaining points of an API quota and stores the reading in a date-keyed history. It then writes
a Markdown report: a 14-day usage chart, a statistics table (average daily use and days of quota
left) and a detail table with one row per stored day.

The model has six modules:

- `Decimal` (`decimal.dfy`): how a template literal prints an integer, with its parser and the
  round trip between them.
- `Dates` (`dates.dfy`): days as ISO `YYYY-MM-DD` strings and JavaScript's default string order
  on them, proved to be a strict total order. It defines the ascending order of a set of days
  (`Chronological`) and gives `Object.keys(data).sort()` as a selection sort
  (`SortChronological`) proved equal to it.
- `UsageHistory` (`history.dfy`): the history update of `fetchData` as the method `Update`. The
  clock is a parameter `today`. `Update` is proved equal to the function `Updated`, and
  lemmas state the update's three regimes: empty history, top-up and plain upsert.
- `UsageReport` (`report.dfy`): `generateAsciiTable` as the method `GenerateAsciiTable`, which
  builds the chart series with a loop and accumulates the report with a loop. It is proved equal
  to the functions `ChartSeries` and `ReportText`. Lemmas state which days the
  chart covers, what the average and the forecast are, and what the detail table lists.
- `ReportLayout` (`layout.dfy`): the shape of the report text, which is 17 fixed lines plus one
  line per stored day, with its sections in order.
- `ReportScenario` (`scenario.dfy`): a three-day history and a top-up, worked through the model.

The average is a `Stat`, one of:

- `NotAvailable` for the `'N/A'` of an empty chart;
- `Value(n)`;
- `DivByZero(c)`, produced when the forecast divides the current points `c` by an average of 0.
  JavaScript prints that quotient as `Infinity`, `-Infinity` or `NaN`, and the model renders it
  the same way.

## Model

| member | source | states |
|---|---|---|
| Decimal.NatToString | index.ts:149 | the decimal text of a natural number is non-empty, all digits, and starts with `0` only for zero |
| Decimal.IntToString | index.ts:149 | the text of an integer starts with `-` exactly when it is negative; the rest is digits |
| Decimal.NatToStringRoundTrip | index.ts:149 | reading the printed digits back gives the number |
| Decimal.IntToStringRoundTrip | index.ts:133-134 | reading a printed integer back, sign included, gives the integer |
| Dates.BeforeIrreflexive | index.ts:43 | no day sorts before itself |
| Dates.BeforeAsymmetric | index.ts:43 | two days never sort before each other |
| Dates.BeforeTransitive | index.ts:43 | the default string order is transitive |
| Dates.BeforeTotal | index.ts:43 | of two different days, one sorts before the other |
| Dates.NewestExtends | index.ts:43 | a day after the greatest day of a set is after every day of the set |
| Dates.Newest | index.ts:45 | every non-empty set of days has a greatest day, the last one after sorting |
| Dates.NewestUnique | index.ts:45 | the greatest day of a set is unique |
| Dates.Chronological | index.ts:43 | the sorted keys list exactly as many days as the set, each from the set, strictly ascending |
| Dates.ChronologicalCovers | index.ts:43 | every day of the set appears in the sorted keys |
| Dates.ChronologicalLast | index.ts:45 | the sorted keys end with the greatest day, after the sorted rest |
| Dates.NewestOf | index.ts:43-45 | the selection loop finds the greatest day of a non-empty set |
| Dates.SortChronological | index.ts:43 | the sort returns the days of the set in ascending order |
| UsageHistory.IsRefill | index.ts:43-49 | a top-up is a non-empty history whose greatest day holds fewer points than the new reading |
| UsageHistory.Updated | index.ts:43-59 | the result maps today to the new reading, every other day it holds keeps its old reading, and without a top-up no stored day is lost |
| UsageHistory.Update | index.ts:37-59 | the update equals the function `Updated` (wipe on a top-up, then set today) and today maps to the new reading |
| UsageHistory.UpdateOfEmpty | index.ts:37-59 | on an empty history there is no reset and the result is exactly today's reading |
| UsageHistory.UpdateOnRefill | index.ts:43-59 | after a top-up the history holds today's reading and nothing else |
| UsageHistory.UpdateIsUpsert | index.ts:49-59 | without a top-up, today gets the new reading, every other day keeps its reading, and the key count grows only when today is new |
| UsageHistory.RefillReadsLastSortedDay | index.ts:43-49 | a top-up is detected exactly when the new points exceed those of the last sorted day |
| UsageHistory.UpdateSize | index.ts:43-59 | a run leaves between one entry and one more entry than before |
| UsageReport.ReversedTwice | index.ts:91 | reversing twice gives the days back |
| UsageReport.ReversedSameDays | index.ts:91 | reversal keeps exactly the same days, with their multiplicities |
| UsageReport.NewestFirst | index.ts:83-85 | `sortedDates` holds one entry per stored day, strictly newest first |
| UsageReport.NewestFirstCovers | index.ts:83-85 | every stored day appears in `sortedDates` |
| UsageReport.Window | index.ts:91 | the chart window holds min(14, #days) days, each of them stored |
| UsageReport.WindowIsSuffix | index.ts:91 | the 14 newest days, reversed, are the last min(14, #days) days of the ascending order |
| UsageReport.WindowIsNewestDays | index.ts:83-91 | the chart covers min(14, #days) stored days, strictly ascending, and every stored day it leaves out is older than every day it shows |
| UsageReport.WindowLeavesOutOlder | index.ts:83-91 | every stored day the chart leaves out is older than every day it shows |
| UsageReport.SuffixIsNewest | index.ts:91 | in an ascending list of days, every day left out of a suffix is older than every day in it |
| UsageReport.ChartSeries | index.ts:94-117 | one point per window day with that day's date; the first value is 0; each later value is prev − curr when the points fell and 0 when they rose, so it is never negative |
| UsageReport.ChartPoints | index.ts:94-117 | the push loop builds exactly the chart series |
| UsageReport.Sum | index.ts:124 | the total of non-negative chart values is non-negative |
| UsageReport.RoundDiv | index.ts:125 | `Math.round(a / b)` is the integer within one half of a/b, with halves rounded up, for either sign of b |
| UsageReport.Average | index.ts:125 | the average is `N/A` exactly for an empty chart; otherwise it is the sum over the count, rounded, and never negative for a chart of non-negative values |
| UsageReport.CurrentPoints | index.ts:126 | the current points are those of the newest day, or 0 for an empty history |
| UsageReport.DaysRemaining | index.ts:127 | the forecast is `N/A` exactly when the average is; it divides by zero exactly when the average is 0, keeping the numerator; otherwise it is the current points over the average, rounded |
| UsageReport.Statistics | index.ts:124-127 | the average is never a division by zero; the forecast is one exactly when the average is 0, and then divides the current points |
| UsageReport.StatisticsAvailability | index.ts:124-127 | both figures are `N/A` exactly when the history is empty, and the average is never negative |
| UsageReport.NoForecastAfterRefill | index.ts:124-127 | right after a top-up wipes the history, the average is 0 and the forecast is a division by zero of the new points |
| UsageReport.SingleDayStatistics | index.ts:124-127 | with a single stored day the average is 0 and the forecast divides that day's points by 0 |
| UsageReport.DetailRowAt | index.ts:142-147 | a row shows its day and that day's points; only the last day has no usage, and every other row's usage is the distance to the next older day's points, by cases on which is larger |
| UsageReport.DetailRows | index.ts:141-147 | one row per stored day, in `sortedDates` order |
| UsageReport.DetailRowsNewestFirst | index.ts:141-143 | the detail table has one row per stored day, strictly newest first, each row showing that day's points |
| UsageReport.DetailRowsListEveryDay | index.ts:141-142 | every stored day has a row, not only the days of the chart |
| UsageReport.DetailRowsUsage | index.ts:144-147 | only the oldest row shows `N/A`; every other row shows the absolute change from the next older day's points |
| UsageReport.StatText | index.ts:133-134 | a figure prints `N/A` exactly when it is not available; a value prints as its numeral (minus sign exactly for negatives, no leading zero) that reads back as that value; a division by zero prints `Infinity`, `-Infinity` or `NaN` exactly for a positive, negative or zero numerator |
| UsageReport.StatsSection | index.ts:130-134 | after the header, the first row shows the average under 日平均使用量 and the second the forecast under 预计剩余天数, each printed as `StatText` prints it (`N/A`, a numeral that reads back as the value, or `Infinity`/`-Infinity`/`NaN` for a division by zero), then a blank line |
| UsageReport.UsageText | index.ts:145-147 | the usage cell is `N/A` exactly for the oldest day; otherwise it is the numeral that reads back as the points used |
| UsageReport.RowText | index.ts:149 | a detail line is `\| day \| points \| usage \|`: the day, a numeral that reads back as the day's points, and a usage cell that is `N/A` exactly for the oldest day and otherwise reads back as the points used; the day sits at columns 2 to 11 |
| UsageReport.RowsText | index.ts:141-150 | the rows give empty text exactly when there are no rows, and otherwise end in a line break |
| UsageReport.RowsTextSplit | index.ts:141-150 | the text of the rows is the text of the first k rows followed by the text of the others |
| UsageReport.RowsTextInOrder | index.ts:141-150 | row i's line comes right after the lines of the rows before it and right before the lines of the rows after it |
| UsageReport.ReportText | index.ts:88-150 | the report is the title, the chart link, the statistics section, the detail header and the detail rows, in that order |
| UsageReport.AppendDetailRows | index.ts:141-150 | the row loop appends exactly the text of the detail rows, one per stored day, newest first |
| UsageReport.GenerateAsciiTable | index.ts:81-150 | the function returns the chart series over the 14 newest days and the report text `ReportText` |
| ReportLayout.StatTextIsOneLine | index.ts:133-134 | a printed figure contains no line break |
| ReportLayout.UsageTextIsOneLine | index.ts:145-147 | the usage cell of a detail row contains no line break |
| ReportLayout.RowTextIsOneLine | index.ts:149 | each detail row is exactly one line |
| ReportLayout.RowsTextLines | index.ts:141-150 | the detail rows take exactly one line per row |
| ReportLayout.TitleLines | index.ts:88 | the title block holds exactly two line breaks |
| ReportLayout.ChartLinkLines | index.ts:121 | the chart link block holds four line breaks |
| ReportLayout.StatsHeaderLines | index.ts:130-132 | the statistics heading and table header take four line breaks |
| ReportLayout.DetailHeaderLines | index.ts:137-139 | the detail heading and table header take four line breaks |
| ReportLayout.StatRowLines | index.ts:133-134 | a statistics row is one line |
| ReportLayout.StatsSectionLines | index.ts:130-134 | the statistics section takes seven line breaks |
| ReportLayout.ReportLines | index.ts:88-150 | the report has 17 fixed line breaks plus one per stored day |
| ReportLayout.StatsSectionOpensWithHeader | index.ts:130-134 | the statistics section starts with its heading and table header |
| ReportLayout.ReportSections | index.ts:88-150 | the report starts with the title, then the chart link, then the statistics header, and ends with the detail header followed by the detail rows |
| ReportLayout.ReportShowsStatistics | index.ts:88-134 | right after the title, the chart link and the statistics header, the report shows the average row and then the forecast row, each figure of `Statistics` under its own label |
| ReportScenario.ThreeDaysAscending | index.ts:43 | three ordered days sort in that order |
| ReportScenario.ThreeDaysWindow | index.ts:83-91 | three ordered days give `sortedDates` newest first and a chart window oldest first |
| ReportScenario.ThreeDaysChart | index.ts:94-117 | points 100, 80, 80 give the chart series 0, 20, 0 |
| ReportScenario.ThreeDaysStatistics | index.ts:124-127 | points 100, 80, 80 give an average of round(20/3) = 7 and a forecast of round(80/7) = 11 |
| ReportScenario.ThreeDaysCurrent | index.ts:126 | the current points of the three days are those of the newest day, 80 |
| ReportScenario.ThreeDaysDetailRows | index.ts:141-150 | points 100, 80, 80 give detail usages 0, 20 and N/A, newest first |
| ReportScenario.JanuaryScenario | index.ts:124-127 | the same figures for 1 to 3 January 2024 |
| ReportScenario.RefillScenario | index.ts:43-59 | a top-up from 10 to 500 points wipes the older day, and the report shows an average of 0 and a forecast of `Infinity` |

## Behaviour worth knowing

- A top-up wipes the history. When the new points exceed those of the last stored day
  (index.ts:49-53), every stored reading is dropped before today's is stored. The chart series
  separately clamps a rise in points to a usage of 0 (index.ts:104). The wipe is in `Update`;
  `UsageHistory.UpdateOnRefill` states it.
- Nothing is ever evicted. The history grows by at most one day per run until a top-up wipes it
  (`UsageHistory.UpdateSize`).
- The first chart day enters the average as a usage of 0 (index.ts:111-116, 124-125). For points
  100, 80 and 80 the series is 0, 20, 0, so the average is round(20/3) = 7 and the forecast
  round(80/7) = 11 (`ReportScenario.ThreeDaysStatistics`).
- An average of 0 is divided by (index.ts:127). The forecast then prints `Infinity`, or `NaN`
  when no points are left. This happens on every run right after a top-up
  (`UsageReport.NoForecastAfterRefill`); the model keeps it as `DivByZero`.

## Left out

- The HTTP request, the API key and URL, dotenv, the `GITHUB_ACTIONS` checks and the console
  logging (index.ts:11-33, 50-52, 65-67). These are I/O and ambient configuration; the model
  takes the fetched reading as a parameter.
- The file existence check, reads and writes, and JSON parsing and printing (index.ts:38-40, 62,
  153-155). They are I/O. A missing data file is the empty history; the report text is returned
  rather than written.
- The clock (index.ts:34): `today` is a parameter of `Update`.
- The try/catch around the run (index.ts:65-67): the model has no exceptions.
- generateSVG.ts and the call to it (index.ts:120). The chart renderer is a library wrapper with
  floating-point scales; the model returns the series it would be given.
- The top-level call of `fetchData` (index.ts:159).
- Floating point. Points are unbounded integers, so sums above 2^53 are exact here but not in
  JavaScript. Numbers of 10^21 or more are printed as digits here, but in exponent form in
  JavaScript: the points and usages of the detail rows as well as the two figures. The `|| 0`
  at index.ts:126 only matters for missing or NaN points, which an integer reading cannot have.
- Date parsing. History keys are `Date`, a 10-character `YYYY-MM-DD` digit pattern, and the model
  sorts them by their text. For valid calendar days, the only keys index.ts:34 writes, the
  `Date.getTime` comparator (index.ts:83-85) gives the same order. `Date` also admits digit
  strings that are not calendar days, such as `2024-13-01`. For those `getTime` is NaN and the
  engine's order is unspecified, which the model does not capture.
- Dates.SortChronological: the engine's sorting algorithm is replaced by a selection sort. Keys
  are distinct and the order is total, so every correct sort gives the same result; only the
  order of comparisons differs.
- UsageReport.DaysRemaining: requires that the average is not itself a division by zero.
  `UsageReport.Average` never returns one, so no call in the source violates this.
- A chart point keeps its day as the key string, where the source wraps it in a `Date`
  object (index.ts:107, 113) for the chart renderer.
- `code` and `msg` of a reading are carried but never inspected, as in the source.
