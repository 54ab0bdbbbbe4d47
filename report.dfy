/** `generateAsciiTable`: from the stored history to the chart series handed to the chart
    renderer and to the Markdown report text. */
module UsageReport {
  import opened Dates
  import opened Decimal
  import opened UsageHistory

  /** A point handed to the chart renderer: a day and the points used on it. */
  datatype ChartPoint = ChartPoint(date: Date, value: int)

  /** A figure of the statistics table. `DivByZero(c)` is the quotient `c / 0` that the
      program computes when the average is 0: JavaScript prints it as `Infinity`,
      `-Infinity` or `NaN` depending on the sign of `c`. */
  datatype Stat = NotAvailable | Value(n: int) | DivByZero(numerator: int)

  /** The usage column of a detail row: the oldest day has no predecessor. */
  datatype Usage = NoPredecessor | Used(amount: nat)

  datatype DetailRow = DetailRow(date: Date, points: int, usage: Usage)

  /** How many of the newest days the chart shows. */
  const ChartDays: nat := 14

  function Min(a: int, b: int): int {
    if a < b then a else b
  }

  function Max(a: int, b: int): int {
    if a < b then b else a
  }

  function Abs(x: int): nat {
    if x < 0 then -x else x
  }

  function Reversed(s: seq<Date>): (r: seq<Date>)
    ensures |r| == |s|
    ensures forall i :: 0 <= i < |s| ==> r[i] == s[|s| - 1 - i]
  {
    seq(|s|, i requires 0 <= i < |s| => s[|s| - 1 - i])
  }

  /** Reversing twice gives the days back. */
  lemma ReversedTwice(s: seq<Date>)
    ensures Reversed(Reversed(s)) == s
  {
  }

  /** Reversal neither adds nor drops a day. */
  lemma {:induction false} ReversedSameDays(s: seq<Date>)
    ensures multiset(Reversed(s)) == multiset(s)
    decreases |s|
  {
    if s != [] {
      var t := s[1..];
      ReversedSameDays(t);
      assert Reversed(s) == Reversed(t) + [s[0]];
      assert s == [s[0]] + t;
    }
  }

  // ---------------------------------------------------------------------------
  // Order of the days

  /** `sortedDates`: every stored day, newest first. */
  ghost function NewestFirst(h: History): (days: seq<Date>)
    ensures |days| == |h|
    ensures forall i :: 0 <= i < |days| ==> days[i] in h
    ensures forall i, j :: 0 <= i < j < |days| ==> Before(days[j], days[i])
  {
    Reversed(Chronological(h.Keys))
  }

  /** `sortedDates.slice(0, 14).reverse()`: the days the chart covers. */
  ghost function Window(h: History): (w: seq<Date>)
    ensures |w| == Min(ChartDays, |h|)
    ensures forall j :: 0 <= j < |w| ==> w[j] in h
  {
    var days := NewestFirst(h);
    Reversed(days[..Min(ChartDays, |days|)])
  }

  /** Taking the first 14 of the newest-first days and reversing them gives the last 14
      days of the ascending order. */
  lemma WindowIsSuffix(h: History)
    ensures |Window(h)| == Min(ChartDays, |h|)
    ensures var c := Chronological(h.Keys); Window(h) == c[|c| - |Window(h)|..]
  {
    var c := Chronological(h.Keys);
    var days := Reversed(c);
    var n, k := |c|, Min(ChartDays, |h|);
    var front := days[..k];
    var w := Reversed(front);
    assert w == Window(h);
    forall j | 0 <= j < k
      ensures w[j] == c[n - k + j]
    {
      assert w[j] == front[k - 1 - j] == days[k - 1 - j];
    }
  }

  /** The chart covers the 14 newest days (all of them when fewer are stored), oldest
      first, and every stored day it leaves out is older than every day it shows. */
  lemma WindowIsNewestDays(h: History)
    ensures |Window(h)| == Min(ChartDays, |h|)
    ensures StrictlyIncreasing(Window(h))
    ensures forall j :: 0 <= j < |Window(h)| ==> Window(h)[j] in h
    ensures forall d, j :: d in h && d !in Window(h) && 0 <= j < |Window(h)| ==> Before(d, Window(h)[j])
  {
    WindowIsSuffix(h);
    WindowLeavesOutOlder(h);
  }

  lemma WindowLeavesOutOlder(h: History)
    ensures forall d, j :: d in h && d !in Window(h) && 0 <= j < |Window(h)| ==> Before(d, Window(h)[j])
  {
    WindowIsSuffix(h);
    var c := Chronological(h.Keys);
    ChronologicalCovers(h.Keys);
    SuffixIsNewest(c, Window(h));
  }

  /** In an ascending sequence, every element left out of a suffix is before every element in it. */
  lemma SuffixIsNewest(c: seq<Date>, w: seq<Date>)
    requires StrictlyIncreasing(c) && |w| <= |c| && w == c[|c| - |w|..]
    ensures forall d, j :: d in c && d !in w && 0 <= j < |w| ==> Before(d, w[j])
  {
    var n, k := |c|, |w|;
    forall m | n - k <= m < n
      ensures c[m] in w
    {
      assert w[m - (n - k)] == c[m];
    }
    forall d, j | d in c && d !in w && 0 <= j < k
      ensures Before(d, w[j])
    {
      var i :| 0 <= i < n && c[i] == d;
      assert w[j] == c[n - k + j];
    }
  }

  // ---------------------------------------------------------------------------
  // Chart series

  /** The chart series over the days `w`: nothing used on the first day, and on each later
      day the drop in points since the day before, or 0 when the points went up. */
  function ChartSeries(h: History, w: seq<Date>): (r: seq<ChartPoint>)
    requires forall i :: 0 <= i < |w| ==> w[i] in h
    ensures |r| == |w|
    ensures forall i {:trigger r[i]} :: 0 <= i < |w| ==> r[i].date == w[i] && r[i].value >= 0
    ensures |w| > 0 ==> r[0].value == 0
    ensures forall i {:trigger r[i]} :: 0 < i < |w| ==>
      (h[w[i]].points <= h[w[i - 1]].points ==> r[i].value == h[w[i - 1]].points - h[w[i]].points) &&
      (h[w[i]].points > h[w[i - 1]].points ==> r[i].value == 0)
    decreases |w|
  {
    if w == [] then []
    else
      var n := |w| - 1;
      var value := if n == 0 then 0 else Max(0, h[w[n - 1]].points - h[w[n]].points);
      ChartSeries(h, w[..n]) + [ChartPoint(w[n], value)]
  }

  /** One more day extends the series by one point. */
  lemma ChartSeriesStep(h: History, w: seq<Date>, i: nat)
    requires i < |w|
    requires forall j :: 0 <= j < |w| ==> w[j] in h
    ensures ChartSeries(h, w[..i + 1]) == ChartSeries(h, w[..i]) +
      [ChartPoint(w[i], if i == 0 then 0 else Max(0, h[w[i - 1]].points - h[w[i]].points))]
  {
    assert w[..i + 1][..i] == w[..i];
  }

  /** The loop that pushes one chart point per day of `last14Days`. */
  method ChartPoints(data: History, last14Days: seq<Date>) returns (chartPoint: seq<ChartPoint>)
    requires forall i :: 0 <= i < |last14Days| ==> last14Days[i] in data
    ensures chartPoint == ChartSeries(data, last14Days)
  {
    chartPoint := [];
    for i := 0 to |last14Days|
      invariant chartPoint == ChartSeries(data, last14Days[..i])
    {
      ChartSeriesStep(data, last14Days, i);
      var currentDate := last14Days[i];
      var currentData := data[currentDate];
      if i > 0 {
        var prevData := data[last14Days[i - 1]];
        var dailyUsage := Max(0, prevData.points - currentData.points);
        chartPoint := chartPoint + [ChartPoint(currentDate, dailyUsage)];
      } else {
        chartPoint := chartPoint + [ChartPoint(currentDate, 0)];
      }
    }
    assert last14Days[..|last14Days|] == last14Days;
  }

  // ---------------------------------------------------------------------------
  // Statistics

  /** The `reduce` over the chart values, left to right. */
  function Sum(chart: seq<ChartPoint>): (total: int)
    ensures (forall i :: 0 <= i < |chart| ==> chart[i].value >= 0) ==> total >= 0
  {
    if chart == [] then 0
    else Sum(chart[..|chart| - 1]) + chart[|chart| - 1].value
  }

  /** `Math.round(a / b)`: the integer nearest to a/b, a half rounded up. */
  function RoundDiv(a: int, b: int): (r: int)
    requires b != 0
    ensures b > 0 ==> (2 * r - 1) * b <= 2 * a < (2 * r + 1) * b
    ensures b < 0 ==> (2 * r + 1) * b < 2 * a <= (2 * r - 1) * b
    ensures a >= 0 && b > 0 ==> r >= 0
  {
    if b > 0 then (2 * a + b) / (2 * b) else (-2 * a - b) / (-2 * b)
  }

  /** `weeklyAvg`: the rounded mean of the chart values, not available for an empty chart. */
  function Average(chart: seq<ChartPoint>): (avg: Stat)
    ensures avg.NotAvailable? <==> chart == []
    ensures !avg.DivByZero?
    ensures avg.Value? ==> (2 * avg.n - 1) * |chart| <= 2 * Sum(chart) < (2 * avg.n + 1) * |chart|
    ensures (forall i :: 0 <= i < |chart| ==> chart[i].value >= 0) ==> avg.Value? ==> avg.n >= 0
  {
    if |chart| > 0 then Value(RoundDiv(Sum(chart), |chart|)) else NotAvailable
  }

  /** `currentPoints`: the points of the newest day, 0 for an empty history. */
  ghost function CurrentPoints(h: History): (p: int)
    ensures h != map[] ==> p == h[Newest(h.Keys)].points
    ensures h == map[] ==> p == 0
  {
    var days := NewestFirst(h);
    if |days| > 0 then h[days[0]].points else 0
  }

  /** `daysRemaining`: the current points over the average, rounded; not available with
      the average, and a division by zero when the average is 0. */
  function DaysRemaining(avg: Stat, current: int): (days: Stat)
    requires !avg.DivByZero?
    ensures days.NotAvailable? <==> avg.NotAvailable?
    ensures days.DivByZero? <==> avg == Value(0)
    ensures days.DivByZero? ==> days.numerator == current
    ensures avg.Value? && avg.n > 0 ==>
      days.Value? && (2 * days.n - 1) * avg.n <= 2 * current < (2 * days.n + 1) * avg.n
  {
    match avg
    case NotAvailable => NotAvailable
    case Value(a) => if a == 0 then DivByZero(current) else Value(RoundDiv(current, a))
  }

  /** The chart series, average and forecast that a report on `h` shows. */
  ghost function Statistics(h: History): (s: (Stat, Stat))
    ensures !s.0.DivByZero?
    ensures s.1.DivByZero? <==> s.0 == Value(0)
    ensures s.1.DivByZero? ==> s.1.numerator == CurrentPoints(h)
  {
    var w := Window(h);
    WindowIsNewestDays(h);
    var avg := Average(ChartSeries(h, w));
    (avg, DaysRemaining(avg, CurrentPoints(h)))
  }

  /** Both figures are unavailable exactly when nothing is stored; the average is never
      negative, since no chart value is. */
  lemma StatisticsAvailability(h: History)
    ensures Statistics(h).0.NotAvailable? <==> h == map[]
    ensures Statistics(h).1.NotAvailable? <==> h == map[]
    ensures Statistics(h).0.Value? ==> Statistics(h).0.n >= 0
  {
    WindowIsNewestDays(h);
  }

  /** Right after a top-up wipes the history only today's reading is left, so the chart is
      `[0]`, the average is 0 and the forecast divides by zero. */
  lemma NoForecastAfterRefill(h: History, today: Date, r: Reading)
    requires IsRefill(h, r)
    ensures Statistics(Updated(h, today, r)) == (Value(0), DivByZero(r.points))
  {
    UpdateOnRefill(h, today, r);
    SingleDayStatistics(today, r);
  }

  /** A history of one day charts that day alone. */
  lemma SingleDayWindow(today: Date, r: Reading)
    ensures Window(map[today := r]) == [today]
  {
    var u := map[today := r];
    assert u.Keys == {today};
    WindowIsNewestDays(u);
  }

  /** With one day stored the chart is [0], so the average is 0 and the forecast divides by it. */
  lemma SingleDayStatistics(today: Date, r: Reading)
    ensures Statistics(map[today := r]) == (Value(0), DivByZero(r.points))
  {
    var u := map[today := r];
    SingleDayWindow(today, r);
    var chart := ChartSeries(u, [today]);
    assert chart == [ChartPoint(today, 0)];
    assert Sum(chart) == 0 by {
      assert chart[..0] == [];
    }
    assert u.Keys == {today};
    assert Newest(u.Keys) == today;
  }

  // ---------------------------------------------------------------------------
  // Detail table

  /** The row of `days[i]`: its points and the absolute change from the next older day,
      none for the oldest. */
  function DetailRowAt(h: History, days: seq<Date>, i: nat): (row: DetailRow)
    requires i < |days|
    requires forall j :: 0 <= j < |days| ==> days[j] in h
    ensures row.date == days[i] && row.points == h[days[i]].points
    ensures row.usage.NoPredecessor? <==> i == |days| - 1
    ensures i < |days| - 1 ==>
      var older := h[days[i + 1]].points;
      row.usage.Used? &&
      (older >= row.points ==> row.usage.amount == older - row.points) &&
      (older < row.points ==> row.usage.amount == row.points - older)
  {
    DetailRow(days[i], h[days[i]].points,
      if i < |days| - 1 then Used(Abs(h[days[i + 1]].points - h[days[i]].points)) else NoPredecessor)
  }

  /** The rows of the detail table, one per stored day, newest first. */
  ghost function DetailRows(h: History): (rows: seq<DetailRow>)
    ensures |rows| == |h|
    ensures forall i :: 0 <= i < |rows| ==> rows[i].date == NewestFirst(h)[i]
  {
    var days := NewestFirst(h);
    seq(|days|, i requires 0 <= i < |days| => DetailRowAt(h, days, i))
  }

  /** Every stored day has its place in the newest-first order. */
  lemma NewestFirstCovers(h: History)
    ensures forall d :: d in h ==> exists i :: 0 <= i < |h| && NewestFirst(h)[i] == d
  {
    var c := Chronological(h.Keys);
    var days := NewestFirst(h);
    assert days == Reversed(c);
    ChronologicalCovers(h.Keys);
    forall d | d in h
      ensures exists i :: 0 <= i < |h| && days[i] == d
    {
      var k :| 0 <= k < |c| && c[k] == d;
      assert days[|c| - 1 - k] == c[k];
    }
  }

  /** The detail table has one row per stored day, newest first, each with that day's points. */
  lemma DetailRowsNewestFirst(h: History)
    ensures |DetailRows(h)| == |h|
    ensures forall i, j :: 0 <= i < j < |h| ==> Before(DetailRows(h)[j].date, DetailRows(h)[i].date)
    ensures forall i :: 0 <= i < |h| ==> DetailRows(h)[i].date in h
    ensures forall i :: 0 <= i < |h| ==> DetailRows(h)[i].points == h[DetailRows(h)[i].date].points
  {
  }

  /** No stored day is missing from the detail table. */
  lemma DetailRowsListEveryDay(h: History)
    ensures forall d :: d in h ==> exists i :: 0 <= i < |DetailRows(h)| && DetailRows(h)[i].date == d
  {
    var rows, days := DetailRows(h), NewestFirst(h);
    NewestFirstCovers(h);
    forall d | d in h
      ensures exists i :: 0 <= i < |h| && rows[i].date == d
    {
      var i :| 0 <= i < |days| && days[i] == d;
      assert rows[i].date == d;
    }
  }

  /** Only the oldest row lacks a usage; every other row shows the distance between its
      points and those of the next older day, whichever way the points moved. */
  lemma DetailRowsUsage(h: History)
    ensures |DetailRows(h)| == |h|
    ensures forall i :: 0 <= i < |h| ==> (DetailRows(h)[i].usage.NoPredecessor? <==> i == |h| - 1)
    ensures forall i, j {:trigger DetailRows(h)[i], DetailRows(h)[j]} :: 0 <= i && j == i + 1 && j < |h| ==>
      var older, curr := DetailRows(h)[j].points, DetailRows(h)[i].points;
      DetailRows(h)[i].usage == Used(if older >= curr then older - curr else curr - older)
  {
  }

  // ---------------------------------------------------------------------------
  // Report text

  const Title := "# API使用量(2小时更新一次)\n\n"

  /** The image line that embeds the chart drawn from the series. */
  const ChartImage := " ![走势图](./chart.svg)"

  const ChartLink := "\n\n" + ChartImage + "\n\n"

  const DetailHeader :=
    "## 详细数据" + "\n\n" + ("| 日期 | 还剩的点数 | 当天用的点数 |" + "\n") + ("|------|------------|-------------|" + "\n")

  /** `t` is how a figure prints: "N/A" exactly when it is unavailable, the numeral of its
      value when it has one, and JavaScript's text for a division by zero: `Infinity`,
      `-Infinity` or `NaN` by the sign of the numerator. */
  predicate ShowsStat(t: string, s: Stat) {
    && (t == "N/A" <==> s.NotAvailable?)
    && (s.Value? ==> ShowsInt(t, s.n))
    && (s.DivByZero? ==>
          && (t == "Infinity" <==> s.numerator > 0)
          && (t == "-Infinity" <==> s.numerator < 0)
          && (t == "NaN" <==> s.numerator == 0))
  }

  /** A figure as a template literal prints it. */
  function StatText(s: Stat): (t: string)
    ensures ShowsStat(t, s)
  {
    match s
    case NotAvailable => "N/A"
    case Value(n) =>
      IntToStringRoundTrip(n);
      IntToString(n)
    case DivByZero(c) => if c > 0 then "Infinity" else if c < 0 then "-Infinity" else "NaN"
  }

  const StatsHeader := "## 使用统计\n\n" + "| 指标 | 数值 |\n" + "|------|------|\n"

  const AverageLabel := "日平均使用量"

  const ForecastLabel := "预计剩余天数"

  /** A row of the statistics table. */
  function StatRow(name: string, s: Stat): string {
    "| " + name + " | " + StatText(s) + " |\n"
  }

  /** The statistics table: the average under its label, then the forecast under its label,
      then a blank line. */
  function StatsSection(avg: Stat, days: Stat): (t: string)
    ensures exists a, d {:trigger ShowsStat(a, avg), ShowsStat(d, days)} ::
      && ShowsStat(a, avg)
      && ShowsStat(d, days)
      && t == StatsHeader + ("| " + AverageLabel + " | " + a + " |\n")
                          + ("| " + ForecastLabel + " | " + d + " |\n") + "\n"
  {
    StatsHeader + StatRow(AverageLabel, avg) + StatRow(ForecastLabel, days) + "\n"
  }

  /** `t` is how a usage cell prints: "N/A" exactly for the oldest day, and otherwise the
      numeral of the points used. */
  predicate ShowsUsage(t: string, u: Usage) {
    && (t == "N/A" <==> u.NoPredecessor?)
    && (u.Used? ==> ShowsNat(t, u.amount))
  }

  /** The usage cell of a detail row. */
  function UsageText(u: Usage): (t: string)
    ensures ShowsUsage(t, u)
  {
    match u
    case NoPredecessor => "N/A"
    case Used(n) =>
      NatToStringRoundTrip(n);
      NatToString(n)
  }

  /** A detail row prints the day, the numeral of its points and its usage cell, between
      column bars; the date sits at columns 2 to 11 and the line ends in a line break. */
  function RowText(row: DetailRow): (t: string)
    ensures exists p, q {:trigger ShowsInt(p, row.points), ShowsUsage(q, row.usage)} ::
      && ShowsInt(p, row.points)
      && ShowsUsage(q, row.usage)
      && t == "| " + row.date + " | " + p + " | " + q + " |\n"
    ensures |t| > 12 && t[2..12] == row.date && t[|t| - 1] == '\n'
  {
    IntToStringRoundTrip(row.points);
    "| " + row.date + " | " + IntToString(row.points) + " | " + UsageText(row.usage) + " |\n"
  }

  function RowsText(rows: seq<DetailRow>): (t: string)
    ensures |t| == 0 <==> |rows| == 0
    ensures rows != [] ==> t[|t| - 1] == '\n'
  {
    if rows == [] then ""
    else RowsText(rows[..|rows| - 1]) + RowText(rows[|rows| - 1])
  }

  lemma RowsTextStep(rows: seq<DetailRow>, i: nat)
    requires i < |rows|
    ensures RowsText(rows[..i + 1]) == RowsText(rows[..i]) + RowText(rows[i])
  {
    assert rows[..i + 1][..i] == rows[..i];
  }

  /** Dropping the last element and splitting at `k` commute. */
  lemma InitSlices<T>(s: seq<T>, k: nat)
    requires k < |s|
    ensures s[..|s| - 1][..k] == s[..k]
    ensures s[k..][..|s| - k - 1] == s[..|s| - 1][k..]
    ensures s[k..][|s| - k - 1] == s[|s| - 1]
  {
  }

  lemma Regroup(whole: string, front: string, middle: string, last: string, rest: string)
    requires whole == front + middle + last
    requires rest == middle + last
    ensures whole == front + rest
  {
    ConcatAssociative(front, middle, last);
  }

  /** The rows text of a list is the rows text of a prefix followed by that of the rest. */
  lemma {:induction false} RowsTextSplit(rows: seq<DetailRow>, k: nat)
    requires k <= |rows|
    ensures RowsText(rows) == RowsText(rows[..k]) + RowsText(rows[k..])
    decreases |rows|
  {
    if k == |rows| {
      assert rows[..k] == rows && rows[k..] == [];
    } else {
      RowsTextSplit(rows[..|rows| - 1], k);
      RowsTextSplitLast(rows, k);
    }
  }

  /** The inductive step of `RowsTextSplit`: from the split of all rows but the last. */
  lemma RowsTextSplitLast(rows: seq<DetailRow>, k: nat)
    requires k < |rows|
    requires var init := rows[..|rows| - 1];
      RowsText(init) == RowsText(init[..k]) + RowsText(init[k..])
    ensures RowsText(rows) == RowsText(rows[..k]) + RowsText(rows[k..])
  {
    var init, last, rest := rows[..|rows| - 1], rows[|rows| - 1], rows[k..];
    InitSlices(rows, k);
    var whole, front, middle := RowsText(rows), RowsText(rows[..k]), RowsText(init[k..]);
    assert whole == RowsText(init) + RowText(last);
    assert RowsText(rest) == middle + RowText(last);
    Regroup(whole, front, middle, RowText(last), RowsText(rest));
  }

  /** The rows are printed in order: the rows before row `i`, then row `i`'s own line, then
      the rows after it. */
  lemma RowsTextInOrder(rows: seq<DetailRow>, i: nat)
    requires i < |rows|
    ensures RowsText(rows) == RowsText(rows[..i]) + RowText(rows[i]) + RowsText(rows[i + 1..])
  {
    RowsTextSplit(rows, i + 1);
    RowsTextStep(rows, i);
  }

  /** The whole report written for history `h`. */
  ghost function ReportText(h: History): string {
    var (avg, days) := Statistics(h);
    Title + ChartLink + StatsSection(avg, days) + DetailHeader + RowsText(DetailRows(h))
  }

  /** `generateAsciiTable` without its two file writes: returns the series it hands to the
      chart renderer and the text it writes to the report file. */
  method GenerateAsciiTable(data: History) returns (table: string, chartPoint: seq<ChartPoint>)
    ensures chartPoint == ChartSeries(data, Window(data))
    ensures table == ReportText(data)
  {
    var ascending := SortChronological(data.Keys);
    var sortedDates := Reversed(ascending);
    assert sortedDates == NewestFirst(data);
    table := Title;

    var last14Days := Reversed(sortedDates[..Min(ChartDays, |sortedDates|)]);
    WindowIsNewestDays(data);
    chartPoint := ChartPoints(data, last14Days);
    table := table + ChartLink;

    var weeklyAvg := Average(chartPoint);
    var currentPoints := if |sortedDates| > 0 then data[sortedDates[0]].points else 0;
    var daysRemaining := DaysRemaining(weeklyAvg, currentPoints);
    table := table + StatsSection(weeklyAvg, daysRemaining);
    table := table + DetailHeader;
    table := AppendDetailRows(table, data, sortedDates);
  }

  lemma DetailRowsAt(h: History, i: nat)
    requires i < |h|
    ensures DetailRows(h)[i] == DetailRowAt(h, NewestFirst(h), i)
  {
  }

  lemma AppendRowStep(head: string, rows: seq<DetailRow>, i: nat)
    requires i < |rows|
    ensures head + RowsText(rows[..i]) + RowText(rows[i]) == head + RowsText(rows[..i + 1])
  {
    RowsTextStep(rows, i);
    ConcatAssociative(head, RowsText(rows[..i]), RowText(rows[i]));
  }

  /** The loop that appends one line per day of `sortedDates` to the report. */
  method AppendDetailRows(head: string, data: History, sortedDates: seq<Date>) returns (table: string)
    requires sortedDates == NewestFirst(data)
    ensures table == head + RowsText(DetailRows(data))
  {
    table := head;
    ghost var rows := DetailRows(data);
    for i := 0 to |sortedDates|
      invariant |rows| == |sortedDates|
      invariant table == head + RowsText(rows[..i])
    {
      var row := DetailRowAt(data, sortedDates, i);
      DetailRowsAt(data, i);
      AppendRowStep(head, rows, i);
      table := table + RowText(row);
    }
    assert rows[..|sortedDates|] == rows;
  }
}
