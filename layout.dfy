/** The line structure of the report text: a fixed header of 17 lines, then one line
    per stored day. */
module ReportLayout {
  import opened Dates
  import opened Decimal
  import opened UsageHistory
  import opened UsageReport

  /** Number of line breaks in `s`. */
  function LineBreaks(s: string): nat {
    if s == [] then 0 else (if s[0] == '\n' then 1 else 0) + LineBreaks(s[1..])
  }

  lemma {:induction false} LineBreaksAppend(a: string, b: string)
    ensures LineBreaks(a + b) == LineBreaks(a) + LineBreaks(b)
    decreases |a|
  {
    if a == [] {
      assert a + b == b;
    } else {
      assert (a + b)[1..] == a[1..] + b;
      LineBreaksAppend(a[1..], b);
    }
  }

  lemma {:induction false} NoLineBreaks(s: string)
    requires forall i :: 0 <= i < |s| ==> s[i] != '\n'
    ensures LineBreaks(s) == 0
    decreases |s|
  {
    if s != [] {
      NoLineBreaks(s[1..]);
    }
  }

  lemma StatTextIsOneLine(s: Stat)
    ensures LineBreaks(StatText(s)) == 0
  {
    match s
    case NotAvailable => NoLineBreaks("N/A");
    case Value(n) => NoLineBreaks(IntToString(n));
    case DivByZero(c) =>
      NoLineBreaks("Infinity");
      NoLineBreaks("-Infinity");
      NoLineBreaks("NaN");
  }

  lemma SeparatorLines()
    ensures LineBreaks("| ") == 0 && LineBreaks(" | ") == 0 && LineBreaks(" |\n") == 1
  {
    NoLineBreaks("| ");
    NoLineBreaks(" | ");
    TextLines(" |", "\n");
    assert " |" + "\n" == " |\n";
  }

  lemma UsageTextIsOneLine(u: Usage)
    ensures LineBreaks(UsageText(u)) == 0
  {
    if u.Used? {
      NoLineBreaks(NatToString(u.amount));
    } else {
      NoLineBreaks("N/A");
    }
  }

  /** Each detail row is exactly one line of the table. */
  lemma RowTextIsOneLine(row: DetailRow)
    ensures LineBreaks(RowText(row)) == 1
  {
    var open, sep, close := "| ", " | ", " |\n";
    var date, points, usage := row.date, IntToString(row.points), UsageText(row.usage);
    SeparatorLines();
    NoLineBreaks(date);
    NoLineBreaks(points);
    UsageTextIsOneLine(row.usage);
    var t1 := open + date;
    var t2 := t1 + sep;
    var t3 := t2 + points;
    var t4 := t3 + sep;
    var t5 := t4 + usage;
    LineBreaksAppend(open, date);
    LineBreaksAppend(t1, sep);
    LineBreaksAppend(t2, points);
    LineBreaksAppend(t3, sep);
    LineBreaksAppend(t4, usage);
    LineBreaksAppend(t5, close);
    assert RowText(row) == t5 + close;
  }

  lemma {:induction false} RowsTextLines(rows: seq<DetailRow>)
    ensures LineBreaks(RowsText(rows)) == |rows|
    decreases |rows|
  {
    if rows != [] {
      var last := rows[|rows| - 1];
      RowsTextLines(rows[..|rows| - 1]);
      RowTextIsOneLine(last);
      LineBreaksAppend(RowsText(rows[..|rows| - 1]), RowText(last));
    }
  }

  lemma {:induction false} OnlyLineBreaks(s: string)
    requires forall i :: 0 <= i < |s| ==> s[i] == '\n'
    ensures LineBreaks(s) == |s|
    decreases |s|
  {
    if s != [] {
      OnlyLineBreaks(s[1..]);
    }
  }

  /** A piece of text made of one line's content followed by line breaks. */
  lemma TextLines(content: string, breaks: string)
    requires forall i :: 0 <= i < |content| ==> content[i] != '\n'
    requires forall i :: 0 <= i < |breaks| ==> breaks[i] == '\n'
    ensures LineBreaks(content + breaks) == |breaks|
  {
    LineBreaksAppend(content, breaks);
    NoLineBreaks(content);
    OnlyLineBreaks(breaks);
  }

  lemma TitleLines()
    ensures LineBreaks(Title) == 2
  {
    var c := "# API使用量(2小时更新一次)";
    assert forall i :: 0 <= i < |c| ==> c[i] != '\n';
    TextLines(c, "\n\n");
    assert Title == c + "\n\n";
  }

  lemma ChartLinkLines()
    ensures LineBreaks(ChartLink) == 4
  {
    var c := ChartImage;
    assert forall i :: 0 <= i < |c| ==> c[i] != '\n';
    NoLineBreaks(c);
    TwoLineBreaks();
    LineBreaksAppend("\n\n", c);
    LineBreaksAppend("\n\n" + c, "\n\n");
  }

  lemma TwoLineBreaks()
    ensures LineBreaks("\n\n") == 2
  {
    OnlyLineBreaks("\n\n");
  }

  /** A heading, a blank line and two table lines. */
  lemma HeadingLines(c1: string, c2: string, c3: string)
    requires '\n' !in c1 && '\n' !in c2 && '\n' !in c3
    ensures LineBreaks(c1 + "\n\n" + (c2 + "\n") + (c3 + "\n")) == 4
  {
    TextLines(c1, "\n\n");
    TextLines(c2, "\n");
    TextLines(c3, "\n");
    LineBreaksAppend(c1 + "\n\n", c2 + "\n");
    LineBreaksAppend(c1 + "\n\n" + (c2 + "\n"), c3 + "\n");
  }

  lemma StatsHeaderLines()
    ensures LineBreaks(StatsHeader) == 4
  {
    var c1, c2, c3 := "## 使用统计", "| 指标 | 数值 |", "|------|------|";
    HeadingLines(c1, c2, c3);
    assert StatsHeader == c1 + "\n\n" + (c2 + "\n") + (c3 + "\n");
  }

  lemma DetailHeaderLines()
    ensures LineBreaks(DetailHeader) == 4
  {
    var c1, c2, c3 := "## 详细数据", "| 日期 | 还剩的点数 | 当天用的点数 |", "|------|------------|-------------|";
    assert '\n' !in c2;
    HeadingLines(c1, c2, c3);
    assert DetailHeader == c1 + "\n\n" + (c2 + "\n") + (c3 + "\n");
  }

  lemma StatRowLines(name: string, s: Stat)
    requires forall i :: 0 <= i < |name| ==> name[i] != '\n'
    ensures LineBreaks(StatRow(name, s)) == 1
  {
    var t := StatText(s);
    StatTextIsOneLine(s);
    var c1, c2, c3 := "| ", " | ", " |";
    assert forall i :: 0 <= i < |c1| ==> c1[i] != '\n';
    assert forall i :: 0 <= i < |c2| ==> c2[i] != '\n';
    assert forall i :: 0 <= i < |c3| ==> c3[i] != '\n';
    NoLineBreaks(c1);
    NoLineBreaks(name);
    NoLineBreaks(c2);
    TextLines(c3, "\n");
    LineBreaksAppend(c1, name);
    LineBreaksAppend(c1 + name, c2);
    LineBreaksAppend(c1 + name + c2, t);
    LineBreaksAppend(c1 + name + c2 + t, c3 + "\n");
    assert StatRow(name, s) == c1 + name + c2 + t + (c3 + "\n");
  }

  lemma StatsSectionLines(avg: Stat, days: Stat)
    ensures LineBreaks(StatsSection(avg, days)) == 7
  {
    var n1, n2 := "日平均使用量", "预计剩余天数";
    assert forall i :: 0 <= i < |n1| ==> n1[i] != '\n';
    assert forall i :: 0 <= i < |n2| ==> n2[i] != '\n';
    StatsHeaderLines();
    StatRowLines(n1, avg);
    StatRowLines(n2, days);
    OnlyLineBreaks("\n");
    var r1, r2 := StatRow(AverageLabel, avg), StatRow(ForecastLabel, days);
    LineBreaksAppend(StatsHeader, r1);
    LineBreaksAppend(StatsHeader + r1, r2);
    LineBreaksAppend(StatsHeader + r1 + r2, "\n");
  }

  /** The report is 17 fixed lines (title, chart link, statistics table, detail table
      header) followed by exactly one line per stored day. */
  lemma ReportLines(h: History)
    ensures LineBreaks(ReportText(h)) == 17 + |h|
  {
    var (avg, days) := Statistics(h);
    var stats, rows := StatsSection(avg, days), RowsText(DetailRows(h));
    TitleLines();
    ChartLinkLines();
    StatsSectionLines(avg, days);
    DetailHeaderLines();
    DetailRowsNewestFirst(h);
    RowsTextLines(DetailRows(h));
    LineBreaksAppend(Title, ChartLink);
    LineBreaksAppend(Title + ChartLink, stats);
    LineBreaksAppend(Title + ChartLink + stats, DetailHeader);
    LineBreaksAppend(Title + ChartLink + stats + DetailHeader, rows);
  }

  lemma PrefixOfFour(a: string, b: string, c: string, d: string)
    ensures a <= a + b + c + d
  {
    assert (a + b + c + d)[..|a|] == a;
  }

  lemma StatsSectionOpensWithHeader(avg: Stat, days: Stat)
    ensures StatsHeader <= StatsSection(avg, days)
  {
    PrefixOfFour(StatsHeader, StatRow(AverageLabel, avg), StatRow(ForecastLabel, days), "\n");
  }

  /** Where each part of a five-part text sits, and a prefix of the middle part. */
  lemma PartsOfFive(p1: string, p2: string, p3: string, p4: string, p5: string, head: string)
    requires head <= p3
    ensures p1 <= p1 + p2 + p3 + p4 + p5
    ensures p1 + p2 <= p1 + p2 + p3 + p4 + p5
    ensures p1 + p2 + head <= p1 + p2 + p3 + p4 + p5
    ensures exists front :: p1 + p2 + head <= front && p1 + p2 + p3 + p4 + p5 == front + p4 + p5
  {
    var t := p1 + p2 + p3 + p4 + p5;
    assert t == (p1 + p2) + p3 + p4 + p5;
    assert t[..|p1|] == p1;
    assert t[..|p1| + |p2|] == p1 + p2;
    assert t[..|p1| + |p2| + |head|] == p1 + p2 + head;
    var front := p1 + p2 + p3;
    assert front[..|p1| + |p2| + |head|] == p1 + p2 + head;
    assert t == front + p4 + p5;
  }

  /** The report opens with the title, then the chart link, then the statistics table, and
      closes with the detail table header followed by the detail rows. */
  lemma ReportSections(h: History)
    ensures Title <= ReportText(h)
    ensures Title + ChartLink <= ReportText(h)
    ensures Title + ChartLink + StatsHeader <= ReportText(h)
    ensures exists front ::
      Title + ChartLink + StatsHeader <= front && ReportText(h) == front + DetailHeader + RowsText(DetailRows(h))
  {
    var (avg, days) := Statistics(h);
    StatsSectionOpensWithHeader(avg, days);
    PartsOfFive(Title, ChartLink, StatsSection(avg, days), DetailHeader, RowsText(DetailRows(h)), StatsHeader);
  }

  lemma PrefixThroughMiddle(p1: string, p2: string, m1: string, m2: string, m3: string, m4: string,
                            q1: string, q2: string)
    ensures p1 + p2 + m1 + m2 + m3 <= p1 + p2 + (m1 + m2 + m3 + m4) + q1 + q2
  {
    var front := p1 + p2 + m1 + m2 + m3;
    var t := p1 + p2 + (m1 + m2 + m3 + m4) + q1 + q2;
    assert t == front + m4 + q1 + q2;
    assert t[..|front|] == front;
  }

  /** Right after the statistics header, the report shows the average under its label and,
      on the next line, the forecast under its label. */
  lemma ReportShowsStatistics(h: History)
    ensures Title + ChartLink + StatsHeader + StatRow(AverageLabel, Statistics(h).0)
            + StatRow(ForecastLabel, Statistics(h).1) <= ReportText(h)
  {
    var (avg, days) := Statistics(h);
    PrefixThroughMiddle(Title, ChartLink, StatsHeader, StatRow(AverageLabel, avg),
      StatRow(ForecastLabel, days), "\n", DetailHeader, RowsText(DetailRows(h)));
  }
}
