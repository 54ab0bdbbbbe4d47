/** A worked three-day history: the figures the program reports for it. */
module ReportScenario {
  import opened Dates
  import opened UsageHistory
  import opened UsageReport

  const Jan1: Date := "2024-01-01"
  const Jan2: Date := "2024-01-02"
  const Jan3: Date := "2024-01-03"

  function ReadingOf(points: int): Reading {
    Reading(0, "", points)
  }

  lemma DaysInOrder()
    ensures Before(Jan1, Jan2) && Before(Jan2, Jan3) && Before(Jan1, Jan3)
  {
    assert Jan1[1..][1..][1..][1..][1..][1..][1..][1..][1..] == "1";
    assert Jan2[1..][1..][1..][1..][1..][1..][1..][1..][1..] == "2";
    assert Jan3[1..][1..][1..][1..][1..][1..][1..][1..][1..] == "3";
  }

  /** Points 100, 80, 80 on three days, oldest first. */
  function ThreeDays(d1: Date, d2: Date, d3: Date): History {
    map[d1 := ReadingOf(100), d2 := ReadingOf(80), d3 := ReadingOf(80)]
  }

  lemma AscendingOfOne(d1: Date)
    ensures Chronological({d1}) == [d1]
  {
    ChronologicalLast({d1}, d1);
    assert {d1} - {d1} == {};
  }

  lemma AscendingOfTwo(d1: Date, d2: Date)
    requires Before(d1, d2)
    ensures Chronological({d1, d2}) == [d1, d2]
  {
    BeforeIrreflexive(d1);
    assert IsNewest(d2, {d1, d2});
    ChronologicalLast({d1, d2}, d2);
    assert {d1, d2} - {d2} == {d1};
    AscendingOfOne(d1);
  }

  lemma AscendingOfThree(d1: Date, d2: Date, d3: Date)
    requires Before(d1, d2) && Before(d2, d3)
    ensures Chronological({d1, d2, d3}) == [d1, d2, d3]
  {
    BeforeTransitive(d1, d2, d3);
    BeforeIrreflexive(d1);
    BeforeIrreflexive(d2);
    assert d1 != d3 && d2 != d3;
    assert IsNewest(d3, {d1, d2, d3});
    ChronologicalLast({d1, d2, d3}, d3);
    assert {d1, d2, d3} - {d3} == {d1, d2};
    AscendingOfTwo(d1, d2);
  }

  lemma ThreeDaysAscending(d1: Date, d2: Date, d3: Date)
    requires Before(d1, d2) && Before(d2, d3)
    ensures Chronological(ThreeDays(d1, d2, d3).Keys) == [d1, d2, d3]
  {
    assert ThreeDays(d1, d2, d3).Keys == {d1, d2, d3};
    AscendingOfThree(d1, d2, d3);
  }

  lemma ThreeDaysWindow(d1: Date, d2: Date, d3: Date)
    requires Before(d1, d2) && Before(d2, d3)
    ensures NewestFirst(ThreeDays(d1, d2, d3)) == [d3, d2, d1]
    ensures Window(ThreeDays(d1, d2, d3)) == [d1, d2, d3]
  {
    var h := ThreeDays(d1, d2, d3);
    var c := Chronological(h.Keys);
    ThreeDaysAscending(d1, d2, d3);
    assert |h| == |c| == 3;
    assert Reversed(c) == [d3, d2, d1];
    WindowIsSuffix(h);
    assert c[0..] == c;
  }

  lemma ThreeDaysChart(d1: Date, d2: Date, d3: Date)
    requires Before(d1, d2) && Before(d2, d3)
    ensures ChartSeries(ThreeDays(d1, d2, d3), [d1, d2, d3]) ==
      [ChartPoint(d1, 0), ChartPoint(d2, 20), ChartPoint(d3, 0)]
  {
    BeforeTransitive(d1, d2, d3);
    BeforeIrreflexive(d1);
    BeforeIrreflexive(d2);
    assert d1 != d2 && d1 != d3 && d2 != d3;
  }

  lemma SumOfThree(a: ChartPoint, b: ChartPoint, c: ChartPoint)
    ensures Sum([a, b, c]) == a.value + b.value + c.value
  {
    assert [a][..0] == [];
    assert Sum([a]) == a.value;
    assert [a, b][..1] == [a];
    assert Sum([a, b]) == a.value + b.value;
    assert [a, b, c][..2] == [a, b];
  }

  /** The first day enters the average as a 0: the series is 0, 20, 0, so the average is
      round(20 / 3) = 7 and the forecast round(80 / 7) = 11. */
  lemma ThreeDaysStatistics(d1: Date, d2: Date, d3: Date)
    requires Before(d1, d2) && Before(d2, d3)
    ensures Statistics(ThreeDays(d1, d2, d3)) == (Value(7), Value(11))
  {
    var h := ThreeDays(d1, d2, d3);
    ThreeDaysWindow(d1, d2, d3);
    ThreeDaysChart(d1, d2, d3);
    var chart := ChartSeries(h, Window(h));
    assert chart == [ChartPoint(d1, 0), ChartPoint(d2, 20), ChartPoint(d3, 0)];
    SumOfThree(chart[0], chart[1], chart[2]);
    assert Average(chart) == Value(RoundDiv(20, 3)) == Value(7);
    ThreeDaysCurrent(d1, d2, d3);
    assert DaysRemaining(Value(7), 80) == Value(RoundDiv(80, 7)) == Value(11);
  }

  lemma ThreeDaysCurrent(d1: Date, d2: Date, d3: Date)
    requires Before(d1, d2) && Before(d2, d3)
    ensures CurrentPoints(ThreeDays(d1, d2, d3)) == 80
  {
    ThreeDaysWindow(d1, d2, d3);
  }

  /** The detail table of the three days: usages 0 and 20, and N/A on the oldest day. */
  lemma ThreeDaysDetailRows(d1: Date, d2: Date, d3: Date)
    requires Before(d1, d2) && Before(d2, d3)
    ensures DetailRows(ThreeDays(d1, d2, d3)) == [
      DetailRow(d3, 80, Used(0)),
      DetailRow(d2, 80, Used(20)),
      DetailRow(d1, 100, NoPredecessor)]
  {
    ThreeDaysWindow(d1, d2, d3);
  }

  /** The same figures for 1, 2 and 3 January 2024. */
  lemma JanuaryScenario()
    ensures Statistics(ThreeDays(Jan1, Jan2, Jan3)) == (Value(7), Value(11))
  {
    DaysInOrder();
    ThreeDaysStatistics(Jan1, Jan2, Jan3);
  }

  /** A top-up from 10 to 500 points on the second day wipes the first: the report shows an
      average of 0 and an infinite forecast. */
  lemma RefillScenario(d1: Date, d2: Date)
    ensures Updated(map[d1 := ReadingOf(10)], d2, ReadingOf(500)) == map[d2 := ReadingOf(500)]
    ensures Statistics(map[d2 := ReadingOf(500)]) == (Value(0), DivByZero(500))
    ensures StatText(DivByZero(500)) == "Infinity"
  {
    var h := map[d1 := ReadingOf(10)];
    assert h.Keys == {d1};
    assert IsRefill(h, ReadingOf(500));
    NoForecastAfterRefill(h, d2, ReadingOf(500));
  }
}
