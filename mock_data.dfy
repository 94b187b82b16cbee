/** The dashboard's built-in week of sample logs, and what the derivations
    give on it. */
module MockData {
  import opened EggTypes
  import opened DateOrder
  import opened DailyBreakdown
  import opened RangeFilter
  import opened Aggregate
  import opened LogLookup

  function Breakdown(c0: nat, c1: nat, c2: nat, c3: nat, c4: nat, c5: nat): map<EggSize, nat>
  {
    map[Size0 := c0, Size1 := c1, Size2 := c2, Size3 := c3, Size4 := c4, Size5 := c5]
  }

  /** MOCK_DATA_SOURCE. */
  const MockDataSource: seq<DailyLog> := [
    DailyLog("2024-12-01", 118000, 7800.0, Breakdown(12500, 35000, 48000, 15000, 5500, 2000)),
    DailyLog("2024-12-02", 121000, 8050.0, Breakdown(13000, 36000, 50000, 15500, 4500, 2000)),
    DailyLog("2024-12-03", 115500, 7650.0, Breakdown(12000, 34000, 47000, 14500, 6000, 2000)),
    DailyLog("2024-12-04", 119000, 7900.0, Breakdown(12800, 35500, 48500, 15200, 5000, 2000)),
    DailyLog("2024-12-05", 125000, 8300.0, Breakdown(13500, 40000, 52000, 14500, 3500, 1500)),
    DailyLog("2024-12-06", 110000, 7200.0, Breakdown(11000, 32000, 43000, 14000, 7000, 3000)),
    DailyLog("2024-12-07", 120500, 8100.0, Breakdown(12800, 37000, 49000, 15500, 4200, 2000))
  ]

  /** On the first sample day, size '2' has 48000 eggs, whose share of the
      day's 118000 displays as 40.68%. */
  lemma FirstDaySizeTwo()
    ensures CalculateDailyBreakdown(MockDataSource[0])[2].size == Size2
    ensures CalculateDailyBreakdown(MockDataSource[0])[2].count == 48000
    ensures 40.675 <= CalculateDailyBreakdown(MockDataSource[0])[2].percent < 40.685
  {
    var r := CalculateDailyBreakdown(MockDataSource[0]);
    assert r[Index(Size2)].count == 48000;
    var p := r[2].percent;
    assert p * 118000.0 == 4800000.0;
    assert 40.675 * 118000.0 <= 4800000.0 < 40.685 * 118000.0;
  }

  /** A breakdown record built from six counts holds exactly their sum. */
  lemma BreakdownValues(c0: nat, c1: nat, c2: nat, c3: nat, c4: nat, c5: nat)
    ensures ValuesSum(Breakdown(c0, c1, c2, c3, c4, c5)) == c0 + c1 + c2 + c3 + c4 + c5
  {
    var b := Breakdown(c0, c1, c2, c3, c4, c5);
    SixCountsSum(b);
    SumOfSix(CountsOf(b, EggSizes));
  }

  /** Every sample day's breakdown adds up to its total, so both tables'
      footers show a true 100%. */
  lemma SampleDaysConsistent()
    ensures Consistent(MockDataSource)
  {
    BreakdownValues(12500, 35000, 48000, 15000, 5500, 2000);
    BreakdownValues(13000, 36000, 50000, 15500, 4500, 2000);
    BreakdownValues(12000, 34000, 47000, 14500, 6000, 2000);
    BreakdownValues(12800, 35500, 48500, 15200, 5000, 2000);
    BreakdownValues(13500, 40000, 52000, 14500, 3500, 1500);
    BreakdownValues(11000, 32000, 43000, 14000, 7000, 3000);
    BreakdownValues(12800, 37000, 49000, 15500, 4200, 2000);
  }

  /** The sample dates share everything but their last character. */
  const SampleMonth: string := "2024-12-0"

  lemma SampleDateOrder(a: char, b: char)
    ensures LexLe(SampleMonth + [a], SampleMonth + [b]) <==> a <= b
  {
    LexLeAppend(SampleMonth, [a], SampleMonth, [b]);
    assert [a][1..] == [];
  }

  /** The seven sample logs carry the dates 2024-12-01 to 2024-12-07, in
      order. */
  lemma SampleDates()
    ensures |MockDataSource| == 7
    ensures forall i :: 0 <= i < |MockDataSource| ==>
      MockDataSource[i].date == SampleMonth + [('1' as int + i) as char]
  {
  }

  /** Whether a sample day lies in a range of sample dates depends only on
      the day of the month. */
  lemma SampleRange(first: char, last: char)
    ensures forall i :: 0 <= i < |MockDataSource| ==>
      (InRange(MockDataSource[i].date, SampleMonth + [first], SampleMonth + [last]) <==>
       first as int <= '1' as int + i <= last as int)
  {
    SampleDates();
    forall i | 0 <= i < |MockDataSource|
      ensures InRange(MockDataSource[i].date, SampleMonth + [first], SampleMonth + [last]) <==>
              first as int <= '1' as int + i <= last as int
    {
      SampleDateOrder(first, ('1' as int + i) as char);
      SampleDateOrder(('1' as int + i) as char, last);
    }
  }

  lemma SampleTotals()
    ensures TotalSorted(MockDataSource[..3]) == 354500
    ensures TotalSorted(MockDataSource) == 829000
  {
    var m := MockDataSource;
    TotalSortedStep(m, 0);
    TotalSortedStep(m, 1);
    TotalSortedStep(m, 2);
    TotalSortedStep(m, 3);
    TotalSortedStep(m, 4);
    TotalSortedStep(m, 5);
    TotalSortedStep(m, 6);
    assert m[..0] == [] && m[..7] == m;
  }

  lemma SampleAverages()
    ensures AvgPerDay(354500, 3) == 118167
    ensures AvgPerDay(829000, 7) == 118429
  {
  }

  /** Filtering the sample week to 2024-12-01..2024-12-03 keeps its first
      three days: 354500 eggs over 3 days, 118167 a day. */
  lemma FirstThreeDays()
    ensures FilterByRange(MockDataSource, "2024-12-01", "2024-12-03") == MockDataSource[..3]
    ensures |FilterByRange(MockDataSource, "2024-12-01", "2024-12-03")| == 3
    ensures TotalSorted(FilterByRange(MockDataSource, "2024-12-01", "2024-12-03")) == 354500
    ensures AvgPerDay(TotalSorted(FilterByRange(MockDataSource, "2024-12-01", "2024-12-03")),
                      |FilterByRange(MockDataSource, "2024-12-01", "2024-12-03")|) == 118167
  {
    var m := MockDataSource;
    var start, end := SampleMonth + ['1'], SampleMonth + ['3'];
    assert start == "2024-12-01" && end == "2024-12-03";
    SampleRange('1', '3');
    FilterPrefix(m, start, end, 3);
    SampleTotals();
    SampleAverages();
  }

  /** The view's default range, the first to the last sample date, keeps the
      whole week: 829000 eggs over 7 days, 118429 a day. */
  lemma DefaultRangeIsWholeWeek()
    ensures FilterByRange(MockDataSource, MockDataSource[0].date, MockDataSource[6].date) == MockDataSource
    ensures |FilterByRange(MockDataSource, MockDataSource[0].date, MockDataSource[6].date)| == 7
    ensures TotalSorted(FilterByRange(MockDataSource, MockDataSource[0].date, MockDataSource[6].date)) == 829000
    ensures AvgPerDay(TotalSorted(FilterByRange(MockDataSource, MockDataSource[0].date, MockDataSource[6].date)),
                      |FilterByRange(MockDataSource, MockDataSource[0].date, MockDataSource[6].date)|) == 118429
  {
    var m := MockDataSource;
    SampleRange('1', '7');
    SampleDates();
    FilterFullRange(m, m[0].date, m[6].date);
    SampleTotals();
    SampleAverages();
  }

  /** The dashboard opens on the latest sample date and finds its log. */
  lemma LatestDateFound()
    ensures FindByDate(MockDataSource, MockDataSource[6].date) == Some(MockDataSource[6])
    ensures FindByDate(MockDataSource, "2024-12-08") == None
  {
    var m := MockDataSource;
    SampleDates();
    assert forall i :: 0 <= i < |m| ==> m[i].date[9] == ('1' as int + i) as char;
    var r := FindByDate(m, m[6].date);
    var i :| 0 <= i < |m| && m[i] == r.value;
    assert i == 6;
    var later := SampleMonth + ['8'];
    assert later == "2024-12-08";
    assert forall i :: 0 <= i < |m| ==> m[i].date[9] != later[9];
  }
}
