/** The history view end to end: the range filter applied to the source logs,
    then the summary of what it kept. */
module History {
  import opened EggTypes
  import opened DateOrder
  import opened RangeFilter
  import opened Aggregate

  /** A start date after the end date gives an empty table: no days, a zero
      total and average, and every count and percentage 0. */
  lemma StartAfterEndSummary(source: seq<DailyLog>, start: string, end: string)
    requires LexLt(end, start)
    ensures var kept := FilterByRange(source, start, end);
      |kept| == 0 && TotalSorted(kept) == 0 && AvgPerDay(TotalSorted(kept), |kept|) == 0 &&
      forall i :: 0 <= i < |EggSizes| ==>
        Items(AggregateCounts(kept), TotalSorted(kept))[i].count == 0 &&
        Items(AggregateCounts(kept), TotalSorted(kept))[i].percent == 0.0
  {
    FilterStartAfterEnd(source, start, end);
    AggregateOfNoDays();
  }

  /** A range covering every log's date summarises the whole source, the
      same as summing all the logs directly. */
  lemma CoveringRangeSummary(source: seq<DailyLog>, start: string, end: string)
    requires forall i :: 0 <= i < |source| ==> InRange(source[i].date, start, end)
    ensures var kept := FilterByRange(source, start, end);
      |kept| == |source| && TotalSorted(kept) == TotalSorted(source) &&
      AggregateCounts(kept) == AggregateCounts(source)
  {
    FilterFullRange(source, start, end);
  }

  /** Splitting the source at any position splits the range's summary: the
      days kept from each part add up to the days kept from the whole. */
  lemma SplitRangeSummary(source: seq<DailyLog>, n: nat, start: string, end: string)
    requires n <= |source|
    ensures var whole := FilterByRange(source, start, end);
      var before := FilterByRange(source[..n], start, end);
      var after := FilterByRange(source[n..], start, end);
      whole == before + after &&
      TotalSorted(whole) == TotalSorted(before) + TotalSorted(after) &&
      |whole| == |before| + |after|
  {
    assert source == source[..n] + source[n..];
    FilterAppend(source[..n], source[n..], start, end);
    TotalSortedAppend(FilterByRange(source[..n], start, end), FilterByRange(source[n..], start, end));
  }

  /** What the history table shows for a range: the summary of the logs the
      filter keeps. Its contract composes those of FilterByRange and
      AggregateSummary. */
  method SummarizeRange(source: seq<DailyLog>, start: string, end: string) returns (s: Summary)
    ensures s.days == |FilterByRange(source, start, end)|
    ensures s.totalSorted == TotalSorted(FilterByRange(source, start, end))
    ensures s.avgPerDay == AvgPerDay(s.totalSorted, s.days)
    ensures s.breakdownArray == Items(AggregateCounts(FilterByRange(source, start, end)), s.totalSorted)
    ensures |s.breakdownArray| == |EggSizes|
    ensures forall i :: 0 <= i < |EggSizes| ==>
      s.breakdownArray[i].size == EggSizes[i] &&
      s.breakdownArray[i].count == SizeTotal(FilterByRange(source, start, end), EggSizes[i]) &&
      s.breakdownArray[i].percent == Percent(s.breakdownArray[i].count, s.totalSorted)
    ensures LexLt(end, start) ==>
              s.days == 0 && s.totalSorted == 0 && s.avgPerDay == 0 &&
              forall i :: 0 <= i < |EggSizes| ==> s.breakdownArray[i].count == 0 && s.breakdownArray[i].percent == 0.0
  {
    var kept := FilterByRange(source, start, end);
    s := AggregateSummary(kept);
    if LexLt(end, start) {
      StartAfterEndSummary(source, start, end);
    }
  }
}
