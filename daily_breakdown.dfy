/** The dashboard's per-day table: one row per egg size, in the fixed size
    order, with the size's count and its share of the day's total. */
module DailyBreakdown {
  import opened EggTypes

  /** calculateDailyBreakdown: one row per size of EggSizes, a size missing
      from the log counting 0, and every percentage 0 when the day's total is
      0. */
  function CalculateDailyBreakdown(log: DailyLog): (r: seq<BreakdownItem>)
    ensures |r| == |EggSizes|
    ensures forall s: EggSize :: r[Index(s)].size == s && r[Index(s)].count == Count(log.breakdown, s)
    ensures forall i :: 0 <= i < |r| ==> r[i].percent == Percent(r[i].count, log.totalSorted)
    ensures log.totalSorted == 0 ==> forall i :: 0 <= i < |r| ==> r[i].percent == 0.0
  {
    Items(CountsOf(log.breakdown, EggSizes), log.totalSorted)
  }

  /** The count column adds up to the sum of the log's breakdown values,
      whatever the log's total says. */
  lemma DailyCountsSum(log: DailyLog)
    ensures CountSum(CalculateDailyBreakdown(log)) == ValuesSum(log.breakdown)
  {
    ItemsCountSum(CountsOf(log.breakdown, EggSizes), log.totalSorted);
    SixCountsSum(log.breakdown);
  }

  /** For a positive total, the percent column is the breakdown's sum as a
      share of that total. */
  lemma DailyPercentsSum(log: DailyLog)
    requires log.totalSorted > 0
    ensures PercentSum(CalculateDailyBreakdown(log)) * log.totalSorted as real
         == ValuesSum(log.breakdown) as real * 100.0
  {
    PercentColumnSum(CalculateDailyBreakdown(log), log.totalSorted);
    DailyCountsSum(log);
  }

  /** When the breakdown adds up to the day's positive total, the percentages
      add up to the 100.00% of the table's footer, and none exceeds 100. */
  lemma DailyPercentsAddUpTo100(log: DailyLog)
    requires log.totalSorted > 0 && ValuesSum(log.breakdown) == log.totalSorted
    ensures PercentSum(CalculateDailyBreakdown(log)) == 100.0
    ensures forall i :: 0 <= i < |EggSizes| ==> CalculateDailyBreakdown(log)[i].percent <= 100.0
  {
    var counts := CountsOf(log.breakdown, EggSizes);
    SixCountsSum(log.breakdown);
    ItemsPercentsAddUpTo100(counts, log.totalSorted);
    SumOfSix(counts);
    forall i | 0 <= i < |EggSizes|
      ensures CalculateDailyBreakdown(log)[i].percent <= 100.0
    {
      PercentAtMost100(counts[i], log.totalSorted);
    }
  }
}
