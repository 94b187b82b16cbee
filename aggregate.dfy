/** The history view's summary of the filtered logs: the total sorted, the
    number of days, the average per day, and a per-size table whose counts
    are summed over the days before the percentages are taken against the
    summed total. */
module Aggregate {
  import opened EggTypes
  import opened DailyBreakdown

  /** The sum of totalSorted over the logs, folded from the left as `reduce`
      does. */
  function TotalSorted(logs: seq<DailyLog>): (t: nat)
    ensures forall i :: 0 <= i < |logs| ==> logs[i].totalSorted <= t
  {
    if logs == [] then 0 else TotalSorted(logs[..|logs| - 1]) + logs[|logs| - 1].totalSorted
  }

  /** The sum over the logs of one size's count, absent entries counting 0. */
  function SizeTotal(logs: seq<DailyLog>, s: EggSize): (st: nat)
    ensures forall i :: 0 <= i < |logs| ==> Count(logs[i].breakdown, s) <= st
  {
    if logs == [] then 0 else SizeTotal(logs[..|logs| - 1], s) + Count(logs[|logs| - 1].breakdown, s)
  }

  /** The summed count of each size, in EggSizes order. */
  function AggregateCounts(logs: seq<DailyLog>): (c: seq<nat>)
    ensures |c| == |EggSizes|
  {
    seq(|EggSizes|, i requires 0 <= i < |EggSizes| => SizeTotal(logs, EggSizes[i]))
  }

  /** The average per day: 0 when there are no days, otherwise total / days
      rounded to the nearest integer, halves upwards. */
  function AvgPerDay(total: nat, days: nat): (avg: nat)
    ensures days == 0 ==> avg == 0
    ensures days > 0 ==> 2 * days * avg <= 2 * total + days < 2 * days * avg + 2 * days
  {
    if days > 0 then
      var q := (2 * total + days) / (2 * days);
      DivBounds(2 * total + days, 2 * days);
      q
    else 0
  }

  lemma DivBounds(n: nat, d: nat)
    requires d > 0
    ensures d * (n / d) <= n < d * (n / d) + d
  {
  }

  /** What aggregateSummary computes (the weight total is not modelled). */
  datatype Summary = Summary(
    totalSorted: nat,
    days: nat,
    avgPerDay: nat,
    breakdownArray: seq<BreakdownItem>)

  /** aggregateSummary: the sums over the logs, and a table of the per-size
      sums built by adding each day's counts into an accumulator that starts
      empty, one size at a time. */
  method AggregateSummary(filterData: seq<DailyLog>) returns (s: Summary)
    ensures s.totalSorted == TotalSorted(filterData)
    ensures s.days == |filterData|
    ensures s.avgPerDay == AvgPerDay(s.totalSorted, s.days)
    ensures s.breakdownArray == Items(AggregateCounts(filterData), s.totalSorted)
  {
    var totalSorted := TotalSorted(filterData);
    var days := |filterData|;
    var avgPerDay := AvgPerDay(totalSorted, days);

    var breakdown: map<EggSize, nat> := map[];
    var i := 0;
    while i < |filterData|
      invariant 0 <= i <= |filterData|
      invariant forall s: EggSize :: Count(breakdown, s) == SizeTotal(filterData[..i], s)
      invariant i > 0 ==> forall s: EggSize :: s in breakdown
    {
      assert filterData[..i + 1][..i] == filterData[..i];
      breakdown := AddDay(breakdown, filterData[i].breakdown);
      i := i + 1;
    }
    assert filterData[..i] == filterData;

    TotalNeedsDays(filterData);
    var breakdownArray := seq(|EggSizes|, k requires 0 <= k < |EggSizes| && (totalSorted > 0 ==> EggSizes[k] in breakdown) =>
      var size := EggSizes[k];
      BreakdownItem(size, Count(breakdown, size),
        if totalSorted > 0 then (breakdown[size] as real / totalSorted as real) * 100.0 else 0.0));
    s := Summary(totalSorted, days, avgPerDay, breakdownArray);
  }

  /** The inner loop of aggregateSummary: one day's counts added into the
      accumulator, one size at a time in EggSizes order. Afterwards every size
      has an entry. */
  method AddDay(acc: map<EggSize, nat>, day: map<EggSize, nat>) returns (r: map<EggSize, nat>)
    ensures forall s: EggSize :: s in r && Count(r, s) == Count(acc, s) + Count(day, s)
  {
    r := acc;
    var j := 0;
    while j < |EggSizes|
      invariant 0 <= j <= |EggSizes|
      invariant forall k :: 0 <= k < j ==> EggSizes[k] in r && Count(r, EggSizes[k]) == Count(acc, EggSizes[k]) + Count(day, EggSizes[k])
      invariant forall k :: j <= k < |EggSizes| ==> Count(r, EggSizes[k]) == Count(acc, EggSizes[k])
    {
      var size := EggSizes[j];
      r := r[size := Count(r, size) + Count(day, size)];
      j := j + 1;
    }
    forall s: EggSize ensures s in r && Count(r, s) == Count(acc, s) + Count(day, s) {
      assert EggSizes[Index(s)] == s;
    }
  }

  lemma TotalSortedStep(logs: seq<DailyLog>, n: nat)
    requires n < |logs|
    ensures TotalSorted(logs[..n + 1]) == TotalSorted(logs[..n]) + logs[n].totalSorted
  {
    assert logs[..n + 1][..n] == logs[..n];
  }

  /** A positive total needs at least one day, so whenever a percentage is
      taken every size has been entered into the accumulator. */
  lemma TotalNeedsDays(logs: seq<DailyLog>)
    ensures TotalSorted(logs) > 0 ==> |logs| > 0
  {
  }

  lemma {:induction false} TotalSortedAppend(a: seq<DailyLog>, b: seq<DailyLog>)
    ensures TotalSorted(a + b) == TotalSorted(a) + TotalSorted(b)
    decreases |b|
  {
    if b == [] {
      assert a + b == a;
    } else {
      var init := b[..|b| - 1];
      assert (a + b)[..|a + b| - 1] == a + init;
      TotalSortedAppend(a, init);
    }
  }

  lemma {:induction false} SizeTotalAppend(a: seq<DailyLog>, b: seq<DailyLog>, s: EggSize)
    ensures SizeTotal(a + b, s) == SizeTotal(a, s) + SizeTotal(b, s)
    decreases |b|
  {
    if b == [] {
      assert a + b == a;
    } else {
      var init := b[..|b| - 1];
      assert (a + b)[..|a + b| - 1] == a + init;
      SizeTotalAppend(a, init, s);
    }
  }

  /** Summaries add up: the totals and per-size counts of two runs of days
      together are the sums of each run's. */
  lemma AggregateAppend(a: seq<DailyLog>, b: seq<DailyLog>)
    ensures TotalSorted(a + b) == TotalSorted(a) + TotalSorted(b)
    ensures forall i :: 0 <= i < |EggSizes| ==>
      AggregateCounts(a + b)[i] == AggregateCounts(a)[i] + AggregateCounts(b)[i]
  {
    TotalSortedAppend(a, b);
    forall i | 0 <= i < |EggSizes|
      ensures AggregateCounts(a + b)[i] == AggregateCounts(a)[i] + AggregateCounts(b)[i]
    {
      SizeTotalAppend(a, b, EggSizes[i]);
    }
  }

  /** With no days, everything is zero. */
  lemma AggregateOfNoDays()
    ensures TotalSorted([]) == 0 && AvgPerDay(TotalSorted([]), 0) == 0
    ensures forall i :: 0 <= i < |EggSizes| ==>
      Items(AggregateCounts([]), 0)[i].count == 0 && Items(AggregateCounts([]), 0)[i].percent == 0.0
  {
  }

  /** Summarising a single day gives that day's own table. */
  lemma AggregateOfOneDay(log: DailyLog)
    ensures TotalSorted([log]) == log.totalSorted
    ensures Items(AggregateCounts([log]), TotalSorted([log])) == CalculateDailyBreakdown(log)
  {
    assert [log][..0] == [];
    var r := CalculateDailyBreakdown(log);
    EggSizesEnumerate();
    forall i | 0 <= i < |EggSizes|
      ensures Items(AggregateCounts([log]), log.totalSorted)[i] == r[i]
    {
      assert Index(EggSizes[i]) == i;
      assert SizeTotal([log], EggSizes[i]) == Count(log.breakdown, EggSizes[i]);
    }
  }

  /** The sum of the breakdown values over the logs. */
  ghost function BreakdownTotal(logs: seq<DailyLog>): nat
  {
    if logs == [] then 0 else BreakdownTotal(logs[..|logs| - 1]) + ValuesSum(logs[|logs| - 1].breakdown)
  }

  /** The summary's count column adds up to the sum of every day's breakdown
      values. */
  lemma {:induction false} AggregateCountsSum(logs: seq<DailyLog>)
    ensures Sum(AggregateCounts(logs)) == BreakdownTotal(logs)
    decreases |logs|
  {
    var c := AggregateCounts(logs);
    SumOfSix(c);
    if logs != [] {
      var init, last := logs[..|logs| - 1], logs[|logs| - 1];
      AggregateCountsSum(init);
      var ci, cl := AggregateCounts(init), CountsOf(last.breakdown, EggSizes);
      SumOfSix(ci);
      SumOfSix(cl);
      SixCountsSum(last.breakdown);
      assert forall i :: 0 <= i < |EggSizes| ==> c[i] == ci[i] + cl[i];
    }
  }

  /** Days whose breakdown adds up to their total. */
  ghost predicate Consistent(logs: seq<DailyLog>)
  {
    forall i :: 0 <= i < |logs| ==> ValuesSum(logs[i].breakdown) == logs[i].totalSorted
  }

  lemma {:induction false} ConsistentTotals(logs: seq<DailyLog>)
    requires Consistent(logs)
    ensures BreakdownTotal(logs) == TotalSorted(logs)
    decreases |logs|
  {
    if logs != [] {
      ConsistentTotals(logs[..|logs| - 1]);
    }
  }

  /** When every day's breakdown adds up to its total and the summed total is
      positive, the summary's percentages add up to the 100.00% of its
      footer. */
  lemma AggregatePercentsAddUpTo100(logs: seq<DailyLog>)
    requires Consistent(logs) && TotalSorted(logs) > 0
    ensures PercentSum(Items(AggregateCounts(logs), TotalSorted(logs))) == 100.0
  {
    AggregateCountsSum(logs);
    ConsistentTotals(logs);
    ItemsPercentsAddUpTo100(AggregateCounts(logs), TotalSorted(logs));
  }
}
