/** The history view's date-range filter: the logs whose date string lies
    between the chosen start and end dates, both included, compared as
    JavaScript compares strings. */
module RangeFilter {
  import opened EggTypes
  import opened DateOrder
  import opened IsoDates

  /** `date >= start && date <= end` on JavaScript strings. */
  predicate InRange(date: string, start: string, end: string)
  {
    LexLe(start, date) && LexLe(date, end)
  }

  /** A date can only be in range when the start is not after the end. */
  lemma InRangeNeedsOrderedBounds(date: string, start: string, end: string)
    requires InRange(date, start, end)
    ensures LexLe(start, end)
  {
    LexLeTransitive(start, date, end);
  }

  /** The filter in handleFilter: the logs in range, in their original order. */
  function FilterByRange(logs: seq<DailyLog>, start: string, end: string): (r: seq<DailyLog>)
    ensures |r| <= |logs|
    ensures forall x :: x in r <==> x in logs && InRange(x.date, start, end)
  {
    if logs == [] then []
    else
      (if InRange(logs[0].date, start, end) then [logs[0]] else [])
      + FilterByRange(logs[1..], start, end)
  }

  /** Filtering a concatenation filters each part and keeps them in order, so
      the filter keeps the source's order. */
  lemma {:induction false} FilterAppend(a: seq<DailyLog>, b: seq<DailyLog>, start: string, end: string)
    ensures FilterByRange(a + b, start, end) == FilterByRange(a, start, end) + FilterByRange(b, start, end)
  {
    if a == [] {
      assert a + b == b;
    } else {
      assert (a + b)[0] == a[0] && (a + b)[1..] == a[1..] + b;
      FilterAppend(a[1..], b, start, end);
    }
  }

  /** The positions, from `from` on, of the logs in range. */
  function KeptIndices(logs: seq<DailyLog>, start: string, end: string, from: nat): seq<nat>
    requires from <= |logs|
    decreases |logs| - from
  {
    if from == |logs| then []
    else
      (if InRange(logs[from].date, start, end) then [from] else [])
      + KeptIndices(logs, start, end, from + 1)
  }

  /** Every position KeptIndices lists is a position, from `from` on, of a
      log in range. */
  lemma {:induction false} KeptIndicesInRange(logs: seq<DailyLog>, start: string, end: string, from: nat)
    requires from <= |logs|
    ensures forall k :: 0 <= k < |KeptIndices(logs, start, end, from)| ==>
      var i := KeptIndices(logs, start, end, from)[k]; from <= i < |logs| && InRange(logs[i].date, start, end)
    decreases |logs| - from
  {
    if from < |logs| {
      KeptIndicesInRange(logs, start, end, from + 1);
      var idx1 := KeptIndices(logs, start, end, from + 1);
      if InRange(logs[from].date, start, end) {
        var idx := [from] + idx1;
        assert KeptIndices(logs, start, end, from) == idx;
        assert forall k :: 1 <= k < |idx| ==> idx[k] == idx1[k - 1];
      } else {
        assert KeptIndices(logs, start, end, from) == idx1;
      }
    }
  }

  /** KeptIndices lists its positions in strictly increasing order. */
  lemma {:induction false} KeptIndicesIncreasing(logs: seq<DailyLog>, start: string, end: string, from: nat)
    requires from <= |logs|
    ensures forall k, l :: 0 <= k < l < |KeptIndices(logs, start, end, from)| ==>
      KeptIndices(logs, start, end, from)[k] < KeptIndices(logs, start, end, from)[l]
    decreases |logs| - from
  {
    if from < |logs| {
      KeptIndicesIncreasing(logs, start, end, from + 1);
      KeptIndicesInRange(logs, start, end, from + 1);
      var idx1 := KeptIndices(logs, start, end, from + 1);
      if InRange(logs[from].date, start, end) {
        var idx := [from] + idx1;
        assert KeptIndices(logs, start, end, from) == idx;
        forall k, l | 0 <= k < l < |idx| ensures idx[k] < idx[l] {
          assert idx[l] == idx1[l - 1];
          if k > 0 {
            assert idx[k] == idx1[k - 1];
          }
        }
      } else {
        assert KeptIndices(logs, start, end, from) == idx1;
      }
    }
  }

  /** KeptIndices lists every position, from `from` on, of a log in range. */
  lemma {:induction false} KeptIndicesComplete(logs: seq<DailyLog>, start: string, end: string, from: nat)
    requires from <= |logs|
    ensures forall i :: from <= i < |logs| && InRange(logs[i].date, start, end) ==>
      i in KeptIndices(logs, start, end, from)
    decreases |logs| - from
  {
    if from < |logs| {
      KeptIndicesComplete(logs, start, end, from + 1);
      var idx1 := KeptIndices(logs, start, end, from + 1);
      if InRange(logs[from].date, start, end) {
        assert KeptIndices(logs, start, end, from) == [from] + idx1;
      } else {
        assert KeptIndices(logs, start, end, from) == idx1;
      }
    }
  }

  /** The filter's result is exactly the in-range logs at increasing
      positions of the source: its `k`-th log is the source's log at the
      `k`-th kept position. */
  lemma {:induction false} FilterIsKeptSubsequence(logs: seq<DailyLog>, start: string, end: string, from: nat)
    requires from <= |logs|
    ensures |FilterByRange(logs[from..], start, end)| == |KeptIndices(logs, start, end, from)|
    ensures forall k :: 0 <= k < |KeptIndices(logs, start, end, from)| ==>
      KeptIndices(logs, start, end, from)[k] < |logs| &&
      FilterByRange(logs[from..], start, end)[k] == logs[KeptIndices(logs, start, end, from)[k]]
    decreases |logs| - from
  {
    if from < |logs| {
      FilterIsKeptSubsequence(logs, start, end, from + 1);
      KeptIndicesInRange(logs, start, end, from);
      var rest := logs[from..];
      assert rest[0] == logs[from] && rest[1..] == logs[from + 1..];
      var idx, idx1 := KeptIndices(logs, start, end, from), KeptIndices(logs, start, end, from + 1);
      var r, r1 := FilterByRange(rest, start, end), FilterByRange(logs[from + 1..], start, end);
      if InRange(logs[from].date, start, end) {
        assert idx == [from] + idx1 && r == [logs[from]] + r1;
        forall k | 0 <= k < |idx| ensures idx[k] < |logs| && r[k] == logs[idx[k]] {
          if k > 0 {
            assert r[k] == r1[k - 1] && idx[k] == idx1[k - 1];
          }
        }
      } else {
        assert idx == idx1 && r == r1;
      }
    }
  }

  /** A start date after the end date leaves nothing in range. */
  lemma FilterStartAfterEnd(logs: seq<DailyLog>, start: string, end: string)
    requires LexLt(end, start)
    ensures FilterByRange(logs, start, end) == []
  {
    var r := FilterByRange(logs, start, end);
    if r != [] {
      assert r[0] in r;
      LexLeTransitive(start, r[0].date, end);
      LexLeAntisymmetric(start, end);
    }
  }

  /** A range that covers every log's date keeps the source unchanged. */
  lemma {:induction false} FilterFullRange(logs: seq<DailyLog>, start: string, end: string)
    requires forall i :: 0 <= i < |logs| ==> InRange(logs[i].date, start, end)
    ensures FilterByRange(logs, start, end) == logs
  {
    if logs != [] {
      FilterFullRange(logs[1..], start, end);
      assert logs == [logs[0]] + logs[1..];
    }
  }

  /** A range that covers no log's date keeps nothing. */
  lemma FilterNoneInRange(logs: seq<DailyLog>, start: string, end: string)
    requires forall i :: 0 <= i < |logs| ==> !InRange(logs[i].date, start, end)
    ensures FilterByRange(logs, start, end) == []
  {
  }

  /** When exactly the first `n` logs are in range, the filter keeps them. */
  lemma FilterPrefix(logs: seq<DailyLog>, start: string, end: string, n: nat)
    requires n <= |logs|
    requires forall i :: 0 <= i < |logs| ==> (InRange(logs[i].date, start, end) <==> i < n)
    ensures FilterByRange(logs, start, end) == logs[..n]
  {
    var head, tail := logs[..n], logs[n..];
    assert logs == head + tail;
    FilterAppend(head, tail, start, end);
    assert forall i :: 0 <= i < |head| ==> head[i] == logs[i];
    FilterFullRange(head, start, end);
    assert forall i :: 0 <= i < |tail| ==> tail[i] == logs[i + n];
    FilterNoneInRange(tail, start, end);
  }

  /** Applying the same range twice changes nothing. */
  lemma FilterIdempotent(logs: seq<DailyLog>, start: string, end: string)
    ensures FilterByRange(FilterByRange(logs, start, end), start, end) == FilterByRange(logs, start, end)
  {
    var r := FilterByRange(logs, start, end);
    assert forall i :: 0 <= i < |r| ==> r[i] in r;
    FilterFullRange(r, start, end);
  }

  /** Logs sorted by date, as the source lists them. */
  predicate SortedByDate(logs: seq<DailyLog>)
  {
    forall i, j :: 0 <= i < j < |logs| ==> LexLe(logs[i].date, logs[j].date)
  }

  /** On date-sorted logs, the range from the first to the last date, the
      view's default, keeps every log. */
  lemma DefaultRangeKeepsAll(logs: seq<DailyLog>)
    requires logs != [] && SortedByDate(logs)
    ensures FilterByRange(logs, logs[0].date, logs[|logs| - 1].date) == logs
  {
    var start, end := logs[0].date, logs[|logs| - 1].date;
    forall i | 0 <= i < |logs| ensures InRange(logs[i].date, start, end) {
      LexLeReflexive(logs[i].date);
    }
    FilterFullRange(logs, start, end);
  }

  /** The range from a date to itself keeps exactly the logs of that date. */
  lemma SingleDayRange(logs: seq<DailyLog>, date: string)
    ensures forall x :: x in FilterByRange(logs, date, date) <==> x in logs && x.date == date
  {
    forall x | x in logs
      ensures InRange(x.date, date, date) <==> x.date == date
    {
      if InRange(x.date, date, date) {
        LexLeAntisymmetric(x.date, date);
      } else {
        LexLeReflexive(date);
      }
    }
  }

  /** On `YYYY-MM-DD` strings the filter selects by calendar date. */
  lemma InRangeIsCalendarRange(date: Date, start: Date, end: Date)
    requires ValidDate(date) && ValidDate(start) && ValidDate(end)
    ensures InRange(IsoDate(date), IsoDate(start), IsoDate(end))
        <==> OnOrBefore(start, date) && OnOrBefore(date, end)
  {
    IsoDateOrder(start, date);
    IsoDateOrder(date, end);
  }
}
