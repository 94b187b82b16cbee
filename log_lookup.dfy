/** The dashboard's lookup of the log shown for the selected date. */
module LogLookup {
  import opened EggTypes
  import opened DateOrder
  import RangeFilter

  /** currentLog: the first log whose date equals the selected date, or None
      (the source's null) when no log has that date. */
  function FindByDate(logs: seq<DailyLog>, date: string): (r: Option<DailyLog>)
    ensures r.None? <==> forall i :: 0 <= i < |logs| ==> logs[i].date != date
    ensures r.Some? ==> r.value in logs && r.value.date == date
  {
    if logs == [] then None
    else if logs[0].date == date then Some(logs[0])
    else FindByDate(logs[1..], date)
  }

  /** The position of the log FindByDate returns: the first with that date. */
  lemma {:induction false} FindByDateIsFirst(logs: seq<DailyLog>, date: string)
    requires FindByDate(logs, date).Some?
    ensures exists i :: 0 <= i < |logs| && logs[i] == FindByDate(logs, date).value &&
                        forall j :: 0 <= j < i ==> logs[j].date != date
  {
    if logs[0].date != date {
      FindByDateIsFirst(logs[1..], date);
      var i :| 0 <= i < |logs[1..]| && logs[1..][i] == FindByDate(logs[1..], date).value &&
               forall j :: 0 <= j < i ==> logs[1..][j].date != date;
      assert logs[i + 1] == FindByDate(logs, date).value;
      forall j | 0 <= j < i + 1 ensures logs[j].date != date {
        if j > 0 {
          assert logs[j] == logs[1..][j - 1];
        }
      }
    }
  }

  /** Looking up a date gives the first log of the one-day range at that
      date, and nothing when that range is empty. */
  lemma {:induction false} FindByDateIsSingleDayRange(logs: seq<DailyLog>, date: string)
    ensures var day := RangeFilter.FilterByRange(logs, date, date);
      FindByDate(logs, date) == if day == [] then None else Some(day[0])
  {
    if logs != [] {
      FindByDateIsSingleDayRange(logs[1..], date);
      LexLeReflexive(date);
      if logs[0].date != date && RangeFilter.InRange(logs[0].date, date, date) {
        LexLeAntisymmetric(logs[0].date, date);
      }
    }
  }
}
