/**
  The month calendar of the personal history page: the grid of a month
  (blank cells up to the first weekday, then the days), the record shown
  on each day, the today and selected marks, and month navigation.
*/
module AttendanceCalendar {
  import opened Common
  import opened Dates
  import opened AttendanceHistory

  /**
    The grid of month `month` of `year`: `Weekday` of the first blank
    cells, then the days 1..DaysInMonth in order.
  */
  function MonthGrid(year: int, month: int): (g: seq<Option<Day>>)
    requires 0 <= month < 12
    ensures |g| == Weekday(Day(year, month, 1)) + DaysInMonth(year, month)
  {
    var start := Weekday(Day(year, month, 1));
    seq(start + DaysInMonth(year, month), i requires 0 <= i => if i < start then None else Some(Day(year, month, i - start + 1)))
  }

  /**
    `getDaysInMonth(date)`: pushes `startingDayOfWeek` nulls, then each day
    of the month.
  */
  method GetDaysInMonth(year: int, month: int) returns (days: seq<Option<Day>>)
    requires 0 <= month < 12
    ensures days == MonthGrid(year, month)
  {
    var daysInMonth := DaysInMonth(year, month);
    var startingDayOfWeek := Weekday(Day(year, month, 1));
    days := [];
    var i := 0;
    while i < startingDayOfWeek
      invariant 0 <= i <= startingDayOfWeek
      invariant days == seq(i, k => None)
    {
      days := days + [None];
      i := i + 1;
    }
    var day := 1;
    while day <= daysInMonth
      invariant 1 <= day <= daysInMonth + 1
      invariant |days| == startingDayOfWeek + day - 1
      invariant forall k :: 0 <= k < startingDayOfWeek ==> days[k] == None
      invariant forall k :: startingDayOfWeek <= k < |days| ==> days[k] == Some(Day(year, month, k - startingDayOfWeek + 1))
    {
      days := days + [Some(Day(year, month, day))];
      day := day + 1;
    }
  }

  /**
    The grid lays the month out on the week: the leading cells are blank,
    every later cell holds a valid day of that month, and each day sits in
    the column of its weekday (Sunday first).
  */
  lemma GridColumnsAreWeekdays(year: int, month: int, i: int)
    requires 0 <= month < 12 && 0 <= i < |MonthGrid(year, month)|
    ensures var g, start := MonthGrid(year, month), Weekday(Day(year, month, 1));
      0 <= start < 7
      && (g[i].None? <==> i < start)
      && (g[i].Some? ==> (ValidDay(g[i].value) && g[i].value.year == year && g[i].value.month == month
          && Weekday(g[i].value) == i % 7))
  {
    var start := Weekday(Day(year, month, 1));
    if i >= start {
      var first := Day(year, month, 1);
      OrdinalWithinMonth(first, i - start);
      ShiftMod7(Ordinal(first) + 4, i - start);
      assert (Ordinal(first) + 4) % 7 + (i - start) == i;
    }
  }

  /** Every day of the month appears once, at the cell after the blanks and the days before it. */
  lemma GridHoldsEveryDay(year: int, month: int, day: int)
    requires 0 <= month < 12 && 1 <= day <= DaysInMonth(year, month)
    ensures var g, i := MonthGrid(year, month), Weekday(Day(year, month, 1)) + day - 1;
      0 <= i < |g| && g[i] == Some(Day(year, month, day))
      && forall j :: 0 <= j < |g| && j != i ==> g[j] != Some(Day(year, month, day))
  {
  }

  /**
    `getAttendanceForDate(date)`: the first record dated with the day's
    `YYYY-MM-DD` key, or none.
  */
  function AttendanceFor(records: seq<AttendanceRecord>, date: Day): (r: Option<AttendanceRecord>)
    requires ValidDay(date) && 0 <= date.year < 10000
    ensures r.None? <==> forall i :: 0 <= i < |records| ==> records[i].date != IsoKey(date)
    ensures r.Some? ==> exists i :: (0 <= i < |records| && records[i] == r.value && records[i].date == IsoKey(date)
      && forall j :: 0 <= j < i ==> records[j].date != IsoKey(date))
  {
    FindByDate(records, IsoKey(date))
  }

  /** `records.find(record => record.date === key)`. */
  function FindByDate(records: seq<AttendanceRecord>, key: string): (r: Option<AttendanceRecord>)
    ensures r.None? <==> forall i :: 0 <= i < |records| ==> records[i].date != key
    ensures r.Some? ==> exists i :: (0 <= i < |records| && records[i] == r.value && records[i].date == key
      && forall j :: 0 <= j < i ==> records[j].date != key)
  {
    if records == [] then None
    else if records[0].date == key then Some(records[0])
    else
      var r := FindByDate(records[1..], key);
      assert r.Some? ==> exists i :: (1 <= i < |records| && records[i] == r.value && records[i].date == key
        && forall j :: 0 <= j < i ==> records[j].date != key) by {
        if r.Some? {
          var i :| 0 <= i < |records[1..]| && records[1..][i] == r.value && records[1..][i].date == key
            && forall j :: 0 <= j < i ==> records[1..][j].date != key;
          assert forall j :: 1 <= j < i + 1 ==> records[j] == records[1..][j - 1];
        }
      }
      assert r.None? ==> forall i :: 1 <= i < |records| ==> records[i].date != key by {
        if r.None? {
          forall i | 1 <= i < |records| ensures records[i].date != key {
            assert records[i] == records[1..][i - 1];
          }
        }
      }
      r
  }

  /** The page's January 2025 records are found on their days, and a day without a record has none. */
  lemma MockRecordsOnTheCalendar()
    ensures AttendanceFor(MockRecords, Day(2025, 0, 6)) == Some(MockRecords[0])
    ensures AttendanceFor(MockRecords, Day(2025, 0, 7)).None?
  {
    January2025Keys();
    NoMockRecordOn("2025-01-07");
  }

  /** No record of the page is dated with a key whose last digit is 7. */
  lemma NoMockRecordOn(key: string)
    requires |key| == 10 && key[9] == '7'
    ensures forall i :: 0 <= i < |MockRecords| ==> MockRecords[i].date != key
  {
    forall i | 0 <= i < |MockRecords|
      ensures MockRecords[i].date != key
    {
      assert MockRecords[i].date[9] != '7';
    }
  }

  lemma January2025Keys()
    ensures IsoKey(Day(2025, 0, 6)) == "2025-01-06" && IsoKey(Day(2025, 0, 7)) == "2025-01-07"
  {
    Pad4Of2025();
    assert Pad2(1) == "01" && Pad2(6) == "06" && Pad2(7) == "07";
  }

  /** `getStatusColor`: the class of the status dot; an unknown status is muted. */
  function StatusColor(status: string): (c: string)
    ensures c == "bg-muted text-muted-foreground" <==> status !in {"present", "absent", "late", "holiday"}
    ensures status == "present" ==> c == "bg-success text-success-foreground"
    ensures status == "absent" ==> c == "bg-destructive text-destructive-foreground"
    ensures status == "late" ==> c == "bg-warning text-warning-foreground"
    ensures status == "holiday" ==> c == "bg-secondary text-secondary-foreground"
  {
    match status
    case "present" => "bg-success text-success-foreground"
    case "absent" => "bg-destructive text-destructive-foreground"
    case "late" => "bg-warning text-warning-foreground"
    case "holiday" => "bg-secondary text-secondary-foreground"
    case _ => "bg-muted text-muted-foreground"
  }

  /**
    The dot of a day: shown only when the day has a record, coloured by its
    status (`attendance.status || 'no-data'`).
  */
  function Dot(records: seq<AttendanceRecord>, date: Day): (dot: Option<string>)
    requires ValidDay(date) && 0 <= date.year < 10000
    ensures dot.Some? <==> exists i :: 0 <= i < |records| && records[i].date == IsoKey(date)
    ensures dot.Some? ==> dot.value == StatusColor(AttendanceFor(records, date).value.status)
  {
    match AttendanceFor(records, date)
    case None => None
    case Some(record) => Some(StatusColor(if record.status == "" then "no-data" else record.status))
  }

  /** `isToday(date)`: a real day on the same day, month and year as today. */
  predicate IsToday(date: Option<Day>, today: Day)
  {
    date.Some? && date.value.day == today.day && date.value.month == today.month && date.value.year == today.year
  }

  /** `isSelected(date)`: both days given, on the same day, month and year. */
  predicate IsSelected(date: Option<Day>, selected: Option<Day>)
  {
    selected.Some? && date.Some? && date.value.day == selected.value.day
    && date.value.month == selected.value.month && date.value.year == selected.value.year
  }

  /** A blank cell or a missing selection is never selected; two days are selected together exactly when they are the same day. */
  lemma SelectedIffSameDay(date: Option<Day>, selected: Option<Day>)
    ensures date.None? || selected.None? ==> !IsSelected(date, selected)
    ensures date.Some? && selected.Some? ==> (IsSelected(date, selected) <==> date.value == selected.value)
  {
  }

  /** In a month's grid, exactly the cell of today is marked when today is in that month; the blanks never are. */
  lemma TodayMarkedOnce(year: int, month: int, today: Day, i: int)
    requires 0 <= month < 12 && ValidDay(today) && 0 <= i < |MonthGrid(year, month)|
    ensures var g := MonthGrid(year, month);
      IsToday(g[i], today) <==> (today.year == year && today.month == month
        && i == Weekday(Day(year, month, 1)) + today.day - 1)
  {
  }

  // ---------------------------------------------------------- navigation

  /** The month index counted from year 0, so that one month later is one more. */
  function MonthIndex(d: Day): int { 12 * d.year + d.month }

  /**
    `new Date(prev).setMonth(prev.getMonth() + direction)`: the month is
    carried into the year, and a day past the end of the target month runs
    on into the next month, as `Date` does.
  */
  function SetMonth(d: Day, target: int): (r: Day)
    requires ValidDay(d)
    ensures ValidDay(r)
    ensures d.day <= DaysInMonth(d.year + target / 12, target % 12) ==>
      r == Day(d.year + target / 12, target % 12, d.day)
    ensures d.day > DaysInMonth(d.year + target / 12, target % 12) ==>
      MonthIndex(r) == 12 * d.year + target + 1 && r.day == d.day - DaysInMonth(d.year + target / 12, target % 12)
  {
    var y, m := d.year + target / 12, target % 12;
    var n := DaysInMonth(y, m);
    if d.day <= n then Day(y, m, d.day)
    else
      var next := NextMonth(y, m);
      Day(next.0, next.1, d.day - n)
  }

  /** `navigateMonth(direction)` as written. */
  function NavigateAsWritten(d: Day, direction: int): (r: Day)
    requires ValidDay(d)
    ensures ValidDay(r)
  {
    SetMonth(d, d.month + direction)
  }

  /** As written, moving on from a day up to the 28th lands exactly `direction` months on. */
  lemma NavigateEarlyInMonth(d: Day, direction: int)
    requires ValidDay(d) && d.day <= 28
    ensures MonthIndex(NavigateAsWritten(d, direction)) == MonthIndex(d) + direction
  {
  }

  /** As written, "next month" on 31 January 2025 shows March: February is skipped. */
  lemma NavigateSkipsFebruary()
    ensures NavigateAsWritten(Day(2025, 0, 31), 1) == Day(2025, 2, 3)
    ensures MonthIndex(NavigateAsWritten(Day(2025, 0, 31), 1)) == MonthIndex(Day(2025, 0, 31)) + 2
  {
  }

  /**
    Navigation as evidently intended: the calendar only shows the month, so
    the day is first set to the 1st, which exists in every month.
  */
  function Navigate(d: Day, direction: int): (r: Day)
    requires ValidDay(d)
    ensures ValidDay(r) && r.day == 1
    ensures MonthIndex(r) == MonthIndex(d) + direction
  {
    SetMonth(d.(day := 1), d.month + direction)
  }

  /** Going forward and back again returns to the month shown before. */
  lemma NavigateThereAndBack(d: Day, direction: int)
    requires ValidDay(d)
    ensures var back := Navigate(Navigate(d, direction), -direction);
      back.year == d.year && back.month == d.month
  {
  }

  /** The calendar's state: the day whose month is shown. */
  class Calendar {
    var currentMonth: Day

    constructor (today: Day)
      requires ValidDay(today)
      ensures currentMonth == today
    {
      currentMonth := today;
    }

    predicate Valid()
      reads this
    {
      ValidDay(currentMonth)
    }

    /**
      The arrows as written: `setMonth` on the shown day, which keeps the day
      of the month and so overflows from the 29th to the 31st (see
      `NavigateSkipsFebruary`); up to the 28th the month moves by `direction`.
    */
    method NavigateMonth(direction: int)
      requires Valid()
      modifies this
      ensures Valid()
      ensures currentMonth == NavigateAsWritten(old(currentMonth), direction)
      ensures old(currentMonth).day <= 28 ==> MonthIndex(currentMonth) == MonthIndex(old(currentMonth)) + direction
    {
      if currentMonth.day <= 28 {
        NavigateEarlyInMonth(currentMonth, direction);
      }
      currentMonth := NavigateAsWritten(currentMonth, direction);
    }

    /**
      The arrows with the fix (see Findings): the day is set to the 1st
      first, so the shown month moves by exactly `direction` from any day.
    */
    method NavigateMonthFixed(direction: int)
      requires Valid()
      modifies this
      ensures Valid() && currentMonth.day == 1
      ensures currentMonth == Navigate(old(currentMonth), direction)
      ensures MonthIndex(currentMonth) == MonthIndex(old(currentMonth)) + direction
    {
      currentMonth := Navigate(currentMonth, direction);
    }

    /** The "today" button. */
    method GoToToday(today: Day)
      requires ValidDay(today)
      modifies this
      ensures Valid() && currentMonth == today
    {
      currentMonth := today;
    }

    /** The grid shown for the current month. */
    method Days() returns (days: seq<Option<Day>>)
      requires Valid()
      ensures days == MonthGrid(currentMonth.year, currentMonth.month)
    {
      days := GetDaysInMonth(currentMonth.year, currentMonth.month);
    }
  }
}
