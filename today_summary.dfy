/**
  The "today" card of the employee dashboard: the clock status label, the
  arrival time, and the day's progress bar against eight hours.
*/
module TodaySummary {
  import opened Common

  datatype ClockStatus = ClockedIn | ClockedOut | NotClockedIn

  /** A present, non-empty string (JavaScript truthiness of a string prop that may be null). */
  predicate Truthy(s: Option<string>)
  {
    s.Some? && s.value != ""
  }

  /** `getStatusConfig`: clocked in wins, then a known arrival time means clocked out. */
  function StatusOf(isClocked: bool, clockInTime: Option<string>): (st: ClockStatus)
    ensures st == ClockedIn <==> isClocked
    ensures st == ClockedOut <==> !isClocked && Truthy(clockInTime)
    ensures st == NotClockedIn <==> !isClocked && !Truthy(clockInTime)
  {
    if isClocked then ClockedIn
    else if Truthy(clockInTime) then ClockedOut
    else NotClockedIn
  }

  /** `formatTime`: a placeholder for a missing time, the time itself otherwise. */
  function FormatTime(t: Option<string>): (r: string)
    ensures !Truthy(t) ==> r == "--:--"
    ensures Truthy(t) ==> r == t.value
  {
    if Truthy(t) then t.value else "--:--"
  }

  /** The hours of a full day. */
  const DayHours: real := 8.0

  /**
    The width of the progress bar, `Math.min(parseFloat(totalHours) / 8 * 100, 100)`;
    `None` is the NaN an unreadable total gives.
  */
  function Progress(totalHours: string): (r: Option<real>)
    ensures r.Some? <==> ParseFloat(totalHours).Some?
    ensures r.Some? ==> r.value <= 100.0
    ensures r.Some? && ParseFloat(totalHours).value <= DayHours ==> r.value == ParseFloat(totalHours).value / DayHours * 100.0
    ensures r.Some? && ParseFloat(totalHours).value >= DayHours ==> r.value == 100.0
  {
    match ParseFloat(totalHours)
    case None => None
    case Some(h) =>
      var w := h / DayHours * 100.0;
      Some(if w < 100.0 then w else 100.0)
  }

  /**
    The dashboard passes `heure_Arrivee || '0'` as the arrival time, which
    is never empty, so the card never says "not clocked in" there.
  */
  lemma DashboardNeverShowsNotClockedIn(isClocked: bool, arrival: Option<string>)
    ensures StatusOf(isClocked, Some(if Truthy(arrival) then arrival.value else "0")) != NotClockedIn
  {
  }
}
