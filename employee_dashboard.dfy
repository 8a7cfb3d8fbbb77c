/**
  The employee dashboard page: the running "hours worked" text, the clock
  state kept in local storage across reloads, clocking in and out, the
  language preference and logging out.
*/
module EmployeeDashboard {
  import opened Common
  import TodaySummary

  const MsPerHour := 3600000
  const MsPerMinute := 60000

  /** The whole hours and the minutes of the current hour in an elapsed time. */
  function Elapsed(ms: nat): (hm: (nat, nat))
    ensures hm.1 < 60
    ensures hm.0 * MsPerHour + hm.1 * MsPerMinute <= ms < hm.0 * MsPerHour + (hm.1 + 1) * MsPerMinute
  {
    (ms / MsPerHour, (ms % MsPerHour) / MsPerMinute)
  }

  /** `${hours}h ${minutes padded to two digits}m`. */
  function FormatElapsed(ms: nat): string
  {
    var hm := Elapsed(ms);
    NatToString(hm.0) + "h " + Pad2(hm.1) + "m"
  }

  /** The text reads back as the hours and the minutes it was made from. */
  lemma FormatElapsedReadsBack(ms: nat)
    ensures var s := FormatElapsed(ms); var h := NatToString(Elapsed(ms).0);
      |s| == |h| + 5 && s[..|h|] == h && AllDigits(h) && DigitsValue(h) == Elapsed(ms).0
      && s[|h|..|h| + 2] == "h " && s[|h| + 4] == 'm'
      && AllDigits(s[|h| + 2..|h| + 4]) && DigitsValue(s[|h| + 2..|h| + 4]) == Elapsed(ms).1
  {
    var h := NatToString(Elapsed(ms).0);
    var s := FormatElapsed(ms);
    assert s == h + "h " + Pad2(Elapsed(ms).1) + "m";
    assert s[..|h|] == h;
    assert s[|h| + 2..|h| + 4] == Pad2(Elapsed(ms).1);
    NatToStringRoundTrip(Elapsed(ms).0);
  }

  /**
    The summary card's bar formula, `parseFloat(totalHours) / 8` capped at
    100, on text of this `${h}h ${mm}m` shape reads only the whole hours:
    under eight hours it is hours/8 of the bar, from eight hours on it is
    full. The dashboard itself hands the card the service's `heures_totales`,
    not the ticked text (see `DashboardState.Tick`).
  */
  lemma ProgressOfFormatted(s: string, h: nat, m: nat)
    requires m < 60 && s == NatToString(h) + "h " + Pad2(m) + "m"
    ensures TodaySummary.Progress(s) == Some(if (h as real) < 8.0 then (h as real) / 8.0 * 100.0 else 100.0)
  {
    var rest := "h " + Pad2(m) + "m";
    assert s == NatToString(h) + rest;
    ParseFloatOfNumeral(h, rest);
    ProgressOfWholeHours(s, h);
  }

  lemma ProgressOfWholeHours(s: string, n: nat)
    requires ParseFloat(s) == Some(n as real)
    ensures var h := n as real;
      TodaySummary.Progress(s) == Some(if h < 8.0 then h / 8.0 * 100.0 else 100.0)
  {
    var r := TodaySummary.Progress(s);
    if n < 8 {
      assert ParseFloat(s).value <= TodaySummary.DayHours;
      assert r.value == (n as real) / 8.0 * 100.0;
    } else {
      assert ParseFloat(s).value >= TodaySummary.DayHours;
      assert r.value == 100.0;
    }
  }

  const ZeroHours := "0h 00m"

  /** The starting text is the formatted zero duration. */
  lemma ZeroHoursIsFormatted()
    ensures FormatElapsed(0) == ZeroHours
  {
  }

  function Lookup(store: map<string, string>, key: string): (r: Option<string>)
    ensures r.Some? <==> key in store
    ensures r.Some? ==> r.value == store[key]
  {
    if key in store then Some(store[key]) else None
  }

  /** The keys the clock state is saved under. */
  const ClockKeys: set<string> := {"clockedIn", "clockInTime", "totalHours"}

  /** The page's state; `store` is local storage. */
  class DashboardState {
    var currentLanguage: string
    var isClocked: bool
    var isLoading: bool
    var clockInTime: Option<string>
    var totalHours: string
    var store: map<string, string>
    var navigatedTo: Option<string>

    constructor (initialStore: map<string, string>)
      ensures currentLanguage == "fr" && !isClocked && !isLoading && clockInTime == None
      ensures totalHours == ZeroHours && store == initialStore && navigatedTo == None
    {
      currentLanguage := "fr";
      isClocked := false;
      isLoading := false;
      clockInTime := None;
      totalHours := ZeroHours;
      store := initialStore;
      navigatedTo := None;
    }

    /** The language effect: the saved `selectedLanguage`, or French. */
    method RestoreLanguage()
      modifies this`currentLanguage
      ensures var saved := Lookup(store, "selectedLanguage");
        currentLanguage == if saved.Some? && saved.value != "" then saved.value else "fr"
    {
      var saved := Lookup(store, "selectedLanguage");
      currentLanguage := if saved.Some? && saved.value != "" then saved.value else "fr";
    }

    /** The clock effect: only a saved `clockedIn` of 'true' restores the clocked-in state. */
    method RestoreClock()
      modifies this`isClocked, this`clockInTime, this`totalHours
      ensures Lookup(store, "clockedIn") != Some("true") ==>
        isClocked == old(isClocked) && clockInTime == old(clockInTime) && totalHours == old(totalHours)
      ensures Lookup(store, "clockedIn") == Some("true") ==>
        isClocked && clockInTime == Lookup(store, "clockInTime")
        && totalHours == (var t := Lookup(store, "totalHours"); if t.Some? && t.value != "" then t.value else ZeroHours)
    {
      if Lookup(store, "clockedIn") == Some("true") {
        isClocked := true;
        clockInTime := Lookup(store, "clockInTime");
        var t := Lookup(store, "totalHours");
        totalHours := if t.Some? && t.value != "" then t.value else ZeroHours;
      }
    }

    /**
      One tick of the minute interval, `elapsed` milliseconds after clocking
      in. The text is kept in the state and in storage only: the page never
      renders `totalHours`, and its summary card shows the service's figure.
    */
    method Tick(elapsed: nat)
      requires isClocked && clockInTime.Some? && clockInTime.value != ""
      modifies this`totalHours, this`store
      ensures totalHours == FormatElapsed(elapsed)
      ensures store == old(store)["totalHours" := FormatElapsed(elapsed)]
    {
      var text := FormatElapsed(elapsed);
      totalHours := text;
      store := store["totalHours" := text];
    }

    /** `handleClockIn`, given the displayed time and the ISO time of now. */
    method ClockIn(timeString: string, isoNow: string)
      modifies this`isLoading, this`isClocked, this`clockInTime, this`totalHours, this`store
      ensures isClocked && clockInTime == Some(timeString) && totalHours == ZeroHours && !isLoading
      ensures store == old(store)["clockedIn" := "true"]["clockInTime" := isoNow]["totalHours" := ZeroHours]
    {
      isLoading := true;
      isClocked := true;
      clockInTime := Some(timeString);
      totalHours := ZeroHours;
      store := store["clockedIn" := "true"]["clockInTime" := isoNow]["totalHours" := ZeroHours];
      isLoading := false;
    }

    /** `handleClockOut`. */
    method ClockOut()
      modifies this`isLoading, this`isClocked, this`clockInTime, this`totalHours, this`store
      ensures !isClocked && clockInTime == None && totalHours == ZeroHours && !isLoading
      ensures store == old(store) - ClockKeys
    {
      isLoading := true;
      isClocked := false;
      store := store - {"clockedIn"} - {"clockInTime"} - {"totalHours"};
      clockInTime := None;
      totalHours := ZeroHours;
      isLoading := false;
    }

    method ChangeLanguage(code: string)
      modifies this`currentLanguage, this`store
      ensures currentLanguage == code && store == old(store)["selectedLanguage" := code]
    {
      currentLanguage := code;
      store := store["selectedLanguage" := code];
    }

    /** `handleLogout`: the language and the clock keys are removed, then the login page opens. */
    method Logout()
      modifies this`store, this`navigatedTo
      ensures store == old(store) - ({"selectedLanguage"} + ClockKeys)
      ensures navigatedTo == Some("/login-authentication")
    {
      store := store - {"selectedLanguage"} - {"clockedIn"} - {"clockInTime"} - {"totalHours"};
      navigatedTo := Some("/login-authentication");
    }
  }

  /** A clock-in survives a reload: a fresh page restores it from storage, with the ISO time. */
  method ClockInSurvivesReload(initial: map<string, string>, timeString: string, isoNow: string)
    returns (clocked: bool, restoredTime: Option<string>, restoredHours: string)
    ensures clocked && restoredTime == Some(isoNow) && restoredHours == ZeroHours
  {
    var page := new DashboardState(initial);
    page.ClockIn(timeString, isoNow);
    var reloaded := new DashboardState(page.store);
    reloaded.RestoreClock();
    clocked, restoredTime, restoredHours := reloaded.isClocked, reloaded.clockInTime, reloaded.totalHours;
  }

  /** After a clock-out, or a logout, a reload finds the employee clocked out. */
  method ClockOutSurvivesReload(initial: map<string, string>, logout: bool) returns (clocked: bool)
    ensures !clocked
  {
    var page := new DashboardState(initial);
    if logout {
      page.Logout();
    } else {
      page.ClockOut();
    }
    var reloaded := new DashboardState(page.store);
    reloaded.RestoreClock();
    clocked := reloaded.isClocked;
  }
}
