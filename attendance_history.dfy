/**
  The personal attendance history page: the attendance records, the
  filtering of those records by date range, status and search term, and
  the page's clock, export, language and logout handlers.
*/
module AttendanceHistory {
  import opened Common
  import Dates

  /** An attendance record; the durations are in minutes and a missing time is `None`. */
  datatype AttendanceRecord = AttendanceRecord(
    id: int, date: string, status: string,
    clockIn: Option<string>, clockOut: Option<string>,
    totalHours: int, breakTime: int, overtime: int)

  /** The record the filter panel hands on; absent values are empty strings. */
  datatype RecordFilters = RecordFilters(startDate: string, endDate: string, status: string, searchTerm: string)

  /** The page's six records. */
  const MockRecords: seq<AttendanceRecord> := [
    AttendanceRecord(1, "2025-01-06", "present", Some("08:30:00"), Some("17:15:00"), 495, 60, 15),
    AttendanceRecord(2, "2025-01-05", "late", Some("09:15:00"), Some("17:30:00"), 495, 60, 30),
    AttendanceRecord(3, "2025-01-04", "present", Some("08:25:00"), Some("17:00:00"), 515, 60, 35),
    AttendanceRecord(4, "2025-01-03", "present", Some("08:30:00"), Some("17:10:00"), 480, 60, 0),
    AttendanceRecord(5, "2025-01-02", "absent", None, None, 0, 0, 0),
    AttendanceRecord(6, "2025-01-01", "holiday", None, None, 0, 0, 0)
  ]

  /** The date filter applies only when both dates are given. */
  predicate DateActive(f: RecordFilters) { f.startDate != "" && f.endDate != "" }

  /** The status filter is skipped for '' and 'all'. */
  predicate StatusActive(f: RecordFilters) { f.status != "" && f.status != "all" }

  predicate SearchActive(f: RecordFilters) { f.searchTerm != "" }

  /**
    `recordDate >= startDate && recordDate <= endDate` on the parsed dates,
    both bounds included; a date that does not parse is an invalid date,
    which compares false with everything.
  */
  predicate InRange(date: string, startDate: string, endDate: string)
  {
    var d, s, e := Dates.ParseIsoDay(date), Dates.ParseIsoDay(startDate), Dates.ParseIsoDay(endDate);
    d.Some? && s.Some? && e.Some?
    && Dates.Ordinal(s.value) <= Dates.Ordinal(d.value) <= Dates.Ordinal(e.value)
  }

  /** The search keeps a record whose date, or lower-cased status, contains the lower-cased term. */
  predicate MatchesTerm(r: AttendanceRecord, term: string)
  {
    var t := Lower(term);
    Includes(r.date, t) || Includes(Lower(r.status), t)
  }

  /** Each pass's test, which lets everything through when its filter is inactive. */
  function DatePass(f: RecordFilters): AttendanceRecord -> bool
  {
    (r: AttendanceRecord) => !DateActive(f) || InRange(r.date, f.startDate, f.endDate)
  }

  function StatusPass(f: RecordFilters): AttendanceRecord -> bool
  {
    (r: AttendanceRecord) => !StatusActive(f) || r.status == f.status
  }

  function SearchPass(f: RecordFilters): AttendanceRecord -> bool
  {
    (r: AttendanceRecord) => !SearchActive(f) || MatchesTerm(r, f.searchTerm)
  }

  /** A record is kept when it passes every active filter. */
  predicate Keeps(f: RecordFilters, r: AttendanceRecord)
  {
    DatePass(f)(r) && StatusPass(f)(r) && SearchPass(f)(r)
  }

  function KeepsFn(f: RecordFilters): AttendanceRecord -> bool
  {
    (r: AttendanceRecord) => Keeps(f, r)
  }

  /** The records that pass every active filter, in their order. */
  function Matching(records: seq<AttendanceRecord>, f: RecordFilters): seq<AttendanceRecord>
  {
    Filter(records, KeepsFn(f))
  }

  /**
    `handleFiltersChange`: a copy of the records narrowed by the date pass,
    the status pass and the search pass, each run only when its filter is
    active.
  */
  method FilterRecords(records: seq<AttendanceRecord>, f: RecordFilters) returns (filtered: seq<AttendanceRecord>)
    ensures filtered == Matching(records, f)
  {
    filtered := records;
    if DateActive(f) {
      filtered := Filter(filtered, DatePass(f));
    } else {
      FilterAllPass(records, DatePass(f));
    }
    assert filtered == Filter(records, DatePass(f));
    var afterDate := filtered;
    if StatusActive(f) {
      filtered := Filter(filtered, StatusPass(f));
    } else {
      FilterAllPass(afterDate, StatusPass(f));
    }
    assert filtered == Filter(afterDate, StatusPass(f));
    var afterStatus := filtered;
    if SearchActive(f) {
      filtered := Filter(filtered, SearchPass(f));
    } else {
      FilterAllPass(afterStatus, SearchPass(f));
    }
    var dateAndStatus := (r: AttendanceRecord) => DatePass(f)(r) && StatusPass(f)(r);
    FilterFuse(records, DatePass(f), StatusPass(f), dateAndStatus);
    FilterFuse(records, dateAndStatus, SearchPass(f), KeepsFn(f));
  }

  /**
    The result is an order-preserving subsequence of the records, holding
    exactly the records that pass every active filter, each as often as it
    occurs among the records.
  */
  lemma MatchingIsIntersection(records: seq<AttendanceRecord>, f: RecordFilters, r: AttendanceRecord)
    ensures IsSubseq(Matching(records, f), records)
    ensures r in Matching(records, f) <==> (r in records
      && (DateActive(f) ==> InRange(r.date, f.startDate, f.endDate))
      && (StatusActive(f) ==> r.status == f.status)
      && (SearchActive(f) ==> MatchesTerm(r, f.searchTerm)))
    ensures multiset(Matching(records, f))[r] == if Keeps(f, r) then multiset(records)[r] else 0
  {
    FilterIsSubseq(records, KeepsFn(f));
    FilterMultiset(records, KeepsFn(f), r);
  }

  /** With no active filter every record is returned. */
  lemma NoFilterKeepsAll(records: seq<AttendanceRecord>, f: RecordFilters)
    requires !DateActive(f) && !StatusActive(f) && !SearchActive(f)
    ensures Matching(records, f) == records
  {
    FilterAllPass(records, KeepsFn(f));
  }

  /** A range from a valid day to the same day keeps the records dated that day. */
  lemma SingleDayRange(day: Dates.Day)
    requires Dates.ValidDay(day) && 0 <= day.year < 10000
    ensures InRange(Dates.IsoKey(day), Dates.IsoKey(day), Dates.IsoKey(day))
  {
    Dates.ParseIsoKey(day);
  }

  /** Filtering the mock records on 'late' finds the one late day. */
  lemma LateRecords()
    ensures Matching(MockRecords, RecordFilters("", "", "late", "")) == [MockRecords[1]]
  {
    var s, p := MockRecords, KeepsFn(RecordFilters("", "", "late", ""));
    forall i | 0 <= i < |s| ensures p(s[i]) == IsLate(s[i]) {
      StatusOnly(RecordFilters("", "", "late", ""), s[i]);
    }
    FilterCongruent(s, p, IsLate);
    LateMocks();
  }

  predicate IsLate(r: AttendanceRecord) { r.status == "late" }

  /** With only the status filter active, a record is kept when it has that status. */
  lemma StatusOnly(f: RecordFilters, r: AttendanceRecord)
    requires !DateActive(f) && !SearchActive(f)
    ensures KeepsFn(f)(r) == (StatusActive(f) ==> r.status == f.status)
  {
  }

  /** Exactly the second mock record is late. */
  lemma LateMocks()
    ensures Filter(MockRecords, IsLate) == [MockRecords[1]]
  {
    var s := MockRecords;
    assert s[0].status[0] == 'p' && s[2].status[0] == 'p' && s[3].status[0] == 'p';
    assert s[4].status[0] == 'a' && s[5].status[0] == 'h';
    FilterSinglePass(s, IsLate, 1);
  }

  /** The page's state; `store` is local storage. */
  class HistoryPage {
    var currentLanguage: string
    var filteredRecords: seq<AttendanceRecord>
    var isClocked: bool
    var isLoading: bool
    var isExporting: bool
    var store: map<string, string>
    var navigatedTo: Option<string>

    constructor (initialStore: map<string, string>)
      ensures currentLanguage == "fr" && filteredRecords == [] && !isClocked && !isLoading && !isExporting
      ensures store == initialStore && navigatedTo == None
    {
      currentLanguage := "fr";
      filteredRecords := [];
      isClocked := false;
      isLoading := false;
      isExporting := false;
      store := initialStore;
      navigatedTo := None;
    }

    /** The mount effect: the saved `language` or French, and every record listed. */
    method Mount()
      modifies this`currentLanguage, this`filteredRecords
      ensures currentLanguage == if "language" in store && store["language"] != "" then store["language"] else "fr"
      ensures filteredRecords == MockRecords
    {
      currentLanguage := if "language" in store && store["language"] != "" then store["language"] else "fr";
      filteredRecords := MockRecords;
    }

    /** The filter panel's callback: the records are filtered afresh from all of them. */
    method FiltersChange(f: RecordFilters)
      modifies this`filteredRecords
      ensures filteredRecords == Matching(MockRecords, f)
    {
      filteredRecords := FilterRecords(MockRecords, f);
    }

    method ClockIn()
      modifies this`isLoading, this`isClocked
      ensures isClocked && !isLoading
    {
      isLoading := true;
      isClocked := true;
      isLoading := false;
    }

    method ClockOut()
      modifies this`isLoading, this`isClocked
      ensures !isClocked && !isLoading
    {
      isLoading := true;
      isClocked := false;
      isLoading := false;
    }

    /** `handleExport`: the flag is raised for the (simulated) export and lowered after it. */
    method Export()
      modifies this`isExporting
      ensures !isExporting
    {
      isExporting := true;
      isExporting := false;
    }

    method ChangeLanguage(code: string)
      modifies this`currentLanguage, this`store
      ensures currentLanguage == code && store == old(store)["language" := code]
    {
      currentLanguage := code;
      store := store["language" := code];
    }

    /** `handleLogout`: only the `language` key is removed, then the login page opens. */
    method Logout()
      modifies this`store, this`navigatedTo
      ensures store == old(store) - {"language"} && navigatedTo == Some("/login-authentication")
    {
      store := store - {"language"};
      navigatedTo := Some("/login-authentication");
    }
  }
}
