/**
  The filter panel of the attendance history: its own filter record,
  edited key by key without notice, and handed to the page on "apply", on
  a quick date range and on reset.
*/
module AttendanceFilters {
  import opened AttendanceHistory

  /** The keys the panel edits. */
  datatype Field = StartDate | EndDate | Status | SearchTerm

  /** `{ ...filters, [key]: value }`. */
  function With(f: RecordFilters, key: Field, value: string): (r: RecordFilters)
    ensures key == StartDate ==> r == f.(startDate := value)
    ensures key == EndDate ==> r == f.(endDate := value)
    ensures key == Status ==> r == f.(status := value)
    ensures key == SearchTerm ==> r == f.(searchTerm := value)
  {
    match key
    case StartDate => f.(startDate := value)
    case EndDate => f.(endDate := value)
    case Status => f.(status := value)
    case SearchTerm => f.(searchTerm := value)
  }

  /** The panel's initial and reset record. */
  const ResetFilters := RecordFilters("", "", "all", "")

  /** The reset record filters nothing out of the page's records. */
  lemma ResetShowsEverything(records: seq<AttendanceRecord>)
    ensures Matching(records, ResetFilters) == records
  {
    NoFilterKeepsAll(records, ResetFilters);
  }

  /** The panel's state, with the records handed to `onFiltersChange` in order. */
  class FilterPanel {
    var filters: RecordFilters
    var emitted: seq<RecordFilters>

    constructor ()
      ensures filters == ResetFilters && emitted == []
    {
      filters := ResetFilters;
      emitted := [];
    }

    /** `handleFilterChange`: one key of the local record changes; the page is not told. */
    method Change(key: Field, value: string)
      modifies this`filters
      ensures filters == With(old(filters), key, value)
    {
      filters := With(filters, key, value);
    }

    /**
      `handleQuickDateRange`: the range's dates replace the start and end
      dates, the status and the search term are kept, and the result is
      handed on. The dates are computed from the clock and are inputs here.
    */
    method QuickRange(startDate: string, endDate: string)
      modifies this
      ensures filters == old(filters).(startDate := startDate, endDate := endDate)
      ensures filters.status == old(filters).status && filters.searchTerm == old(filters).searchTerm
      ensures emitted == old(emitted) + [filters]
    {
      filters := filters.(startDate := startDate, endDate := endDate);
      emitted := emitted + [filters];
    }

    /** `handleApplyFilters`: the current record, unchanged. */
    method Apply()
      modifies this`emitted
      ensures emitted == old(emitted) + [filters]
    {
      emitted := emitted + [filters];
    }

    /** `handleResetFilters`. */
    method Reset()
      modifies this
      ensures filters == ResetFilters && emitted == old(emitted) + [ResetFilters]
    {
      filters := ResetFilters;
      emitted := emitted + [ResetFilters];
    }
  }

  /**
    Edits reach the page only on "apply": typing a search term and a
    status sends nothing, and applying sends both at once.
  */
  method EditThenApply(term: string, status: string) returns (beforeApply: seq<RecordFilters>, afterApply: seq<RecordFilters>)
    ensures beforeApply == []
    ensures afterApply == [RecordFilters("", "", status, term)]
  {
    var panel := new FilterPanel();
    panel.Change(SearchTerm, term);
    panel.Change(Status, status);
    beforeApply := panel.emitted;
    panel.Apply();
    afterApply := panel.emitted;
  }
}
