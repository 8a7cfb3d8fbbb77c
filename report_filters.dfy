/**
  The report configuration form of the attendance reports page: a filter
  record edited one key at a time, handed to the page on "generate", and
  reset to its initial values on "clear".
*/
module ReportFilters {
  /** The form's record. */
  datatype ReportFilterSet = ReportFilterSet(
    startDate: string, endDate: string,
    departments: seq<string>, employees: seq<string>,
    reportType: string,
    includeOvertime: bool, includeBreaks: bool, customHours: bool)

  /** The initial record, which "clear" restores. */
  const Defaults := ReportFilterSet("", "", [], [], "daily-summary", true, false, false)

  /** `handleFilterChange(key, value)`: the key edited, with its new value. */
  datatype Edit =
    | SetStartDate(date: string) | SetEndDate(date: string)
    | SetDepartments(list: seq<string>) | SetEmployees(list: seq<string>)
    | SetReportType(kind: string)
    | SetIncludeOvertime(flag: bool) | SetIncludeBreaks(flag: bool) | SetCustomHours(flag: bool)

  /** `{ ...prev, [key]: value }`. */
  function Apply(f: ReportFilterSet, e: Edit): (r: ReportFilterSet)
    ensures e.SetStartDate? ==> r == f.(startDate := e.date)
    ensures e.SetEndDate? ==> r == f.(endDate := e.date)
    ensures e.SetDepartments? ==> r == f.(departments := e.list)
    ensures e.SetEmployees? ==> r == f.(employees := e.list)
    ensures e.SetReportType? ==> r == f.(reportType := e.kind)
    ensures e.SetIncludeOvertime? ==> r == f.(includeOvertime := e.flag)
    ensures e.SetIncludeBreaks? ==> r == f.(includeBreaks := e.flag)
    ensures e.SetCustomHours? ==> r == f.(customHours := e.flag)
  {
    match e
    case SetStartDate(v) => f.(startDate := v)
    case SetEndDate(v) => f.(endDate := v)
    case SetDepartments(v) => f.(departments := v)
    case SetEmployees(v) => f.(employees := v)
    case SetReportType(v) => f.(reportType := v)
    case SetIncludeOvertime(v) => f.(includeOvertime := v)
    case SetIncludeBreaks(v) => f.(includeBreaks := v)
    case SetCustomHours(v) => f.(customHours := v)
  }

  /** Two edits touch the same key when they are of the same kind. */
  predicate SameKey(a: Edit, b: Edit)
  {
    (a.SetStartDate? && b.SetStartDate?) || (a.SetEndDate? && b.SetEndDate?)
    || (a.SetDepartments? && b.SetDepartments?) || (a.SetEmployees? && b.SetEmployees?)
    || (a.SetReportType? && b.SetReportType?) || (a.SetIncludeOvertime? && b.SetIncludeOvertime?)
    || (a.SetIncludeBreaks? && b.SetIncludeBreaks?) || (a.SetCustomHours? && b.SetCustomHours?)
  }

  /**
    Each edit changes only its key: edits of different keys commute, and
    of two edits of the same key the later one wins.
  */
  lemma EditsAreIndependent(f: ReportFilterSet, a: Edit, b: Edit)
    ensures !SameKey(a, b) ==> Apply(Apply(f, a), b) == Apply(Apply(f, b), a)
    ensures SameKey(a, b) ==> Apply(Apply(f, a), b) == Apply(f, b)
  {
  }

  /** Applying a sequence of edits in order. */
  function ApplyAll(f: ReportFilterSet, edits: seq<Edit>): ReportFilterSet
    decreases |edits|
  {
    if edits == [] then f else ApplyAll(Apply(f, edits[0]), edits[1..])
  }

  /** The form's state, the records handed to `onGenerateReport` and the calls of `onClearFilters`. */
  class FilterForm {
    var filters: ReportFilterSet
    var generated: seq<ReportFilterSet>
    var clearCalls: nat

    constructor ()
      ensures filters == Defaults && generated == [] && clearCalls == 0
    {
      filters := Defaults;
      generated := [];
      clearCalls := 0;
    }

    method Change(e: Edit)
      modifies this`filters
      ensures filters == Apply(old(filters), e)
    {
      filters := Apply(filters, e);
    }

    /** `handleGenerateReport`: the current record, unchanged. */
    method Generate()
      modifies this`generated
      ensures generated == old(generated) + [filters]
    {
      generated := generated + [filters];
    }

    /** The clear button; it is disabled while a report is being generated. */
    method ClickClear(isGenerating: bool)
      modifies this`filters, this`clearCalls
      ensures isGenerating ==> filters == old(filters) && clearCalls == old(clearCalls)
      ensures !isGenerating ==> filters == Defaults && clearCalls == old(clearCalls) + 1
    {
      if !isGenerating {
        filters := Defaults;
        clearCalls := clearCalls + 1;
      }
    }
  }

  /**
    Whatever was edited, clearing while idle comes back to the initial
    record, and generating then hands on exactly that record.
  */
  method EditClearGenerate(edits: seq<Edit>) returns (sent: seq<ReportFilterSet>, cleared: nat)
    ensures sent == [Defaults] && cleared == 1
  {
    var form := new FilterForm();
    var i := 0;
    while i < |edits|
      invariant 0 <= i <= |edits|
      invariant form.generated == [] && form.clearCalls == 0
      invariant form.filters == ApplyAll(Defaults, edits[..i])
    {
      form.Change(edits[i]);
      ApplyAllSnoc(Defaults, edits[..i], edits[i]);
      assert edits[..i + 1] == edits[..i] + [edits[i]];
      i := i + 1;
    }
    form.ClickClear(false);
    form.Generate();
    sent, cleared := form.generated, form.clearCalls;
  }

  lemma {:induction false} ApplyAllSnoc(f: ReportFilterSet, edits: seq<Edit>, e: Edit)
    ensures ApplyAll(f, edits + [e]) == Apply(ApplyAll(f, edits), e)
    decreases |edits|
  {
    if edits != [] {
      assert (edits + [e])[1..] == edits[1..] + [e];
      ApplyAllSnoc(Apply(f, edits[0]), edits[1..], e);
    }
  }
}
