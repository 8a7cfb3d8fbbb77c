/**
  The employee table: a free-text search over name, employee id,
  department and role, a sort on the clicked column, pages of ten rows,
  and a selection of employee ids for the bulk actions.
*/
module EmployeeTable {
  import opened Common
  import opened Employees
  import opened Sorting

  /** The sortable columns. */
  datatype Column = EmployeeIdCol | NameCol | DepartmentCol | RoleCol | EnrollmentCol | LastActivityCol

  /** The value the comparator reads for a column; `lastActivity` is compared as a date. */
  function CellValue(c: Column): Employee -> SortValue
  {
    match c
    case EmployeeIdCol => (e: Employee) => Text(e.employeeId)
    case NameCol => (e: Employee) => Text(e.name)
    case DepartmentCol => (e: Employee) => Text(e.department)
    case RoleCol => (e: Employee) => Text(e.role)
    case EnrollmentCol => (e: Employee) => Text(e.enrollmentStatus)
    case LastActivityCol => (e: Employee) => Time(e.lastActivity)
  }

  /** The search keeps an employee when the lower-cased term occurs in one of four lower-cased fields. */
  predicate MatchesSearch(e: Employee, term: string)
  {
    var t := Lower(term);
    Includes(Lower(e.name), t) || Includes(Lower(e.employeeId), t)
    || Includes(Lower(e.department), t) || Includes(Lower(e.role), t)
  }

  /** The filtering half of `filteredAndSortedEmployees`. */
  function Search(es: seq<Employee>, term: string): (r: seq<Employee>)
    ensures forall e :: e in r <==> e in es && MatchesSearch(e, term)
  {
    Filter(es, (e: Employee) => MatchesSearch(e, term))
  }

  /** An empty search shows every employee. */
  lemma EmptySearchKeepsAll(es: seq<Employee>)
    ensures Search(es, "") == es
  {
    forall i | 0 <= i < |es| ensures MatchesSearch(es[i], "") {
      IncludesEmpty(Lower(es[i].name));
    }
    FilterAllPass(es, (e: Employee) => MatchesSearch(e, ""));
  }

  /** Searching is insensitive to the case of the term's ASCII letters. */
  lemma SearchIgnoresCase(e: Employee, term: string)
    ensures MatchesSearch(e, term) == MatchesSearch(e, Lower(term))
  {
    assert Lower(Lower(term)) == Lower(term);
  }

  /**
    `filteredAndSortedEmployees`: the employees that match the search,
    sorted in place on the configured column and direction.
  */
  method FilterAndSort(es: seq<Employee>, term: string, config: SortConfig<Column>) returns (r: seq<Employee>)
    ensures multiset(r) == multiset(Search(es, term))
    ensures SortedBy(r, CellValue(config.key), config.direction)
  {
    r := SortedCopy(Search(es, term), CellValue(config.key), config.direction);
  }

  const PageSize := 10

  /** `Math.ceil(n / 10)`. */
  function TotalPages(n: nat): (p: nat)
    ensures n == 0 ==> p == 0
    ensures n > 0 ==> PageSize * (p - 1) < n <= PageSize * p
  {
    (n + PageSize - 1) / PageSize
  }

  /** `slice((page - 1) * 10, (page - 1) * 10 + 10)` for a page number of at least 1. */
  function Page<T>(s: seq<T>, page: int): (r: seq<T>)
    requires page >= 1
    ensures |r| <= PageSize
    ensures forall i :: 0 <= i < |r| ==> (page - 1) * PageSize + i < |s| && r[i] == s[(page - 1) * PageSize + i]
    ensures |r| < PageSize ==> (page - 1) * PageSize + |r| >= |s|
  {
    var start := (page - 1) * PageSize;
    if start >= |s| then [] else s[start..if start + PageSize <= |s| then start + PageSize else |s|]
  }

  /** Row `i` of the list is shown at position `i % 10` of page `i / 10 + 1`, a page that exists. */
  lemma RowOnItsPage<T>(s: seq<T>, i: int)
    requires 0 <= i < |s|
    ensures 1 <= i / PageSize + 1 <= TotalPages(|s|)
    ensures i % PageSize < |Page(s, i / PageSize + 1)|
    ensures Page(s, i / PageSize + 1)[i % PageSize] == s[i]
  {
  }

  /** Pages beyond the last are empty; the pages that exist are not. */
  lemma PageEmptyIffBeyond<T>(s: seq<T>, page: int)
    requires page >= 1
    ensures Page(s, page) == [] <==> page > TotalPages(|s|)
  {
  }

  /** The pager is shown when there is more than one page: more than ten rows. */
  predicate PaginationShown(n: nat)
  {
    TotalPages(n) > 1
  }

  lemma PaginationShownIffMoreThanAPage(n: nat)
    ensures PaginationShown(n) <==> n > PageSize
  {
  }

  /** The "showing from–to of n" text of the pager. */
  function ShowingRange(page: int, n: nat): (int, int)
  {
    ((page - 1) * PageSize + 1, if page * PageSize < n then page * PageSize else n)
  }

  /** On an existing page, the range text counts exactly the rows shown. */
  lemma ShowingRangeMatchesPage<T>(s: seq<T>, page: int)
    requires 1 <= page <= TotalPages(|s|)
    ensures ShowingRange(page, |s|).1 - ShowingRange(page, |s|).0 + 1 == |Page(s, page)|
  {
  }

  /** "Next": one page on, never past the last page. */
  function NextPage(page: int, total: nat): (p: int)
    ensures page < total ==> p == page + 1
    ensures total <= page ==> p == total
  {
    if page + 1 < total then page + 1 else total
  }

  /** "Previous": one page back, never below the first. */
  function PreviousPage(page: int): (p: int)
    ensures p >= 1
    ensures page > 1 ==> p == page - 1
  {
    if page - 1 > 1 then page - 1 else 1
  }

  /**
    The search box does not reset the current page. From page 3 of a
    long list, a search that leaves five matches shows an empty page and
    no pager to leave it, although there are results.
  */
  lemma SearchStrandsPage<T>(matches: seq<T>)
    requires |matches| == 5
    ensures |matches| > 0 && Page(matches, 3) == [] && !PaginationShown(|matches|)
  {
  }

  /** The intended page after a search: the current one, brought back into the existing pages. */
  function ClampPage(page: int, total: nat): (p: int)
    ensures p >= 1
    ensures total > 0 ==> p <= total
    ensures 1 <= page <= total ==> p == page
  {
    if page > total then (if total > 0 then total else 1) else if page < 1 then 1 else page
  }

  /** With the page brought back into range, any non-empty result list shows rows. */
  lemma ClampedPageShowsRows<T>(matches: seq<T>, page: int)
    requires |matches| > 0
    ensures Page(matches, ClampPage(page, TotalPages(|matches|))) != []
  {
    PageEmptyIffBeyond(matches, ClampPage(page, TotalPages(|matches|)));
  }

  /**
    `prev.filter(id => id !== employeeId)`: every occurrence of the id
    leaves the selection, and the other ids stay, as often as before and
    in their order.
  */
  function Deselect(selected: seq<int>, id: int): (r: seq<int>)
    ensures id !in r
    ensures forall x :: x != id ==> multiset(r)[x] == multiset(selected)[x]
    ensures IsSubseq(r, selected)
  {
    var keep := (y: int) => y != id;
    forall x ensures multiset(Filter(selected, keep))[x] == if x != id then multiset(selected)[x] else 0 {
      FilterMultiset(selected, keep, x);
    }
    FilterIsSubseq(selected, keep);
    Filter(selected, keep)
  }

  /** The header checkbox as written: checked when as many ids are selected as rows are shown. */
  predicate HeaderCheckedAsWritten(selected: seq<int>, page: seq<Employee>)
  {
    |selected| == |page| && |page| > 0
  }

  /**
    As written the header box can be checked on a page where no row is
    selected: select all ten rows of page 1, then go to page 2.
  */
  lemma HeaderCheckedWithNothingSelected(page1: seq<Employee>, page2: seq<Employee>)
    requires |page1| == PageSize && |page2| == PageSize
    requires forall i, j :: 0 <= i < |page1| && 0 <= j < |page2| ==> page1[i].id != page2[j].id
    ensures HeaderCheckedAsWritten(Ids(page1), page2)
    ensures forall e :: e in page2 ==> e.id !in Ids(page1)
  {
  }

  /** The intended header box: checked when the page has rows and every row is selected. */
  predicate HeaderChecked(selected: seq<int>, page: seq<Employee>)
  {
    |page| > 0 && forall e :: e in page ==> e.id in selected
  }

  /** "Select all" checks the intended header box; clearing the selection unchecks it. */
  lemma SelectAllChecksHeader(page: seq<Employee>)
    requires |page| > 0
    ensures HeaderChecked(Ids(page), page)
    ensures !HeaderChecked([], page)
  {
    forall e | e in page ensures e.id in Ids(page) {
      var i :| 0 <= i < |page| && page[i] == e;
      assert Ids(page)[i] == e.id;
    }
    assert page[0] in page;
  }

  datatype Badge = EnrolledBadge | NotEnrolledBadge | PendingBadge

  /** `getEnrollmentStatusBadge`: an unknown status falls back to "not enrolled". */
  function EnrollmentBadge(status: string): (b: Badge)
    ensures b == EnrolledBadge <==> status == "enrolled"
    ensures b == PendingBadge <==> status == "pending"
  {
    if status == "enrolled" then EnrolledBadge
    else if status == "pending" then PendingBadge
    else NotEnrolledBadge
  }

  /** The table's own state. */
  class EmployeeTableState {
    var searchTerm: string
    var sortConfig: SortConfig<Column>
    var selected: seq<int>
    var currentPage: int

    predicate Valid()
      reads this
    {
      currentPage >= 1
    }

    constructor ()
      ensures Valid()
      ensures searchTerm == "" && sortConfig == SortConfig(NameCol, Asc) && selected == [] && currentPage == 1
    {
      searchTerm := "";
      sortConfig := SortConfig(NameCol, Asc);
      selected := [];
      currentPage := 1;
    }

    /**
      Typing in the search box over the employees `es`. The code as written
      keeps the current page (see `SearchStrandsPage`); here the page is
      brought back into the pages of the new result with `ClampPage`, so a
      search with results always shows some.
    */
    method SetSearch(term: string, es: seq<Employee>)
      requires Valid()
      modifies this`searchTerm, this`currentPage
      ensures Valid() && searchTerm == term
      ensures currentPage == ClampPage(old(currentPage), TotalPages(|Search(es, term)|))
      ensures Search(es, term) != [] ==> Page(Search(es, term), currentPage) != []
    {
      searchTerm := term;
      var matches := Search(es, term);
      currentPage := ClampPage(currentPage, TotalPages(|matches|));
      if matches != [] {
        ClampedPageShowsRows(matches, old(currentPage));
      }
    }

    /**
      `rows` is `filteredAndSortedEmployees` over the employees `es`: the
      search result for the table's term, sorted on its configuration, as
      `FilterAndSort` produces it.
    */
    ghost predicate Displays(es: seq<Employee>, rows: seq<Employee>)
      reads this
    {
      multiset(rows) == multiset(Search(es, searchTerm))
      && SortedBy(rows, CellValue(sortConfig.key), sortConfig.direction)
    }

    /**
      The header checkbox over `paginatedEmployees`, the current page of the
      displayed rows, as intended by `HeaderChecked` rather than by comparing
      lengths (see `HeaderCheckedWithNothingSelected`).
    */
    function HeaderBox(es: seq<Employee>, rows: seq<Employee>): (checked: bool)
      requires Valid() && Displays(es, rows)
      reads this
      ensures var page := Page(rows, currentPage);
        checked <==> |page| > 0 && forall i :: 0 <= i < |page| ==> page[i].id in selected
    {
      HeaderChecked(selected, Page(rows, currentPage))
    }

    /** `handleSort`. */
    method Sort(c: Column)
      modifies this`sortConfig
      ensures sortConfig == Toggle(old(sortConfig), c)
    {
      sortConfig := Toggle(sortConfig, c);
    }

    /**
      `handleSelectAll`: the ids of `paginatedEmployees`, the current page of
      the displayed rows, or nothing; the header box then shows the choice.
    */
    method SelectAll(checked: bool, es: seq<Employee>, rows: seq<Employee>)
      requires Valid() && Displays(es, rows)
      modifies this`selected
      ensures selected == if checked then Ids(Page(rows, currentPage)) else []
      ensures checked && Page(rows, currentPage) != [] ==> HeaderBox(es, rows)
      ensures !checked ==> !HeaderBox(es, rows)
    {
      var page := Page(rows, currentPage);
      if checked {
        selected := Ids(page);
        if page != [] {
          SelectAllChecksHeader(page);
        }
      } else {
        selected := [];
        if page != [] {
          SelectAllChecksHeader(page);
        }
      }
    }

    /** `handleSelectEmployee`: a checked row's id is appended, an unchecked one removed. */
    method SelectEmployee(id: int, checked: bool)
      modifies this`selected
      ensures checked ==> selected == old(selected) + [id]
      ensures !checked ==> selected == Deselect(old(selected), id)
    {
      if checked {
        selected := selected + [id];
      } else {
        selected := Deselect(selected, id);
      }
    }

    /**
      "Next" in the pager over the displayed rows `rows`, whose page count
      is `totalPages`; the pager is shown only with more than one page.
    */
    method NextPageClick(es: seq<Employee>, rows: seq<Employee>)
      requires Valid() && Displays(es, rows) && PaginationShown(|rows|)
      modifies this`currentPage
      ensures Valid()
      ensures currentPage == NextPage(old(currentPage), TotalPages(|rows|))
      ensures old(currentPage) <= TotalPages(|rows|) ==> currentPage <= TotalPages(|rows|)
    {
      currentPage := NextPage(currentPage, TotalPages(|rows|));
    }

    /** "Previous" in the pager. */
    method PreviousPageClick()
      requires Valid()
      modifies this`currentPage
      ensures Valid()
      ensures currentPage == PreviousPage(old(currentPage))
    {
      currentPage := PreviousPage(currentPage);
    }
  }
}
