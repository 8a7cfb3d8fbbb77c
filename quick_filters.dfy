/**
  The quick-filter panel of the employee-management page: one select per
  filter (department, enrollment status, role), a "clear" button, and the
  count of active filters.
*/
module QuickFilters {
  import opened Employees

  datatype FilterKey = DepartmentKey | EnrollmentStatusKey | RoleKey

  function FilterValue(f: EmployeeFilters, k: FilterKey): string
  {
    match k
    case DepartmentKey => f.department
    case EnrollmentStatusKey => f.enrollmentStatus
    case RoleKey => f.role
  }

  /** `handleFilterChange(key, value)`: the new filter record handed to the page. */
  function ChangeFilter(f: EmployeeFilters, k: FilterKey, v: string): (r: EmployeeFilters)
    ensures FilterValue(r, k) == v
    ensures forall g :: g != k ==> FilterValue(r, g) == FilterValue(f, g)
  {
    match k
    case DepartmentKey => f.(department := v)
    case EnrollmentStatusKey => f.(enrollmentStatus := v)
    case RoleKey => f.(role := v)
  }

  /** `clearAllFilters`: the record handed to the page. */
  const Cleared := EmployeeFilters("", "", "")

  /** `Object.values(filters).filter(value => value && value !== '').length`. */
  function ActiveFilterCount(f: EmployeeFilters): (n: nat)
    ensures n <= 3
    ensures n == 0 <==> f == Cleared
  {
    (if f.department != "" then 1 else 0)
    + (if f.enrollmentStatus != "" then 1 else 0)
    + (if f.role != "" then 1 else 0)
  }

  /** The "clear filters" button and the active-filter count are shown exactly when a filter is set. */
  predicate ClearButtonShown(f: EmployeeFilters)
  {
    ActiveFilterCount(f) > 0
  }

  /** Clearing leaves no active filter, and after it the button is gone. */
  lemma ClearedHasNoActiveFilter()
    ensures ActiveFilterCount(Cleared) == 0 && !ClearButtonShown(Cleared)
  {
  }

  /** Setting one filter to a non-empty value shows the button; clearing it again drops the count by one. */
  lemma ChangeFilterCount(f: EmployeeFilters, k: FilterKey, v: string)
    ensures v != "" ==> ClearButtonShown(ChangeFilter(f, k, v))
    ensures ActiveFilterCount(ChangeFilter(f, k, v)) ==
      ActiveFilterCount(f) - (if FilterValue(f, k) != "" then 1 else 0) + (if v != "" then 1 else 0)
  {
  }

  /** The department select's options: "all departments" (value '') then the departments in order. */
  function DepartmentOptions(departments: seq<string>): (options: seq<string>)
    ensures |options| == |departments| + 1 && options[0] == ""
    ensures forall i :: 0 <= i < |departments| ==> options[i + 1] == departments[i]
  {
    [""] + departments
  }
}
