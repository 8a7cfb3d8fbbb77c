/**
  The employee-management page: it owns the list of employees and the
  quick filters, derives the filtered list and the department list, and
  adds, deletes and exports employees.
*/
module EmployeeManagement {
  import opened Common
  import opened Employees
  import opened QuickFilters
  import opened AddEmployeeModal

  /** `filteredEmployees`' test: every non-empty filter must equal the employee's field. */
  predicate MatchesFilters(e: Employee, f: EmployeeFilters)
  {
    (f.department == "" || e.department == f.department)
    && (f.enrollmentStatus == "" || e.enrollmentStatus == f.enrollmentStatus)
    && (f.role == "" || e.role == f.role)
  }

  /** `filteredEmployees`: the employees that pass every set filter, in their order. */
  function FilterEmployees(es: seq<Employee>, f: EmployeeFilters): (r: seq<Employee>)
    ensures forall e :: e in r <==> e in es && MatchesFilters(e, f)
    ensures IsSubseq(r, es)
  {
    FilterIsSubseq(es, x => MatchesFilters(x, f));
    Filter(es, x => MatchesFilters(x, f))
  }

  /** With no active filter every employee is shown. */
  lemma NoActiveFilterKeepsAll(es: seq<Employee>, f: EmployeeFilters)
    requires ActiveFilterCount(f) == 0
    ensures FilterEmployees(es, f) == es
  {
    FilterAllPass(es, x => MatchesFilters(x, f));
  }

  /** Each employee that passes is kept as many times as it occurs; the others are dropped. */
  lemma FilterEmployeesCounts(es: seq<Employee>, f: EmployeeFilters, e: Employee)
    ensures multiset(FilterEmployees(es, f))[e] == if MatchesFilters(e, f) then multiset(es)[e] else 0
  {
    FilterMultiset(es, x => MatchesFilters(x, f), e);
  }

  /** `uniqueDepartments`: each department once, in order of first appearance. */
  function UniqueDepartments(es: seq<Employee>): (r: seq<string>)
    ensures forall d :: d in r <==> exists e :: e in es && e.department == d
    ensures forall i, j :: 0 <= i < j < |r| ==> r[i] != r[j]
  {
    var ds := Departments(es);
    assert forall d :: d in ds <==> exists e :: e in es && e.department == d by {
      forall d | d in ds ensures exists e :: e in es && e.department == d {
        var i :| 0 <= i < |ds| && ds[i] == d;
        assert es[i] in es;
      }
      forall d | exists e :: e in es && e.department == d ensures d in ds {
        var e :| e in es && e.department == d;
        var i :| 0 <= i < |es| && es[i] == e;
        assert ds[i] == d;
      }
    }
    Distinct(ds)
  }

  /** Every employee's department is offered by the quick-filter department select. */
  lemma DepartmentOptionsCoverEmployees(es: seq<Employee>, e: Employee)
    requires e in es
    ensures e.department in DepartmentOptions(UniqueDepartments(es))
    ensures DepartmentOptions(UniqueDepartments(es))[0] == ""
  {
    assert e.department in UniqueDepartments(es);
  }

  /** The default avatar used when the form has no face image. */
  const DefaultAvatar := "https://images.unsplash.com/photo-1472099645785-5658abf4ff4e?w=150&h=150&fit=crop&crop=face"

  /**
    `newEmployee` of `handleAddEmployee`: the form's fields, the full name
    "first last", enrolled exactly when a face image was given, active,
    and the face image (or the default picture) as avatar.
  */
  function NewEmployee(id: int, data: FormData, now: int): (e: Employee)
    ensures e.id == id && e.employeeId == data.employeeId && e.department == data.department && e.role == data.role
    ensures e.name == data.firstName + " " + data.lastName
    ensures e.enrollmentStatus == "enrolled" <==> HasFace(data)
    ensures e.isActive && e.lastActivity == now
  {
    Employee(
      id, data.employeeId, data.firstName + " " + data.lastName, data.email, data.phone,
      data.department, data.role, data.startDate,
      if HasFace(data) then "enrolled" else "notEnrolled",
      true,
      if HasFace(data) then data.faceImage.value else DefaultAvatar,
      now)
  }

  /** The id `handleAddEmployee` gives a new employee: one more than the list's length. */
  function NextIdAsWritten(es: seq<Employee>): int
  {
    |es| + 1
  }

  /** `prev.filter(emp => emp.id !== id)`. */
  function WithoutId(es: seq<Employee>, id: int): (r: seq<Employee>)
    ensures forall e :: e in r <==> e in es && e.id != id
  {
    Filter(es, (e: Employee) => e.id != id)
  }

  /** `prev.filter(emp => !selectedIds.includes(emp.id))`. */
  function WithoutIds(es: seq<Employee>, ids: seq<int>): (r: seq<Employee>)
    ensures forall e :: e in r <==> e in es && e.id !in ids
  {
    Filter(es, (e: Employee) => e.id !in ids)
  }

  /** Deleting removes exactly the records with that id and keeps the rest in order. */
  lemma WithoutIdRemovesExactly(es: seq<Employee>, id: int, e: Employee)
    ensures multiset(WithoutId(es, id))[e] == if e.id == id then 0 else multiset(es)[e]
    ensures IsSubseq(WithoutId(es, id), es)
  {
    FilterMultiset(es, (x: Employee) => x.id != id, e);
    FilterIsSubseq(es, (x: Employee) => x.id != id);
  }

  /**
    As written, ids repeat once an employee has been deleted: from ids
    1, 2, 3, deleting 1 and adding one gives a second employee with id 3,
    and deleting that id then removes two employees.
  */
  lemma DuplicateIdAfterDelete(a: Employee, b: Employee, c: Employee, data: FormData, now: int)
    requires a.id == 1 && b.id == 2 && c.id == 3
    ensures var after := WithoutId([a, b, c], 1) + [NewEmployee(NextIdAsWritten(WithoutId([a, b, c], 1)), data, now)];
      !UniqueIds(after) && |WithoutId(after, 3)| == |after| - 2
  {
    var es := [a, b, c];
    FilterOfThree(es, (e: Employee) => e.id != 1);
    assert WithoutId(es, 1) == [b, c];
    var n := NewEmployee(3, data, now);
    var after := [b, c, n];
    assert WithoutId(es, 1) + [n] == after;
    FilterOfThree(after, (e: Employee) => e.id != 3);
    assert WithoutId(after, 3) == [b];
    assert after[1].id == after[2].id;
  }

  /** `Filter` on three elements, one element at a time. */
  lemma FilterOfThree(s: seq<Employee>, p: Employee -> bool)
    requires |s| == 3
    ensures Filter(s, p) == (if p(s[0]) then [s[0]] else []) + ((if p(s[1]) then [s[1]] else []) + (if p(s[2]) then [s[2]] else []))
  {
    var s1, s2 := s[1..], s[2..];
    assert s1[1..] == s2 && s2[1..] == [];
    FilterStep(s2, p);
    FilterStep(s1, p);
    FilterStep(s, p);
  }

  /** The largest id in the list (0 for an empty list). */
  function MaxId(es: seq<Employee>): (m: int)
    ensures forall i :: 0 <= i < |es| ==> es[i].id <= m
  {
    if es == [] then 0
    else var m := MaxId(es[..|es| - 1]); if es[|es| - 1].id > m then es[|es| - 1].id else m
  }

  /** The intended id: one more than any id in use. */
  function NextFreeId(es: seq<Employee>): (id: int)
    ensures forall i :: 0 <= i < |es| ==> es[i].id != id
  {
    MaxId(es) + 1
  }

  /** With `NextFreeId`, adding an employee keeps ids unique, whatever was deleted before. */
  lemma AddKeepsIdsUnique(es: seq<Employee>, data: FormData, now: int)
    requires UniqueIds(es)
    ensures UniqueIds(es + [NewEmployee(NextFreeId(es), data, now)])
  {
  }

  /** Removing employees keeps ids unique. */
  lemma DeleteKeepsIdsUnique(es: seq<Employee>, ids: seq<int>)
    requires UniqueIds(es)
    ensures UniqueIds(WithoutIds(es, ids))
  {
    var r := WithoutIds(es, ids);
    FilterIsSubseq(es, (e: Employee) => e.id !in ids);
    SubseqUnique(r, es);
  }

  lemma {:induction false} SubseqUnique(a: seq<Employee>, b: seq<Employee>)
    requires IsSubseq(a, b) && UniqueIds(b)
    ensures UniqueIds(a)
    decreases |b|
  {
    if a != [] {
      if a[0] == b[0] && IsSubseq(a[1..], b[1..]) {
        SubseqUnique(a[1..], b[1..]);
        SubseqElements(a[1..], b[1..]);
        forall j | 0 < j < |a| ensures a[0].id != a[j].id {
          assert a[j] == a[1..][j - 1] && a[1..][j - 1] in a[1..];
          var k :| 0 <= k < |b[1..]| && b[1..][k] == a[j];
        }
      } else {
        SubseqUnique(a, b[1..]);
      }
    }
  }

  datatype BulkAction = DeleteSelected | ExportSelected

  /** The page's own state: the employee list and the export flag. */
  class EmployeeDirectory {
    var employees: seq<Employee>
    var isExporting: bool

    constructor (initial: seq<Employee>)
      ensures employees == initial && !isExporting
    {
      employees := initial;
      isExporting := false;
    }

    /**
      `handleAddEmployee` once its simulated delay is over: the new record
      is appended, with the id of `NextFreeId` (the code as written uses
      `NextIdAsWritten`, which can repeat an id).
    */
    method AddEmployee(data: FormData, now: int)
      modifies this`employees
      ensures employees == old(employees) + [NewEmployee(NextFreeId(old(employees)), data, now)]
      ensures UniqueIds(old(employees)) ==> UniqueIds(employees)
    {
      var e := NewEmployee(NextFreeId(employees), data, now);
      if UniqueIds(employees) {
        AddKeepsIdsUnique(employees, data, now);
      }
      employees := employees + [e];
    }

    /** `handleDeleteEmployee`: only when the user confirms. */
    method DeleteEmployee(e: Employee, confirmed: bool)
      modifies this`employees
      ensures employees == if confirmed then WithoutId(old(employees), e.id) else old(employees)
      ensures UniqueIds(old(employees)) ==> UniqueIds(employees)
    {
      if confirmed {
        if UniqueIds(employees) {
          WithoutIdRemovesExactly(employees, e.id, e);
          SubseqUnique(WithoutId(employees, e.id), employees);
        }
        employees := WithoutId(employees, e.id);
      }
    }

    /**
      `handleBulkAction`: a confirmed delete drops the selected ids; an
      export leaves the list alone and ends with the export flag off.
    */
    method BulkAct(action: BulkAction, selectedIds: seq<int>, confirmed: bool)
      modifies this
      ensures action == DeleteSelected ==> isExporting == old(isExporting)
      ensures action == DeleteSelected ==>
        employees == if confirmed then WithoutIds(old(employees), selectedIds) else old(employees)
      ensures action == ExportSelected ==> employees == old(employees) && !isExporting
      ensures UniqueIds(old(employees)) ==> UniqueIds(employees)
    {
      if action == DeleteSelected {
        if confirmed {
          if UniqueIds(employees) {
            DeleteKeepsIdsUnique(employees, selectedIds);
          }
          employees := WithoutIds(employees, selectedIds);
        }
      } else {
        isExporting := true;
        isExporting := false;
      }
    }

    /** `handleExportAll`: the list is untouched and the flag ends off. */
    method ExportAll()
      modifies this`isExporting
      ensures !isExporting
    {
      isExporting := true;
      isExporting := false;
    }

    /** The "export" button is disabled exactly when there is no employee. */
    function ExportDisabled(): (disabled: bool)
      reads this
      ensures disabled <==> |employees| == 0
    {
      |employees| == 0
    }
  }
}
