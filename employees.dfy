/**
  The employee record that the employee-management page keeps in its
  state and hands to the table, the statistics cards and the department
  chart, and the page's quick-filter record.
*/
module Employees {

  /** One employee; `lastActivity` is a time value in milliseconds. */
  datatype Employee = Employee(
    id: int,
    employeeId: string,
    name: string,
    email: string,
    phone: string,
    department: string,
    role: string,
    startDate: string,
    enrollmentStatus: string,
    isActive: bool,
    avatar: string,
    lastActivity: int)

  /** The page's quick filters; the empty string means "any". */
  datatype EmployeeFilters = EmployeeFilters(department: string, enrollmentStatus: string, role: string)

  /** `employees.map(emp => emp.id)`. */
  function Ids(es: seq<Employee>): (r: seq<int>)
    ensures |r| == |es| && forall i :: 0 <= i < |es| ==> r[i] == es[i].id
  {
    seq(|es|, i requires 0 <= i < |es| => es[i].id)
  }

  /** `employees.map(emp => emp.department)`. */
  function Departments(es: seq<Employee>): (r: seq<string>)
    ensures |r| == |es| && forall i :: 0 <= i < |es| ==> r[i] == es[i].department
  {
    seq(|es|, i requires 0 <= i < |es| => es[i].department)
  }

  /** No two employees share an `id`. */
  predicate UniqueIds(es: seq<Employee>)
  {
    forall i, j :: 0 <= i < j < |es| ==> es[i].id != es[j].id
  }
}
