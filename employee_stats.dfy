/**
  The statistics cards of the employee-management page: head counts by
  enrollment status and activity, and the two rounded percentages.
*/
module EmployeeStats {
  import opened Common
  import opened Employees

  predicate IsEnrolled(e: Employee) { e.enrollmentStatus == "enrolled" }
  predicate IsPending(e: Employee) { e.enrollmentStatus == "pending" }
  predicate IsActive(e: Employee) { e.isActive }

  datatype Stats = Stats(total: nat, enrolled: nat, active: nat, pending: nat)

  /** The `stats` record: the list length and three filter counts. */
  function ComputeStats(es: seq<Employee>): (s: Stats)
    ensures s.total == |es|
    ensures s.enrolled + s.pending <= s.total
    ensures s.active <= s.total
  {
    DisjointCounts(es, IsEnrolled, IsPending);
    Stats(|es|, |Filter(es, IsEnrolled)|, |Filter(es, IsActive)|, |Filter(es, IsPending)|)
  }

  /** Each count counts the employees in that state: the others make up the rest of the list. */
  lemma CountsComplement(es: seq<Employee>)
    ensures ComputeStats(es).enrolled + |Filter(es, (e: Employee) => !IsEnrolled(e))| == |es|
    ensures ComputeStats(es).active + |Filter(es, (e: Employee) => !IsActive(e))| == |es|
    ensures ComputeStats(es).pending + |Filter(es, (e: Employee) => !IsPending(e))| == |es|
  {
    FilterComplement(es, IsEnrolled, (e: Employee) => !IsEnrolled(e));
    FilterComplement(es, IsActive, (e: Employee) => !IsActive(e));
    FilterComplement(es, IsPending, (e: Employee) => !IsPending(e));
  }

  /** Each count is the number of occurrences of the employees in that state. */
  lemma CountsAreOccurrences(es: seq<Employee>, e: Employee)
    ensures multiset(Filter(es, IsEnrolled))[e] == if IsEnrolled(e) then multiset(es)[e] else 0
    ensures multiset(Filter(es, IsActive))[e] == if IsActive(e) then multiset(es)[e] else 0
    ensures multiset(Filter(es, IsPending))[e] == if IsPending(e) then multiset(es)[e] else 0
  {
    FilterMultiset(es, IsEnrolled, e);
    FilterMultiset(es, IsActive, e);
    FilterMultiset(es, IsPending, e);
  }

  /** The enrollment rate and the activity rate. */
  function EnrollmentRate(es: seq<Employee>): (r: nat)
    ensures r <= 100
    ensures es == [] ==> r == 0
  {
    var s := ComputeStats(es);
    Percentage(s.enrolled, s.total)
  }

  function ActiveRate(es: seq<Employee>): (r: nat)
    ensures r <= 100
    ensures es == [] ==> r == 0
  {
    var s := ComputeStats(es);
    Percentage(s.active, s.total)
  }

  /** A fully enrolled list shows 100 per cent. */
  lemma AllEnrolledIsFullRate(es: seq<Employee>)
    requires es != [] && forall i :: 0 <= i < |es| ==> IsEnrolled(es[i])
    ensures EnrollmentRate(es) == 100
  {
    FilterAllPass(es, IsEnrolled);
    PercentOfWhole(|es|);
  }

  /** A list where nobody is enrolled shows 0 per cent. */
  lemma NoneEnrolledIsZeroRate(es: seq<Employee>)
    requires forall i :: 0 <= i < |es| ==> !IsEnrolled(es[i])
    ensures EnrollmentRate(es) == 0
  {
    var notEnrolled := (e: Employee) => !IsEnrolled(e);
    FilterComplement(es, IsEnrolled, notEnrolled);
    FilterAllPass(es, notEnrolled);
  }

  /** A larger count never shows a smaller rate. */
  lemma RateMonotone(a: nat, b: nat, total: nat)
    requires a <= b
    ensures Percentage(a, total) <= Percentage(b, total)
  {
  }
}
