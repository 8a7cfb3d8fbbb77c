/**
  The department pie chart of the employee-management page: a fold that
  counts employees per department, one chart entry per department with
  its rounded share, and a colour cycle of six colours.
*/
module DepartmentChart {
  import opened Common
  import opened Employees

  /**
    `departmentCounts`: the reduce over the list into an object keyed by
    department, each key incremented once per employee.
  */
  function DepartmentCounts(es: seq<Employee>): (m: map<string, nat>)
    ensures forall d :: d in m <==> d in Departments(es)
    ensures forall d :: d in m ==> m[d] == multiset(Departments(es))[d]
  {
    if es == [] then map[]
    else
      var init := es[..|es| - 1];
      var d := es[|es| - 1].department;
      var acc := DepartmentCounts(init);
      assert Departments(es) == Departments(init) + [d];
      acc[d := (if d in acc then acc[d] else 0) + 1]
  }

  /** Every department present counts at least one employee. */
  lemma CountsPositive(es: seq<Employee>, d: string)
    requires d in DepartmentCounts(es)
    ensures DepartmentCounts(es)[d] >= 1
  {
  }

  /** One chart entry: the department, its head count and its rounded share of the list. */
  datatype Entry = Entry(name: string, value: nat, percentage: nat)

  function Names(r: seq<Entry>): (names: seq<string>)
    ensures |names| == |r| && forall i :: 0 <= i < |r| ==> names[i] == r[i].name
  {
    seq(|r|, i requires 0 <= i < |r| => r[i].name)
  }

  /**
    `chartData`: the entries of the count object, in the order in which the
    departments were first inserted, which is the order of first occurrence.
    `Object.entries` lists the keys in that order only when no department
    name is an array index such as "2"; such names would come first, in
    numeric order.
  */
  function ChartData(es: seq<Employee>): (r: seq<Entry>)
    ensures Names(r) == Distinct(Departments(es))
    ensures forall i :: 0 <= i < |r| ==> r[i].value == multiset(Departments(es))[r[i].name]
    ensures forall i :: 0 <= i < |r| ==> r[i].percentage == Percentage(r[i].value, |es|)
  {
    var names := Distinct(Departments(es));
    var m := DepartmentCounts(es);
    assert forall i :: 0 <= i < |names| ==> names[i] in m by {
      forall i | 0 <= i < |names| ensures names[i] in m {
        assert names[i] in names;
      }
    }
    var r := seq(|names|, i requires 0 <= i < |names| => Entry(names[i], m[names[i]], Percentage(m[names[i]], |es|)));
    assert Names(r) == names;
    r
  }

  /** Every entry counts at least one employee and shows a share of at most 100 per cent. */
  lemma EntryBounds(es: seq<Employee>, i: int)
    requires 0 <= i < |ChartData(es)|
    ensures 1 <= ChartData(es)[i].value <= |es|
    ensures ChartData(es)[i].percentage <= 100
  {
    var ds := Departments(es);
    var d := ChartData(es)[i].name;
    assert d == Distinct(ds)[i] && Distinct(ds)[i] in Distinct(ds);
    assert d in multiset(ds);
    assert multiset(ds)[d] <= |multiset(ds)|;
  }

  /** One entry per department that occurs, each department once. */
  lemma ChartEntriesAreDepartments(es: seq<Employee>)
    ensures forall d :: d in Names(ChartData(es)) <==> exists e :: e in es && e.department == d
    ensures forall i, j :: 0 <= i < j < |ChartData(es)| ==> ChartData(es)[i].name != ChartData(es)[j].name
  {
    var ds := Departments(es);
    forall d ensures d in ds <==> exists e :: e in es && e.department == d {
      if exists e :: e in es && e.department == d {
        var e :| e in es && e.department == d;
        var k :| 0 <= k < |es| && es[k] == e;
        assert ds[k] == d;
      }
      if d in ds {
        var k :| 0 <= k < |ds| && ds[k] == d;
        assert es[k] in es;
      }
    }
    var names := Names(ChartData(es));
    forall i, j | 0 <= i < j < |ChartData(es)| ensures ChartData(es)[i].name != ChartData(es)[j].name {
      assert names[i] != names[j];
    }
  }

  /** Sum of the counts of each value of `r` in `s`. */
  function SumOccurrences(r: seq<string>, s: seq<string>): nat
  {
    if r == [] then 0 else multiset(s)[r[0]] + SumOccurrences(r[1..], s)
  }

  lemma {:induction false} SumOccurrencesAppend(r: seq<string>, s: seq<string>, y: string)
    ensures SumOccurrences(r, s + [y]) == SumOccurrences(r, s) + multiset(r)[y]
  {
    if r != [] {
      SumOccurrencesAppend(r[1..], s, y);
      assert r == [r[0]] + r[1..];
    }
  }

  lemma {:induction false} OnceInDistinct(r: seq<string>, y: string)
    requires y in r
    requires forall i, j :: 0 <= i < j < |r| ==> r[i] != r[j]
    ensures multiset(r)[y] == 1
  {
    assert r == [r[0]] + r[1..];
    if r[0] == y {
      assert y !in r[1..];
    } else {
      OnceInDistinct(r[1..], y);
    }
  }

  /** Counting every value of a duplicate-free covering list counts each element once. */
  lemma {:induction false} SumOccurrencesCovers(r: seq<string>, s: seq<string>)
    requires forall i, j :: 0 <= i < j < |r| ==> r[i] != r[j]
    requires forall x :: x in s ==> x in r
    ensures SumOccurrences(r, s) == |s|
  {
    if s == [] {
      SumOccurrencesZero(r);
    } else {
      var init, y := s[..|s| - 1], s[|s| - 1];
      assert s == init + [y];
      SumOccurrencesCovers(r, init);
      SumOccurrencesAppend(r, init, y);
      OnceInDistinct(r, y);
    }
  }

  lemma {:induction false} SumOccurrencesZero(r: seq<string>)
    ensures SumOccurrences(r, []) == 0
  {
    if r != [] {
      SumOccurrencesZero(r[1..]);
    }
  }

  function SumValues(r: seq<Entry>): nat
  {
    if r == [] then 0 else r[0].value + SumValues(r[1..])
  }

  lemma {:induction false} SumValuesIsSumOccurrences(r: seq<Entry>, names: seq<string>, s: seq<string>)
    requires |r| == |names|
    requires forall i :: 0 <= i < |r| ==> r[i].value == multiset(s)[names[i]]
    ensures SumValues(r) == SumOccurrences(names, s)
  {
    if r != [] {
      SumValuesIsSumOccurrences(r[1..], names[1..], s);
    }
  }

  /** The head counts of the chart add up to the number of employees. */
  lemma ChartCountsSumToTotal(es: seq<Employee>)
    ensures SumValues(ChartData(es)) == |es|
  {
    var ds := Departments(es);
    var names := Distinct(ds);
    assert forall i :: 0 <= i < |names| ==> ChartData(es)[i].value == multiset(ds)[names[i]] by {
      assert Names(ChartData(es)) == names;
    }
    SumValuesIsSumOccurrences(ChartData(es), names, ds);
    SumOccurrencesCovers(names, ds);
  }

  /** The "no data" panel replaces the chart exactly when there is no employee. */
  predicate NoDataShown(es: seq<Employee>)
  {
    |ChartData(es)| == 0
  }

  lemma NoDataIffNoEmployee(es: seq<Employee>)
    ensures NoDataShown(es) <==> es == []
  {
    if es != [] {
      assert Departments(es)[0] in Departments(es);
      assert Departments(es)[0] in Names(ChartData(es));
    }
  }

  /** The six chart colours. */
  const Colors: seq<string> := [
    "var(--color-primary)", "var(--color-success)", "var(--color-warning)",
    "var(--color-accent)", "var(--color-secondary)", "var(--color-destructive)"]

  /** `COLORS[index % COLORS.length]`, for the slice and its legend swatch alike. */
  function EntryColor(index: nat): (c: string)
    ensures c in Colors
  {
    Colors[index % |Colors|]
  }

  /** The colours cycle: entries six apart share a colour, and any six consecutive entries differ. */
  lemma ColorCycle(i: nat, j: nat)
    ensures EntryColor(i + |Colors|) == EntryColor(i)
    ensures i < j < i + |Colors| ==> EntryColor(i) != EntryColor(j)
  {
    ResidueCycle(i, j);
    ColorsDistinct();
  }

  lemma ColorsDistinct()
    ensures forall a, b :: 0 <= a < b < |Colors| ==> Colors[a] != Colors[b]
  {
    assert Colors[0][12] == 'p' && Colors[1][12] == 's' && Colors[2][12] == 'w';
    assert Colors[3][12] == 'a' && Colors[4][12] == 's' && Colors[5][12] == 'd';
    assert Colors[1][13] == 'u' && Colors[4][13] == 'e';
  }

  lemma ResidueCycle(i: nat, j: nat)
    ensures (i + 6) % 6 == i % 6
    ensures i < j < i + 6 ==> i % 6 != j % 6
  {
    if i < j < i + 6 {
      assert i % 6 != j % 6;
    }
  }
}
