/**
  The report preview of the attendance reports page: the table of report
  rows, sorted on a clicked column, with the sort icons, the status
  badges and the loading and no-data panels.
*/
module ReportPreview {
  import opened Common
  import opened Sorting

  /** A row of the report; every shown value is a string. */
  datatype Row = Row(id: int, employee: string, department: string, clockIn: string, clockOut: string,
                     totalHours: string, overtime: string, status: string, date: string)

  /** The sortable columns. */
  datatype Column = EmployeeCol | DepartmentCol | ClockInCol | ClockOutCol | TotalHoursCol | OvertimeCol

  /** `row[key]`: the string a column shows, compared as a string. */
  function CellValue(c: Column): Row -> SortValue
  {
    (r: Row) =>
      Text(match c
        case EmployeeCol => r.employee
        case DepartmentCol => r.department
        case ClockInCol => r.clockIn
        case ClockOutCol => r.clockOut
        case TotalHoursCol => r.totalHours
        case OvertimeCol => r.overtime)
  }

  /** The sort state: no column (`key: null`) or one, and the direction. */
  type PreviewSort = SortConfig<Option<Column>>

  const InitialSort: PreviewSort := SortConfig(None, Asc)

  /** `handleSort(key)`. */
  function HandleSort(c: PreviewSort, key: Column): (r: PreviewSort)
    ensures r.key == Some(key)
    ensures r.direction == Desc <==> c.key == Some(key) && c.direction == Asc
  {
    Toggle(c, Some(key))
  }

  /** From the initial state, clicks on one column alternate ascending, descending, ascending. */
  lemma ClicksAlternate(key: Column)
    ensures HandleSort(InitialSort, key).direction == Asc
    ensures HandleSort(HandleSort(InitialSort, key), key).direction == Desc
    ensures HandleSort(HandleSort(HandleSort(InitialSort, key), key), key).direction == Asc
  {
  }

  /** `getSortIcon(column)`: neutral on the other columns, up or down on the sorted one. */
  function SortIcon(c: PreviewSort, column: Column): (icon: string)
    ensures icon == "ArrowUpDown" <==> c.key != Some(column)
    ensures icon == "ArrowUp" <==> c.key == Some(column) && c.direction == Asc
    ensures icon == "ArrowDown" <==> c.key == Some(column) && c.direction == Desc
  {
    if c.key != Some(column) then "ArrowUpDown"
    else if c.direction == Asc then "ArrowUp"
    else assert c.direction == Desc; "ArrowDown"
  }

  /** After a click, the clicked column alone shows a direction. */
  lemma OneColumnShowsDirection(c: PreviewSort, clicked: Column, other: Column)
    requires other != clicked
    ensures SortIcon(HandleSort(c, clicked), clicked) != "ArrowUpDown"
    ensures SortIcon(HandleSort(c, clicked), other) == "ArrowUpDown"
  {
  }

  /** The badge of a status: its colour and its label. */
  datatype Badge = Badge(color: string, caption: string)

  /** The badge labels of one language. */
  datatype BadgeLabels = BadgeLabels(present: string, absent: string, late: string, earlyLeave: string)

  /** `getStatusBadge(status)`: a status outside the four known ones gets the present badge. */
  function StatusBadge(status: string, t: BadgeLabels): (b: Badge)
    ensures status !in {"absent", "late", "earlyLeave"} <==> b == Badge("bg-success text-success-foreground", t.present)
    ensures status == "absent" ==> b == Badge("bg-destructive text-destructive-foreground", t.absent)
    ensures status == "late" ==> b == Badge("bg-warning text-warning-foreground", t.late)
    ensures status == "earlyLeave" ==> b == Badge("bg-secondary text-secondary-foreground", t.earlyLeave)
  {
    match status
    case "absent" => Badge("bg-destructive text-destructive-foreground", t.absent)
    case "late" => Badge("bg-warning text-warning-foreground", t.late)
    case "earlyLeave" => Badge("bg-secondary text-secondary-foreground", t.earlyLeave)
    case _ => Badge("bg-success text-success-foreground", t.present)
  }

  /**
    `sortedData`: the data itself when no column is chosen, otherwise a
    sorted copy; the data is a value, so it cannot be changed by sorting.
  */
  method SortedData(data: seq<Row>, c: PreviewSort) returns (rows: seq<Row>)
    ensures c.key.None? ==> rows == data
    ensures c.key.Some? ==> SortedBy(rows, CellValue(c.key.value), c.direction) && multiset(rows) == multiset(data)
  {
    if c.key.None? {
      rows := data;
    } else {
      rows := SortedCopy(data, CellValue(c.key.value), c.direction);
    }
  }

  /** What the preview shows. */
  datatype View = LoadingPanel | NoDataPanel | Table(rows: seq<Row>)

  /**
    The component: the loading panel while loading; otherwise the no-data
    panel without report data (so the built-in sample rows, which stand in
    for missing data, never reach the table); otherwise the sorted rows of
    the report.
  */
  method Render(reportData: Option<seq<Row>>, isLoading: bool, c: PreviewSort) returns (v: View)
    ensures v == LoadingPanel <==> isLoading
    ensures v == NoDataPanel <==> !isLoading && reportData.None?
    ensures v.Table? ==> reportData.Some? && multiset(v.rows) == multiset(reportData.value)
    ensures v.Table? && c.key.None? ==> v.rows == reportData.value
    ensures v.Table? && c.key.Some? ==> SortedBy(v.rows, CellValue(c.key.value), c.direction)
  {
    var displayData := if reportData.Some? then reportData.value else MockRows;
    var sorted := SortedData(displayData, c);
    if isLoading {
      v := LoadingPanel;
    } else if reportData.None? {
      v := NoDataPanel;
    } else {
      v := Table(sorted);
    }
  }

  /** The built-in sample rows, used only when no report data is given. */
  const MockRows: seq<Row> := [
    Row(1, "Jean Dupont", "Production", "08:00", "17:30", "8h30", "0h30", "present", "06/08/2025"),
    Row(2, "Marie Martin", "Administration", "08:15", "17:00", "8h45", "0h45", "late", "06/08/2025"),
    Row(3, "Pierre Bernard", "Maintenance", "07:45", "16:45", "9h00", "1h00", "present", "06/08/2025"),
    Row(4, "Sophie Dubois", "Qualité", "--", "--", "0h00", "0h00", "absent", "06/08/2025"),
    Row(5, "Luc Moreau", "Logistique", "08:00", "15:30", "7h30", "0h00", "earlyLeave", "06/08/2025")
  ]

  /** The preview's state: the sort configuration. */
  class Preview {
    var sortConfig: PreviewSort

    constructor ()
      ensures sortConfig == InitialSort
    {
      sortConfig := InitialSort;
    }

    method Sort(key: Column)
      modifies this
      ensures sortConfig == HandleSort(old(sortConfig), key)
    {
      sortConfig := HandleSort(sortConfig, key);
    }
  }
}
