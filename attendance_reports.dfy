/**
  The attendance reports page: report generation from the submitted
  filters, clearing, export to a dated file, the visibility of the charts
  and export options, and the language and logout handlers.
*/
module AttendanceReports {
  import opened Common
  import Dates
  import ReportFilters
  import ExportOptions

  /** The generated report's summary figures. */
  datatype Summary = Summary(totalEmployees: int, presentToday: int, absentToday: int, lateArrivals: int, earlyDepartures: int)

  /** The report object the page stores once generation finishes. */
  datatype Report = Report(filters: ReportFilters.ReportFilterSet, generatedAt: string, totalRecords: int, summary: Summary)

  const MockSummary := Summary(157, 142, 15, 23, 8)

  /** The report built from the filters handed over, at time `generatedAt`. */
  function ReportFor(filters: ReportFilters.ReportFilterSet, generatedAt: string): (r: Report)
    ensures r.filters == filters && r.generatedAt == generatedAt
  {
    Report(filters, generatedAt, 157, MockSummary)
  }

  const FilePrefix := "rapport-presence-"

  /** The export file name: the prefix, the day's `YYYY-MM-DD` key, a dot and the format. */
  function Filename(today: Dates.Day, format: string): (name: string)
    requires Dates.ValidDay(today) && 0 <= today.year < 10000
    ensures |name| == |FilePrefix| + 11 + |format|
  {
    FilePrefix + Dates.IsoKey(today) + "." + format
  }

  /** The file name can be read back: it names the day it was made and the format chosen. */
  lemma FilenameReadsBack(today: Dates.Day, format: string)
    requires Dates.ValidDay(today) && 0 <= today.year < 10000
    ensures var name, n := Filename(today, format), |FilePrefix|;
      name[..n] == FilePrefix
      && Dates.ParseIsoDay(name[n..n + 10]) == Some(today)
      && name[n + 10] == '.'
      && name[n + 11..] == format
  {
    var name, n := Filename(today, format), |FilePrefix|;
    var key := Dates.IsoKey(today);
    assert name == FilePrefix + key + "." + format;
    assert name[n..n + 10] == key;
    Dates.ParseIsoKey(today);
  }

  /** Different days or different formats never share a file name. */
  lemma FilenamesDistinct(d1: Dates.Day, f1: string, d2: Dates.Day, f2: string)
    requires Dates.ValidDay(d1) && 0 <= d1.year < 10000
    requires Dates.ValidDay(d2) && 0 <= d2.year < 10000
    requires Filename(d1, f1) == Filename(d2, f2)
    ensures d1 == d2 && f1 == f2
  {
    FilenameReadsBack(d1, f1);
    FilenameReadsBack(d2, f2);
  }

  /**
    The page's state. The two timers are kept as queues of what their
    callbacks will use: the filters of each pending generation and the
    configuration of each pending export; `store` is local storage and
    `downloads` the names of the files offered.
  */
  class ReportsPage {
    var currentLanguage: string
    var isSidebarCollapsed: bool
    var isGenerating: bool
    var isExporting: bool
    var reportData: Option<Report>
    var pendingReports: seq<ReportFilters.ReportFilterSet>
    var pendingExports: seq<ExportOptions.ExportConfig>
    var downloads: seq<string>
    var store: map<string, string>
    var navigatedTo: Option<string>

    constructor (initialStore: map<string, string>)
      ensures currentLanguage == "fr" && !isSidebarCollapsed && !isGenerating && !isExporting
      ensures reportData == None && pendingReports == [] && pendingExports == [] && downloads == []
      ensures store == initialStore && navigatedTo == None
    {
      currentLanguage := "fr";
      isSidebarCollapsed := false;
      isGenerating := false;
      isExporting := false;
      reportData := None;
      pendingReports := [];
      pendingExports := [];
      downloads := [];
      store := initialStore;
      navigatedTo := None;
    }

    /** The charts and the export options are shown only for a stored report that is not being regenerated. */
    function ResultsShown(): (shown: bool)
      reads this
      ensures shown <==> reportData.Some? && !isGenerating
    {
      reportData.Some? && !isGenerating
    }

    /** The mount effect: the saved `preferredLanguage` or French. */
    method Mount()
      modifies this`currentLanguage
      ensures currentLanguage == NonEmptyOr(if "preferredLanguage" in store then store["preferredLanguage"] else "", "fr")
    {
      currentLanguage := NonEmptyOr(if "preferredLanguage" in store then store["preferredLanguage"] else "", "fr");
    }

    method ChangeLanguage(language: string)
      modifies this`currentLanguage, this`store
      ensures currentLanguage == language && store == old(store)["preferredLanguage" := language]
    {
      currentLanguage := language;
      store := store["preferredLanguage" := language];
    }

    /** `handleLogout`: the token and the role are removed, nothing else, and the login page opens. */
    method Logout()
      modifies this`store, this`navigatedTo
      ensures store == old(store) - {"userToken", "userRole"}
      ensures navigatedTo == Some("/login-authentication")
    {
      store := store - {"userToken", "userRole"};
      navigatedTo := Some("/login-authentication");
    }

    method ToggleSidebar()
      modifies this`isSidebarCollapsed
      ensures isSidebarCollapsed == !old(isSidebarCollapsed)
    {
      isSidebarCollapsed := !isSidebarCollapsed;
    }

    /** `handleGenerateReport(filters)`: generation starts and its timer holds the filters. */
    method GenerateReport(filters: ReportFilters.ReportFilterSet)
      modifies this`isGenerating, this`pendingReports
      ensures isGenerating && pendingReports == old(pendingReports) + [filters]
    {
      isGenerating := true;
      pendingReports := pendingReports + [filters];
    }

    /** The generation timer fires: the report of the oldest pending filters is stored and generation ends. */
    method GenerationDone(generatedAt: string)
      requires pendingReports != []
      modifies this`isGenerating, this`reportData, this`pendingReports
      ensures reportData == Some(ReportFor(old(pendingReports)[0], generatedAt))
      ensures !isGenerating && pendingReports == old(pendingReports)[1..]
    {
      reportData := Some(ReportFor(pendingReports[0], generatedAt));
      isGenerating := false;
      pendingReports := pendingReports[1..];
    }

    /** `handleClearFilters`: the stored report is dropped. */
    method ClearReport()
      modifies this`reportData
      ensures reportData == None
    {
      reportData := None;
    }

    /** `handleExport(config)`: exporting starts and its timer holds the configuration. */
    method Export(config: ExportOptions.ExportConfig)
      modifies this`isExporting, this`pendingExports
      ensures isExporting && pendingExports == old(pendingExports) + [config]
    {
      isExporting := true;
      pendingExports := pendingExports + [config];
    }

    /** The export timer fires on day `today`: the file is offered under its dated name and exporting ends. */
    method ExportDone(today: Dates.Day)
      requires pendingExports != []
      requires Dates.ValidDay(today) && 0 <= today.year < 10000
      modifies this`isExporting, this`pendingExports, this`downloads
      ensures downloads == old(downloads) + [Filename(today, old(pendingExports)[0].format)]
      ensures !isExporting && pendingExports == old(pendingExports)[1..]
    {
      downloads := downloads + [Filename(today, pendingExports[0].format)];
      isExporting := false;
      pendingExports := pendingExports[1..];
    }
  }

  /**
    A whole round: while generating, the results stay hidden; once the
    timer fires they are shown with the filters submitted; clearing hides
    them again.
  */
  method GenerateThenClear(filters: ReportFilters.ReportFilterSet, generatedAt: string)
    returns (whileGenerating: bool, afterGeneration: bool, stored: Option<Report>, afterClear: bool)
    ensures !whileGenerating && afterGeneration && !afterClear
    ensures stored.Some? && stored.value.filters == filters
  {
    var page := new ReportsPage(map[]);
    page.GenerateReport(filters);
    whileGenerating := page.ResultsShown();
    page.GenerationDone(generatedAt);
    afterGeneration, stored := page.ResultsShown(), page.reportData;
    page.ClearReport();
    afterClear := page.ResultsShown();
  }

  /** Exporting as PDF on 6 August 2025 offers "rapport-presence-2025-08-06.pdf". */
  method ExportPdf() returns (names: seq<string>)
    ensures names == ["rapport-presence-2025-08-06.pdf"]
  {
    var page := new ReportsPage(map[]);
    page.Export(ExportOptions.InitialConfig.(format := "pdf"));
    page.ExportDone(Dates.Day(2025, 7, 6));
    PdfFilename();
    names := page.downloads;
  }

  lemma PdfFilename()
    ensures Filename(Dates.Day(2025, 7, 6), "pdf") == "rapport-presence-2025-08-06.pdf"
  {
    Dates.Pad4Of2025();
    assert Pad2(8) == "08" && Pad2(6) == "06";
    assert Dates.IsoKey(Dates.Day(2025, 7, 6)) == "2025-08-06";
  }
}
