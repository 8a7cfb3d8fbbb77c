/**
  The export options of the attendance reports page: an export
  configuration edited one key at a time and handed to the page on
  "export", and the icon of the chosen format.
*/
module ExportOptions {
  /** The export configuration. */
  datatype ExportConfig = ExportConfig(
    format: string, template: string,
    includeCharts: bool, includeFilters: bool, scheduleRecurring: bool, gdprCompliant: bool)

  /** CSV with the standard template, without charts, with the filters, not recurring, GDPR compliant. */
  const InitialConfig := ExportConfig("csv", "standard", false, true, false, true)

  /** `handleConfigChange(key, value)`: the key edited, with its new value. */
  datatype Edit =
    | SetFormat(text: string) | SetTemplate(text: string)
    | SetIncludeCharts(flag: bool) | SetIncludeFilters(flag: bool)
    | SetScheduleRecurring(flag: bool) | SetGdprCompliant(flag: bool)

  /** `{ ...prev, [key]: value }`. */
  function Apply(c: ExportConfig, e: Edit): (r: ExportConfig)
    ensures e.SetFormat? ==> r == c.(format := e.text)
    ensures e.SetTemplate? ==> r == c.(template := e.text)
    ensures e.SetIncludeCharts? ==> r == c.(includeCharts := e.flag)
    ensures e.SetIncludeFilters? ==> r == c.(includeFilters := e.flag)
    ensures e.SetScheduleRecurring? ==> r == c.(scheduleRecurring := e.flag)
    ensures e.SetGdprCompliant? ==> r == c.(gdprCompliant := e.flag)
  {
    match e
    case SetFormat(v) => c.(format := v)
    case SetTemplate(v) => c.(template := v)
    case SetIncludeCharts(v) => c.(includeCharts := v)
    case SetIncludeFilters(v) => c.(includeFilters := v)
    case SetScheduleRecurring(v) => c.(scheduleRecurring := v)
    case SetGdprCompliant(v) => c.(gdprCompliant := v)
  }

  /** Choosing a format changes the format alone, and choosing it again changes nothing. */
  lemma FormatChangeIsLocal(c: ExportConfig, format: string)
    ensures var r := Apply(c, SetFormat(format));
      r.format == format && r.(format := c.format) == c
      && Apply(r, SetFormat(format)) == r
  {
  }

  /** `getFormatIcon(format)`: the spreadsheet for CSV and Excel, a document for PDF, code for JSON, a plain file otherwise. */
  function FormatIcon(format: string): (icon: string)
    ensures icon == "FileSpreadsheet" <==> format == "csv" || format == "excel"
    ensures icon == "FileText" <==> format == "pdf"
    ensures icon == "FileCode" <==> format == "json"
    ensures icon == "File" <==> format !in {"csv", "excel", "pdf", "json"}
  {
    match format
    case "csv" => "FileSpreadsheet"
    case "pdf" => "FileText"
    case "excel" => "FileSpreadsheet"
    case "json" => "FileCode"
    case _ => "File"
  }

  /** The options' state and the configurations handed to `onExport`. */
  class Options {
    var config: ExportConfig
    var exported: seq<ExportConfig>

    constructor ()
      ensures config == InitialConfig && exported == []
    {
      config := InitialConfig;
      exported := [];
    }

    method Change(e: Edit)
      modifies this`config
      ensures config == Apply(old(config), e)
    {
      config := Apply(config, e);
    }

    /** `handleExport`: the current configuration, unchanged. */
    method Export()
      modifies this`exported
      ensures exported == old(exported) + [config]
    {
      exported := exported + [config];
    }

    /** The export button's icon follows the chosen format. */
    function ButtonIcon(): (icon: string)
      reads this
      ensures icon == FormatIcon(config.format)
    {
      FormatIcon(config.format)
    }
  }

  /** Choosing PDF and exporting hands on the initial configuration with the PDF format, under the PDF icon. */
  method ChoosePdfAndExport() returns (sent: seq<ExportConfig>, icon: string)
    ensures sent == [InitialConfig.(format := "pdf")]
    ensures icon == "FileText"
  {
    var options := new Options();
    options.Change(SetFormat("pdf"));
    options.Export();
    sent, icon := options.exported, options.ButtonIcon();
  }
}
