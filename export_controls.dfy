/**
  The export controls of the personal history page: the chosen format and
  range, the export handler that hands them to the page, and the three
  quick-export buttons.
*/
module ExportControls {
  /** What `onExport` receives. */
  datatype ExportRequest = ExportRequest(format: string, range: string)

  /** `getExportIcon()`: by the chosen format, with a download icon for any other. */
  function ExportIcon(format: string): (icon: string)
    ensures icon == "FileText" <==> format == "pdf"
    ensures icon == "Table" <==> format == "csv"
    ensures icon == "Sheet" <==> format == "excel"
    ensures icon == "Download" <==> format !in {"pdf", "csv", "excel"}
  {
    match format
    case "pdf" => "FileText"
    case "csv" => "Table"
    case "excel" => "Sheet"
    case _ => "Download"
  }

  /** The quick buttons' own icons are the icons of the formats they pick. */
  lemma QuickButtonIcons()
    ensures ExportIcon("pdf") == "FileText" && ExportIcon("csv") == "Table" && ExportIcon("excel") == "Sheet"
  {
  }

  /**
    The controls' state and the requests handed to `onExport`. A request
    that fails is caught and logged, which changes nothing here, so every
    request made is recorded.
  */
  class Controls {
    var exportFormat: string
    var exportRange: string
    var requests: seq<ExportRequest>

    constructor ()
      ensures exportFormat == "pdf" && exportRange == "current" && requests == []
    {
      exportFormat := "pdf";
      exportRange := "current";
      requests := [];
    }

    method SelectFormat(format: string)
      modifies this`exportFormat
      ensures exportFormat == format
    {
      exportFormat := format;
    }

    method SelectRange(range: string)
      modifies this`exportRange
      ensures exportRange == range
    {
      exportRange := range;
    }

    /** `handleExport`: the format and range held when the handler was made. */
    method HandleExport()
      modifies this`requests
      ensures requests == old(requests) + [ExportRequest(exportFormat, exportRange)]
    {
      requests := requests + [ExportRequest(exportFormat, exportRange)];
    }

    /** The export button, disabled while an export is running. */
    method ClickExport(isExporting: bool)
      modifies this`requests
      ensures isExporting ==> requests == old(requests)
      ensures !isExporting ==> requests == old(requests) + [ExportRequest(exportFormat, exportRange)]
    {
      if !isExporting {
        HandleExport();
      }
    }

    /**
      A quick button as written: the setters only schedule the new values,
      so the `handleExport` called in the same handler still reads the
      previous ones.
    */
    method QuickExportAsWritten(format: string, range: string)
      modifies this
      ensures requests == old(requests) + [ExportRequest(old(exportFormat), old(exportRange))]
      ensures exportFormat == format && exportRange == range
    {
      var request := ExportRequest(exportFormat, exportRange);
      exportFormat, exportRange := format, range;
      requests := requests + [request];
    }

    /** A quick button as evidently intended: the export uses the button's format and range. */
    method QuickExport(format: string, range: string)
      modifies this
      ensures requests == old(requests) + [ExportRequest(format, range)]
      ensures exportFormat == format && exportRange == range
    {
      exportFormat, exportRange := format, range;
      HandleExport();
    }
  }

  /**
    As written, after choosing CSV in the select, the "PDF du mois" button
    exports a CSV of the current month, while the select now shows PDF.
  */
  method PdfButtonExportsCsvAsWritten() returns (sent: ExportRequest, shown: string)
    ensures sent == ExportRequest("csv", "current")
    ensures shown == "pdf"
  {
    var controls := new Controls();
    controls.SelectFormat("csv");
    controls.QuickExportAsWritten("pdf", "current");
    sent, shown := controls.requests[0], controls.exportFormat;
  }

  /** With the fix, each quick button exports exactly what it is labelled with, whatever was chosen before. */
  method QuickButtonsExportTheirChoice(format: string, range: string) returns (sent: seq<ExportRequest>)
    ensures sent == [ExportRequest("pdf", "current"), ExportRequest("csv", "last3"), ExportRequest("excel", "lastYear")]
  {
    var controls := new Controls();
    controls.SelectFormat(format);
    controls.SelectRange(range);
    controls.QuickExport("pdf", "current");
    controls.QuickExport("csv", "last3");
    controls.QuickExport("excel", "lastYear");
    sent := controls.requests;
  }
}
