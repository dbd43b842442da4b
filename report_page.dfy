/** reports/ReportPage.js: shows the report handed over by the reports form
    and saves it as CSV text. A record's fields are texts, `None` where the
    record lacks the field. */
module ReportPage {
  import opened Options
  import opened Text
  import opened TimeAndDateUtils

  datatype ReportRecord = ReportRecord(
    workDate: Option<string>,
    startTime: Option<string>,
    lunchStart: Option<string>,
    lunchEnd: Option<string>,
    endTime: Option<string>,
    totalHours: Option<string>,
    employeeId: Option<string>,
    firstName: Option<string>,
    lastName: Option<string>)

  const DetailedTimecards := "detailedTimecards"
  const TotalHours := "totalHours"
  const NoTotal := "0 Hours 0 Minutes"
  const CsvPrefix := "data:text/csv;charset=utf-8,"

  /** `activeReportData`: the report's data when it has any, else the default
      data when that has any, else nothing. */
  function ActiveReportData(reportData: seq<ReportRecord>, defaultReportData: seq<ReportRecord>): (active: seq<ReportRecord>)
    ensures |reportData| > 0 ==> active == reportData
    ensures |reportData| == 0 ==> active == defaultReportData
    ensures active == [] <==> reportData == [] && defaultReportData == []
  {
    if |reportData| > 0 then reportData else if |defaultReportData| > 0 then defaultReportData else []
  }

  /** The guard that shows "No report data available": no report type (absent
      or empty) or no active data. */
  predicate NoReportData(reportType: Option<string>, active: seq<ReportRecord>)
    ensures !NoReportData(reportType, active) ==> reportType.Some? && reportType.value != "" && active != []
  {
    reportType.None? || reportType.value == "" || |active| == 0
  }

  /** The page falls back to "No report data available" exactly when the
      report type is absent or empty, or both the report's data and the
      default data are empty; otherwise it shows the active data, which is the
      report's own data whenever that has any. */
  lemma NoReportDataGuard(reportType: Option<string>, reportData: seq<ReportRecord>, defaultReportData: seq<ReportRecord>)
    ensures NoReportData(reportType, ActiveReportData(reportData, defaultReportData))
            <==> reportType.None? || reportType.value == "" || (reportData == [] && defaultReportData == [])
    ensures !NoReportData(reportType, ActiveReportData(reportData, defaultReportData)) ==>
              ActiveReportData(reportData, defaultReportData) == if reportData != [] then reportData else defaultReportData
  {
  }

  /** The `total_hours` cell: absent, empty or `'Invalid data'` shows as
      `0 Hours 0 Minutes`; anything else passes through. */
  function TotalHoursText(totalHours: Option<string>): (shown: string)
    ensures totalHours.Some? && totalHours.value != "" && totalHours.value != "Invalid data" ==> shown == totalHours.value
    ensures totalHours.None? || totalHours.value == "" || totalHours.value == "Invalid data" ==> shown == NoTotal
  {
    if totalHours.Some? && totalHours.value != "" && totalHours.value != "Invalid data" then totalHours.value else NoTotal
  }

  /** The header row of the CSV for a report type: six columns for detailed
      timecards, four for total hours, none otherwise. */
  function Headers(reportType: string): (headers: seq<Option<string>>)
    ensures reportType == DetailedTimecards ==> |headers| == 6
    ensures reportType == TotalHours ==> |headers| == 4
    ensures reportType != DetailedTimecards && reportType != TotalHours ==> headers == []
  {
    if reportType == DetailedTimecards then
      [Some("Work Date"), Some("Start Time"), Some("Lunch Start"), Some("Lunch End"), Some("End Time"), Some("Total Hours")]
    else if reportType == TotalHours then
      [Some("Employee ID"), Some("First Name"), Some("Last Name"), Some("Total Hours")]
    else []
  }

  /** The two report types the CSV export lays out. */
  predicate HasCsvLayout(reportType: string) {
    reportType == DetailedTimecards || reportType == TotalHours
  }

  /** A record's CSV cells for a report type with a layout: as many as the
      header has, the detailed date quoted (the locale's date holds commas),
      and the total-hours fallback in the last cell. An absent field of a
      total-hours record stays absent (`join` shows it as nothing). */
  function Row(reportType: string, r: ReportRecord, toLocaleDateString: string -> string): (cells: seq<Option<string>>)
    requires HasCsvLayout(reportType)
    ensures |cells| == |Headers(reportType)|
    ensures reportType == DetailedTimecards ==>
              && cells[0] == Some("\"" + FormatDate(r.workDate, toLocaleDateString) + "\"")
              && cells[5] == Some(TotalHoursText(r.totalHours))
    ensures reportType == TotalHours ==>
              cells[..3] == [r.employeeId, r.firstName, r.lastName] && cells[3] == Some(TotalHoursText(r.totalHours))
  {
    if reportType == DetailedTimecards then
      [Some("\"" + FormatDate(r.workDate, toLocaleDateString) + "\""),
       Some(FormatTime(r.startTime)), Some(FormatTime(r.lunchStart)), Some(FormatTime(r.lunchEnd)), Some(FormatTime(r.endTime)),
       Some(TotalHoursText(r.totalHours))]
    else
      [r.employeeId, r.firstName, r.lastName, Some(TotalHoursText(r.totalHours))]
  }

  /** `dataRows`: one row per record, in order, for a type with a layout;
      none at all for any other type. */
  function DataRows(reportType: string, active: seq<ReportRecord>, toLocaleDateString: string -> string): (rows: seq<seq<Option<string>>>)
    ensures HasCsvLayout(reportType) ==>
              |rows| == |active| && forall i :: 0 <= i < |active| ==> rows[i] == Row(reportType, active[i], toLocaleDateString)
    ensures !HasCsvLayout(reportType) ==> rows == []
  {
    if HasCsvLayout(reportType) then
      seq(|active|, i requires 0 <= i < |active| => Row(reportType, active[i], toLocaleDateString))
    else []
  }

  /** `row.join(",")`: `null` and `undefined` cells show as nothing. */
  function CsvLine(row: seq<Option<string>>): string {
    Join(seq(|row|, i requires 0 <= i < |row| => row[i].GetOr("")), ',')
  }

  /** `row => row.join(",")` over the rows. */
  function CsvLines(rows: seq<seq<Option<string>>>): (lines: seq<string>)
    ensures |lines| == |rows| && forall i :: 0 <= i < |rows| ==> lines[i] == CsvLine(rows[i])
  {
    seq(|rows|, i requires 0 <= i < |rows| => CsvLine(rows[i]))
  }

  /** The CSV text after the prefix: the header line, then the data lines. */
  function CsvBody(reportType: string, active: seq<ReportRecord>, toLocaleDateString: string -> string): string {
    Join(CsvLines([Headers(reportType)] + DataRows(reportType, active, toLocaleDateString)), '\n')
  }

  /** `handleSaveCSV` up to the download: `headers` and `dataRows` start empty
      and are set by the branch of the report type, the header goes first,
      and the lines follow the data-URI prefix. */
  method HandleSaveCsv(reportType: string, activeReportData: seq<ReportRecord>, toLocaleDateString: string -> string)
    returns (csvContent: string)
    ensures csvContent == CsvPrefix + CsvBody(reportType, activeReportData, toLocaleDateString)
  {
    var headers: seq<Option<string>> := [];
    var dataRows: seq<seq<Option<string>>> := [];
    if reportType == DetailedTimecards {
      headers := Headers(DetailedTimecards);
      dataRows := seq(|activeReportData|, i requires 0 <= i < |activeReportData| => Row(DetailedTimecards, activeReportData[i], toLocaleDateString));
    } else if reportType == TotalHours {
      headers := Headers(TotalHours);
      dataRows := seq(|activeReportData|, i requires 0 <= i < |activeReportData| => Row(TotalHours, activeReportData[i], toLocaleDateString));
    }
    var rows := [headers] + dataRows;
    csvContent := CsvPrefix + Join(CsvLines(rows), '\n');
  }

  /** No cell of a row holds a line break. */
  predicate SingleLineCells(row: seq<Option<string>>) {
    forall i :: 0 <= i < |row| ==> row[i].None? || '\n' !in row[i].value
  }

  lemma CsvLineSingleLine(row: seq<Option<string>>)
    requires SingleLineCells(row)
    ensures '\n' !in CsvLine(row)
  {
    var cells := seq(|row|, i requires 0 <= i < |row| => row[i].GetOr(""));
    JoinWithout(cells, ',', '\n');
  }

  /** The header cells hold no line break. */
  lemma HeadersSingleLine(reportType: string)
    ensures SingleLineCells(Headers(reportType))
  {
    var h := Headers(reportType);
    forall i | 0 <= i < |h| ensures h[i].None? || '\n' !in h[i].value {
      var t := h[i].value;
      assert forall k :: 0 <= k < |t| ==> t[k] != '\n';
    }
  }

  /** The lines of rows whose cells hold no line break hold none either. */
  lemma CsvLinesSingleLine(rows: seq<seq<Option<string>>>)
    requires forall i :: 0 <= i < |rows| ==> SingleLineCells(rows[i])
    ensures forall i :: 0 <= i < |rows| ==> '\n' !in CsvLines(rows)[i]
  {
    forall i | 0 <= i < |rows| ensures '\n' !in CsvLines(rows)[i] {
      CsvLineSingleLine(rows[i]);
    }
  }

  /** For a type with a layout, and as long as no cell holds a line break,
      the CSV body has the header line and then exactly one line per record,
      in record order. */
  lemma CsvOneLinePerRecord(reportType: string, active: seq<ReportRecord>, toLocaleDateString: string -> string)
    requires HasCsvLayout(reportType)
    requires forall i :: 0 <= i < |active| ==> SingleLineCells(Row(reportType, active[i], toLocaleDateString))
    ensures var lines := Split(CsvBody(reportType, active, toLocaleDateString), '\n');
      && |lines| == |active| + 1
      && lines[0] == CsvLine(Headers(reportType))
      && forall i :: 0 <= i < |active| ==> lines[i + 1] == CsvLine(Row(reportType, active[i], toLocaleDateString))
  {
    var data := DataRows(reportType, active, toLocaleDateString);
    var rows := [Headers(reportType)] + data;
    HeadersSingleLine(reportType);
    assert forall i :: 0 < i < |rows| ==> rows[i] == data[i - 1];
    CsvLinesSingleLine(rows);
    SplitJoin(CsvLines(rows), '\n');
  }

  /** Any other report type saves nothing after the prefix. */
  lemma OtherTypeCsvIsEmpty(reportType: string, active: seq<ReportRecord>, toLocaleDateString: string -> string)
    requires !HasCsvLayout(reportType)
    ensures CsvBody(reportType, active, toLocaleDateString) == ""
  {
    assert CsvLines([Headers(reportType)]) == [""];
  }
}
