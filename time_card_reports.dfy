/** reports/TimeCardReports.js: the reports form. Its state is a set of
    fields the setters overwrite; generating a report looks the selected
    employee up by name and picks the endpoint and query parameters by report
    type. */
module TimeCardReports {
  import opened Options
  import opened Text

  /** An employee as `GET /employees` lists them. `id` is the database key
      (absent or 0 is falsy); `employeeId` is the company's employee number. */
  datatype Employee = Employee(id: Option<nat>, employeeId: string, firstName: string, lastName: string)

  /** The month picker's `{value, label}`. */
  datatype Month = Month(value: string, name: string)

  /** A report request: the path below the API base and the query
      parameters in insertion order (before URL encoding). */
  datatype ReportRequest = ReportRequest(path: string, query: seq<(string, string)>)

  const January := Month("1", "January")

  /** `${emp.first_name} ${emp.last_name}`. */
  function FullName(e: Employee): string {
    e.firstName + " " + e.lastName
  }

  /** `employees.find(...)` by a name test: the first employee passing it. */
  function FindEmployee(employees: seq<Employee>, name: string, trimmed: bool): (k: Option<nat>)
    ensures k.Some? ==> k.value < |employees| && NameMatches(employees[k.value], name, trimmed)
                        && forall j :: 0 <= j < k.value ==> !NameMatches(employees[j], name, trimmed)
    ensures k.None? ==> forall j :: 0 <= j < |employees| ==> !NameMatches(employees[j], name, trimmed)
  {
    if employees == [] then None
    else if NameMatches(employees[0], name, trimmed) then Some(0)
    else
      match FindEmployee(employees[1..], name, trimmed)
      case None => None
      case Some(k) => Some(k + 1)
  }

  /** The report lookup compares trimmed names; the select handler compares
      them as they are. */
  predicate NameMatches(e: Employee, name: string, trimmed: bool) {
    if trimmed then Trim(FullName(e)) == Trim(name) else FullName(e) == name
  }

  /** `empId`: the found employee's `id`, `None` when no employee matches or
      the id is falsy. */
  function SelectedEmpId(employees: seq<Employee>, selectedEmployeeName: string): (empId: Option<nat>)
    ensures empId.Some? ==> empId.value > 0
    ensures match FindEmployee(employees, selectedEmployeeName, true)
            case None => empId.None?
            case Some(k) => if employees[k].id.Some? && employees[k].id.value > 0 then empId == employees[k].id else empId.None?
  {
    match FindEmployee(employees, selectedEmployeeName, true)
    case None => None
    case Some(k) =>
      match employees[k].id
      case Some(n) => if n > 0 then Some(n) else None
      case None => None
  }

  /** The request of a known report type for a found employee. */
  function RequestFor(reportType: string, empId: nat, startDate: string, endDate: string, month: Month, year: string, period: string)
    : (r: Option<ReportRequest>)
    ensures r.Some? ==> |r.value.query| == 2 && |r.value.path| > 9 && r.value.path[..9] == "/reports/"
  {
    if reportType == "totalHours" then
      Some(ReportRequest("/reports/" + NatToString(empId), [("startDate", startDate), ("endDate", endDate)]))
    else if reportType == "detailedTimecards" then
      Some(ReportRequest("/reports/detailed/" + NatToString(empId), [("startDate", startDate), ("endDate", endDate)]))
    else if reportType == "absenteeism" then
      Some(ReportRequest("/reports/absenteeism", [("startDate", startDate), ("endDate", endDate)]))
    else if reportType == "monthlySummary" then
      Some(ReportRequest("/reports/monthly-summary", [("month", month.value), ("year", year)]))
    else if reportType == "employeeSummary" then
      Some(ReportRequest("/reports/employee-summary", [("employeeId", NatToString(empId)), ("period", period)]))
    else None
  }

  /** The request goes to a distinct endpoint for each report type. */
  lemma RequestPaths(empId: nat, startDate: string, endDate: string, month: Month, year: string, period: string, t1: string, t2: string)
    requires RequestFor(t1, empId, startDate, endDate, month, year, period).Some?
    requires RequestFor(t2, empId, startDate, endDate, month, year, period).Some?
    requires RequestFor(t1, empId, startDate, endDate, month, year, period).value.path
          == RequestFor(t2, empId, startDate, endDate, month, year, period).value.path
    ensures t1 == t2
  {
    var h := "/reports/";
    var e := NatToString(empId);
    var d := "/reports/detailed/";
    assert (h + e)[..9] == h;
    assert d[9] == 'd' && "/reports/absenteeism"[9] == 'a' && "/reports/monthly-summary"[9] == 'm';
    assert "/reports/employee-summary"[9] == 'e';
    assert (h + e)[9] == e[0] && IsDigit(e[0]);
  }

  /** The default CSV line of a report row: four fields by template literal,
      so an absent field shows as `undefined`. */
  datatype ExportRow = ExportRow(employeeId: Option<string>, firstName: Option<string>, lastName: Option<string>, totalHours: Option<string>)

  function TemplateText(v: Option<string>): string {
    v.GetOr("undefined")
  }

  function ExportLine(r: ExportRow): string {
    TemplateText(r.employeeId) + "," + TemplateText(r.firstName) + "," + TemplateText(r.lastName) + "," + TemplateText(r.totalHours)
  }

  /** `handleExportCsv`'s text: the rows' lines joined by line breaks, with no header. */
  function ExportCsv(data: seq<ExportRow>): (csv: string)
    ensures csv == "" <==> data == []
  {
    var lines := seq(|data|, i requires 0 <= i < |data| => ExportLine(data[i]));
    assert |data| > 0 ==> |Join(lines, '\n')| >= |lines[0]| > 0;
    Join(lines, '\n')
  }

  predicate PlainField(v: Option<string>) {
    v.None? || (',' !in v.value && '\n' !in v.value)
  }

  predicate PlainRow(r: ExportRow) {
    PlainField(r.employeeId) && PlainField(r.firstName) && PlainField(r.lastName) && PlainField(r.totalHours)
  }

  /** When no field holds a comma or a line break, the export has one line per
      row, in order, and each line splits back into that row's four fields
      (an absent field reading `undefined`). */
  lemma ExportOneLinePerRow(data: seq<ExportRow>)
    requires |data| > 0
    requires forall i :: 0 <= i < |data| ==> PlainRow(data[i])
    ensures var lines := Split(ExportCsv(data), '\n');
      && |lines| == |data|
      && forall i :: 0 <= i < |data| ==>
           lines[i] == ExportLine(data[i])
           && Split(lines[i], ',') == [TemplateText(data[i].employeeId), TemplateText(data[i].firstName),
                                       TemplateText(data[i].lastName), TemplateText(data[i].totalHours)]
  {
    var lines := seq(|data|, i requires 0 <= i < |data| => ExportLine(data[i]));
    forall i | 0 <= i < |data|
      ensures '\n' !in lines[i]
      ensures Split(lines[i], ',') == [TemplateText(data[i].employeeId), TemplateText(data[i].firstName),
                                       TemplateText(data[i].lastName), TemplateText(data[i].totalHours)]
    {
      ExportLineFields(data[i]);
    }
    SplitJoin(lines, '\n');
  }

  lemma ExportLineFields(r: ExportRow)
    requires PlainRow(r)
    ensures '\n' !in ExportLine(r)
    ensures Split(ExportLine(r), ',') == [TemplateText(r.employeeId), TemplateText(r.firstName), TemplateText(r.lastName), TemplateText(r.totalHours)]
  {
    var fields := [TemplateText(r.employeeId), TemplateText(r.firstName), TemplateText(r.lastName), TemplateText(r.totalHours)];
    var u := "undefined";
    assert forall k :: 0 <= k < |u| ==> u[k] != ',' && u[k] != '\n';
    assert fields[3..] == [fields[3]] && fields[2..][1..] == fields[3..] && fields[1..][1..] == fields[2..];
    assert Join(fields[2..], ',') == fields[2] + [','] + fields[3];
    assert Join(fields[1..], ',') == fields[1] + [','] + (fields[2] + [','] + fields[3]);
    assert ExportLine(r) == Join(fields, ',');
    SplitJoin(fields, ',');
    JoinWithout(fields, ',', '\n');
  }

  /** The form's state. */
  class ReportForm {
    var reportType: string
    var startDate: string
    var endDate: string
    var employeeId: string
    var selectedEmployeeName: string
    var month: Month
    var year: string
    var period: string
    var employees: seq<Employee>

    /** The initial state: total hours, January 2024, weekly, no employee. */
    constructor ()
      ensures reportType == "totalHours" && startDate == "" && endDate == ""
      ensures employeeId == "" && selectedEmployeeName == ""
      ensures month == January && year == "2024" && period == "weekly" && employees == []
    {
      reportType, startDate, endDate := "totalHours", "", "";
      employeeId, selectedEmployeeName := "", "";
      month, year, period, employees := January, "2024", "weekly", [];
    }

    /** `resetForm`: dates, employee and name cleared, January 2024, weekly;
        the report type and the employee list are kept. */
    method ResetForm()
      modifies this
      ensures startDate == "" && endDate == "" && employeeId == "" && selectedEmployeeName == ""
      ensures month == January && year == "2024" && period == "weekly"
      ensures reportType == old(reportType) && employees == old(employees)
    {
      startDate := "";
      endDate := "";
      employeeId := "";
      selectedEmployeeName := "";
      month := January;
      year := "2024";
      period := "weekly";
    }

    /** `handleEmployeeChange`: the name is stored, and the employee number
        of the first employee whose untrimmed full name equals it, or `''`. */
    method HandleEmployeeChange(employeeName: string)
      modifies this
      ensures selectedEmployeeName == employeeName
      ensures match FindEmployee(employees, employeeName, false)
              case Some(k) => employeeId == employees[k].employeeId
              case None => employeeId == ""
      ensures reportType == old(reportType) && startDate == old(startDate) && endDate == old(endDate)
      ensures month == old(month) && year == old(year) && period == old(period) && employees == old(employees)
    {
      selectedEmployeeName := employeeName;
      var selected := FindEmployee(employees, employeeName, false);
      employeeId := if selected.Some? then employees[selected.value].employeeId else "";
    }

    /** `handleGenerateReport` up to the fetch: no request without a found
        employee with a truthy `id`, nor for an unknown report type; otherwise
        the endpoint and query parameters of the report type. */
    method GenerateReport() returns (request: Option<ReportRequest>)
      ensures SelectedEmpId(employees, selectedEmployeeName).None? ==> request.None?
      ensures SelectedEmpId(employees, selectedEmployeeName).Some? ==>
                request == RequestFor(reportType, SelectedEmpId(employees, selectedEmployeeName).value,
                                      startDate, endDate, month, year, period)
    {
      var empId := SelectedEmpId(employees, selectedEmployeeName);
      if empId.None? {
        return None;
      }
      var id := empId.value;
      var url: string;
      var queryParams: seq<(string, string)>;
      if reportType == "totalHours" {
        url := "/reports/" + NatToString(id);
        queryParams := [("startDate", startDate), ("endDate", endDate)];
      } else if reportType == "detailedTimecards" {
        url := "/reports/detailed/" + NatToString(id);
        queryParams := [("startDate", startDate), ("endDate", endDate)];
      } else if reportType == "absenteeism" {
        url := "/reports/absenteeism";
        queryParams := [("startDate", startDate), ("endDate", endDate)];
      } else if reportType == "monthlySummary" {
        url := "/reports/monthly-summary";
        queryParams := [("month", month.value), ("year", year)];
      } else if reportType == "employeeSummary" {
        url := "/reports/employee-summary";
        queryParams := [("employeeId", NatToString(id)), ("period", period)];
      } else {
        return None;
      }
      request := Some(ReportRequest(url, queryParams));
    }
  }

  /** Which report types make a request for a found employee: exactly the
      five the form offers; the two per-employee totals carry the date range
      and the employee in the path, absenteeism carries only the date range. */
  lemma KnownReportTypes(reportType: string, empId: nat, startDate: string, endDate: string, month: Month, year: string, period: string)
    ensures RequestFor(reportType, empId, startDate, endDate, month, year, period).Some? <==>
              reportType in {"totalHours", "detailedTimecards", "absenteeism", "monthlySummary", "employeeSummary"}
    ensures reportType in {"totalHours", "detailedTimecards", "absenteeism"} ==>
              RequestFor(reportType, empId, startDate, endDate, month, year, period).value.query
                == [("startDate", startDate), ("endDate", endDate)]
    ensures reportType == "totalHours" ==>
              RequestFor(reportType, empId, startDate, endDate, month, year, period).value.path
                == "/reports/" + NatToString(empId)
    ensures reportType == "detailedTimecards" ==>
              RequestFor(reportType, empId, startDate, endDate, month, year, period).value.path
                == "/reports/detailed/" + NatToString(empId)
    ensures reportType == "absenteeism" ==>
              RequestFor(reportType, empId, startDate, endDate, month, year, period).value.path
                == "/reports/absenteeism"
  {
  }
}
