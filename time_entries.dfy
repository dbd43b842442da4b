/** The shapes both ActiveTimeCard components share: one day's entry in the
    components' camelCase form, the backend's snake_case record, the request a
    component sends, and the `{h}h {m}m` duration label. */
module TimeEntries {
  import opened Options
  import opened Text
  import opened Calendar

  /** A backend-assigned identifier. Database keys are positive, so "the
      entry has an id" coincides with JavaScript's truthiness test `entry.id ?`. */
  type Id = x: int | x > 0 witness 1

  /** The employee id both components hard-code. */
  const EmployeeId: nat := 1

  const Active := "active"
  const Submitted := "submitted"

  /** One day's entry. Empty time fields are `""`; `status` is `""` on a fresh
      placeholder, and a record whose status was missing also reads as `""`
      (every later test compares it with `'submitted'` or `'active'`, where
      `undefined` and `''` behave alike). */
  datatype TimeEntry = TimeEntry(
    id: Option<Id>,
    date: Day,
    startTime: string,
    lunchStart: string,
    lunchEnd: string,
    endTime: string,
    totalTime: string,
    status: string)

  /** The four editable time inputs of a row. */
  datatype Field = StartTime | LunchStart | LunchEnd | EndTime

  /** `entry[field] = value`: only that field changes. */
  function SetField(e: TimeEntry, f: Field, v: string): (r: TimeEntry)
    ensures GetField(r, f) == v
    ensures forall g :: g != f ==> GetField(r, g) == GetField(e, g)
    ensures r.id == e.id && r.date == e.date && r.totalTime == e.totalTime && r.status == e.status
  {
    match f
    case StartTime => e.(startTime := v)
    case LunchStart => e.(lunchStart := v)
    case LunchEnd => e.(lunchEnd := v)
    case EndTime => e.(endTime := v)
  }

  function GetField(e: TimeEntry, f: Field): string {
    match f
    case StartTime => e.startTime
    case LunchStart => e.lunchStart
    case LunchEnd => e.lunchEnd
    case EndTime => e.endTime
  }

  /** `total_time` as the backend sends it: an object with optional hours and minutes. */
  datatype ServerTotal = ServerTotal(hours: Option<nat>, minutes: Option<nat>)

  /** A record of `GET /timecards/employee/{id}/range/{start}/{end}`, its
      `work_date` already normalised to a UTC calendar day. Absent fields are `None`. */
  datatype ServerRecord = ServerRecord(
    id: Option<Id>,
    workDate: Day,
    startTime: Option<string>,
    lunchStart: Option<string>,
    lunchEnd: Option<string>,
    endTime: Option<string>,
    totalTime: Option<ServerTotal>,
    status: Option<string>)

  /** JavaScript `v || d` on a value that is a string or absent: an absent or
      empty string gives `d`. */
  function OrDefault(v: Option<string>, d: string): (r: string)
    ensures (v.Some? && v.value != "") ==> r == v.value
    ensures (v.None? || v.value == "") ==> r == d
  {
    if v.Some? && v.value != "" then v.value else d
  }

  /** JavaScript `s || null` on a string: empty becomes null (`None`). */
  function OrNull(s: string): (r: Option<string>)
    ensures r.None? <==> s == ""
    ensures r.Some? ==> r.value == s
  {
    if s == "" then None else Some(s)
  }

  /** A number in a template literal: `undefined` when absent. */
  function TemplateNumber(n: Option<nat>): string {
    match n
    case Some(k) => NatToString(k)
    case None => "undefined"
  }

  // ---------------------------------------------------------------- labels

  /** `${hours}h ${minutes}m` for two rendered numbers. */
  function LabelText(hours: string, minutes: string): string {
    hours + "h " + minutes + "m"
  }

  function HoursMinutesLabel(hours: nat, minutes: nat): string {
    LabelText(NatToString(hours), NatToString(minutes))
  }

  /** Distinct hour/minute pairs give distinct labels. */
  lemma HoursMinutesLabelInjective(h1: nat, m1: nat, h2: nat, m2: nat)
    requires HoursMinutesLabel(h1, m1) == HoursMinutesLabel(h2, m2)
    ensures h1 == h2 && m1 == m2
  {
    var a, b := NatToString(h1), NatToString(h2);
    var x, y := "h " + NatToString(m1) + "m", "h " + NatToString(m2) + "m";
    assert HoursMinutesLabel(h1, m1) == a + x;
    assert HoursMinutesLabel(h2, m2) == b + y;
    DigitPrefixUnique(a, x, b, y);
    NatToStringInjective(h1, h2);
    assert NatToString(m1) == x[2..|x| - 1] == y[2..|y| - 1] == NatToString(m2);
    NatToStringInjective(m1, m2);
  }

  /** The label of a total of minutes: `Math.floor(total / 60)` hours and
      `total % 60` minutes. */
  function DurationLabel(total: nat): string {
    HoursMinutesLabel(total / 60, total % 60)
  }

  /** The label of `total` shows `h` hours and `m` minutes exactly when
      `m < 60` and `60 * h + m == total`. */
  lemma DurationLabelParts(total: nat, h: nat, m: nat)
    ensures DurationLabel(total) == HoursMinutesLabel(h, m) <==> (m < 60 && 60 * h + m == total)
  {
    if DurationLabel(total) == HoursMinutesLabel(h, m) {
      HoursMinutesLabelInjective(total / 60, total % 60, h, m);
    }
    if m < 60 && 60 * h + m == total {
      assert total / 60 == h && total % 60 == m;
    }
  }

  /** The label determines the total. */
  lemma DurationLabelInjective(a: nat, b: nat)
    requires DurationLabel(a) == DurationLabel(b)
    ensures a == b
  {
    DurationLabelParts(b, a / 60, a % 60);
  }

  // ---------------------------------------------------------------- requests

  datatype HttpMethod = Post | Put

  /** A request body; `None` stands for JSON `null`. */
  datatype Body =
    | EntryBody(
        employeeId: nat,
        workDate: Day,
        startTime: Option<string>,
        lunchStart: Option<string>,
        lunchEnd: Option<string>,
        endTime: Option<string>,
        totalTime: Option<string>,
        status: string)
    | StatusBody(status: string)

  /** A request to the backend; `path` is relative to the API base URL. */
  datatype Request = Request(verb: HttpMethod, path: string, body: Body)

  /** `/timecards`, with `/{id}` appended when the entry has an id. */
  function TimecardsPath(id: Option<Id>): (p: string)
    ensures id.None? ==> p == "/timecards"
    ensures id.Some? ==> p == "/timecards/" + NatToString(id.value)
  {
    match id
    case None => "/timecards"
    case Some(k) => "/timecards/" + NatToString(k)
  }
}
