/** The ActiveTimeCard component of presentTimeCard/ActiveTimeCard.js: loads
    the period's saved records into a date-keyed map, creates a record for
    every weekday that has none, computes worked time with a no-lunch rule,
    saves every edit by PUT, and submits by PUTting each active row's status. */
module PresentTimeCard {
  import opened Options
  import opened Text
  import opened Calendar
  import opened Clock
  import opened TimeEntries
  import V1 = ActiveTimeCard

  // ---------------------------------------------------------------- worked time

  /** This component's rule: the two segments as in the other variant, except
      that start and end without either lunch time count the whole span, and
      start with both lunch times but no end counts the morning only; the
      result is clamped at 0. */
  function WorkedMinutes(start: Option<nat>, lunchStart: Option<nat>, lunchEnd: Option<nat>, end: Option<nat>): (m: nat)
    ensures start.Some? && end.Some? && lunchStart.None? && lunchEnd.None? && start.value <= end.value ==>
              m == end.value - start.value
    ensures !(start.Some? && end.Some? && lunchStart.None? && lunchEnd.None?) ==>
              m == V1.WorkedMinutes(start, lunchStart, lunchEnd, end)
  {
    if start.Some? && end.Some? && lunchStart.None? && lunchEnd.None? then
      V1.Clamp(end.value as int - start.value)
    else if start.Some? && lunchStart.Some? && lunchEnd.Some? && end.None? then
      V1.Clamp(lunchStart.value as int - start.value)
    else
      V1.Clamp(V1.Segment(start, lunchStart) + V1.Segment(lunchEnd, end))
  }

  /** `calculateTotalTime`: sums the two segments into `totalMinutes`, then lets
      the no-lunch rule and the partial-day rule overwrite it, clamps at 0 and
      renders `{h}h {m}m` (the `|| '00:00'` fallback never applies, the label
      being non-empty). */
  method CalculateTotalTime(start: string, lunchStart: string, lunchEnd: string, end: string) returns (totalTime: string)
    ensures totalTime == DurationLabel(WorkedMinutes(ParseClock(start), ParseClock(lunchStart), ParseClock(lunchEnd), ParseClock(end)))
  {
    var startTime, lunchStartTime := ParseClock(start), ParseClock(lunchStart);
    var lunchEndTime, endTime := ParseClock(lunchEnd), ParseClock(end);
    var totalMinutes: int := 0;
    if startTime.Some? && lunchStartTime.Some? {
      totalMinutes := totalMinutes + (lunchStartTime.value as int - startTime.value);
    }
    if lunchEndTime.Some? && endTime.Some? {
      totalMinutes := totalMinutes + (endTime.value as int - lunchEndTime.value);
    }
    if startTime.Some? && endTime.Some? && lunchStartTime.None? && lunchEndTime.None? {
      totalMinutes := endTime.value as int - startTime.value;
    }
    if startTime.Some? && lunchStartTime.Some? && lunchEndTime.Some? && endTime.None? {
      totalMinutes := lunchStartTime.value as int - startTime.value;
    }
    totalMinutes := if totalMinutes > 0 then totalMinutes else 0;
    var hours := totalMinutes / 60;
    var minutes := totalMinutes % 60;
    totalTime := HoursMinutesLabel(hours, minutes);
  }

  /** The two variants disagree exactly when start and end are present, both
      lunch times are absent and the end is after the start: there this one
      counts the span and the other counts nothing. */
  lemma VariantsDiffer(s: Option<nat>, ls: Option<nat>, le: Option<nat>, e: Option<nat>)
    ensures WorkedMinutes(s, ls, le, e) != V1.WorkedMinutes(s, ls, le, e)
            <==> (s.Some? && e.Some? && ls.None? && le.None? && e.value > s.value)
    ensures s.Some? && e.Some? && ls.None? && le.None? ==>
              WorkedMinutes(s, ls, le, e) == V1.Clamp(e.value as int - s.value) && V1.WorkedMinutes(s, ls, le, e) == 0
  {
  }

  /** The partial-day rule changes nothing: with no end the sum already is the
      morning segment. */
  lemma PartialDayIsMorning(s: nat, ls: nat, le: nat)
    ensures WorkedMinutes(Some(s), Some(ls), Some(le), None) == V1.WorkedMinutes(Some(s), Some(ls), Some(le), None)
  {
  }

  /** A row's label for its current fields under this variant's rule. */
  function EntryTotal(e: TimeEntry): string {
    DurationLabel(WorkedMinutes(ParseClock(e.startTime), ParseClock(e.lunchStart), ParseClock(e.lunchEnd), ParseClock(e.endTime)))
  }

  // ---------------------------------------------------------------- the period

  /** The weekday loop of `fetchTimeCardData`: 14 steps from the Monday the
      start date snaps to in UTC, collecting the weekdays. */
  method AllWeekdays(startDate: Day) returns (allWeekdays: seq<Day>)
    ensures allWeekdays == PeriodWeekdays(startDate)
    ensures |allWeekdays| == 10
    ensures forall i, j :: 0 <= i < j < |allWeekdays| ==> allWeekdays[i] < allWeekdays[j]
  {
    var monday := PreviousMonday(startDate);
    var currentDate := monday;
    allWeekdays := [];
    for i := 0 to 14
      invariant currentDate == monday + i
      invariant allWeekdays == WeekdaysIn(monday, i)
    {
      if IsWeekday(currentDate) {
        allWeekdays := allWeekdays + [currentDate];
      }
      currentDate := currentDate + 1;
    }
    PeriodWeekdaysShape(startDate);
  }

  // ---------------------------------------------------------------- the fetched map

  /** The row a fetched record becomes: its id and date, its time fields (`''`
      when absent), `total_time` rendered (`'0h 0m'` when absent), and its
      status (`'active'` when absent or empty). */
  function FromRecord(r: ServerRecord): (e: TimeEntry)
    ensures e.id == r.id && e.date == r.workDate
    ensures r.totalTime.None? ==> e.totalTime == "0h 0m"
    ensures e.status == OrDefault(r.status, Active)
  {
    TimeEntry(r.id, r.workDate,
      OrDefault(r.startTime, ""), OrDefault(r.lunchStart, ""), OrDefault(r.lunchEnd, ""), OrDefault(r.endTime, ""),
      if r.totalTime.Some? then LabelText(TemplateNumber(r.totalTime.value.hours), TemplateNumber(r.totalTime.value.minutes))
      else "0h 0m",
      OrDefault(r.status, Active))
  }

  /** `fetchedEntriesMap` after the `forEach`: each record, in order, sets its
      date to its row, overwriting what an earlier record with that date set. */
  function FetchedMap(records: seq<ServerRecord>): (byDate: map<Day, TimeEntry>)
    ensures forall d :: d in byDate <==> exists j :: 0 <= j < |records| && records[j].workDate == d
  {
    if records == [] then map[]
    else
      var n := |records| - 1;
      var init := FetchedMap(records[..n]);
      assert forall j :: 0 <= j < n ==> records[..n][j] == records[j];
      init[records[n].workDate := FromRecord(records[n])]
  }

  /** The map's keys in the order a JavaScript `Map` keeps them: a date takes
      its place when it is first set and keeps it when set again. */
  function KeyOrder(records: seq<ServerRecord>): (keys: seq<Day>)
    ensures forall d :: d in keys <==> d in FetchedMap(records)
  {
    if records == [] then []
    else
      var n := |records| - 1;
      var init := KeyOrder(records[..n]);
      if records[n].workDate in init then init else init + [records[n].workDate]
  }

  /** The index of the last record dated `d`, if any. */
  function LastWithDate(records: seq<ServerRecord>, d: Day): (k: Option<nat>)
    ensures k.None? ==> forall j :: 0 <= j < |records| ==> records[j].workDate != d
    ensures k.Some? ==> k.value < |records| && records[k.value].workDate == d
                        && forall j :: k.value < j < |records| ==> records[j].workDate != d
  {
    if records == [] then None
    else
      var n := |records| - 1;
      if records[n].workDate == d then Some(n)
      else
        var k := LastWithDate(records[..n], d);
        assert forall j :: 0 <= j < n ==> records[..n][j] == records[j];
        k
  }

  /** A date is a key exactly when some record has it, and the row it maps to
      is made from the last such record: later records overwrite earlier ones. */
  lemma {:induction false} FetchedMapLastWins(records: seq<ServerRecord>, d: Day)
    ensures d in FetchedMap(records) <==> LastWithDate(records, d).Some?
    ensures d in FetchedMap(records) ==> FetchedMap(records)[d] == FromRecord(records[LastWithDate(records, d).value])
  {
    if records != [] {
      var n := |records| - 1;
      FetchedMapLastWins(records[..n], d);
    }
  }

  /** The key order lists no key twice. */
  lemma {:induction false} KeyOrderKeys(records: seq<ServerRecord>)
    ensures forall i, j :: 0 <= i < j < |KeyOrder(records)| ==> KeyOrder(records)[i] != KeyOrder(records)[j]
  {
    if records != [] {
      var n := |records| - 1;
      KeyOrderKeys(records[..n]);
    }
  }

  /** The `forEach`/`set` loop that fills the map and, with it, the key order. */
  method BuildFetchedMap(records: seq<ServerRecord>) returns (keys: seq<Day>, byDate: map<Day, TimeEntry>)
    ensures keys == KeyOrder(records)
    ensures byDate == FetchedMap(records)
  {
    keys, byDate := [], map[];
    for i := 0 to |records|
      invariant keys == KeyOrder(records[..i])
      invariant byDate == FetchedMap(records[..i])
    {
      var entry := records[i];
      var date := entry.workDate;
      assert records[..i + 1][..i] == records[..i];
      if date !in keys {
        keys := keys + [date];
      }
      byDate := byDate[date := FromRecord(entry)];
    }
    assert records[..|records|] == records;
  }

  /** `Array.from(fetchedEntriesMap.values())`. */
  function MapValues(keys: seq<Day>, byDate: map<Day, TimeEntry>): (vs: seq<TimeEntry>)
    requires forall i :: 0 <= i < |keys| ==> keys[i] in byDate
    ensures |vs| == |keys| && forall i :: 0 <= i < |keys| ==> vs[i] == byDate[keys[i]]
  {
    seq(|keys|, i requires 0 <= i < |keys| => byDate[keys[i]])
  }

  /** The rows the fetched map contributes: one per distinct fetched date, in
      first-set order, each made from the last record with its date. */
  lemma FetchedValuesShape(records: seq<ServerRecord>)
    ensures var keys := KeyOrder(records);
      && |MapValues(keys, FetchedMap(records))| == |FetchedMap(records)|
      && forall i :: 0 <= i < |keys| ==>
           && LastWithDate(records, keys[i]).Some?
           && MapValues(keys, FetchedMap(records))[i] == FromRecord(records[LastWithDate(records, keys[i]).value])
  {
    var keys := KeyOrder(records);
    KeyOrderKeys(records);
    DistinctCount(keys, FetchedMap(records).Keys);
    forall i | 0 <= i < |keys|
      ensures LastWithDate(records, keys[i]).Some?
      ensures FetchedMap(records)[keys[i]] == FromRecord(records[LastWithDate(records, keys[i]).value])
    {
      FetchedMapLastWins(records, keys[i]);
    }
  }

  /** A duplicate-free sequence has as many elements as the set it enumerates. */
  lemma {:induction false} DistinctCount(xs: seq<Day>, s: set<Day>)
    requires forall d :: d in xs <==> d in s
    requires forall i, j :: 0 <= i < j < |xs| ==> xs[i] != xs[j]
    ensures |xs| == |s|
    decreases |xs|
  {
    if xs == [] {
      assert forall d :: d !in s;
      assert s == {};
    } else {
      var n := |xs| - 1;
      var x := xs[n];
      assert x in xs;
      assert x in s;
      assert x !in xs[..n];
      forall d ensures d in xs[..n] <==> d in s - {x} {
        if d in xs[..n] {
          var i :| 0 <= i < n && xs[..n][i] == d;
          assert xs[i] == d;
        }
        if d in s - {x} {
          assert d in xs;
          var i :| 0 <= i < |xs| && xs[i] == d;
          assert i < n && xs[..n][i] == d;
        }
      }
      DistinctCount(xs[..n], s - {x});
    }
  }

  // ---------------------------------------------------------------- missing dates and creation

  /** `missingDates`: the period's weekdays the map has no key for, in order. */
  function MissingDates(days: seq<Day>, present: set<Day>): (missing: seq<Day>)
    ensures forall d :: d in missing <==> d in days && d !in present
    ensures |missing| <= |days|
  {
    if days == [] then []
    else
      var rest := MissingDates(days[1..], present);
      assert forall d :: d in days[1..] ==> d in days;
      if days[0] in present then rest else [days[0]] + rest
  }

  predicate Ascending(xs: seq<Day>) {
    forall i, j :: 0 <= i < j < |xs| ==> xs[i] < xs[j]
  }

  /** The filter keeps the order of the weekdays. */
  lemma {:induction false} MissingDatesAscending(days: seq<Day>, present: set<Day>)
    requires Ascending(days)
    ensures Ascending(MissingDates(days, present))
  {
    if days != [] {
      var rest := MissingDates(days[1..], present);
      MissingDatesAscending(days[1..], present);
      forall d | d in rest ensures days[0] < d {
        var i :| 0 <= i < |days[1..]| && days[1..][i] == d;
        assert days[i + 1] == d;
      }
      if days[0] !in present {
        var m := [days[0]] + rest;
        forall i, j | 0 <= i < j < |m| ensures m[i] < m[j] {
          assert m[j] == rest[j - 1];
          if i == 0 {
            assert rest[j - 1] in rest;
            assert m[0] == days[0];
          } else {
            assert m[i] == rest[i - 1];
          }
        }
      }
    }
  }

  /** The missing dates and the map keys split the period's weekdays: no date
      is in both, and every weekday of the period is in one of them. */
  lemma MissingDatesPartition(startDate: Day, records: seq<ServerRecord>)
    ensures var missing := MissingDates(PeriodWeekdays(startDate), FetchedMap(records).Keys);
      && (forall d :: d in missing ==> d !in FetchedMap(records))
      && (forall d :: PreviousMonday(startDate) <= d <= PeriodEnd(PreviousMonday(startDate)) && IsWeekday(d) ==>
            d in missing || d in FetchedMap(records))
      && Ascending(missing)
  {
    PeriodWeekdaysShape(startDate);
    MissingDatesAscending(PeriodWeekdays(startDate), FetchedMap(records).Keys);
  }

  /** The record a successful POST returns. */
  datatype CreatedRecord = CreatedRecord(
    id: Id,
    workDate: Day,
    startTime: Option<string>,
    lunchStart: Option<string>,
    lunchEnd: Option<string>,
    endTime: Option<string>,
    totalTime: Option<string>,
    status: Option<string>)

  /** The POST that creates a missing day: blank fields, status `active`. */
  function CreateRequest(d: Day): Request {
    Request(Post, "/timecards", EntryBody(EmployeeId, d, Some(""), Some(""), Some(""), Some(""), Some(""), Active))
  }

  /** `missingDates.map(...)`: one creation per missing date, in order. */
  function CreateRequests(missing: seq<Day>): (posts: seq<Request>)
    ensures |posts| == |missing|
    ensures forall i :: 0 <= i < |missing| ==> posts[i] == CreateRequest(missing[i])
  {
    seq(|missing|, i requires 0 <= i < |missing| => CreateRequest(missing[i]))
  }

  /** `savedEntryCamelCase`. */
  function FromCreated(c: CreatedRecord): (e: TimeEntry)
    ensures e.id == Some(c.id) && e.date == c.workDate
  {
    TimeEntry(Some(c.id), c.workDate,
      OrDefault(c.startTime, ""), OrDefault(c.lunchStart, ""), OrDefault(c.lunchEnd, ""), OrDefault(c.endTime, ""),
      OrDefault(c.totalTime, "0h 0m"), OrDefault(c.status, Active))
  }

  /** `successfulCreatedEntries`: the rows of the creations that succeeded, in
      the order of the missing dates; a failed creation (`None`) is dropped. */
  function Successes(missing: seq<Day>, created: Day -> Option<CreatedRecord>): (made: seq<TimeEntry>)
    ensures |made| <= |missing|
  {
    if missing == [] then []
    else
      match created(missing[0])
      case Some(c) => [FromCreated(c)] + Successes(missing[1..], created)
      case None => Successes(missing[1..], created)
  }

  /** Every kept row comes from the answer for one of the missing dates; when
      every creation succeeds the rows follow the missing dates one for one,
      and when every creation fails none is kept. */
  lemma {:induction false} SuccessesShape(missing: seq<Day>, created: Day -> Option<CreatedRecord>)
    ensures var made := Successes(missing, created);
      && (forall e :: e in made ==> exists d :: d in missing && created(d).Some? && e == FromCreated(created(d).value))
      && ((forall d :: d in missing ==> created(d).Some?) ==>
            |made| == |missing| && forall i :: 0 <= i < |missing| ==> made[i] == FromCreated(created(missing[i]).value))
      && ((forall d :: d in missing ==> created(d).None?) ==> made == [])
  {
    if missing != [] {
      SuccessesShape(missing[1..], created);
      var rest := Successes(missing[1..], created);
      assert forall d :: d in missing[1..] ==> d in missing;
      var made := Successes(missing, created);
      forall e | e in made ensures exists d :: d in missing && created(d).Some? && e == FromCreated(created(d).value) {
        if e in rest {
          var d :| d in missing[1..] && created(d).Some? && e == FromCreated(created(d).value);
          assert d in missing;
        } else {
          var d := missing[0];
          assert d in missing && created(d).Some? && e == FromCreated(created(d).value);
        }
      }
      if (forall d :: d in missing ==> created(d).Some?) {
        assert missing[0] in missing;
        forall i | 0 <= i < |missing| ensures made[i] == FromCreated(created(missing[i]).value) {
          if i > 0 { assert missing[i] == missing[1..][i - 1]; }
        }
      }
      if (forall d :: d in missing ==> created(d).None?) {
        assert missing[0] in missing;
      }
    }
  }

  // ---------------------------------------------------------------- submit outcome

  predicate AllSubmitted(entries: seq<TimeEntry>) {
    forall i :: 0 <= i < |entries| ==> entries[i].status == Submitted
  }

  /** The PUT of `handleSubmit` for one active row: only the status. */
  function StatusRequest(e: TimeEntry): Request {
    Request(Put, "/timecards/" + IdText(e.id), StatusBody(Submitted))
  }

  /** `${entry.id}` in a URL: `undefined` when the row has no id. */
  function IdText(id: Option<Id>): string {
    match id
    case Some(k) => NatToString(k)
    case None => "undefined"
  }

  /** The requests of a submit: one per `active` row, in row order. */
  function StatusRequests(entries: seq<TimeEntry>): (sent: seq<Request>)
    ensures |sent| <= |entries|
    ensures forall k :: 0 <= k < |sent| ==> sent[k].verb == Put && sent[k].body == StatusBody(Submitted)
  {
    if entries == [] then []
    else
      var n := |entries| - 1;
      StatusRequests(entries[..n]) + (if entries[n].status == Active then [StatusRequest(entries[n])] else [])
  }

  /** The number of `active` rows: those that are sent. */
  function Attempted(entries: seq<TimeEntry>): nat {
    if entries == [] then 0
    else
      var n := |entries| - 1;
      Attempted(entries[..n]) + (if entries[n].status == Active then 1 else 0)
  }

  /** The number of sent rows whose PUT failed. */
  function Failures(entries: seq<TimeEntry>, accepted: seq<bool>): (f: nat)
    requires |accepted| == |entries|
    ensures f <= |entries|
  {
    if entries == [] then 0
    else
      var n := |entries| - 1;
      Failures(entries[..n], accepted[..n]) + (if entries[n].status == Active && !accepted[n] then 1 else 0)
  }

  /** Counting facts: as many requests as active rows; no failure exactly when
      every sent row succeeded; as many failures as attempts exactly when every
      sent row failed. */
  lemma FailuresCount(entries: seq<TimeEntry>, accepted: seq<bool>)
    requires |accepted| == |entries|
    ensures |StatusRequests(entries)| == Attempted(entries)
    ensures Failures(entries, accepted) <= Attempted(entries)
    ensures Failures(entries, accepted) == 0 <==>
              forall i :: 0 <= i < |entries| && entries[i].status == Active ==> accepted[i]
    ensures Failures(entries, accepted) == Attempted(entries) <==>
              forall i :: 0 <= i < |entries| && entries[i].status == Active ==> !accepted[i]
    ensures Attempted(entries) == 0 <==> forall i :: 0 <= i < |entries| ==> entries[i].status != Active
  {
    RequestsCount(entries);
    FailuresRange(entries, accepted);
    AttemptedZero(entries);
  }

  lemma {:induction false} RequestsCount(entries: seq<TimeEntry>)
    ensures |StatusRequests(entries)| == Attempted(entries)
  {
    if entries != [] {
      RequestsCount(entries[..|entries| - 1]);
    }
  }

  /** No more failures than attempts, and the two extremes. */
  lemma {:induction false} FailuresRange(entries: seq<TimeEntry>, accepted: seq<bool>)
    requires |accepted| == |entries|
    ensures Failures(entries, accepted) <= Attempted(entries)
    ensures Failures(entries, accepted) == 0 <==>
              forall i :: 0 <= i < |entries| && entries[i].status == Active ==> accepted[i]
    ensures Failures(entries, accepted) == Attempted(entries) <==>
              forall i :: 0 <= i < |entries| && entries[i].status == Active ==> !accepted[i]
  {
    if entries != [] {
      var n := |entries| - 1;
      var es, acc := entries[..n], accepted[..n];
      FailuresRange(es, acc);
      assert forall i :: 0 <= i < n ==> es[i] == entries[i] && acc[i] == accepted[i];
    }
  }

  lemma {:induction false} AttemptedZero(entries: seq<TimeEntry>)
    ensures Attempted(entries) == 0 <==> forall i :: 0 <= i < |entries| ==> entries[i].status != Active
  {
    if entries != [] {
      var n := |entries| - 1;
      AttemptedZero(entries[..n]);
      assert forall i :: 0 <= i < n ==> entries[..n][i] == entries[i];
    }
  }

  datatype SubmitResult = AlreadySubmitted | SubmitSuccess | TotalFailure | PartialFailure

  /** The outcome as the source decides it: no failure is success, as many
      failures as there are rows (sent or not) is total failure, anything else
      partial. */
  function ClassifyAsWritten(failures: nat, rowCount: nat): (r: SubmitResult)
    ensures r != AlreadySubmitted
    ensures r == SubmitSuccess <==> failures == 0
    ensures r == TotalFailure <==> 0 < failures == rowCount
  {
    if failures == 0 then SubmitSuccess
    else if failures == rowCount then TotalFailure
    else PartialFailure
  }

  /** The outcome as evidently intended: failures are compared with the rows
      that were actually sent. */
  function Classify(failures: nat, attempted: nat): (r: SubmitResult)
    ensures r != AlreadySubmitted
    ensures r == SubmitSuccess <==> failures == 0
    ensures r == TotalFailure <==> 0 < failures == attempted
  {
    if failures == 0 then SubmitSuccess
    else if failures == attempted then TotalFailure
    else PartialFailure
  }

  /** Whenever some row was sent, every sent row failed and some other row
      was already submitted, nothing was submitted, yet the source reports a
      partial success; the corrected rule reports a total failure. */
  lemma ClassifyAsWrittenMisreports(entries: seq<TimeEntry>, accepted: seq<bool>)
    requires |accepted| == |entries|
    requires exists i :: 0 <= i < |entries| && entries[i].status == Active
    requires exists i :: 0 <= i < |entries| && entries[i].status != Active
    requires forall i :: 0 <= i < |entries| && entries[i].status == Active ==> !accepted[i]
    ensures ClassifyAsWritten(Failures(entries, accepted), |entries|) == PartialFailure
    ensures Classify(Failures(entries, accepted), Attempted(entries)) == TotalFailure
  {
    FailuresCount(entries, accepted);
    AttemptedBound(entries);
  }

  /** At most one attempt per row, and one per row only when every row is active. */
  lemma {:induction false} AttemptedBound(entries: seq<TimeEntry>)
    ensures Attempted(entries) <= |entries|
    ensures Attempted(entries) == |entries| ==> forall i :: 0 <= i < |entries| ==> entries[i].status == Active
  {
    if entries != [] {
      var n := |entries| - 1;
      AttemptedBound(entries[..n]);
      assert forall i :: 0 <= i < n ==> entries[..n][i] == entries[i];
    }
  }

  /** The corrected outcome means what it says: success when every sent row
      succeeded, total failure when rows were sent and all failed, partial
      failure when some sent row failed and some succeeded. */
  lemma ClassifyMeaning(entries: seq<TimeEntry>, accepted: seq<bool>)
    requires |accepted| == |entries|
    ensures var r := Classify(Failures(entries, accepted), Attempted(entries));
      && (r == SubmitSuccess <==> forall i :: 0 <= i < |entries| && entries[i].status == Active ==> accepted[i])
      && (r == TotalFailure <==>
            (exists i :: 0 <= i < |entries| && entries[i].status == Active)
            && forall i :: 0 <= i < |entries| && entries[i].status == Active ==> !accepted[i])
      && (r == PartialFailure <==>
            (exists i :: 0 <= i < |entries| && entries[i].status == Active && !accepted[i])
            && (exists i :: 0 <= i < |entries| && entries[i].status == Active && accepted[i]))
  {
    FailuresCount(entries, accepted);
  }

  /** When every row is active, as after a fresh load, both classifications agree. */
  lemma ClassifyAgreesWhenAllActive(entries: seq<TimeEntry>, accepted: seq<bool>)
    requires |accepted| == |entries|
    requires forall i :: 0 <= i < |entries| ==> entries[i].status == Active
    ensures ClassifyAsWritten(Failures(entries, accepted), |entries|) == Classify(Failures(entries, accepted), Attempted(entries))
  {
    AttemptedAllActive(entries);
  }

  lemma {:induction false} AttemptedAllActive(entries: seq<TimeEntry>)
    requires forall i :: 0 <= i < |entries| ==> entries[i].status == Active
    ensures Attempted(entries) == |entries|
  {
    if entries != [] {
      var n := |entries| - 1;
      assert forall i :: 0 <= i < n ==> entries[..n][i] == entries[i];
      AttemptedAllActive(entries[..n]);
    }
  }

  // ---------------------------------------------------------------- edits

  /** An edit: the field is set, the total recomputed under this variant's
      rule and the status forced to `active`; there is no submitted check. */
  function EditEntry(e: TimeEntry, field: Field, value: string): (r: TimeEntry)
    ensures GetField(r, field) == value
    ensures forall g :: g != field ==> GetField(r, g) == GetField(e, g)
    ensures r.id == e.id && r.date == e.date && r.status == Active
    ensures r.totalTime == EntryTotal(r)
  {
    var u := SetField(e, field, value);
    u.(totalTime := EntryTotal(u), status := Active)
  }

  /** The PUT the edit effect sends: always PUT to `/timecards/{id}`, empty
      time fields as null, `total_time` defaulting to `'0h 0m'` and the status
      to `'active'`. */
  function UpdateRequest(e: TimeEntry): (r: Request)
    ensures r.verb == Put && r.path == "/timecards/" + IdText(e.id)
    ensures r.body.EntryBody? && r.body.employeeId == EmployeeId && r.body.workDate == e.date
    ensures r.body.startTime == OrNull(e.startTime) && r.body.lunchStart == OrNull(e.lunchStart)
    ensures r.body.lunchEnd == OrNull(e.lunchEnd) && r.body.endTime == OrNull(e.endTime)
    ensures r.body.totalTime == Some(if e.totalTime == "" then "0h 0m" else e.totalTime)
    ensures r.body.status == if e.status == "" then Active else e.status
  {
    Request(Put, "/timecards/" + IdText(e.id),
      EntryBody(EmployeeId, e.date, OrNull(e.startTime), OrNull(e.lunchStart), OrNull(e.lunchEnd), OrNull(e.endTime),
                Some(OrDefault(Some(e.totalTime), "0h 0m")), OrDefault(Some(e.status), Active)))
  }

  // ---------------------------------------------------------------- the table's rows

  /** `xs.filter(keep)`. */
  function Filter<T>(xs: seq<T>, keep: T -> bool): (ys: seq<T>)
    ensures |ys| <= |xs|
  {
    if xs == [] then [] else (if keep(xs[0]) then [xs[0]] else []) + Filter(xs[1..], keep)
  }

  /** Every element of the filtered sequence is kept. */
  lemma {:induction false} FilterKeeps<T>(xs: seq<T>, keep: T -> bool)
    ensures forall j :: 0 <= j < |Filter(xs, keep)| ==> keep(Filter(xs, keep)[j])
  {
    if xs != [] {
      FilterKeeps(xs[1..], keep);
    }
  }

  lemma FilterCons<T>(x: T, rest: seq<T>, keep: T -> bool)
    ensures Filter([x] + rest, keep) == (if keep(x) then [x] else []) + Filter(rest, keep)
  {
    assert ([x] + rest)[1..] == rest;
  }

  /** The position in `xs` of the `k`-th kept element: a kept element with
      exactly `k` kept elements before it. */
  function PositionOfKept<T>(xs: seq<T>, keep: T -> bool, k: nat): (i: nat)
    requires k < |Filter(xs, keep)|
    ensures i < |xs| && keep(xs[i])
    ensures |Filter(xs[..i], keep)| == k
    ensures xs[i] == Filter(xs, keep)[k]
  {
    var x, rest := xs[0], xs[1..];
    var h := if keep(x) then [x] else [];
    assert xs[..0] == [];
    if |h| == 1 && k == 0 then 0
    else
      var j := PositionOfKept(rest, keep, k - |h|);
      assert xs[..j + 1] == [x] + rest[..j];
      FilterCons(x, rest[..j], keep);
      j + 1
  }

  /** Replacing a kept element by another kept one replaces it in the
      filtered sequence, at its position there, and nothing else. */
  lemma {:induction false} FilterUpdate<T>(xs: seq<T>, keep: T -> bool, i: nat, e: T)
    requires i < |xs| && keep(xs[i]) && keep(e)
    ensures |Filter(xs[..i], keep)| < |Filter(xs, keep)|
    ensures Filter(xs[i := e], keep) == Filter(xs, keep)[|Filter(xs[..i], keep)| := e]
  {
    var x, rest := xs[0], xs[1..];
    assert xs == [x] + rest;
    FilterCons(x, rest, keep);
    if i == 0 {
      FilterUpdateFirst(x, rest, keep, e);
      assert xs[..0] == [];
    } else {
      FilterUpdate(rest, keep, i - 1, e);
      var d, p := Filter(rest, keep), |Filter(rest[..i - 1], keep)|;
      assert xs[i := e] == [x] + rest[i - 1 := e];
      FilterCons(x, rest[i - 1 := e], keep);
      assert xs[..i] == [x] + rest[..i - 1];
      FilterCons(x, rest[..i - 1], keep);
      if keep(x) {
        assert ([x] + d)[p + 1 := e] == [x] + d[p := e];
      }
    }
  }

  lemma FilterUpdateFirst<T>(x: T, rest: seq<T>, keep: T -> bool, e: T)
    requires keep(x) && keep(e)
    ensures Filter(([x] + rest)[0 := e], keep) == Filter([x] + rest, keep)[0 := e]
  {
    assert ([x] + rest)[0 := e] == [e] + rest;
    FilterCons(x, rest, keep);
    FilterCons(e, rest, keep);
    assert ([x] + Filter(rest, keep))[0 := e] == [e] + Filter(rest, keep);
  }

  /** A row the table shows: one dated on a weekday. */
  predicate ShownRow(e: TimeEntry) {
    IsWeekday(e.date)
  }

  /** `filteredEntries`: the rows the table shows, the weekday rows in card order. */
  function Displayed(entries: seq<TimeEntry>): (shown: seq<TimeEntry>)
    ensures |shown| <= |entries|
    ensures forall j :: 0 <= j < |shown| ==> IsWeekday(shown[j].date)
  {
    FilterKeeps(entries, ShownRow);
    Filter(entries, ShownRow)
  }

  /** The card position of the `k`-th shown row. */
  function RowOfDisplayed(entries: seq<TimeEntry>, k: nat): (i: nat)
    requires k < |Displayed(entries)|
    ensures i < |entries| && IsWeekday(entries[i].date)
    ensures |Displayed(entries[..i])| == k
    ensures entries[i] == Displayed(entries)[k]
  {
    PositionOfKept(entries, ShownRow, k)
  }

  /** When every row is a weekday the table shows the card as it is, so a
      table position is a card index and the two edits agree. */
  lemma {:induction false} DisplayedAllWeekdays(entries: seq<TimeEntry>)
    requires forall i :: 0 <= i < |entries| ==> IsWeekday(entries[i].date)
    ensures Displayed(entries) == entries
  {
    if entries != [] {
      DisplayedAllWeekdays(entries[1..]);
      assert entries == [entries[0]] + entries[1..];
    }
  }

  /** The edit a row of the table evidently means: it changes the card row
      that the table shows at position `k`. */
  function EditDisplayed(entries: seq<TimeEntry>, k: nat, field: Field, value: string): (edited: seq<TimeEntry>)
    requires k < |Displayed(entries)|
    ensures |edited| == |entries|
  {
    var i := RowOfDisplayed(entries, k);
    entries[i := EditEntry(entries[i], field, value)]
  }

  /** The corrected edit changes exactly the row the user edited in the table:
      the shown row at `k` becomes its edit, and every other shown row stays. */
  lemma EditDisplayedShowsEdit(entries: seq<TimeEntry>, k: nat, field: Field, value: string)
    requires k < |Displayed(entries)|
    ensures Displayed(EditDisplayed(entries, k, field, value))
            == Displayed(entries)[k := EditEntry(Displayed(entries)[k], field, value)]
  {
    var i := RowOfDisplayed(entries, k);
    FilterUpdate(entries, ShownRow, i, EditEntry(entries[i], field, value));
  }

  /** As written, `handleChange` takes the table's position as a card index.
      With a Saturday record ahead of a Monday row, the table shows only the
      Monday row, yet editing it changes the Saturday row, and the table shows
      the Monday row unchanged. */
  lemma HandleChangeAsWrittenEditsHiddenRow()
    ensures var sat := TimeEntry(Some(1), 2, "", "", "", "", "0h 0m", Active);
      var mon := TimeEntry(Some(2), 4, "", "", "", "", "0h 0m", Active);
      var entries := [sat, mon];
      var after := entries[0 := EditEntry(entries[0], StartTime, "09:00")];
      && Displayed(entries) == [mon]
      && after[0].startTime == "09:00" && after[1] == mon
      && Displayed(after) == [mon]
  {
    var sat := TimeEntry(Some(1), 2, "", "", "", "", "0h 0m", Active);
    var mon := TimeEntry(Some(2), 4, "", "", "", "", "0h 0m", Active);
    assert DayOfWeek(2) == Saturday && DayOfWeek(4) == Monday;
    var after := [sat, mon][0 := EditEntry(sat, StartTime, "09:00")];
    assert !ShownRow(sat) && !ShownRow(after[0]) && ShownRow(mon);
    assert [sat, mon][1..] == [mon] && after[1..] == [mon];
    assert [mon][1..] == [];
    assert Filter([mon], ShownRow) == [mon];
  }

  /** The card `fetchTimeCardData` assembles from the fetched records: the
      map's values, then the rows of the successful creations for the
      period's missing weekdays; as many rows as the map has keys plus the
      successes. */
  function Assembled(startDate: Day, records: seq<ServerRecord>, created: Day -> Option<CreatedRecord>): (entries: seq<TimeEntry>)
    ensures var missing := MissingDates(PeriodWeekdays(startDate), FetchedMap(records).Keys);
      |entries| == |FetchedMap(records)| + |Successes(missing, created)|
  {
    FetchedValuesShape(records);
    MapValues(KeyOrder(records), FetchedMap(records))
      + Successes(MissingDates(PeriodWeekdays(startDate), FetchedMap(records).Keys), created)
  }

  /** The component's state: the card `{entries, isSubmitted}`, the loading
      flag and the separate "submitted" flag that labels the submit button. */
  class TimeCard {
    var entries: seq<TimeEntry>
    var isSubmitted: bool
    var isLoading: bool
    var submitDone: bool

    constructor ()
      ensures entries == [] && !isSubmitted && isLoading && !submitDone
    {
      entries, isSubmitted := [], false;
      isLoading, submitDone := true, false;
    }

    /** `fetchTimeCardData` once every request has settled. `fetched` is `None`
        when the GET failed or its body had no `data` array: the card is then
        empty. Otherwise the rows are the map's values followed by the rows of
        the successful creations; `posts` are the creations sent, one per
        missing weekday, and `created(d)` is the answer for day `d`. */
    method FetchTimeCardData(startDate: Day, fetched: Option<seq<ServerRecord>>, created: Day -> Option<CreatedRecord>)
      returns (posts: seq<Request>)
      modifies this
      ensures fetched.None? ==> entries == [] && posts == []
      ensures fetched.Some? ==>
                var missing := MissingDates(PeriodWeekdays(startDate), FetchedMap(fetched.value).Keys);
                && posts == CreateRequests(missing)
                && entries == Assembled(startDate, fetched.value, created)
      ensures !isSubmitted && !isLoading && submitDone == old(submitDone)
    {
      isLoading := false;
      isSubmitted := false;
      if fetched.None? {
        entries := [];
        return [];
      }
      var allWeekdays := AllWeekdays(startDate);
      var keys, byDate := BuildFetchedMap(fetched.value);
      var missing := MissingDates(allWeekdays, byDate.Keys);
      posts := CreateRequests(missing);
      var made := Successes(missing, created);
      entries := MapValues(keys, byDate) + made;
    }

    /** `handleChange(index, field, value)`: the row at `index` is edited (even
        a submitted one) and its PUT is returned. */
    method HandleChange(index: nat, field: Field, value: string) returns (update: Request)
      requires index < |entries|
      modifies this
      ensures entries == old(entries)[index := EditEntry(old(entries)[index], field, value)]
      ensures update == UpdateRequest(entries[index])
      ensures isSubmitted == old(isSubmitted) && isLoading == old(isLoading) && submitDone == old(submitDone)
    {
      var entry := SetField(entries[index], field, value);
      var total := CalculateTotalTime(entry.startTime, entry.lunchStart, entry.lunchEnd, entry.endTime);
      entry := entry.(totalTime := total);
      entry := entry.(status := Active);
      entries := entries[index := entry];
      update := UpdateRequest(entry);
    }

    /** `handleSubmit`, once every PUT has settled (`accepted[i]` is the
        answer for row `i`). A card whose rows are all submitted sends nothing.
        Otherwise every active row is sent, the failures are counted, and the
        outcome is classified as the source does it, against all rows of the
        card, sent or not. Only success changes
        state: the button shows "Submitted" (the reset follows after a delay). */
    method HandleSubmit(accepted: seq<bool>) returns (sent: seq<Request>, failures: nat, result: SubmitResult)
      requires |accepted| == |entries|
      modifies this
      ensures AllSubmitted(old(entries)) ==> result == AlreadySubmitted && sent == [] && failures == 0
      ensures !AllSubmitted(old(entries)) ==>
                && sent == StatusRequests(old(entries))
                && failures == Failures(old(entries), accepted)
                && result == ClassifyAsWritten(failures, |old(entries)|)
      ensures submitDone == (old(submitDone) || result == SubmitSuccess)
      ensures entries == old(entries) && isSubmitted == old(isSubmitted) && isLoading == old(isLoading)
    {
      if AllSubmitted(entries) {
        return [], 0, AlreadySubmitted;
      }
      sent, failures := [], 0;
      for i := 0 to |entries|
        invariant sent == StatusRequests(entries[..i])
        invariant failures == Failures(entries[..i], accepted[..i])
      {
        assert entries[..i + 1][..i] == entries[..i];
        assert accepted[..i + 1][..i] == accepted[..i];
        var entry := entries[i];
        if entry.status == Active {
          sent := sent + [StatusRequest(entry)];
          if !accepted[i] {
            failures := failures + 1;
          }
        }
      }
      assert entries[..|entries|] == entries;
      assert accepted[..|accepted|] == accepted;
      result := ClassifyAsWritten(failures, |entries|);
      if result == SubmitSuccess {
        submitDone := true;
      }
    }

    /** `afterSubmitReset`: the card is emptied and not marked submitted. */
    method AfterSubmitReset()
      modifies this
      ensures entries == [] && !isSubmitted
      ensures isLoading == old(isLoading) && submitDone == old(submitDone)
    {
      entries, isSubmitted := [], false;
    }
  }
}
