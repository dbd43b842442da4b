/** The live ActiveTimeCard component (ActiveTimeCard/ActiveTimeCard.js):
    builds the ten weekday rows of a two-week pay period, merges the fetched
    records into them, recomputes a row's worked time on every edit, saves the
    row by POST or PUT, and submits the whole card. */
module ActiveTimeCard {
  import opened Options
  import opened Text
  import opened Calendar
  import opened Clock
  import opened TimeEntries

  // ---------------------------------------------------------------- worked time

  /** Minutes from `from` to `to` when both times are present, else nothing. */
  function Segment(from: Option<nat>, to: Option<nat>): int {
    if from.Some? && to.Some? then to.value as int - from.value else 0
  }

  function Clamp(x: int): nat {
    if x < 0 then 0 else x
  }

  /** This component's rule: the morning segment (start to lunch start) plus
      the afternoon segment (lunch end to end), each counted only when both of
      its ends are present; the clamp to 0 applies to the sum. */
  function WorkedMinutes(start: Option<nat>, lunchStart: Option<nat>, lunchEnd: Option<nat>, end: Option<nat>): (m: nat)
    ensures (start.None? || lunchStart.None?) && (lunchEnd.None? || end.None?) ==> m == 0
    ensures start.Some? && lunchStart.Some? && start.value <= lunchStart.value && (lunchEnd.None? || end.None?) ==>
              m == lunchStart.value - start.value
  {
    Clamp(Segment(start, lunchStart) + Segment(lunchEnd, end))
  }

  /** With all four times in order the worked time is the day minus lunch. */
  lemma WorkedMinutesFullDay(s: nat, ls: nat, le: nat, e: nat)
    requires s <= ls <= le <= e
    ensures WorkedMinutes(Some(s), Some(ls), Some(le), Some(e)) == (e as int - s) - (le as int - ls)
  {
  }

  /** Start and end without any lunch time count nothing in this variant. */
  lemma WorkedMinutesNoLunch(s: nat, e: nat)
    ensures WorkedMinutes(Some(s), None, None, Some(e)) == 0
  {
  }

  /** The clamp is on the sum: a negative afternoon can cancel part of a positive morning. */
  lemma WorkedMinutesClampsSum(s: nat, ls: nat, le: nat, e: nat)
    requires ls >= s && e < le && (ls - s) >= (le - e)
    ensures WorkedMinutes(Some(s), Some(ls), Some(le), Some(e)) == (ls as int - s) - (le as int - e)
  {
  }

  /** `calculateTotalTime`: accumulates the two segments into `totalMinutes`,
      clamps at 0 and renders `{h}h {m}m`. */
  method CalculateTotalTime(start: string, lunchStart: string, lunchEnd: string, end: string) returns (totalTime: string)
    ensures totalTime == DurationLabel(WorkedMinutes(ParseClock(start), ParseClock(lunchStart), ParseClock(lunchEnd), ParseClock(end)))
  {
    var startTime, lunchStartTime := ParseClock(start), ParseClock(lunchStart);
    var lunchEndTime, endTime := ParseClock(lunchEnd), ParseClock(end);
    var totalMinutes: int := 0;
    if startTime.Some? && lunchStartTime.Some? {
      totalMinutes := totalMinutes + (lunchStartTime.value as int - startTime.value);
    }
    if lunchEndTime.Some? && endTime.Some? {
      totalMinutes := totalMinutes + (endTime.value as int - lunchEndTime.value);
    }
    totalMinutes := if totalMinutes > 0 then totalMinutes else 0;
    var hours := totalMinutes / 60;
    var minutes := totalMinutes % 60;
    totalTime := HoursMinutesLabel(hours, minutes);
  }

  /** The label a row shows for its current time fields. */
  function EntryTotal(e: TimeEntry): string {
    DurationLabel(WorkedMinutes(ParseClock(e.startTime), ParseClock(e.lunchStart), ParseClock(e.lunchEnd), ParseClock(e.endTime)))
  }

  // ---------------------------------------------------------------- the period

  /** A blank row: no id, every time field, the total and the status empty. */
  function Placeholder(d: Day): TimeEntry {
    TimeEntry(None, d, "", "", "", "", "", "")
  }

  function Placeholders(days: seq<Day>): (r: seq<TimeEntry>)
    ensures |r| == |days| && forall i :: 0 <= i < |days| ==> r[i] == Placeholder(days[i])
  {
    seq(|days|, i requires 0 <= i < |days| => Placeholder(days[i]))
  }

  /** The rows `generateInitialEntries` builds for a reference date. */
  function Skeleton(startDate: Day): (s: seq<TimeEntry>)
    ensures |s| == 10
    ensures forall i :: 0 <= i < 10 ==> s[i].id.None? && s[i].status == "" && s[i].totalTime == ""
  {
    PeriodWeekdaysShape(startDate);
    Placeholders(PeriodWeekdays(startDate))
  }

  /** Ten blank rows, dated by strictly ascending weekdays from the Monday the
      reference date snaps to, through that Monday plus 13 days. */
  lemma SkeletonShape(startDate: Day)
    ensures var s, m := Skeleton(startDate), PreviousMonday(startDate);
      && |s| == 10
      && (forall i :: 0 <= i < 10 ==> s[i] == Placeholder(s[i].date))
      && (forall i :: 0 <= i < 10 ==> IsWeekday(s[i].date) && m <= s[i].date <= PeriodEnd(m))
      && (forall i, j :: 0 <= i < j < 10 ==> s[i].date < s[j].date)
      && (forall d :: m <= d <= PeriodEnd(m) && IsWeekday(d) ==> exists i :: 0 <= i < 10 && s[i].date == d)
  {
    var m := PreviousMonday(startDate);
    var w := PeriodWeekdays(startDate);
    PeriodWeekdaysShape(startDate);
    forall d | m <= d <= PeriodEnd(m) && IsWeekday(d)
      ensures exists i :: 0 <= i < 10 && Skeleton(startDate)[i].date == d
    {
      var i :| 0 <= i < |w| && w[i] == d;
      assert Skeleton(startDate)[i].date == d;
    }
  }

  /** `generateInitialEntries`: walks the 14 days from the Monday, pushing a
      blank row for each weekday. */
  method GenerateInitialEntries(startDate: Day) returns (entries: seq<TimeEntry>)
    ensures entries == Skeleton(startDate)
    ensures |entries| == 10
  {
    var monday := PreviousMonday(startDate);
    var currentDate := monday;
    entries := [];
    for i := 0 to 14
      invariant currentDate == monday + i
      invariant entries == Placeholders(WeekdaysIn(monday, i))
    {
      if IsWeekday(currentDate) {
        entries := entries + [Placeholder(currentDate)];
      }
      currentDate := currentDate + 1;
    }
    SkeletonShape(startDate);
  }

  // ---------------------------------------------------------------- merging fetched records

  /** `fetchedData.data.find(...)` by UTC date: the index of the first record dated `d`. */
  function FirstWithDate(records: seq<ServerRecord>, d: Day): (k: Option<nat>)
    ensures k.Some? ==> k.value < |records| && records[k.value].workDate == d
    ensures k.Some? ==> forall j :: 0 <= j < k.value ==> records[j].workDate != d
    ensures k.None? <==> forall j :: 0 <= j < |records| ==> records[j].workDate != d
  {
    if records == [] then None
    else if records[0].workDate == d then Some(0)
    else match FirstWithDate(records[1..], d)
      case None => None
      case Some(k) => Some(k + 1)
  }

  /** The row a matched record produces: the server's time fields (`''` when
      absent), `totalTime` rendered from its hours and minutes, and its status;
      the row's own id and date are kept. */
  function Adopt(entry: TimeEntry, rec: ServerRecord): (r: TimeEntry)
    requires rec.totalTime.Some?
    ensures r.id == entry.id && r.date == entry.date
  {
    entry.(
      startTime := OrDefault(rec.startTime, ""),
      lunchStart := OrDefault(rec.lunchStart, ""),
      lunchEnd := OrDefault(rec.lunchEnd, ""),
      endTime := OrDefault(rec.endTime, ""),
      totalTime := LabelText(TemplateNumber(rec.totalTime.value.hours), TemplateNumber(rec.totalTime.value.minutes)),
      status := rec.status.GetOr(""))
  }

  /** One row of the merge. `None` is the TypeError the source raises when the
      matching record has no `total_time` (reading `.hours` of null). */
  function MergeEntry(entry: TimeEntry, records: seq<ServerRecord>): (r: Option<TimeEntry>)
    ensures r.Some? ==> r.value.date == entry.date && r.value.id == entry.id
    ensures FirstWithDate(records, entry.date).None? ==> r == Some(entry)
    ensures FirstWithDate(records, entry.date).Some? ==>
              var rec := records[FirstWithDate(records, entry.date).value];
              r == if rec.totalTime.Some? then Some(Adopt(entry, rec)) else None
  {
    match FirstWithDate(records, entry.date)
    case None => Some(entry)
    case Some(k) => if records[k].totalTime.Some? then Some(Adopt(entry, records[k])) else None
  }

  /** The `map` over the skeleton: every row merged, or `None` when any row throws. */
  function Merge(entries: seq<TimeEntry>, records: seq<ServerRecord>): (r: Option<seq<TimeEntry>>)
    ensures r.Some? <==> forall i :: 0 <= i < |entries| ==> MergeEntry(entries[i], records).Some?
    ensures r.Some? ==> |r.value| == |entries|
    ensures r.Some? ==> forall i :: 0 <= i < |entries| ==> r.value[i] == MergeEntry(entries[i], records).value
  {
    if entries == [] then Some([])
    else
      match (MergeEntry(entries[0], records), Merge(entries[1..], records))
      case (Some(e), Some(rest)) => Some([e] + rest)
      case _ => None
  }

  /** The merge keeps the rows' number, order, dates and ids; a row no record
      matches is unchanged, and a matched row carries the first matching
      record's fields. */
  lemma MergePreservesRows(entries: seq<TimeEntry>, records: seq<ServerRecord>, i: nat)
    requires Merge(entries, records).Some? && i < |entries|
    ensures var r := Merge(entries, records).value;
      && |r| == |entries|
      && r[i].date == entries[i].date && r[i].id == entries[i].id
      && ((forall j :: 0 <= j < |records| ==> records[j].workDate != entries[i].date) ==> r[i] == entries[i])
      && (forall k :: 0 <= k < |records| && records[k].workDate == entries[i].date
            && (forall j :: 0 <= j < k ==> records[j].workDate != entries[i].date)
            ==> records[k].totalTime.Some? && r[i] == Adopt(entries[i], records[k]))
  {
    var d := entries[i].date;
    assert MergeEntry(entries[i], records).Some?;
    match FirstWithDate(records, d)
    case None =>
    case Some(k0) =>
      forall k | 0 <= k < |records| && records[k].workDate == d && (forall j :: 0 <= j < k ==> records[j].workDate != d)
        ensures k == k0
      {
      }
  }

  /** The UI lists the rows of a merged skeleton with ten ascending weekday dates,
      whatever the server sent. */
  lemma MergedSkeletonShape(startDate: Day, records: seq<ServerRecord>)
    requires Merge(Skeleton(startDate), records).Some?
    ensures var r := Merge(Skeleton(startDate), records).value;
      && |r| == 10
      && (forall i :: 0 <= i < 10 ==> r[i].date == PeriodWeekdays(startDate)[i] && r[i].id.None? && IsWeekday(r[i].date))
      && (forall i, j :: 0 <= i < j < 10 ==> r[i].date < r[j].date)
  {
    SkeletonShape(startDate);
    PeriodWeekdaysShape(startDate);
  }

  /** The date range the GET asks for, as written: it starts at the reference
      date itself rather than at the Monday the rows start from. */
  function FetchRangeAsWritten(startDate: Day): (r: (Day, Day))
    ensures DayOfWeek(startDate) == Monday ==> r == FetchRange(startDate)
  {
    (startDate, PeriodEnd(startDate))
  }

  /** The range the rows actually span. */
  function FetchRange(startDate: Day): (r: (Day, Day))
    ensures DayOfWeek(r.0) == Monday && DayOfWeek(r.1) == Sunday && r.1 - r.0 == 13
  {
    (PreviousMonday(startDate), PeriodEnd(PreviousMonday(startDate)))
  }

  /** The range as written covers every row only when the reference date is a
      Sunday or a Monday. From any Tuesday to Saturday the first rows of the
      period (its Monday at least) lie before the requested range, so their
      saved records are never fetched and those rows always load blank. */
  lemma FetchRangeAsWrittenMissesRows(startDate: Day)
    ensures var (lo, hi) := FetchRangeAsWritten(startDate);
      (forall i :: 0 <= i < |Skeleton(startDate)| ==> lo <= Skeleton(startDate)[i].date <= hi)
      <==> DayOfWeek(startDate) == Sunday || DayOfWeek(startDate) == Monday
    ensures DayOfWeek(startDate) != Sunday && DayOfWeek(startDate) != Monday ==>
      Skeleton(startDate)[0].date < FetchRangeAsWritten(startDate).0
  {
    var m := PreviousMonday(startDate);
    var s := Skeleton(startDate);
    MondayPeriod(m);
    assert forall i :: 0 <= i < 10 ==> s[i].date == PeriodWeekdays(startDate)[i];
    assert s[0].date == m;
    assert forall i :: 0 <= i < 10 ==> m <= s[i].date <= m + 11;
  }

  /** Every row's date lies inside the aligned range, so every saved record of
      the period can be matched. */
  lemma FetchRangeCoversRows(startDate: Day)
    ensures forall i :: 0 <= i < |Skeleton(startDate)| ==>
              FetchRange(startDate).0 <= Skeleton(startDate)[i].date <= FetchRange(startDate).1
  {
    SkeletonShape(startDate);
  }

  // ---------------------------------------------------------------- edits, saves, submit

  /** `handleChange` finds the row by index among the weekday rows and refuses
      a missing row or a submitted one. */
  predicate Editable(entries: seq<TimeEntry>, index: int)
    ensures Editable(entries, index) ==> 0 <= index < |entries| && entries[index].status != Submitted
  {
    0 <= index < |entries| && IsWeekday(entries[index].date) && entries[index].status != Submitted
  }

  /** An accepted edit: the field is set, the total recomputed from the new
      fields, the status forced to `active`; nothing else changes. */
  function EditEntry(e: TimeEntry, field: Field, value: string): (r: TimeEntry)
    ensures GetField(r, field) == value
    ensures forall g :: g != field ==> GetField(r, g) == GetField(e, g)
    ensures r.id == e.id && r.date == e.date && r.status == Active
    ensures r.totalTime == EntryTotal(r)
  {
    var u := SetField(e, field, value);
    u.(totalTime := EntryTotal(u), status := Active)
  }

  /** `updateEntryInDatabase`: PUT to `/timecards/{id}` when the row has an id,
      otherwise POST to `/timecards`; empty fields are sent as null. */
  function SaveRequest(e: TimeEntry): (r: Request)
    ensures r.verb == Put <==> e.id.Some?
    ensures r.path == TimecardsPath(e.id)
    ensures r.body.EntryBody? && r.body.employeeId == EmployeeId && r.body.workDate == e.date && r.body.status == e.status
    ensures r.body.startTime == OrNull(e.startTime) && r.body.lunchStart == OrNull(e.lunchStart)
    ensures r.body.lunchEnd == OrNull(e.lunchEnd) && r.body.endTime == OrNull(e.endTime)
    ensures r.body.totalTime == OrNull(e.totalTime)
  {
    Request(if e.id.Some? then Put else Post, TimecardsPath(e.id),
      EntryBody(EmployeeId, e.date, OrNull(e.startTime), OrNull(e.lunchStart), OrNull(e.lunchEnd),
                OrNull(e.endTime), OrNull(e.totalTime), e.status))
  }

  /** Once a row holds an id, every later edit of it is saved by PUT to that id. */
  lemma EditAfterCreateUsesPut(e: TimeEntry, id: Id, field: Field, value: string)
    ensures SaveRequest(EditEntry(e.(id := Some(id)), field, value)).verb == Put
    ensures SaveRequest(EditEntry(e.(id := Some(id)), field, value)).path == "/timecards/" + NatToString(id)
  {
  }

  /** The body `handleSubmit` sends for a row: the row as it is (empty fields
      as `''`, not null) with status `submitted`, by PUT or POST as for a save. */
  function SubmitRequest(e: TimeEntry): (r: Request)
    ensures r.verb == Put <==> e.id.Some?
    ensures r.path == TimecardsPath(e.id)
    ensures r.body == EntryBody(EmployeeId, e.date, Some(e.startTime), Some(e.lunchStart), Some(e.lunchEnd),
                                Some(e.endTime), Some(e.totalTime), Submitted)
  {
    Request(if e.id.Some? then Put else Post, TimecardsPath(e.id),
      EntryBody(EmployeeId, e.date, Some(e.startTime), Some(e.lunchStart), Some(e.lunchEnd),
                Some(e.endTime), Some(e.totalTime), Submitted))
  }

  predicate AllSubmitted(entries: seq<TimeEntry>) {
    forall i :: 0 <= i < |entries| ==> entries[i].status == Submitted
  }

  /** The requests of a submit: one per row not yet submitted, in row order. */
  function SubmitRequests(entries: seq<TimeEntry>): (sent: seq<Request>)
    ensures |sent| <= |entries|
    ensures forall k :: 0 <= k < |sent| ==> sent[k].body.EntryBody? && sent[k].body.status == Submitted
  {
    if entries == [] then []
    else
      var last := entries[|entries| - 1];
      SubmitRequests(entries[..|entries| - 1]) + (if last.status != Submitted then [SubmitRequest(last)] else [])
  }

  /** Every submit request carries status `submitted`, there is one per
      unsubmitted row, and there are none exactly when the guard
      "all submitted" holds (an empty card included). */
  lemma SubmitRequestsShape(entries: seq<TimeEntry>)
    ensures forall r :: r in SubmitRequests(entries) ==> r.body.EntryBody? && r.body.status == Submitted
    ensures |SubmitRequests(entries)| <= |entries|
    ensures SubmitRequests(entries) == [] <==> AllSubmitted(entries)
    ensures forall e :: e in entries && e.status != Submitted ==> SubmitRequest(e) in SubmitRequests(entries)
  {
    SubmitRequestsNone(entries);
    SubmitRequestsCover(entries);
  }

  lemma {:induction false} SubmitRequestsNone(entries: seq<TimeEntry>)
    ensures SubmitRequests(entries) == [] <==> AllSubmitted(entries)
  {
    if entries != [] {
      var init := entries[..|entries| - 1];
      SubmitRequestsNone(init);
      assert forall i :: 0 <= i < |init| ==> init[i] == entries[i];
    }
  }

  lemma {:induction false} SubmitRequestsCover(entries: seq<TimeEntry>)
    ensures forall e :: e in entries && e.status != Submitted ==> SubmitRequest(e) in SubmitRequests(entries)
  {
    if entries != [] {
      var init := entries[..|entries| - 1];
      SubmitRequestsCover(init);
      assert entries == init + [entries[|entries| - 1]];
    }
  }

  datatype SubmitOutcome = AlreadySubmitted | Cancelled | SubmitFailed | SubmitSucceeded

  /** The component's state `{entries, isSubmitted}`. */
  class TimeCard {
    var entries: seq<TimeEntry>
    var isSubmitted: bool

    constructor ()
      ensures entries == [] && !isSubmitted
    {
      entries := [];
      isSubmitted := false;
    }

    /** `fetchTimeCardData` once the GET has settled: `fetched` is `None` when
        the request failed or the body held no `data` array. The rows are the
        skeleton, merged with the records when there are any; a merge that
        throws falls back to the plain skeleton. `requested` is the date range
        of the GET, which starts at the reference date itself: from a Tuesday
        to a Saturday the first row lies before it. */
    method FetchTimeCardData(startDate: Day, fetched: Option<seq<ServerRecord>>) returns (requested: (Day, Day))
      modifies this
      ensures requested == FetchRangeAsWritten(startDate)
      ensures !isSubmitted
      ensures (fetched.None? || fetched.value == []) ==> entries == Skeleton(startDate)
      ensures fetched.Some? && fetched.value != [] ==>
                entries == Merge(Skeleton(startDate), fetched.value).GetOr(Skeleton(startDate))
      ensures |entries| == 10
      ensures forall i :: 0 <= i < 10 ==> entries[i].date == PeriodWeekdays(startDate)[i] && entries[i].id.None?
      ensures DayOfWeek(startDate) != Sunday && DayOfWeek(startDate) != Monday ==> entries[0].date < requested.0
    {
      var endDate := PeriodEnd(startDate);
      requested := (startDate, endDate);
      var initialEntries := GenerateInitialEntries(startDate);
      SkeletonShape(startDate);
      if fetched.Some? && fetched.value != [] {
        var merged := Merge(initialEntries, fetched.value);
        if merged.Some? {
          MergedSkeletonShape(startDate, fetched.value);
          initialEntries := merged.value;
        } else {
          // the catch block regenerates the skeleton
          initialEntries := GenerateInitialEntries(startDate);
        }
      }
      entries := initialEntries;
      isSubmitted := false;
      FetchRangeAsWrittenMissesRows(startDate);
    }

    /** `handleChange(index, field, value)`: an edit of a missing or submitted
        row leaves the state as it was and sends nothing; otherwise only that
        row changes, as `EditEntry` says, and it is saved. */
    method HandleChange(index: int, field: Field, value: string) returns (save: Option<Request>)
      modifies this
      ensures !Editable(old(entries), index) ==> entries == old(entries) && save == None
      ensures Editable(old(entries), index) ==>
                && entries == old(entries)[index := EditEntry(old(entries)[index], field, value)]
                && save == Some(SaveRequest(entries[index]))
      ensures isSubmitted == old(isSubmitted)
    {
      if !Editable(entries, index) {
        return None;
      }
      var entryToUpdate := SetField(entries[index], field, value);
      var total := CalculateTotalTime(entryToUpdate.startTime, entryToUpdate.lunchStart,
                                      entryToUpdate.lunchEnd, entryToUpdate.endTime);
      entryToUpdate := entryToUpdate.(totalTime := total);
      entryToUpdate := entryToUpdate.(status := Active);
      entries := entries[index := entryToUpdate];
      save := Some(SaveRequest(entryToUpdate));
    }

    /** The response to a save: after a successful POST on a row that still
        has no id, the returned id is stored on the row at `index`, so its next
        save is a PUT. The edited row is the card's own row object, so an id an
        earlier answer stored there is kept: a later answer to a second POST
        sent before the first one returned does not overwrite it. A failed save
        (`created == None`) or a PUT changes nothing. */
    method ApplySaveResponse(index: int, save: Request, created: Option<Id>)
      modifies this
      ensures save.verb == Post && created.Some? && 0 <= index < |old(entries)| && old(entries)[index].id.None? ==>
                entries == old(entries)[index := old(entries)[index].(id := created)]
                && SaveRequest(entries[index]).verb == Put
      ensures !(save.verb == Post && created.Some? && 0 <= index < |old(entries)| && old(entries)[index].id.None?) ==>
                entries == old(entries)
      ensures 0 <= index < |old(entries)| && old(entries)[index].id.Some? ==> entries[index].id == old(entries)[index].id
      ensures isSubmitted == old(isSubmitted)
    {
      if save.verb == Post && created.Some? && 0 <= index < |entries| && entries[index].id.None? {
        entries := entries[index := entries[index].(id := created)];
      }
    }

    /** `handleReset`: once confirmed, the card is a fresh, unsubmitted skeleton
        for today's period; declined, nothing changes. */
    method HandleReset(confirmed: bool, today: Day)
      modifies this
      ensures confirmed ==> entries == Skeleton(today) && !isSubmitted
      ensures !confirmed ==> entries == old(entries) && isSubmitted == old(isSubmitted)
    {
      if !confirmed {
        return;
      }
      entries := GenerateInitialEntries(today);
      isSubmitted := false;
    }

    /** `handleSubmit`. When every row is already submitted (an empty card
        included) nothing is sent; when the user does not confirm nothing is
        sent; otherwise each unsubmitted row is sent with status `submitted`
        (`accepted[i]` is the server's answer for row `i`), and only when all
        of them succeed is the card cleared and marked submitted. */
    method HandleSubmit(confirmed: bool, accepted: seq<bool>) returns (sent: seq<Request>, outcome: SubmitOutcome)
      requires |accepted| == |entries|
      modifies this
      ensures AllSubmitted(old(entries)) ==> outcome == AlreadySubmitted && sent == []
      ensures !AllSubmitted(old(entries)) && !confirmed ==> outcome == Cancelled && sent == []
      ensures !AllSubmitted(old(entries)) && confirmed ==>
                && sent == SubmitRequests(old(entries))
                && (outcome == SubmitSucceeded <==>
                      forall i :: 0 <= i < |accepted| && old(entries)[i].status != Submitted ==> accepted[i])
                && (outcome == SubmitSucceeded || outcome == SubmitFailed)
      ensures outcome == SubmitSucceeded ==> entries == [] && isSubmitted
      ensures outcome != SubmitSucceeded ==> entries == old(entries) && isSubmitted == old(isSubmitted)
    {
      if AllSubmitted(entries) {
        return [], AlreadySubmitted;
      }
      if !confirmed {
        return [], Cancelled;
      }
      sent := [];
      var allOk := true;
      for i := 0 to |entries|
        invariant sent == SubmitRequests(entries[..i])
        invariant allOk <==> forall j :: 0 <= j < i && entries[j].status != Submitted ==> accepted[j]
      {
        var entry := entries[i];
        assert entries[..i + 1][..i] == entries[..i];
        if entry.status != Submitted {
          sent := sent + [SubmitRequest(entry)];
          allOk := allOk && accepted[i];
        }
      }
      assert entries[..|entries|] == entries;
      if allOk {
        entries, isSubmitted := [], true;
        outcome := SubmitSucceeded;
      } else {
        outcome := SubmitFailed;
      }
    }
  }
}
