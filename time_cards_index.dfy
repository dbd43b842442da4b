/** TimeCardsIndex/TimeCardsIndex.js: the calendar of worked hours. Each
    fetched record becomes one calendar event on its work date, labelled with
    its total time. */
module TimeCardsIndex {
  import opened Options
  import opened Text
  import opened Calendar
  import opened TimeEntries
  import PresentTimeCard

  /** `formatTotalTime`: no label (`undefined`) without a total, otherwise
      `{hours}h {minutes}m` with a missing (or zero) part shown as 0. */
  function FormatTotalTime(totalTime: Option<ServerTotal>): (shown: Option<string>)
    ensures shown.None? <==> totalTime.None?
  {
    match totalTime
    case None => None
    case Some(t) => Some(HoursMinutesLabel(t.hours.GetOr(0), t.minutes.GetOr(0)))
  }

  /** A missing part reads as 0. */
  lemma MissingPartIsZero(h: Option<nat>, m: Option<nat>)
    ensures FormatTotalTime(Some(ServerTotal(None, m))) == FormatTotalTime(Some(ServerTotal(Some(0), m)))
    ensures FormatTotalTime(Some(ServerTotal(h, None))) == FormatTotalTime(Some(ServerTotal(h, Some(0))))
  {
  }

  /** The label of a total split as the time cards split it is that total's
      duration label, and it shows `h` hours and `m` minutes exactly when
      `m < 60` and `60 h + m` is the total. */
  lemma FormatTotalTimeOfDuration(total: nat, h: nat, m: nat)
    ensures FormatTotalTime(Some(ServerTotal(Some(total / 60), Some(total % 60)))) == Some(DurationLabel(total))
    ensures FormatTotalTime(Some(ServerTotal(Some(total / 60), Some(total % 60)))) == Some(HoursMinutesLabel(h, m))
            <==> m < 60 && 60 * h + m == total
  {
    DurationLabelParts(total, h, m);
  }

  /** Two totals with the same label have the same hours and minutes (a
      missing part counting as 0). */
  lemma FormatTotalTimeInjective(a: ServerTotal, b: ServerTotal)
    requires FormatTotalTime(Some(a)) == FormatTotalTime(Some(b))
    ensures a.hours.GetOr(0) == b.hours.GetOr(0) && a.minutes.GetOr(0) == b.minutes.GetOr(0)
  {
    HoursMinutesLabelInjective(a.hours.GetOr(0), a.minutes.GetOr(0), b.hours.GetOr(0), b.minutes.GetOr(0));
  }

  /** For a record with both parts the calendar shows the label the
      presentTimeCard rows carry; without a total the calendar shows nothing
      where the rows show `0h 0m`. */
  lemma SameLabelAsTimeCard(r: ServerRecord)
    ensures r.totalTime.Some? && r.totalTime.value.hours.Some? && r.totalTime.value.minutes.Some? ==>
              FormatTotalTime(r.totalTime) == Some(PresentTimeCard.FromRecord(r).totalTime)
    ensures r.totalTime.None? ==> FormatTotalTime(r.totalTime).None? && PresentTimeCard.FromRecord(r).totalTime == "0h 0m"
  {
  }

  /** A FullCalendar event. */
  datatype Event = Event(title: string, start: Day, end: Day, time: Option<string>)

  /** The `events` prop: exactly one event per fetched record, in order, with
      an empty title, starting and ending on the record's work date, labelled
      with its total time. */
  function Events(timeEntries: seq<ServerRecord>): (events: seq<Event>)
    ensures |events| == |timeEntries|
    ensures forall i :: 0 <= i < |events| ==>
              && events[i].title == ""
              && events[i].start == events[i].end == timeEntries[i].workDate
              && events[i].time == FormatTotalTime(timeEntries[i].totalTime)
  {
    seq(|timeEntries|, i requires 0 <= i < |timeEntries| =>
      Event("", timeEntries[i].workDate, timeEntries[i].workDate, FormatTotalTime(timeEntries[i].totalTime)))
  }
}
