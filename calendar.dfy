/** Dates as the components use them once time zones are set aside: a date is
    a whole number of days since 1970-01-01, which was a Thursday, and the day
    of the week is numbered as `moment().day()` numbers it (0 = Sunday,
    1 = Monday, ..., 6 = Saturday). */
module Calendar {

  type Day = int

  const Sunday := 0
  const Monday := 1
  const Saturday := 6

  function DayOfWeek(d: Day): (w: int)
    ensures 0 <= w < 7
  {
    (d + 4) % 7
  }

  /** Moving `k` days ahead moves the day of the week `k` places round the week. */
  lemma DayOfWeekShift(d: Day, k: nat)
    ensures DayOfWeek(d + k) == (DayOfWeek(d) + k) % 7
  {
    var q := (d + 4) / 7;
    assert d + 4 == 7 * q + DayOfWeek(d);
    assert d + k + 4 == 7 * q + (DayOfWeek(d) + k);
  }

  /** `isWeekday`: neither Sunday nor Saturday. */
  predicate IsWeekday(d: Day)
    ensures IsWeekday(d) <==> Monday <= DayOfWeek(d) <= 5
  {
    DayOfWeek(d) != Sunday && DayOfWeek(d) != Saturday
  }

  /** `getPreviousMonday`: a Sunday moves forward to the next day; every other
      day goes back to the Monday of its Sunday-start week (`startOf('week')`
      is that Sunday, plus one day), which leaves a Monday where it is. */
  function PreviousMonday(d: Day): (m: Day)
    ensures DayOfWeek(m) == Monday
    ensures DayOfWeek(d) == Sunday ==> m == d + 1
    ensures DayOfWeek(d) == Monday ==> m == d
    ensures DayOfWeek(d) != Sunday ==> m <= d <= m + 5
  {
    var w := DayOfWeek(d);
    var m := if w == Sunday then d + 1 else d - w + 1;
    assert DayOfWeek(m) == Monday by {
      var q := (d + 4) / 7;
      assert d + 4 == 7 * q + w;
      if w == Sunday {
        assert m + 4 == 7 * q + 1;
      } else {
        assert m + 4 == 7 * q + 1;
      }
    }
    m
  }

  /** The only Monday whose Sunday-start week, or the Sunday just before it,
      holds `d` is `PreviousMonday(d)`: an independent description of the
      snapping rule. */
  lemma PreviousMondayUnique(d: Day, m: Day)
    requires DayOfWeek(m) == Monday && m - 1 <= d <= m + 5
    ensures m == PreviousMonday(d)
  {
    var k := d - (m - 1);
    assert DayOfWeek(m - 1) == Sunday by {
      DayOfWeekShift(m - 1, 1);
    }
    DayOfWeekShift(m - 1, k as nat);
    assert DayOfWeek(d) == k;
  }

  /** `getEndDate`: the last day of the 14-day period starting at `start`. */
  function PeriodEnd(start: Day): (end: Day)
    ensures start < end
    ensures DayOfWeek(start) == Monday ==> DayOfWeek(end) == Sunday
  {
    DayOfWeekShift(start, 13);
    start + 13
  }

  /** The weekdays among the `n` days starting at `start`, in order: what the
      generator loop collects after `n` iterations. */
  function WeekdaysIn(start: Day, n: nat): (days: seq<Day>)
    ensures |days| <= n
  {
    if n == 0 then []
    else WeekdaysIn(start, n - 1) + (if IsWeekday(start + n - 1) then [start + n - 1] else [])
  }

  /** Exactly the weekdays of the window are collected. */
  lemma {:induction false} WeekdaysInMembers(start: Day, n: nat, d: Day)
    ensures d in WeekdaysIn(start, n) <==> start <= d < start + n && IsWeekday(d)
  {
    if n > 0 {
      WeekdaysInMembers(start, n - 1, d);
    }
  }

  /** The collected dates are strictly ascending and lie inside the window. */
  lemma {:induction false} WeekdaysInAscending(start: Day, n: nat)
    ensures forall i :: 0 <= i < |WeekdaysIn(start, n)| ==>
              start <= WeekdaysIn(start, n)[i] < start + n && IsWeekday(WeekdaysIn(start, n)[i])
    ensures forall i, j :: 0 <= i < j < |WeekdaysIn(start, n)| ==> WeekdaysIn(start, n)[i] < WeekdaysIn(start, n)[j]
  {
    if n > 0 {
      WeekdaysInAscending(start, n - 1);
    }
  }

  /** The two weeks from a Monday hold Monday to Friday of each week, in order. */
  lemma MondayPeriod(m: Day)
    requires DayOfWeek(m) == Monday
    ensures WeekdaysIn(m, 14) == [m, m + 1, m + 2, m + 3, m + 4, m + 7, m + 8, m + 9, m + 10, m + 11]
  {
    FirstWeek(m);
    DayOfWeekShift(m, 7);
    SecondWeek(m);
  }

  /** The first week from a Monday holds its Monday to Friday. */
  lemma FirstWeek(m: Day)
    requires DayOfWeek(m) == Monday
    ensures WeekdaysIn(m, 7) == [m, m + 1, m + 2, m + 3, m + 4]
  {
    DayOfWeekShift(m, 1); DayOfWeekShift(m, 2); DayOfWeekShift(m, 3); DayOfWeekShift(m, 4);
    DayOfWeekShift(m, 5); DayOfWeekShift(m, 6);
    assert DayOfWeek(m + 5) == 6 && DayOfWeek(m + 6) == 0;
    assert WeekdaysIn(m, 1) == [m];
    assert WeekdaysIn(m, 2) == [m, m + 1];
    assert WeekdaysIn(m, 3) == [m, m + 1, m + 2];
    assert WeekdaysIn(m, 4) == [m, m + 1, m + 2, m + 3];
    assert WeekdaysIn(m, 5) == [m, m + 1, m + 2, m + 3, m + 4];
    assert WeekdaysIn(m, 7) == WeekdaysIn(m, 6) == WeekdaysIn(m, 5);
  }

  /** The second week adds the Monday to Friday seven days later. */
  lemma SecondWeek(m: Day)
    requires DayOfWeek(m + 7) == Monday
    ensures WeekdaysIn(m, 14) == WeekdaysIn(m, 7) + [m + 7, m + 8, m + 9, m + 10, m + 11]
  {
    var n := m + 7;
    DayOfWeekShift(n, 1); DayOfWeekShift(n, 2); DayOfWeekShift(n, 3); DayOfWeekShift(n, 4);
    DayOfWeekShift(n, 5); DayOfWeekShift(n, 6);
    assert DayOfWeek(n + 5) == 6 && DayOfWeek(n + 6) == 0;
    var w := WeekdaysIn(m, 7);
    assert WeekdaysIn(m, 8) == w + [n];
    assert WeekdaysIn(m, 9) == w + [n, n + 1];
    assert WeekdaysIn(m, 10) == w + [n, n + 1, n + 2];
    assert WeekdaysIn(m, 11) == w + [n, n + 1, n + 2, n + 3];
    assert WeekdaysIn(m, 12) == w + [n, n + 1, n + 2, n + 3, n + 4];
    assert WeekdaysIn(m, 14) == WeekdaysIn(m, 13) == WeekdaysIn(m, 12);
  }

  /** The pay period's weekday dates: those of the two weeks from the Monday
      the reference date snaps to. */
  function PeriodWeekdays(reference: Day): seq<Day>
  {
    WeekdaysIn(PreviousMonday(reference), 14)
  }

  /** Ten dates, strictly ascending weekdays from a Monday through the period's
      end date, and every weekday of that range is among them. */
  lemma PeriodWeekdaysShape(reference: Day)
    ensures var m, w := PreviousMonday(reference), PeriodWeekdays(reference);
      && |w| == 10
      && w[0] == m && DayOfWeek(m) == Monday
      && (forall i :: 0 <= i < 10 ==> m <= w[i] <= PeriodEnd(m) && IsWeekday(w[i]))
      && (forall i, j :: 0 <= i < j < 10 ==> w[i] < w[j])
      && (forall d :: m <= d <= PeriodEnd(m) && IsWeekday(d) ==> d in w)
  {
    var m := PreviousMonday(reference);
    MondayPeriod(m);
    WeekdaysInAscending(m, 14);
    forall d | m <= d <= PeriodEnd(m) && IsWeekday(d) ensures d in PeriodWeekdays(reference) {
      WeekdaysInMembers(m, 14, d);
    }
  }
}
