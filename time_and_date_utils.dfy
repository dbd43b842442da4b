/** utils/TimeAndDateUtils.js: `formatTime`, which shows a 24-hour `HH:MM`
    text on a 12-hour clock, and `formatDate`, whose locale rendering is a
    parameter here. */
module TimeAndDateUtils {
  import opened Options
  import opened Text
  import opened Clock

  /** The leading run of decimal digits of `s`. */
  function LeadingDigits(s: string): (d: string)
    ensures AllDigits(d) && d <= s
    ensures |d| == |s| || !IsDigit(s[|d|])
  {
    if s == [] || !IsDigit(s[0]) then [] else [s[0]] + LeadingDigits(s[1..])
  }

  /** `parseInt(s)` on texts without leading blanks or a sign: the value of the
      leading digits, or `None` (NaN) when `s` does not start with a digit. */
  function ParseInt(s: string): (r: Option<nat>)
    ensures r.None? <==> s == [] || !IsDigit(s[0])
    ensures r.Some? ==> r.value == DigitsValue(LeadingDigits(s))
  {
    var d := LeadingDigits(s);
    if d == [] then None else Some(DigitsValue(d))
  }

  /** `hrs % 12 || 12`: a NaN hour and a multiple of 12 both show as 12. */
  function Hour12(hrs: Option<nat>): (h: nat)
    ensures 1 <= h <= 12
  {
    match hrs
    case None => 12
    case Some(k) => if k % 12 == 0 then 12 else k % 12
  }

  /** `hrs >= 12 ? 'PM' : 'AM'`; NaN compares false, so it is AM. */
  function Meridiem(hrs: Option<nat>): string {
    if hrs.Some? && hrs.value >= 12 then "PM" else "AM"
  }

  /** `formatTime`: empty or absent input gives `''`; otherwise the text before
      the first `:` is the hour and the text after it, up to the next `:`, is
      copied as the minutes (`undefined` when there is no `:`). */
  function FormatTime(timeString: Option<string>): (r: string)
    ensures (timeString.None? || timeString.value == "") ==> r == ""
  {
    if timeString.None? || timeString.value == "" then ""
    else
      var parts := Split(timeString.value, ':');
      var hrs := ParseInt(parts[0]);
      var minutes := if |parts| >= 2 then parts[1] else "undefined";
      NatToString(Hour12(hrs)) + ":" + minutes + " " + Meridiem(hrs)
  }

  /** The 24-hour hour a 12-hour hour and its period denote. */
  function Hour24(h12: nat, meridiem: string): nat {
    if meridiem == "PM" then (if h12 == 12 then 12 else h12 + 12)
    else (if h12 == 12 then 0 else h12)
  }

  /** Every hour of the day: 0 shows as 12 AM, 1 to 11 stay AM, 12 shows as
      12 PM, 13 to 23 lose 12 and are PM; reading the pair back as a 24-hour
      hour gives the hour again, so no two hours of a day look alike. */
  lemma ClockHours(h: nat)
    requires h < 24
    ensures h == 0 ==> Hour12(Some(h)) == 12 && Meridiem(Some(h)) == "AM"
    ensures 1 <= h <= 11 ==> Hour12(Some(h)) == h && Meridiem(Some(h)) == "AM"
    ensures h == 12 ==> Hour12(Some(h)) == 12 && Meridiem(Some(h)) == "PM"
    ensures 13 <= h ==> Hour12(Some(h)) == h - 12 && Meridiem(Some(h)) == "PM"
    ensures Hour24(Hour12(Some(h)), Meridiem(Some(h))) == h
  {
  }

  /** A time input's `HH:MM`, optionally followed by `:SS` or more fields,
      shows as `{h}:{MM} {AM|PM}` with `h` the hour on a 12-hour clock and the
      minutes copied verbatim; what follows the minutes is dropped. */
  lemma FormatClockText(t: nat, suffix: string)
    requires t < MinutesPerDay
    requires suffix == "" || suffix[0] == ':'
    ensures var s := ClockText(t) + suffix;
      FormatTime(Some(s)) == NatToString(Hour12(Some(t / 60))) + ":" + s[3..5] + " " + Meridiem(Some(t / 60))
  {
    var c := ClockText(t);
    var s := c + suffix;
    var hh, mm := s[..2], s[3..5];
    assert s == hh + [':'] + (mm + suffix);
    SplitAfterPart(hh, mm + suffix, ':');
    if suffix == "" {
      assert mm + suffix == mm;
      SplitWithoutSeparator(mm, ':');
    } else {
      assert mm + suffix == mm + [':'] + suffix[1..];
      SplitAfterPart(mm, suffix[1..], ':');
    }
    assert Split(s, ':')[0] == hh && Split(s, ':')[1] == mm;
    assert LeadingDigits(hh[1..]) == hh[1..];
    assert LeadingDigits(hh) == hh;
    assert |hh| == 2 && hh[..|hh| - 1] == [hh[0]] && [hh[0]][..0] == [];
    assert DigitsValue([hh[0]]) == DigitValue(hh[0]);
    assert DigitsValue(hh) == 10 * DigitValue(hh[0]) + DigitValue(hh[1]);
  }

  /** A text without `:` has no minutes field: they show as `undefined`. */
  lemma FormatWithoutColon(s: string)
    requires s != "" && ':' !in s
    ensures FormatTime(Some(s)) == NatToString(Hour12(ParseInt(s))) + ":" + "undefined" + " " + Meridiem(ParseInt(s))
  {
    SplitWithoutSeparator(s, ':');
    assert |Split(s, ':')| == 1 && Split(s, ':')[0] == s;
  }

  /** `formatDate`: empty or absent input gives `''`; otherwise the locale's
      rendering of the date, which is a parameter. */
  function FormatDate(dateString: Option<string>, toLocaleDateString: string -> string): (r: string)
    ensures (dateString.None? || dateString.value == "") ==> r == ""
  {
    if dateString.None? || dateString.value == "" then "" else toLocaleDateString(dateString.value)
  }
}
