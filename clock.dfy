/** Times of day as the time inputs hold them: `"HH:MM"` on a 24-hour clock, or
    `""` when the field is empty. A time is read as whole minutes since
    midnight, which is what `moment(...).diff(..., 'minutes')` measures
    between two such times on the same day. */
module Clock {
  import opened Options
  import opened Text

  const MinutesPerDay := 1440

  function DigitValue(c: char): nat
    requires IsDigit(c)
  {
    c as int - '0' as int
  }

  /** The time a field holds: `""` (and any text that is not a valid `HH:MM`)
      is absent; `"HH:MM"` is `60 * HH + MM`. */
  function ParseClock(s: string): (r: Option<nat>)
    ensures s == "" ==> r == None
    ensures r.Some? ==> r.value < MinutesPerDay
  {
    if |s| == 5 && IsDigit(s[0]) && IsDigit(s[1]) && s[2] == ':' && IsDigit(s[3]) && IsDigit(s[4]) then
      var h := 10 * DigitValue(s[0]) + DigitValue(s[1]);
      var m := 10 * DigitValue(s[3]) + DigitValue(s[4]);
      if h < 24 && m < 60 then Some(60 * h + m) else None
    else None
  }

  /** The `HH:MM` text of a time of day, zero-padded as a time input shows it. */
  function ClockText(t: nat): string
    requires t < MinutesPerDay
  {
    var h, m := t / 60, t % 60;
    [DigitChar(h / 10), DigitChar(h % 10), ':', DigitChar(m / 10), DigitChar(m % 10)]
  }

  /** Every time of day has a text that reads back as that time ... */
  lemma ParseClockText(t: nat)
    requires t < MinutesPerDay
    ensures ParseClock(ClockText(t)) == Some(t)
  {
    var s := ClockText(t);
    var h, m := t / 60, t % 60;
    assert DigitValue(s[0]) == h / 10 && DigitValue(s[1]) == h % 10;
    assert DigitValue(s[3]) == m / 10 && DigitValue(s[4]) == m % 10;
  }

  /** ... and a text that reads as a time is exactly that time's text, so
      distinct valid texts are distinct times. */
  lemma ClockTextOfParse(s: string)
    requires ParseClock(s).Some?
    ensures ClockText(ParseClock(s).value) == s
  {
    var h := 10 * DigitValue(s[0]) + DigitValue(s[1]);
    var m := 10 * DigitValue(s[3]) + DigitValue(s[4]);
    var t := 60 * h + m;
    assert t / 60 == h && t % 60 == m;
    assert h / 10 == DigitValue(s[0]) && h % 10 == DigitValue(s[1]);
    assert m / 10 == DigitValue(s[3]) && m % 10 == DigitValue(s[4]);
    var r := ClockText(t);
    assert r[0] == s[0] && r[1] == s[1] && r[2] == s[2] && r[3] == s[3] && r[4] == s[4];
  }
}
