/** The query window of `get_today_events`: midnight to 23:59:59 of the
    current UTC day, written as ISO 8601 strings with a trailing `Z`. The
    current date is a parameter instead of a clock reading. */
module DayWindow {
  import opened Wrappers
  import opened Text

  /** A calendar date as Python's `datetime` holds it. */
  datatype Date = Date(year: int, month: int, day: int)

  /** The `timeMin` / `timeMax` pair sent to the calendar provider. */
  datatype Window = Window(timeMin: string, timeMax: string)

  const MinYear := 1
  const MaxYear := 9999

  predicate IsLeapYear(year: int)
  {
    year % 4 == 0 && (year % 100 != 0 || year % 400 == 0)
  }

  function DaysInMonth(year: int, month: int): int
    requires 1 <= month <= 12
  {
    if month == 2 then (if IsLeapYear(year) then 29 else 28)
    else if month == 4 || month == 6 || month == 9 || month == 11 then 30
    else 31
  }

  /** The dates `datetime.datetime(year, month, day, ...)` accepts. */
  predicate ValidDate(d: Date)
  {
    && MinYear <= d.year <= MaxYear
    && 1 <= d.month <= 12
    && 1 <= d.day <= DaysInMonth(d.year, d.month)
  }

  function Pow10(n: nat): nat
  {
    if n == 0 then 1 else 10 * Pow10(n - 1)
  }

  predicate IsDigit(c: char)
  {
    '0' <= c <= '9'
  }

  predicate AllDigits(s: string)
  {
    forall k :: 0 <= k < |s| ==> IsDigit(s[k])
  }

  function DigitChar(d: nat): char
    requires d < 10
  {
    ('0' as int + d) as char
  }

  /** The last `width` decimal digits of `n`, zero-padded on the left, as
      Python's `'%0*d' % (width, n)` writes a number below `10^width`. */
  function Pad(n: nat, width: nat): (r: string)
    ensures |r| == width
    ensures AllDigits(r)
  {
    if width == 0 then "" else Pad(n / 10, width - 1) + [DigitChar(n % 10)]
  }

  /** Reads a string of decimal digits as a number. */
  function ParseDigits(s: string): nat
    requires AllDigits(s)
  {
    if |s| == 0 then 0
    else ParseDigits(s[..|s| - 1]) * 10 + (s[|s| - 1] as int - '0' as int)
  }

  /** Padding a number that fits in `width` digits loses nothing. */
  lemma {:induction false} ParsePad(n: nat, width: nat)
    requires n < Pow10(width)
    ensures ParseDigits(Pad(n, width)) == n
  {
    if width > 0 {
      var p := Pad(n / 10, width - 1);
      assert Pad(n, width)[..|Pad(n, width)| - 1] == p;
      ParsePad(n / 10, width - 1);
    }
  }

  /** `YYYY-MM-DD`, the date part of `datetime.isoformat()`. */
  function IsoDate(d: Date): (r: string)
    requires ValidDate(d)
    ensures |r| == 10
  {
    Pad(d.year, 4) + "-" + Pad(d.month, 2) + "-" + Pad(d.day, 2)
  }

  /** Reads a `YYYY-MM-DD` string back into a date; `None` for anything
      else of that shape. */
  function ParseIsoDate(s: string): Option<Date>
  {
    if |s| == 10 && s[4] == '-' && s[7] == '-'
       && AllDigits(s[..4]) && AllDigits(s[5..7]) && AllDigits(s[8..])
    then
      var d := Date(ParseDigits(s[..4]), ParseDigits(s[5..7]), ParseDigits(s[8..]));
      if ValidDate(d) then Some(d) else None
    else None
  }

  /** The date prefix of the window can be read back as the date it was
      built from. */
  lemma IsoDateRoundTrip(d: Date)
    requires ValidDate(d)
    ensures ParseIsoDate(IsoDate(d)) == Some(d)
  {
    var s := IsoDate(d);
    assert s[..4] == Pad(d.year, 4);
    assert s[5..7] == Pad(d.month, 2);
    assert s[8..] == Pad(d.day, 2);
    ParsePad(d.year, 4);
    ParsePad(d.month, 2);
    ParsePad(d.day, 2);
  }

  const StartOfDay := "T00:00:00Z"
  const EndOfDay := "T23:59:59Z"

  /** The window for the UTC day `today`: both bounds share the date prefix,
      the first is midnight and the second the last second of the day, and
      the first sorts strictly before the second. */
  function TodayWindow(today: Date): (w: Window)
    requires ValidDate(today)
    ensures |w.timeMin| == |w.timeMax| == 20
    ensures w.timeMin[..10] == w.timeMax[..10]
    ensures ParseIsoDate(w.timeMin[..10]) == Some(today)
    ensures w.timeMin[10..] == StartOfDay && w.timeMax[10..] == EndOfDay
    ensures LexLess(w.timeMin, w.timeMax)
  {
    var date := IsoDate(today);
    IsoDateRoundTrip(today);
    LexLessCommonPrefix(date, StartOfDay, EndOfDay);
    var w := Window(date + StartOfDay, date + EndOfDay);
    assert w.timeMin[..10] == date && w.timeMax[..10] == date;
    w
  }

  /** Different days query different windows. */
  lemma TodayWindowInjective(d1: Date, d2: Date)
    requires ValidDate(d1) && ValidDate(d2)
    requires TodayWindow(d1) == TodayWindow(d2)
    ensures d1 == d2
  {
  }
}
