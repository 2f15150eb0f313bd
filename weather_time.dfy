/**
 * The observation-time conversion of the weather helper
 * (telegram-aws/utils/getWeather.go, `convertTimeFormat`): a timestamp in the
 * layout `2006-01-02T15:04-07:00` (date, wall-clock time to the minute and a
 * UTC offset, as in RFC 3339) is re-rendered as `2006-01-02 15:04`, the same
 * wall-clock digits with the offset dropped.
 *
 * The parser accepts exactly what Go's `time.Parse` accepts for that layout:
 * a four-digit year, two-digit month, day and minute, a one- or two-digit
 * hour (the `15` element is not zero-padded when parsing), an offset sign of
 * `+` or `-` followed by `hh:mm`, and nothing after it; the month must be
 * 1..12, the day must exist in that month (leap years included), the hour
 * 0..23, the minute 0..59, the offset hour at most 24 and the offset minute
 * at most 60.
 */
module WeatherTime {
  import opened Optional

  /** The fields `time.Parse` reads from the layout. */
  datatype ObsTime = ObsTime(
    year: int, month: int, day: int, hour: int, minute: int,
    offsetSign: char, offsetHour: int, offsetMinute: int)

  /** Go's `(string, error)` result, with the error reduced to whether there was one. */
  datatype Conversion = Conversion(text: string, failed: bool)

  predicate IsDigit(c: char) { '0' <= c <= '9' }

  function Digit(c: char): (d: int)
    requires IsDigit(c)
    ensures 0 <= d < 10
  {
    c as int - '0' as int
  }

  function DigitChar(d: int): (c: char)
    requires 0 <= d < 10
    ensures IsDigit(c) && Digit(c) == d
  {
    ('0' as int + d) as char
  }

  /** `n` digits start at position `i` of `s`. */
  predicate DigitsAt(s: string, i: nat, n: nat)
  {
    i + n <= |s| && forall k :: i <= k < i + n ==> IsDigit(s[k])
  }

  function Num2(s: string, i: nat): (n: int)
    requires DigitsAt(s, i, 2)
    ensures 0 <= n < 100
  {
    10 * Digit(s[i]) + Digit(s[i + 1])
  }

  function Num4(s: string, i: nat): (n: int)
    requires DigitsAt(s, i, 4)
    ensures 0 <= n < 10000
  {
    100 * Num2(s, i) + Num2(s, i + 2)
  }

  /** A number written with two digits, zero-padded (`01`, `15`, `04`). */
  function Pad2(n: int): (s: string)
    requires 0 <= n < 100
    ensures |s| == 2 && DigitsAt(s, 0, 2) && Num2(s, 0) == n
  {
    [DigitChar(n / 10), DigitChar(n % 10)]
  }

  /** A number written with four digits, zero-padded (`2006`). */
  function Pad4(n: int): (s: string)
    requires 0 <= n < 10000
    ensures |s| == 4 && DigitsAt(s, 0, 4) && Num4(s, 0) == n
  {
    var hi, lo := Pad2(n / 100), Pad2(n % 100);
    assert Num2(hi + lo, 0) == Num2(hi, 0) && Num2(hi + lo, 2) == Num2(lo, 0);
    hi + lo
  }

  predicate IsLeap(year: int)
  {
    year % 4 == 0 && (year % 100 != 0 || year % 400 == 0)
  }

  function DaysIn(month: int, year: int): (n: int)
    requires 1 <= month <= 12
    ensures 28 <= n <= 31
  {
    if month == 2 then (if IsLeap(year) then 29 else 28)
    else if month == 4 || month == 6 || month == 9 || month == 11 then 30
    else 31
  }

  /** The ranges `time.Parse` enforces for this layout. */
  predicate ValidObsTime(t: ObsTime)
  {
    0 <= t.year < 10000 && 1 <= t.month <= 12 && 1 <= t.day <= DaysIn(t.month, t.year)
    && 0 <= t.hour < 24 && 0 <= t.minute < 60
    && (t.offsetSign == '+' || t.offsetSign == '-')
    && 0 <= t.offsetHour <= 24 && 0 <= t.offsetMinute <= 60
  }

  /** The date, `2006-01-02`, common to the input and the output layout. */
  function DatePart(t: ObsTime): (s: string)
    requires ValidObsTime(t)
    ensures |s| == 10
  {
    Pad4(t.year) + "-" + Pad2(t.month) + "-" + Pad2(t.day)
  }

  /** The wall-clock time, `15:04`, with a zero-padded hour. */
  function ClockPart(t: ObsTime): (s: string)
    requires ValidObsTime(t)
    ensures |s| == 5
  {
    Pad2(t.hour) + ":" + Pad2(t.minute)
  }

  /** The UTC offset, `-07:00`. */
  function OffsetPart(t: ObsTime): (s: string)
    requires ValidObsTime(t)
    ensures |s| == 6
  {
    [t.offsetSign] + Pad2(t.offsetHour) + ":" + Pad2(t.offsetMinute)
  }

  /** `t` written in the input layout with a zero-padded hour. */
  function Layout(t: ObsTime): (s: string)
    requires ValidObsTime(t)
    ensures |s| == 22
  {
    DatePart(t) + "T" + ClockPart(t) + OffsetPart(t)
  }

  /** `t` written in the input layout with a one-digit hour, which the parser also accepts. */
  function ShortHourLayout(t: ObsTime): (s: string)
    requires ValidObsTime(t) && t.hour < 10
    ensures |s| == 21
  {
    DatePart(t) + "T" + [DigitChar(t.hour)] + ":" + Pad2(t.minute) + OffsetPart(t)
  }

  /** `t` written in the output layout `2006-01-02 15:04`. */
  function Display(t: ObsTime): (s: string)
    requires ValidObsTime(t)
    ensures |s| == 16
    ensures s[4] == '-' && s[7] == '-' && s[10] == ' ' && s[13] == ':'
    ensures DigitsAt(s, 0, 4) && DigitsAt(s, 5, 2) && DigitsAt(s, 8, 2) && DigitsAt(s, 11, 2) && DigitsAt(s, 14, 2)
    ensures Num4(s, 0) == t.year && Num2(s, 5) == t.month && Num2(s, 8) == t.day
    ensures Num2(s, 11) == t.hour && Num2(s, 14) == t.minute
  {
    var s := DatePart(t) + " " + ClockPart(t);
    DateAt(s, t);
    assert s[11..13] == Pad2(t.hour) && s[14..16] == Pad2(t.minute);
    Pad2At(s, 11, t.hour);
    Pad2At(s, 14, t.minute);
    s
  }

  /** The part of the input after the hour: `:04-07:00`. */
  predicate MinuteAndOffset(rest: string)
  {
    |rest| == 9 && rest[0] == ':' && DigitsAt(rest, 1, 2)
    && (rest[3] == '+' || rest[3] == '-') && DigitsAt(rest, 4, 2)
    && rest[6] == ':' && DigitsAt(rest, 7, 2)
  }

  /** The first eleven characters `2006-01-02T` followed by at least one hour digit. */
  predicate DateAndHourDigit(s: string)
  {
    |s| >= 12 && DigitsAt(s, 0, 4) && s[4] == '-' && DigitsAt(s, 5, 2) && s[7] == '-'
    && DigitsAt(s, 8, 2) && s[10] == 'T' && IsDigit(s[11])
  }

  /** Where the hour ends: the `15` element takes a second digit when one follows. */
  function HourEnd(s: string): (h: nat)
    requires |s| >= 12
    ensures h == 12 || h == 13
  {
    if |s| > 12 && IsDigit(s[12]) then 13 else 12
  }

  /** `time.Parse("2006-01-02T15:04-07:00", s)`, or None where it returns an error. */
  function ParseObsTime(s: string): (r: Option<ObsTime>)
    ensures r.Some? ==> ValidObsTime(r.value)
  {
    if !DateAndHourDigit(s) then None
    else
      var h := HourEnd(s);
      var rest := s[h..];
      if !MinuteAndOffset(rest) then None
      else
        var hour := if h == 13 then Num2(s, 11) else Digit(s[11]);
        var t := ObsTime(Num4(s, 0), Num2(s, 5), Num2(s, 8), hour,
                         Num2(rest, 1), rest[3], Num2(rest, 4), Num2(rest, 7));
        if ValidObsTime(t) then Some(t) else None
  }

  /**
   * `convertTimeFormat`: the timestamp re-rendered without its offset, or
   * the empty string together with an error.
   */
  function ConvertTimeFormat(inputTime: string): (r: Conversion)
    ensures r.failed ==> r.text == ""
    ensures !r.failed ==> |inputTime| == 21 || |inputTime| == 22
    ensures !r.failed ==> |r.text| == 16 && r.text[..10] == inputTime[..10] && r.text[10] == ' '
    ensures !r.failed && |inputTime| == 22 ==> r.text[11..] == inputTime[11..16]
    ensures !r.failed && |inputTime| != 22 ==> r.text[11..] == ['0'] + inputTime[11..15]
  {
    match ParseObsTime(inputTime)
    case None => Conversion("", true)
    case Some(t) =>
      DisplayKeepsDigits(inputTime);
      Conversion(Display(t), false)
  }

  lemma Pad2Digits(s: string, i: nat)
    requires DigitsAt(s, i, 2)
    ensures Pad2(Num2(s, i)) == s[i..i + 2]
  {
  }

  lemma Pad4Digits(s: string, i: nat)
    requires DigitsAt(s, i, 4)
    ensures Pad4(Num4(s, i)) == s[i..i + 4]
  {
    var n := Num4(s, i);
    assert n / 100 == Num2(s, i) && n % 100 == Num2(s, i + 2);
    Pad2Digits(s, i);
    Pad2Digits(s, i + 2);
    assert s[i..i + 4] == s[i..i + 2] + s[i + 2..i + 4];
  }

  /** The date fields read from a timestamp render back to its first ten characters. */
  lemma DateDigits(s: string)
    requires DateAndHourDigit(s)
    ensures Pad4(Num4(s, 0)) + "-" + Pad2(Num2(s, 5)) + "-" + Pad2(Num2(s, 8)) == s[..10]
  {
    Pad4Digits(s, 0);
    Pad2Digits(s, 5);
    Pad2Digits(s, 8);
    assert s[..10] == s[0..4] + s[4..5] + s[5..7] + s[7..8] + s[8..10];
  }

  /** The minute and offset fields render back to the text after the hour. */
  lemma RestDigits(rest: string)
    requires MinuteAndOffset(rest)
    ensures ":" + Pad2(Num2(rest, 1)) + [rest[3]] + Pad2(Num2(rest, 4)) + ":" + Pad2(Num2(rest, 7)) == rest
  {
    Pad2Digits(rest, 1);
    Pad2Digits(rest, 4);
    Pad2Digits(rest, 7);
    assert rest == rest[0..1] + rest[1..3] + rest[3..4] + rest[4..6] + rest[6..7] + rest[7..9];
  }

  /**
   * Every accepted timestamp is the rendering of the fields it parses to,
   * with a two-digit hour or (for hours below ten) a one-digit hour.
   */
  lemma ParseSound(s: string)
    requires ParseObsTime(s).Some?
    ensures var t := ParseObsTime(s).value;
      (|s| == 22 && s == Layout(t)) || (|s| == 21 && t.hour < 10 && s == ShortHourLayout(t))
  {
    var t := ParseObsTime(s).value;
    var h := HourEnd(s);
    var rest := s[h..];
    DateDigits(s);
    RestDigits(rest);
    HourDigits(s);
    SplitAtHour(s, h);
    var tail := ":" + Pad2(t.minute) + OffsetPart(t);
    assert rest == tail;
    if h == 13 {
      assert Layout(t) == DatePart(t) + "T" + Pad2(t.hour) + tail;
    } else {
      assert ShortHourLayout(t) == DatePart(t) + "T" + [DigitChar(t.hour)] + tail;
    }
  }

  /** The hour digits render back to the text they were read from. */
  lemma HourDigits(s: string)
    requires DateAndHourDigit(s)
    ensures HourEnd(s) == 13 ==> Pad2(Num2(s, 11)) == s[11..13]
    ensures HourEnd(s) == 12 ==> [DigitChar(Digit(s[11]))] == s[11..12]
  {
    if HourEnd(s) == 13 {
      Pad2Digits(s, 11);
    }
  }

  /** A timestamp is its date, the `T`, its hour digits and the text after them. */
  lemma SplitAtHour(s: string, h: nat)
    requires 11 <= h <= |s| && s[10] == 'T'
    ensures s == s[..10] + "T" + s[11..h] + s[h..]
  {
  }

  /** The output of an accepted timestamp repeats its date and wall-clock characters. */
  lemma DisplayKeepsDigits(s: string)
    requires ParseObsTime(s).Some?
    ensures |s| == 21 || |s| == 22
    ensures var d := Display(ParseObsTime(s).value);
      d[..10] == s[..10] && d[10] == ' '
      && (|s| == 22 ==> d[11..] == s[11..16])
      && (|s| != 22 ==> d[11..] == ['0'] + s[11..15])
  {
    var t := ParseObsTime(s).value;
    ParseSound(s);
    var d := Display(t);
    assert d[..10] == DatePart(t) && d[11..] == ClockPart(t);
    if |s| == 22 {
      assert s[..10] == DatePart(t) && s[11..16] == ClockPart(t);
    } else {
      assert s[..10] == DatePart(t);
      assert s[11..15] == [DigitChar(t.hour)] + ":" + Pad2(t.minute);
      assert Pad2(t.hour) == ['0', DigitChar(t.hour)];
    }
  }

  /** The parser reads back every well-formed timestamp with a two-digit hour. */
  lemma ParseLayout(t: ObsTime)
    requires ValidObsTime(t)
    ensures ParseObsTime(Layout(t)) == Some(t)
  {
    var s := Layout(t);
    var tail := ":" + Pad2(t.minute) + OffsetPart(t);
    assert s == DatePart(t) + "T" + Pad2(t.hour) + tail;
    DateAt(s, t);
    Pad2At(s, 11, t.hour);
    assert s[13..] == tail;
    RestAt(tail, t);
  }

  /** The parser also reads back a one-digit hour. */
  lemma ParseShortHourLayout(t: ObsTime)
    requires ValidObsTime(t) && t.hour < 10
    ensures ParseObsTime(ShortHourLayout(t)) == Some(t)
  {
    var s := ShortHourLayout(t);
    var tail := ":" + Pad2(t.minute) + OffsetPart(t);
    assert s == DatePart(t) + "T" + [DigitChar(t.hour)] + tail;
    DateAt(s, t);
    assert s[11] == DigitChar(t.hour) && s[12..] == tail;
    RestAt(tail, t);
  }

  /** Two digits written by Pad2 read back as the number. */
  lemma Pad2At(s: string, i: nat, n: int)
    requires 0 <= n < 100 && i + 2 <= |s| && s[i..i + 2] == Pad2(n)
    ensures DigitsAt(s, i, 2) && Num2(s, i) == n
  {
    assert s[i] == Pad2(n)[0] && s[i + 1] == Pad2(n)[1];
  }

  /** A rendered date reads back as its fields. */
  lemma DateAt(s: string, t: ObsTime)
    requires ValidObsTime(t) && |s| >= 10 && s[..10] == DatePart(t)
    ensures DigitsAt(s, 0, 4) && s[4] == '-' && DigitsAt(s, 5, 2) && s[7] == '-' && DigitsAt(s, 8, 2)
    ensures Num4(s, 0) == t.year && Num2(s, 5) == t.month && Num2(s, 8) == t.day
  {
    var d := DatePart(t);
    assert d == Pad2(t.year / 100) + Pad2(t.year % 100) + "-" + Pad2(t.month) + "-" + Pad2(t.day);
    Pad2At(s, 0, t.year / 100);
    Pad2At(s, 2, t.year % 100);
    Pad2At(s, 5, t.month);
    Pad2At(s, 8, t.day);
  }

  /** The rendered minute and offset read back as their fields. */
  lemma RestAt(rest: string, t: ObsTime)
    requires ValidObsTime(t) && rest == ":" + Pad2(t.minute) + OffsetPart(t)
    ensures MinuteAndOffset(rest)
    ensures Num2(rest, 1) == t.minute && rest[3] == t.offsetSign
    ensures Num2(rest, 4) == t.offsetHour && Num2(rest, 7) == t.offsetMinute
  {
    assert rest == ":" + Pad2(t.minute) + [t.offsetSign] + Pad2(t.offsetHour) + ":" + Pad2(t.offsetMinute);
    Pad2At(rest, 1, t.minute);
    Pad2At(rest, 4, t.offsetHour);
    Pad2At(rest, 7, t.offsetMinute);
  }

  /** A well-formed timestamp converts to its date and wall-clock time without the offset. */
  lemma ConvertLayout(t: ObsTime)
    requires ValidObsTime(t)
    ensures ConvertTimeFormat(Layout(t)) == Conversion(Display(t), false)
  {
    ParseLayout(t);
  }

  /** A string that renders no valid timestamp is rejected with an empty result. */
  lemma ConvertRejects(s: string)
    requires forall t :: ValidObsTime(t) ==> s != Layout(t)
    requires forall t :: ValidObsTime(t) && t.hour < 10 ==> s != ShortHourLayout(t)
    ensures ConvertTimeFormat(s) == Conversion("", true)
  {
    if ParseObsTime(s).Some? {
      ParseSound(s);
    }
  }

  /** The observation time of the documented example. */
  lemma ConvertExample()
    ensures ParseObsTime("2024-05-01T10:00+08:00") == Some(ObsTime(2024, 5, 1, 10, 0, '+', 8, 0))
    ensures Display(ObsTime(2024, 5, 1, 10, 0, '+', 8, 0)) == "2024-05-01 10:00"
    ensures ConvertTimeFormat("2024-05-01T10:00+08:00") == Conversion("2024-05-01 10:00", false)
  {
    var t := ObsTime(2024, 5, 1, 10, 0, '+', 8, 0);
    assert Pad4(2024) == "2024";
    assert Pad2(5) == "05" && Pad2(1) == "01" && Pad2(10) == "10" && Pad2(0) == "00" && Pad2(8) == "08";
    assert DatePart(t) == "2024-05-01";
    assert ClockPart(t) == "10:00";
    assert OffsetPart(t) == "+08:00";
    assert Layout(t) == "2024-05-01T10:00+08:00";
    assert Display(t) == "2024-05-01 10:00";
    ParseLayout(t);
  }
}
