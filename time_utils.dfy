/**
 * Clock and parse utilities of the habit tracker (`lifetrack_pro/utils.py`):
 * clock text "HH:MM" to minutes after midnight and back, minutes to an
 * (hour, minute) clock time modulo one day, and the small duration grammar
 * used for screen-time input ("90", "1h 30m", "2:00", "45m").
 *
 * Each regular expression of the source is modelled by a parser/printer pair:
 * a `Form` datatype that spells out the accepted shapes, its `Render`, and a
 * `Scan` function that recognises exactly the rendered strings.
 */
module TimeUtils {
  import opened Wrappers

  const MinutesPerDay: int := 1440

  // ---------------------------------------------------------------- characters

  predicate IsDigit(c: char) { '0' <= c <= '9' }

  /** The characters that `str.strip()` removes and that the regular-expression class `\s` matches. */
  predicate IsSpace(c: char) {
    c == ' ' || ('\t' <= c <= '\r') || ('\U{1C}' <= c <= '\U{1F}') || c == '\U{85}' || c == '\U{A0}'
    || c == '\U{1680}' || ('\U{2000}' <= c <= '\U{200A}') || c == '\U{2028}' || c == '\U{2029}'
    || c == '\U{202F}' || c == '\U{205F}' || c == '\U{3000}'
  }

  predicate AllDigits(s: string) { forall i :: 0 <= i < |s| ==> IsDigit(s[i]) }

  predicate AllSpaces(s: string) { forall i :: 0 <= i < |s| ==> IsSpace(s[i]) }

  /** The regular expression `\d+`. */
  predicate IsNumeral(s: string) { |s| > 0 && AllDigits(s) }

  function DigitValue(c: char): nat
    requires IsDigit(c)
  {
    c as int - '0' as int
  }

  function DigitChar(d: nat): (c: char)
    requires d < 10
    ensures IsDigit(c) && DigitValue(c) == d
  {
    ('0' as int + d) as char
  }

  /** What `int()` makes of a string of decimal digits; leading zeros are allowed. */
  function NumeralValue(s: string): nat
    requires AllDigits(s)
    decreases |s|
  {
    if s == [] then 0 else NumeralValue(s[..|s| - 1]) * 10 + DigitValue(s[|s| - 1])
  }

  lemma NumeralValueOneDigit(s: string)
    requires |s| == 1 && AllDigits(s)
    ensures NumeralValue(s) == DigitValue(s[0])
  {
    assert s[..0] == [];
  }

  lemma NumeralValueTwoDigits(s: string)
    requires |s| == 2 && AllDigits(s)
    ensures NumeralValue(s) == 10 * DigitValue(s[0]) + DigitValue(s[1])
  {
    NumeralValueOneDigit(s[..1]);
  }

  /** Decimal text of a natural number without leading zeros, as `str()` writes it. */
  function NatToString(n: nat): (s: string)
    ensures IsNumeral(s) && NumeralValue(s) == n
    ensures n < 10 ==> |s| == 1
    ensures 10 <= n < 100 ==> |s| == 2
    decreases n
  {
    if n < 10 then [DigitChar(n)]
    else
      var prefix := NatToString(n / 10);
      var s := prefix + [DigitChar(n % 10)];
      assert s[..|s| - 1] == prefix;
      s
  }

  function IntToString(n: int): string {
    if n < 0 then "-" + NatToString(-n) else NatToString(n)
  }

  /** The format `{n:02d}`: zero-padded to width two, with the sign (if any) counted in the width. */
  function Pad2(n: int): string {
    if 0 <= n < 10 then "0" + NatToString(n) else IntToString(n)
  }

  // ------------------------------------------------------------ clock values

  /** A `datetime.time` truncated to hour and minute. */
  datatype ClockTime = ClockTime(hour: int, minute: int)

  function MinuteOfDay(t: ClockTime): int { t.hour * 60 + t.minute }

  lemma DayModUnique(m: int, a: int, b: int)
    requires m == MinutesPerDay * a + b && 0 <= b < MinutesPerDay
    ensures m % MinutesPerDay == b
  {
  }

  /**
   * `minutes_to_time`: any integer number of minutes, negative ones included,
   * as a clock time; the hour and minute are those of the minutes modulo one day.
   */
  function MinutesToTime(minutes: int): (t: ClockTime)
    ensures 0 <= t.hour < 24 && 0 <= t.minute < 60
    ensures MinuteOfDay(t) == minutes % MinutesPerDay
  {
    var q, r := minutes / 60, minutes % 60;
    var h := q % 24;
    assert minutes == 60 * q + r;
    assert q == 24 * (q / 24) + h;
    assert minutes == 1440 * (q / 24) + (60 * h + r);
    DayModUnique(minutes, q / 24, 60 * h + r);
    ClockTime(h, r)
  }

  /** Within one day the clock time is the quotient and remainder by 60. */
  lemma MinutesToTimeInDay(minutes: int)
    requires 0 <= minutes < MinutesPerDay
    ensures MinutesToTime(minutes) == ClockTime(minutes / 60, minutes % 60)
  {
  }

  lemma MinutesToTimeNegative()
    ensures MinutesToTime(-30) == ClockTime(23, 30)
    ensures MinutesToTime(1440 + 75) == ClockTime(1, 15)
  {
  }

  // ---------------------------------------------------------------- HH:MM text

  /** `minutes_to_hhmm`: the hour and the minute, each written with `{:02d}`, joined by a colon. */
  function MinutesToHhmm(minutes: int): (s: string)
    ensures |s| >= 4 && s[..|s| - 3] == Pad2(minutes / 60) && s[|s| - 3] == ':'
    ensures AllDigits(s[|s| - 2..]) && NumeralValue(s[|s| - 2..]) == minutes % 60
  {
    var hh, mm := Pad2(minutes / 60), Pad2(minutes % 60);
    Pad2Value(minutes % 60);
    var s := hh + ":" + mm;
    assert s[..|s| - 3] == hh && s[|s| - 2..] == mm;
    s
  }

  /**
   * For a minute of the day the text is five characters "HH:MM": a two-digit
   * hour of at most 23 and a two-digit minute, together the given minute.
   */
  lemma MinutesToHhmmShape(minutes: int)
    requires 0 <= minutes < MinutesPerDay
    ensures var s := MinutesToHhmm(minutes);
            && |s| == 5 && s[2] == ':' && AllDigits(s[..2]) && AllDigits(s[3..])
            && NumeralValue(s[..2]) == minutes / 60 <= 23 && NumeralValue(s[3..]) == minutes % 60
  {
    var hh, mm := Pad2(minutes / 60), Pad2(minutes % 60);
    Pad2Value(minutes / 60);
    Pad2Value(minutes % 60);
    var s := hh + ":" + mm;
    assert s[..2] == hh && s[3..] == mm;
  }

  lemma Pad2Value(n: int)
    requires 0 <= n < 100
    ensures |Pad2(n)| == 2 && AllDigits(Pad2(n)) && NumeralValue(Pad2(n)) == n
  {
    if n < 10 {
      var s := Pad2(n);
      assert s[..1] == "0" && s[..1][..0] == [];
    }
  }

  /** The regular expression `(\d{1,2}):(\d{2})`, hours and minutes kept as digit strings. */
  datatype ClockForm = ClockForm(hours: string, minutes: string) {
    predicate WellFormed() {
      1 <= |hours| <= 2 && |minutes| == 2 && AllDigits(hours) && AllDigits(minutes)
    }

    function Render(): string { hours + ":" + minutes }
  }

  /** Recognises `(\d{1,2}):(\d{2})` against the whole of `t`. */
  function ScanClock(t: string): (r: Option<ClockForm>)
    ensures r.Some? ==> r.value.WellFormed() && r.value.Render() == t
  {
    if (|t| == 4 || |t| == 5) && t[|t| - 3] == ':' && AllDigits(t[..|t| - 3]) && AllDigits(t[|t| - 2..]) then
      assert t == t[..|t| - 3] + ":" + t[|t| - 2..];
      Some(ClockForm(t[..|t| - 3], t[|t| - 2..]))
    else None
  }

  lemma ScanClockComplete(f: ClockForm)
    requires f.WellFormed()
    ensures ScanClock(f.Render()) == Some(f)
  {
    var t := f.Render();
    assert t[..|t| - 3] == f.hours;
    assert t[|t| - 2..] == f.minutes;
  }

  /**
   * `parse_time_hhmm`: the stripped text must be one or two digits, a colon and
   * two digits, with hour at most 23 and minute at most 59; the result is the
   * minute of the day.
   */
  function ParseTimeHhmm(text: string): (r: Option<int>)
    ensures r.Some? ==> 0 <= r.value < MinutesPerDay
  {
    match ScanClock(Strip(text))
    case None => None
    case Some(f) =>
      var h, mi := NumeralValue(f.hours), NumeralValue(f.minutes);
      if h < 0 || h > 23 || mi < 0 || mi > 59 then None else Some(h * 60 + mi)
  }

  /** Every accepted text is, after stripping, a clock form in range, and the result is its minute of the day. */
  lemma ParseTimeSound(text: string) returns (f: ClockForm)
    requires ParseTimeHhmm(text).Some?
    ensures f.WellFormed() && f.Render() == Strip(text)
    ensures NumeralValue(f.hours) <= 23 && NumeralValue(f.minutes) <= 59
    ensures ParseTimeHhmm(text).value == NumeralValue(f.hours) * 60 + NumeralValue(f.minutes)
  {
    f := ScanClock(Strip(text)).value;
  }

  /** A clock form in range, with any surrounding white space, is accepted. */
  lemma ParseTimeAccepts(pre: string, f: ClockForm, post: string)
    requires AllSpaces(pre) && AllSpaces(post) && f.WellFormed()
    requires NumeralValue(f.hours) <= 23 && NumeralValue(f.minutes) <= 59
    ensures var r := ParseTimeHhmm(pre + f.Render() + post); r.Some? && r.value == NumeralValue(f.hours) * 60 + NumeralValue(f.minutes)
  {
    var t := f.Render();
    assert t[0] == f.hours[0] && t[|t| - 1] == f.minutes[1];
    StripPadded(pre, t, post);
    ScanClockComplete(f);
  }

  /** A clock form with hour above 23 or minute above 59 is refused. */
  lemma ParseTimeRejectsRange(pre: string, f: ClockForm, post: string)
    requires AllSpaces(pre) && AllSpaces(post) && f.WellFormed()
    requires NumeralValue(f.hours) > 23 || NumeralValue(f.minutes) > 59
    ensures ParseTimeHhmm(pre + f.Render() + post) == None
  {
    StripPadded(pre, f.Render(), post);
    ScanClockComplete(f);
  }

  /** Formatting a minute of the day and parsing it back gives the same minute. */
  lemma ParseTimeRoundTrip(m: nat)
    requires m < MinutesPerDay
    ensures var r := ParseTimeHhmm(MinutesToHhmm(m)); r.Some? && r.value == m
  {
    var h, mi := m / 60, m % 60;
    var f := ClockForm(Pad2(h), Pad2(mi));
    Pad2Value(h);
    Pad2Value(mi);
    var t := MinutesToHhmm(m);
    assert t == [] + f.Render() + [];
    ParseTimeAccepts([], f, []);
    assert ParseTimeHhmm(t).value == h * 60 + mi == m;
  }

  lemma ParseTimeExampleAccepted()
    ensures var r := ParseTimeHhmm(" 7:05 "); r.Some? && r.value == 425
  {
    var f := ClockForm("7", "05");
    NumeralValueOneDigit("7");
    NumeralValueTwoDigits("05");
    assert f.WellFormed() && NumeralValue(f.hours) == 7 && NumeralValue(f.minutes) == 5;
    assert " " + f.Render() + " " == " 7:05 ";
    ParseTimeAccepts(" ", f, " ");
  }

  lemma ParseTimeExampleHourOutOfRange()
    ensures ParseTimeHhmm("24:00") == None
  {
    var f := ClockForm("24", "00");
    NumeralValueTwoDigits("24");
    assert f.WellFormed() && NumeralValue(f.hours) == 24;
    assert [] + f.Render() + [] == "24:00";
    ParseTimeRejectsRange([], f, []);
  }

  lemma ParseTimeExampleMinuteOutOfRange()
    ensures ParseTimeHhmm("07:60") == None
  {
    var f := ClockForm("07", "60");
    NumeralValueTwoDigits("60");
    assert f.WellFormed() && NumeralValue(f.minutes) == 60;
    assert [] + f.Render() + [] == "07:60";
    ParseTimeRejectsRange([], f, []);
  }

  // ------------------------------------------------------------------ strip, lower

  /** The first position at or after `i` that does not hold white space, or `|s|`. */
  function SkipSpaces(s: string, i: nat): (r: nat)
    requires i <= |s|
    ensures i <= r <= |s| && (r < |s| ==> !IsSpace(s[r]))
    ensures forall j :: i <= j < r ==> IsSpace(s[j])
    decreases |s| - i
  {
    if i < |s| && IsSpace(s[i]) then SkipSpaces(s, i + 1) else i
  }

  /** The position just after the last character before `j` that is not white space, or 0. */
  function SkipSpacesBack(s: string, j: nat): (r: nat)
    requires j <= |s|
    ensures r <= j && (0 < r ==> !IsSpace(s[r - 1]))
    ensures forall k :: r <= k < j ==> IsSpace(s[k])
    decreases j
  {
    if 0 < j && IsSpace(s[j - 1]) then SkipSpacesBack(s, j - 1) else j
  }

  /** The first position at or after `i` that does not hold a digit, or `|s|`. */
  function SkipDigits(s: string, i: nat): (r: nat)
    requires i <= |s|
    ensures i <= r <= |s| && (r < |s| ==> !IsDigit(s[r]))
    ensures forall j :: i <= j < r ==> IsDigit(s[j])
    decreases |s| - i
  {
    if i < |s| && IsDigit(s[i]) then SkipDigits(s, i + 1) else i
  }

  /** `str.strip()`: the text without its leading and trailing white space. */
  function Strip(s: string): (r: string)
    ensures |r| <= |s| && Trimmed(r)
  {
    var first := SkipSpaces(s, 0);
    if first == |s| then [] else s[first..SkipSpacesBack(s, |s|)]
  }

  /** A text that neither starts nor ends with white space. */
  predicate Trimmed(core: string) {
    core == [] || (!IsSpace(core[0]) && !IsSpace(core[|core| - 1]))
  }

  /** Stripping removes exactly the white space around a trimmed text. */
  lemma StripPadded(pre: string, core: string, post: string)
    requires AllSpaces(pre) && AllSpaces(post) && Trimmed(core)
    ensures Strip(pre + core + post) == core
  {
    var s := pre + core + post;
    var first := |pre|;
    var last := |pre| + |core|;
    assert forall j :: 0 <= j < first ==> s[j] == pre[j];
    assert forall j :: last <= j < |s| ==> s[j] == post[j - last];
    if core == [] {
      assert SkipSpaces(s, 0) == |s|;
    } else {
      assert s[first] == core[0] && s[last - 1] == core[|core| - 1];
      assert SkipSpaces(s, 0) == first;
      assert SkipSpacesBack(s, |s|) == last;
      assert s[first..last] == core;
    }
  }

  function LowerChar(c: char): char {
    if 'A' <= c <= 'Z' then (c as int + 32) as char else c
  }

  /** `str.lower()` on the letters A to Z. */
  function Lower(s: string): string {
    seq(|s|, i requires 0 <= i < |s| => LowerChar(s[i]))
  }

  // ------------------------------------------------------------------ durations

  /** Length of the longest run of digits at the start of `s`. */
  function DigitRun(s: string): (k: nat)
    ensures k <= |s| && AllDigits(s[..k]) && (k < |s| ==> !IsDigit(s[k]))
  {
    SkipDigits(s, 0)
  }

  /** Length of the longest run of white space at the start of `s`. */
  function SpaceRun(s: string): (k: nat)
    ensures k <= |s| && AllSpaces(s[..k]) && (k < |s| ==> !IsSpace(s[k]))
  {
    SkipSpaces(s, 0)
  }

  lemma DigitRunOf(n: string, tail: string)
    requires AllDigits(n) && (tail == [] || !IsDigit(tail[0]))
    ensures DigitRun(n + tail) == |n|
  {
    var s := n + tail;
    assert forall j :: 0 <= j < |n| ==> s[j] == n[j];
    assert |n| < |s| ==> s[|n|] == tail[0];
  }

  lemma SpaceRunOf(g: string, tail: string)
    requires AllSpaces(g) && (tail == [] || !IsSpace(tail[0]))
    ensures SpaceRun(g + tail) == |g|
  {
    var s := g + tail;
    assert forall j :: 0 <= j < |g| ==> s[j] == g[j];
    assert |g| < |s| ==> s[|g|] == tail[0];
  }

  /**
   * The shapes `parse_duration_to_minutes` accepts after stripping and lower-casing,
   * one per regular expression of the source, numbers kept as digit strings.
   */
  datatype DurationForm =
    | Plain(digits: string)                                     // \d+
    | Hours(hours: string)                                      // (\d+)h
    | HoursMinutes(hours: string, gap: string, minutes: string) // (\d+)h\s*(\d+)m
    | Colon(hours: string, minutes: string)                     // (\d+):(\d{1,2})
    | Minutes(minutes: string)                                  // (\d+)m
  {
    predicate WellFormed() {
      match this
      case Plain(d) => IsNumeral(d)
      case Hours(h) => IsNumeral(h)
      case HoursMinutes(h, g, m) => IsNumeral(h) && AllSpaces(g) && IsNumeral(m)
      case Colon(h, m) => IsNumeral(h) && 1 <= |m| <= 2 && AllDigits(m)
      case Minutes(m) => IsNumeral(m)
    }

    function Render(): string {
      match this
      case Plain(d) => d
      case Hours(h) => h + "h"
      case HoursMinutes(h, g, m) => h + "h" + g + m + "m"
      case Colon(h, m) => h + ":" + m
      case Minutes(m) => m + "m"
    }

    /** Minutes denoted; the minutes after a colon are not range-checked. */
    function Value(): nat
      requires WellFormed()
    {
      match this
      case Plain(d) => NumeralValue(d)
      case Hours(h) => NumeralValue(h) * 60
      case HoursMinutes(h, _, m) => NumeralValue(h) * 60 + NumeralValue(m)
      case Colon(h, m) => NumeralValue(h) * 60 + NumeralValue(m)
      case Minutes(m) => NumeralValue(m)
    }
  }

  /** Recognises the duration shapes against the whole of `t`. */
  function ScanDuration(t: string): (r: Option<DurationForm>)
    ensures r.Some? ==> r.value.WellFormed() && r.value.Render() == t
  {
    var k := DigitRun(t);
    if k == 0 then None
    else
      assert t == t[..k] + t[k..];
      ScanAfterNumber(t[..k], t[k..])
  }

  /** What may follow the leading number `n`: nothing, an hours tail, a colon and minutes, or "m". */
  function ScanAfterNumber(n: string, rest: string): (r: Option<DurationForm>)
    requires IsNumeral(n)
    ensures r.Some? ==> r.value.WellFormed() && r.value.Render() == n + rest
  {
    if rest == [] then
      assert n + rest == n;
      Some(Plain(n))
    else if rest[0] == 'h' then
      assert rest == "h" + rest[1..];
      ScanHoursTail(n, rest[1..])
    else if rest[0] == ':' && 2 <= |rest| <= 3 && AllDigits(rest[1..]) then
      assert rest == ":" + rest[1..];
      Some(Colon(n, rest[1..]))
    else if rest == "m" then Some(Minutes(n))
    else None
  }

  /** What may follow "<n>h": nothing, or optional white space, a number and "m". */
  function ScanHoursTail(n: string, after: string): (r: Option<DurationForm>)
    requires IsNumeral(n)
    ensures r.Some? ==> r.value.WellFormed() && r.value.Render() == n + "h" + after
  {
    if after == [] then
      assert n + "h" + after == n + "h";
      Some(Hours(n))
    else
      var g := SpaceRun(after);
      var tail := after[g..];
      var k := DigitRun(tail);
      if k > 0 && tail[k..] == "m" then
        HoursMinutesSplit(n, after, g, k);
        Some(HoursMinutes(n, after[..g], tail[..k]))
      else None
  }

  lemma HoursMinutesSplit(n: string, after: string, g: nat, k: nat)
    requires g <= |after| && k <= |after| - g && after[g..][k..] == "m"
    ensures HoursMinutes(n, after[..g], after[g..][..k]).Render() == n + "h" + after
  {
    var gap, tail := after[..g], after[g..];
    var m := tail[..k];
    assert tail == m + "m";
    assert after == gap + tail;
    assert after == gap + m + "m";
  }

  /** Every well-formed shape is recognised as itself. */
  lemma ScanDurationComplete(f: DurationForm)
    requires f.WellFormed()
    ensures ScanDuration(f.Render()) == Some(f)
  {
    match f
    case Plain(d) => PlainComplete(d);
    case Hours(h) => HoursComplete(h);
    case HoursMinutes(h, g, m) => HoursMinutesComplete(h, g, m);
    case Colon(h, m) => ColonComplete(h, m);
    case Minutes(m) => MinutesComplete(m);
  }

  /** After a whole leading number, scanning continues with what follows it. */
  lemma ScanNumberFirst(n: string, rest: string)
    requires IsNumeral(n) && (rest == [] || !IsDigit(rest[0]))
    ensures ScanDuration(n + rest) == ScanAfterNumber(n, rest)
  {
    var t := n + rest;
    DigitRunOf(n, rest);
    assert t[..|n|] == n && t[|n|..] == rest;
  }

  lemma PlainComplete(d: string)
    requires IsNumeral(d)
    ensures ScanDuration(d) == Some(Plain(d))
  {
    ScanNumberFirst(d, []);
    assert d + [] == d;
  }

  lemma HoursComplete(h: string)
    requires IsNumeral(h)
    ensures ScanDuration(h + "h") == Some(Hours(h))
  {
    ScanNumberFirst(h, "h");
    assert "h"[1..] == [];
  }

  lemma HoursMinutesComplete(h: string, g: string, m: string)
    requires IsNumeral(h) && AllSpaces(g) && IsNumeral(m)
    ensures ScanDuration(HoursMinutes(h, g, m).Render()) == Some(HoursMinutes(h, g, m))
  {
    var after := g + m + "m";
    var rest := "h" + after;
    assert HoursMinutes(h, g, m).Render() == h + rest;
    ScanNumberFirst(h, rest);
    assert rest[1..] == after;
    assert ScanAfterNumber(h, rest) == ScanHoursTail(h, after);
    HoursTailComplete(h, g, m);
  }

  lemma ColonComplete(h: string, m: string)
    requires IsNumeral(h) && 1 <= |m| <= 2 && AllDigits(m)
    ensures ScanDuration(h + ":" + m) == Some(Colon(h, m))
  {
    var rest := ":" + m;
    assert h + ":" + m == h + rest;
    ScanNumberFirst(h, rest);
    assert rest[1..] == m;
  }

  lemma MinutesComplete(m: string)
    requires IsNumeral(m)
    ensures ScanDuration(m + "m") == Some(Minutes(m))
  {
    ScanNumberFirst(m, "m");
  }

  lemma HoursTailComplete(h: string, g: string, m: string)
    requires IsNumeral(h) && AllSpaces(g) && IsNumeral(m)
    ensures ScanHoursTail(h, g + m + "m") == Some(HoursMinutes(h, g, m))
  {
    var after := g + m + "m";
    assert after == g + (m + "m");
    SpaceRunOf(g, m + "m");
    var tail := after[|g|..];
    assert tail == m + "m";
    DigitRunOf(m, "m");
    assert tail[|m|..] == "m";
    assert after[..|g|] == g;
    assert tail[..|m|] == m;
  }

  /**
   * `parse_duration_to_minutes`: strip, lower-case, and read one of the duration
   * shapes; any other text gives `None`. No shape admits a sign, so the result is
   * never negative.
   */
  function ParseDurationToMinutes(text: string): (r: Option<int>)
    ensures r.Some? ==> r.value >= 0
  {
    match ScanDuration(Lower(Strip(text)))
    case None => None
    case Some(f) => Some(f.Value())
  }

  /** Every accepted text is, stripped and lower-cased, a duration shape, and the result is its value. */
  lemma ParseDurationSound(text: string) returns (f: DurationForm)
    requires ParseDurationToMinutes(text).Some?
    ensures f.WellFormed() && f.Render() == Lower(Strip(text))
    ensures ParseDurationToMinutes(text).value == f.Value()
  {
    f := ScanDuration(Lower(Strip(text))).value;
  }

  lemma LowerSpace(c: char)
    ensures IsSpace(LowerChar(c)) == IsSpace(c)
  {
  }

  /**
   * A duration shape, written in any mix of upper and lower case and with any
   * surrounding white space, is accepted with its value.
   */
  lemma ParseDurationAccepts(pre: string, body: string, post: string, f: DurationForm)
    requires AllSpaces(pre) && AllSpaces(post) && f.WellFormed()
    requires Lower(body) == f.Render()
    ensures var r := ParseDurationToMinutes(pre + body + post); r.Some? && r.value == f.Value()
  {
    var t := f.Render();
    assert |t| > 0 && IsDigit(t[0]);
    assert |body| == |t|;
    assert LowerChar(body[0]) == t[0];
    assert LowerChar(body[|body| - 1]) == t[|t| - 1];
    LowerSpace(body[0]);
    LowerSpace(body[|body| - 1]);
    assert !IsSpace(t[|t| - 1]) by {
      match f
      case Plain(d) =>
      case Hours(h) =>
      case HoursMinutes(h, g, m) =>
      case Colon(h, m) =>
        assert t[|t| - 1] == m[|m| - 1];
      case Minutes(m) =>
    }
    StripPadded(pre, body, post);
    ScanDurationComplete(f);
  }

  /** Text without capital letters is its own lower-case form. */
  lemma LowerUnchanged(s: string)
    requires forall i :: 0 <= i < |s| ==> !('A' <= s[i] <= 'Z')
    ensures Lower(s) == s
  {
  }

  lemma ParseDurationExamplePlain()
    ensures var r := ParseDurationToMinutes("90"); r.Some? && r.value == 90
  {
    var f := Plain("90");
    NumeralValueTwoDigits("90");
    assert f.Value() == 90;
    LowerUnchanged("90");
    ParseDurationAccepts([], "90", [], f);
    assert [] + "90" + [] == "90";
  }

  lemma LowerHoursMinutesExample()
    ensures Lower("1H 30m") == "1h 30m"
  {
    var l := Lower("1H 30m");
    assert |l| == 6;
    assert l[0] == '1' && l[1] == 'h' && l[2] == ' ' && l[3] == '3' && l[4] == '0' && l[5] == 'm';
  }

  lemma ParseDurationExampleHoursMinutes()
    ensures var r := ParseDurationToMinutes(" 1H 30m "); r.Some? && r.value == 90
  {
    var f := HoursMinutes("1", " ", "30");
    assert f.WellFormed();
    assert f.Value() == 90 by {
      NumeralValueTwoDigits("30");
      NumeralValueOneDigit("1");
    }
    assert Lower("1H 30m") == f.Render() by {
      LowerHoursMinutesExample();
    }
    assert " " + "1H 30m" + " " == " 1H 30m ";
    ParseDurationAccepts(" ", "1H 30m", " ", f);
  }

  lemma ParseDurationExampleColon()
    ensures var r := ParseDurationToMinutes("2:75"); r.Some? && r.value == 195
  {
    var f := Colon("2", "75");
    NumeralValueOneDigit("2");
    NumeralValueTwoDigits("75");
    assert f.Value() == 195;
    LowerUnchanged("2:75");
    assert f.Render() == "2:75";
    ParseDurationAccepts([], "2:75", [], f);
    assert [] + "2:75" + [] == "2:75";
  }

  lemma ParseDurationExampleMinutes()
    ensures var r := ParseDurationToMinutes("45m"); r.Some? && r.value == 45
  {
    var f := Minutes("45");
    NumeralValueTwoDigits("45");
    assert f.Value() == 45;
    LowerUnchanged("45m");
    assert f.Render() == "45m";
    ParseDurationAccepts([], "45m", [], f);
    assert [] + "45m" + [] == "45m";
  }
}
