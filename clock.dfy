/** Clock-time helpers: `compute_duration_minutes`, `parse_time_hour` and
    `normalize_time_input` (app.py:1974-2021). Python's `strptime` is not
    re-implemented: a parser is passed in as a function that yields the
    parsed value, or None where `strptime` raises `ValueError`. */
module Clock {
  import opened Wrappers
  import opened Text

  datatype Clock = Clock(hour: int, minute: int)

  /** A valid time of day, as `datetime.time` holds it at minute resolution. */
  type TimeOfDay = c: Clock | 0 <= c.hour < 24 && 0 <= c.minute < 60 witness Clock(0, 0)

  datatype Date = Date(year: int, month: int, day: int)

  /** `datetime.strptime(text, "%H:%M")` (or `"%H:%M:%S"`, seconds dropped). */
  type TimeParser = string -> Option<TimeOfDay>

  /** `datetime.strptime(text, "%Y-%m-%d").date()`. */
  type DateParser = string -> Option<Date>

  const MinutesPerDay: int := 1440

  function MinuteOfDay(t: TimeOfDay): (m: int)
    ensures 0 <= m < MinutesPerDay
  {
    t.hour * 60 + t.minute
  }

  /** Python's truthiness of an optional string: present and non-empty. */
  predicate Given(s: Option<string>) {
    s.Some? && s.value != ""
  }

  /** `compute_duration_minutes`: minutes from entry to exit on the trade's
      date; an exit earlier than the entry is taken to be on the next day. */
  function DurationMinutes(date: Option<string>, entryTime: Option<string>, exitTime: Option<string>,
                           parseDate: DateParser, parseTime: TimeParser): (r: Option<int>)
    ensures r.Some? <==>
      && Given(date) && Given(entryTime) && Given(exitTime)
      && parseDate(date.value).Some?
      && parseTime(entryTime.value).Some? && parseTime(exitTime.value).Some?
    ensures r.Some? ==> 0 <= r.value < MinutesPerDay
    ensures r.Some? ==>
      var entry := MinuteOfDay(parseTime(entryTime.value).value);
      var exit := MinuteOfDay(parseTime(exitTime.value).value);
      && (entry + r.value) % MinutesPerDay == exit
      && (exit < entry ==> r.value == exit + MinutesPerDay - entry)
      && (r.value == 0 <==> exit == entry)
  {
    if !Given(date) || !Given(entryTime) || !Given(exitTime) then None
    else
      match (parseDate(date.value), parseTime(entryTime.value), parseTime(exitTime.value))
      case (Some(_), Some(entry), Some(exit)) =>
        var e, x := MinuteOfDay(entry), MinuteOfDay(exit);
        var d := if x < e then x + MinutesPerDay - e else x - e;
        WrapOnce(e, d);
        Some(d)
      case _ => None
  }

  /** The duration is the only number of minutes in one day that leads from
      the entry time to the exit time. */
  lemma DurationIsForwardDistance(date: Option<string>, entryTime: Option<string>, exitTime: Option<string>,
                                  parseDate: DateParser, parseTime: TimeParser, d: int)
    requires DurationMinutes(date, entryTime, exitTime, parseDate, parseTime).Some?
    requires 0 <= d < MinutesPerDay
    requires (MinuteOfDay(parseTime(entryTime.value).value) + d) % MinutesPerDay
             == MinuteOfDay(parseTime(exitTime.value).value)
    ensures DurationMinutes(date, entryTime, exitTime, parseDate, parseTime) == Some(d)
  {
    var r := DurationMinutes(date, entryTime, exitTime, parseDate, parseTime).value;
    ForwardDistanceUnique(MinuteOfDay(parseTime(entryTime.value).value),
                          MinuteOfDay(parseTime(exitTime.value).value), r, d);
  }

  /** Two amounts under a day that lead from the same minute to the same
      minute are equal. */
  lemma ForwardDistanceUnique(e: int, x: int, r: int, d: int)
    requires 0 <= e < MinutesPerDay && 0 <= r < MinutesPerDay && 0 <= d < MinutesPerDay
    requires (e + r) % MinutesPerDay == x && (e + d) % MinutesPerDay == x
    ensures r == d
  {
    WrapOnce(e, r);
    WrapOnce(e, d);
  }

  /** Adding less than a day to a minute of the day wraps past midnight at
      most once. */
  lemma WrapOnce(e: int, d: int)
    requires 0 <= e < MinutesPerDay && 0 <= d < MinutesPerDay
    ensures (e + d) % MinutesPerDay == if e + d < MinutesPerDay then e + d else e + d - MinutesPerDay
  {
  }

  /** `parse_time_hour`: the hour of an "HH:MM" text, None when the value is
      missing (None or NaN) or does not parse. */
  function ParseTimeHour(value: Option<string>, parseTime: TimeParser): (r: Option<int>)
    ensures r.Some? <==> value.Some? && parseTime(value.value).Some?
    ensures r.Some? ==> 0 <= r.value < 24
    ensures r.Some? ==> r.value == parseTime(value.value).value.hour
  {
    match value
    case None => None
    case Some(s) =>
      match parseTime(s)
      case Some(t) => Some(t.hour)
      case None => None
  }

  /** What `normalize_time_input` may be handed: nothing, a `datetime.time`
      from a time picker, or anything else, taken through `str()`. */
  datatype TimeInput = NoValue | TimeValue(time: TimeOfDay) | TextValue(text: string)

  function DigitChar(n: int): (c: char)
    requires 0 <= n < 10
    ensures '0' <= c <= '9'
  {
    ('0' as int + n) as char
  }

  function DigitValue(c: char): int {
    c as int - '0' as int
  }

  /** `strftime("%H:%M")`. */
  function FormatClock(t: TimeOfDay): (s: string)
    ensures |s| == 5
  {
    [DigitChar(t.hour / 10), DigitChar(t.hour % 10), ':', DigitChar(t.minute / 10), DigitChar(t.minute % 10)]
  }

  predicate IsDigit(c: char) {
    '0' <= c <= '9'
  }

  predicate AllDigits(s: string) {
    forall i :: 0 <= i < |s| ==> IsDigit(s[i])
  }

  /** Two digits, a colon, two digits. */
  predicate IsClockShape(s: string) {
    |s| == 5 && IsDigit(s[0]) && IsDigit(s[1]) && s[2] == ':' && IsDigit(s[3]) && IsDigit(s[4])
  }

  /** "HH:MM" naming a real time of day: hours below 24, minutes below 60. */
  predicate IsClockText(s: string) {
    && IsClockShape(s)
    && DigitValue(s[0]) * 10 + DigitValue(s[1]) < 24
    && DigitValue(s[3]) * 10 + DigitValue(s[4]) < 60
  }

  /** Every formatted time is a valid clock text, and reads back as itself. */
  lemma FormatClockIsClockText(t: TimeOfDay)
    ensures IsClockText(FormatClock(t))
    ensures var s := FormatClock(t);
      DigitValue(s[0]) * 10 + DigitValue(s[1]) == t.hour && DigitValue(s[3]) * 10 + DigitValue(s[4]) == t.minute
  {
  }

  /** The digit fallback of `normalize_time_input` AS WRITTEN: three or four
      ASCII digits, padded to four, become "HH:MM" with no range check. */
  function DigitFallback(v: string): (r: Option<string>)
    ensures r.Some? <==> AllDigits(v) && (|v| == 3 || |v| == 4)
    ensures r.Some? ==> IsClockShape(r.value)
    ensures r.Some? ==> var w := if |v| == 3 then "0" + v else v;
      r.value[..2] + r.value[3..] == w
  {
    if AllDigits(v) && (|v| == 3 || |v| == 4) then
      var w := if |v| == 3 then "0" + v else v;
      Some(w[..2] + ":" + w[2..])
    else None
  }

  /** The digit fallback as evidently intended: as written, but a result
      whose hours or minutes are out of range is None. */
  function DigitFallbackChecked(v: string): (r: Option<string>)
    ensures r.Some? ==> IsClockText(r.value)
    ensures r.Some? ==> DigitFallback(v) == r
    ensures DigitFallback(v).Some? && IsClockText(DigitFallback(v).value) ==> r == DigitFallback(v)
  {
    match DigitFallback(v)
    case Some(s) => if IsClockText(s) then Some(s) else None
    case None => None
  }

  /** `normalize_time_input` parameterised by its digit fallback: a time
      object is formatted; text is stripped, and an empty text is None;
      otherwise the first of "%H:%M" and "%H:%M:%S" that parses is
      re-formatted as "%H:%M", and the digit fallback decides the rest. */
  function NormalizeWith(value: TimeInput, parseHM: TimeParser, parseHMS: TimeParser,
                         fallback: string -> Option<string>): (r: Option<string>)
    ensures value.NoValue? ==> r.None?
    ensures value.TimeValue? ==> r == Some(FormatClock(value.time))
    ensures value.TextValue? && Trim(value.text) == "" ==> r.None?
    ensures value.TextValue? && Trim(value.text) != "" ==>
      var v := Trim(value.text);
      && (parseHM(v).Some? ==> r == Some(FormatClock(parseHM(v).value)))
      && (parseHM(v).None? && parseHMS(v).Some? ==> r == Some(FormatClock(parseHMS(v).value)))
      && (parseHM(v).None? && parseHMS(v).None? ==> r == fallback(v))
  {
    match value
    case NoValue => None
    case TimeValue(t) => Some(FormatClock(t))
    case TextValue(s) =>
      var v := Trim(s);
      if v == "" then None
      else if parseHM(v).Some? then Some(FormatClock(parseHM(v).value))
      else if parseHMS(v).Some? then Some(FormatClock(parseHMS(v).value))
      else fallback(v)
  }

  /** `normalize_time_input` as written. Every text it returns has the
      "HH:MM" shape. */
  function NormalizeTimeInput(value: TimeInput, parseHM: TimeParser, parseHMS: TimeParser): (r: Option<string>)
    ensures value.NoValue? ==> r.None?
    ensures value.TimeValue? ==> r == Some(FormatClock(value.time))
    ensures value.TextValue? && Trim(value.text) == "" ==> r.None?
    ensures value.TextValue? && Trim(value.text) != "" ==>
      var v := Trim(value.text);
      r == if parseHM(v).Some? then Some(FormatClock(parseHM(v).value))
           else if parseHMS(v).Some? then Some(FormatClock(parseHMS(v).value))
           else DigitFallback(v)
    ensures r.Some? ==> IsClockShape(r.value)
  {
    FormatShapes(value, parseHM, parseHMS);
    NormalizeWith(value, parseHM, parseHMS, DigitFallback)
  }

  /** `normalize_time_input` with the corrected digit fallback: every text
      it returns is a valid time of day. */
  function NormalizeTimeInputChecked(value: TimeInput, parseHM: TimeParser, parseHMS: TimeParser): (r: Option<string>)
    ensures value.NoValue? ==> r.None?
    ensures value.TimeValue? ==> r == Some(FormatClock(value.time))
    ensures value.TextValue? && Trim(value.text) == "" ==> r.None?
    ensures r.Some? ==> IsClockText(r.value)
    ensures r.Some? ==> r == NormalizeTimeInput(value, parseHM, parseHMS)
    ensures var a := NormalizeTimeInput(value, parseHM, parseHMS); a.Some? && IsClockText(a.value) ==> r == a
    ensures var a := NormalizeTimeInput(value, parseHM, parseHMS); a.Some? && !IsClockText(a.value) ==> r.None?
  {
    FormatShapes(value, parseHM, parseHMS);
    NormalizeWith(value, parseHM, parseHMS, DigitFallbackChecked)
  }

  lemma FormatShapes(value: TimeInput, parseHM: TimeParser, parseHMS: TimeParser)
    ensures value.TimeValue? ==> IsClockText(FormatClock(value.time))
    ensures value.TextValue? && parseHM(Trim(value.text)).Some? ==> IsClockText(FormatClock(parseHM(Trim(value.text)).value))
    ensures value.TextValue? && parseHMS(Trim(value.text)).Some? ==> IsClockText(FormatClock(parseHMS(Trim(value.text)).value))
  {
    if value.TimeValue? {
      FormatClockIsClockText(value.time);
    }
    if value.TextValue? {
      var v := Trim(value.text);
      if parseHM(v).Some? { FormatClockIsClockText(parseHM(v).value); }
      if parseHMS(v).Some? { FormatClockIsClockText(parseHMS(v).value); }
    }
  }

  /** The discrepancy: "2575" has no colon, so neither "%H:%M" nor
      "%H:%M:%S" parses it, and the digit fallback turns it into "25:75",
      which is not a time of day; the corrected version gives None. */
  lemma DigitFallbackAcceptsInvalidTime(parseHM: TimeParser, parseHMS: TimeParser)
    requires parseHM("2575").None? && parseHMS("2575").None?
    ensures NormalizeTimeInput(TextValue("2575"), parseHM, parseHMS) == Some("25:75")
    ensures !IsClockText("25:75")
    ensures NormalizeTimeInputChecked(TextValue("2575"), parseHM, parseHMS) == None
  {
    assert Trim("2575") == "2575";
    assert AllDigits("2575");
    assert "2575"[..2] + ":" + "2575"[2..] == "25:75";
  }

  /** A formatted time that the "%H:%M" parser reads back comes through
      `normalize_time_input` unchanged. */
  lemma FormattedTimeRoundTrips(t: TimeOfDay, parseHM: TimeParser, parseHMS: TimeParser)
    requires parseHM(FormatClock(t)) == Some(t)
    ensures NormalizeTimeInput(TextValue(FormatClock(t)), parseHM, parseHMS) == Some(FormatClock(t))
  {
    FormatClockIsClockText(t);
    TrimOfTrimmed(FormatClock(t));
  }

  /** "930" (a time typed without separator) is padded and becomes "09:30". */
  lemma DigitFallbackPadsThreeDigits(parseHM: TimeParser, parseHMS: TimeParser)
    requires parseHM("930").None? && parseHMS("930").None?
    ensures NormalizeTimeInputChecked(TextValue("930"), parseHM, parseHMS) == Some("09:30")
  {
    assert Trim("930") == "930";
    assert AllDigits("930");
    assert ("0" + "930")[..2] + ":" + ("0" + "930")[2..] == "09:30";
  }
}
