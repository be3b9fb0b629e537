/** The weekly session schedule and `match_session`: which session a
    recording belongs to, judged by its weekday and its time of day. */
module Schedule {
  import opened Wrappers
  import opened Digits
  import opened DateTimes

  /** One `(time, session name)` pair of a weekday's list; the time is
      written for `strptime(..., "%I:%M%p")`, e.g. `"5:00pm"`. */
  datatype ScheduleEntry = ScheduleEntry(time: string, name: string)

  /** Weekday name (`"Monday"`, ...) to that day's entries, in the order written. */
  type WeeklySchedule = map<string, seq<ScheduleEntry>>

  /** A time of day on the 24-hour clock. */
  datatype ClockTime = ClockTime(hour: nat, minute: nat)

  /** What `match_session` gives: a session name, `None`, or the `ValueError`
      that `strptime` raises, uncaught, for a schedule time it cannot read. */
  datatype MatchResult = Matched(name: string) | NoMatch | BadScheduleTime(time: string)

  function Lower(c: char): char {
    if 'A' <= c <= 'Z' then (c as int + 32) as char else c
  }

  /** `%I`: one or two digits naming an hour 1..12 (`1[0-2]|0[1-9]|[1-9]`). */
  predicate IsHourText(t: string) {
    (|t| == 1 || |t| == 2) && AllDigits(t) && 1 <= DigitsValue(t) <= 12
  }

  /** `%M`: one or two digits naming a minute 0..59 (`[0-5]\d|\d`). */
  predicate IsMinuteText(t: string) {
    (|t| == 1 || |t| == 2) && AllDigits(t) && DigitsValue(t) <= 59
  }

  /** `strptime(s, "%I:%M%p").time()`: the hour text, a colon, the minute
      text and `am` or `pm` in any case, with nothing after. 12am is hour 0,
      12pm is hour 12, any other pm hour gains 12. */
  function ParseClockTime(s: string): (r: Option<ClockTime>)
    ensures r.Some? ==> r.value.hour < 24 && r.value.minute < 60
  {
    var colon := if |s| > 1 && s[1] == ':' then 1 else if |s| > 2 && s[2] == ':' then 2 else 0;
    if colon == 0 || !(|s| - colon - 1 == 3 || |s| - colon - 1 == 4) then None
    else
      var hourText := s[..colon];
      var minuteText := s[colon + 1..|s| - 2];
      var meridiem := [Lower(s[|s| - 2]), Lower(s[|s| - 1])];
      if !IsHourText(hourText) || !IsMinuteText(minuteText) || !(meridiem == "am" || meridiem == "pm") then None
      else
        var h := DigitsValue(hourText);
        var hour := if meridiem == "am" then (if h == 12 then 0 else h)
                    else (if h == 12 then 12 else h + 12);
        Some(ClockTime(hour, DigitsValue(minuteText)))
  }

  /** The canonical 12-hour spelling of a time of day, e.g. `"5:07pm"`. */
  function FormatClockTime(t: ClockTime): (s: string)
    requires t.hour < 24 && t.minute < 60
  {
    var h := if t.hour % 12 == 0 then 12 else t.hour % 12;
    Decimal(h) + ":" + Pad(t.minute, 2) + (if t.hour < 12 then "am" else "pm")
  }

  /** Every time of day has a 12-hour spelling that reads back as itself. */
  lemma FormatThenParseClockTime(t: ClockTime)
    requires t.hour < 24 && t.minute < 60
    ensures ParseClockTime(FormatClockTime(t)) == Some(t)
  {
    var h := if t.hour % 12 == 0 then 12 else t.hour % 12;
    var ap: string := if t.hour < 12 then "am" else "pm";
    assert h == (if t.hour == 0 || t.hour == 12 then 12 else if t.hour < 12 then t.hour else t.hour - 12);
    DecimalThenRead(h);
    ShortDecimal(h);
    assert Pow10(2) == 100;
    PadThenRead(t.minute, 2);
    ParseClockText(Decimal(h), Pad(t.minute, 2), ap);
    assert FormatClockTime(t) == Decimal(h) + ":" + Pad(t.minute, 2) + ap;
  }

  /** A well-formed 12-hour text reads as its hour, shifted by the meridiem,
      and its minute. */
  lemma ParseClockText(hs: string, ms: string, ap: string)
    requires IsHourText(hs) && IsMinuteText(ms) && |ms| == 2 && (ap == "am" || ap == "pm")
    ensures var h := DigitsValue(hs);
            var hour := if ap == "am" then (if h == 12 then 0 else h) else (if h == 12 then 12 else h + 12);
            ParseClockTime(hs + ":" + ms + ap) == Some(ClockTime(hour, DigitsValue(ms)))
  {
    ClockTextPieces(hs, ms, ap);
    var s := hs + ":" + ms + ap;
    assert [Lower(s[|s| - 2]), Lower(s[|s| - 1])] == ap;
  }

  /** A number below 100 has one or two decimal digits. */
  lemma ShortDecimal(n: nat)
    requires n < 100
    ensures |Decimal(n)| == 1 || |Decimal(n)| == 2
  {
    if n >= 10 {
      assert Decimal(n) == Decimal(n / 10) + [DigitChar(n % 10)];
    }
  }

  /** In `hs + ":" + ms + ap`, the parser finds the colon after `hs` and
      reads back `hs`, `ms` and `ap` as the hour, minute and meridiem texts. */
  lemma ClockTextPieces(hs: string, ms: string, ap: string)
    requires (|hs| == 1 || |hs| == 2) && AllDigits(hs) && |ms| == 2 && |ap| == 2
    ensures var s := hs + ":" + ms + ap;
            && (if |s| > 1 && s[1] == ':' then 1 else if |s| > 2 && s[2] == ':' then 2 else 0) == |hs|
            && s[..|hs|] == hs && s[|hs| + 1..|s| - 2] == ms
            && s[|s| - 2] == ap[0] && s[|s| - 1] == ap[1]
  {
    var s := hs + ":" + ms + ap;
    assert s[|hs|] == ':';
    if |hs| == 2 {
      assert s[1] == hs[1];
    }
  }

  /** `abs((scheduled - dt).total_seconds()) / 60 <= tolerance`, where the
      scheduled time is the entry's time on the recording's own date with
      seconds 0. Both sides are whole seconds, so this is exact. */
  predicate WithinTolerance(t: ClockTime, dt: DateTime, tolerance: int)
    requires ValidDateTime(dt)
  {
    var diff := t.hour * 3600 + t.minute * 60 - SecondOfDay(dt);
    (if diff < 0 then -diff else diff) <= tolerance * 60
  }

  /** The `for` loop of `match_session` over one day's entries: the first
      entry within tolerance wins; an unreadable time stops the search. */
  function MatchEntries(entries: seq<ScheduleEntry>, tolerance: int, dt: DateTime): MatchResult
    requires ValidDateTime(dt)
  {
    if entries == [] then NoMatch
    else match ParseClockTime(entries[0].time)
      case None => BadScheduleTime(entries[0].time)
      case Some(t) =>
        if WithinTolerance(t, dt, tolerance) then Matched(entries[0].name)
        else MatchEntries(entries[1..], tolerance, dt)
  }

  /** `match_session`: look up the recording's weekday, then search its entries. */
  function MatchSession(schedule: WeeklySchedule, tolerance: int, dt: DateTime): (r: MatchResult)
    requires ValidDateTime(dt)
    ensures WeekdayName(dt) !in schedule ==> r == NoMatch
  {
    var day := WeekdayName(dt);
    if day !in schedule then NoMatch else MatchEntries(schedule[day], tolerance, dt)
  }

  /** An entry the search reads and passes over. */
  predicate Passes(e: ScheduleEntry, tolerance: int, dt: DateTime)
    requires ValidDateTime(dt)
  {
    ParseClockTime(e.time).Some? && !WithinTolerance(ParseClockTime(e.time).value, dt, tolerance)
  }

  /** An entry the search reads and stops at. */
  predicate Hits(e: ScheduleEntry, tolerance: int, dt: DateTime)
    requires ValidDateTime(dt)
  {
    ParseClockTime(e.time).Some? && WithinTolerance(ParseClockTime(e.time).value, dt, tolerance)
  }

  /** First match wins: the search names entry `i`'s session exactly when
      entry `i` is within tolerance and every earlier entry is readable and
      outside it; a later, closer entry plays no part. */
  lemma MatchedIsFirstHit(entries: seq<ScheduleEntry>, tolerance: int, dt: DateTime, name: string)
    requires ValidDateTime(dt)
    ensures MatchEntries(entries, tolerance, dt) == Matched(name) <==>
            exists i :: 0 <= i < |entries| && Hits(entries[i], tolerance, dt) && entries[i].name == name
                        && forall j :: 0 <= j < i ==> Passes(entries[j], tolerance, dt)
  {
    if MatchEntries(entries, tolerance, dt) == Matched(name) {
      MatchedHasFirstHit(entries, tolerance, dt, name);
    }
    if exists i :: 0 <= i < |entries| && Hits(entries[i], tolerance, dt) && entries[i].name == name
                   && forall j :: 0 <= j < i ==> Passes(entries[j], tolerance, dt) {
      var i :| 0 <= i < |entries| && Hits(entries[i], tolerance, dt) && entries[i].name == name
               && forall j :: 0 <= j < i ==> Passes(entries[j], tolerance, dt);
      FirstHitMatches(entries, tolerance, dt, name, i);
    }
  }

  lemma {:induction false} MatchedHasFirstHit(entries: seq<ScheduleEntry>, tolerance: int, dt: DateTime, name: string)
    requires ValidDateTime(dt) && MatchEntries(entries, tolerance, dt) == Matched(name)
    ensures exists i :: 0 <= i < |entries| && Hits(entries[i], tolerance, dt) && entries[i].name == name
                        && forall j :: 0 <= j < i ==> Passes(entries[j], tolerance, dt)
  {
    if !Hits(entries[0], tolerance, dt) {
      assert Passes(entries[0], tolerance, dt);
      MatchedHasFirstHit(entries[1..], tolerance, dt, name);
      var i :| 0 <= i < |entries| - 1 && Hits(entries[1..][i], tolerance, dt) && entries[1..][i].name == name
               && forall j :: 0 <= j < i ==> Passes(entries[1..][j], tolerance, dt);
      PassesShift(entries, tolerance, dt, i);
      assert entries[i + 1] == entries[1..][i];
    }
  }

  lemma {:induction false} FirstHitMatches(entries: seq<ScheduleEntry>, tolerance: int, dt: DateTime, name: string, i: int)
    requires ValidDateTime(dt)
    requires 0 <= i < |entries| && Hits(entries[i], tolerance, dt) && entries[i].name == name
    requires forall j :: 0 <= j < i ==> Passes(entries[j], tolerance, dt)
    ensures MatchEntries(entries, tolerance, dt) == Matched(name)
    decreases i
  {
    if i > 0 {
      assert Passes(entries[0], tolerance, dt);
      assert entries[1..][i - 1] == entries[i];
      assert forall j :: 0 <= j < i - 1 ==> entries[1..][j] == entries[j + 1];
      FirstHitMatches(entries[1..], tolerance, dt, name, i - 1);
    }
  }

  /** Entries `1..i` of `entries` pass once entries `0..i-1` of its tail do,
      and entry 0 does. */
  lemma PassesShift(entries: seq<ScheduleEntry>, tolerance: int, dt: DateTime, i: int)
    requires ValidDateTime(dt) && 0 <= i < |entries|
    requires Passes(entries[0], tolerance, dt)
    requires forall j :: 0 <= j < i ==> Passes(entries[1..][j], tolerance, dt)
    ensures forall j :: 0 <= j < i + 1 ==> Passes(entries[j], tolerance, dt)
  {
    forall j | 0 <= j < i + 1 ensures Passes(entries[j], tolerance, dt) {
      if j > 0 {
        assert entries[j] == entries[1..][j - 1];
      }
    }
  }

  /** No match exactly when every entry is readable and outside tolerance. */
  lemma {:induction false} NoMatchWhenAllPass(entries: seq<ScheduleEntry>, tolerance: int, dt: DateTime)
    requires ValidDateTime(dt)
    ensures MatchEntries(entries, tolerance, dt) == NoMatch <==>
            forall j :: 0 <= j < |entries| ==> Passes(entries[j], tolerance, dt)
  {
    if entries != [] {
      NoMatchWhenAllPass(entries[1..], tolerance, dt);
      if Passes(entries[0], tolerance, dt) {
        assert forall j :: 0 <= j < |entries| - 1 ==> entries[1..][j] == entries[j + 1];
      }
    }
  }

  /** The `ValueError`: raised for entry `i` exactly when its time is
      unreadable and every earlier entry was read and passed over. */
  lemma BadTimeIsFirstUnreadable(entries: seq<ScheduleEntry>, tolerance: int, dt: DateTime, time: string)
    requires ValidDateTime(dt)
    ensures MatchEntries(entries, tolerance, dt) == BadScheduleTime(time) <==>
            exists i :: 0 <= i < |entries| && ParseClockTime(entries[i].time) == None && entries[i].time == time
                        && forall j :: 0 <= j < i ==> Passes(entries[j], tolerance, dt)
  {
    if MatchEntries(entries, tolerance, dt) == BadScheduleTime(time) {
      BadTimeHasFirstUnreadable(entries, tolerance, dt, time);
    }
    if exists i :: 0 <= i < |entries| && ParseClockTime(entries[i].time) == None && entries[i].time == time
                   && forall j :: 0 <= j < i ==> Passes(entries[j], tolerance, dt) {
      var i :| 0 <= i < |entries| && ParseClockTime(entries[i].time) == None && entries[i].time == time
               && forall j :: 0 <= j < i ==> Passes(entries[j], tolerance, dt);
      FirstUnreadableFails(entries, tolerance, dt, time, i);
    }
  }

  lemma {:induction false} BadTimeHasFirstUnreadable(entries: seq<ScheduleEntry>, tolerance: int, dt: DateTime, time: string)
    requires ValidDateTime(dt) && MatchEntries(entries, tolerance, dt) == BadScheduleTime(time)
    ensures exists i :: 0 <= i < |entries| && ParseClockTime(entries[i].time) == None && entries[i].time == time
                        && forall j :: 0 <= j < i ==> Passes(entries[j], tolerance, dt)
  {
    if ParseClockTime(entries[0].time).Some? {
      assert Passes(entries[0], tolerance, dt);
      BadTimeHasFirstUnreadable(entries[1..], tolerance, dt, time);
      var i :| 0 <= i < |entries| - 1 && ParseClockTime(entries[1..][i].time) == None && entries[1..][i].time == time
               && forall j :: 0 <= j < i ==> Passes(entries[1..][j], tolerance, dt);
      PassesShift(entries, tolerance, dt, i);
      assert entries[i + 1] == entries[1..][i];
    }
  }

  lemma {:induction false} FirstUnreadableFails(entries: seq<ScheduleEntry>, tolerance: int, dt: DateTime, time: string, i: int)
    requires ValidDateTime(dt)
    requires 0 <= i < |entries| && ParseClockTime(entries[i].time) == None && entries[i].time == time
    requires forall j :: 0 <= j < i ==> Passes(entries[j], tolerance, dt)
    ensures MatchEntries(entries, tolerance, dt) == BadScheduleTime(time)
    decreases i
  {
    if i > 0 {
      assert Passes(entries[0], tolerance, dt);
      assert entries[1..][i - 1] == entries[i];
      assert forall j :: 0 <= j < i - 1 ==> entries[1..][j] == entries[j + 1];
      FirstUnreadableFails(entries[1..], tolerance, dt, time, i - 1);
    }
  }

  /** The schedule as shipped: Monday to Wednesday only. */
  const ShippedSchedule: WeeklySchedule := map[
    "Monday" := [ScheduleEntry("11:00am", "Scratch Senior 2s"), ScheduleEntry("5:00pm", "HTML CSS Senior 1s")],
    "Tuesday" := [ScheduleEntry("2:00pm", "Python Senior 2s"), ScheduleEntry("6:00pm", "Scratch Senior 2s")],
    "Wednesday" := [ScheduleEntry("3:00pm", "Scratch Senior 4s")]
  ]

  /** `TIME_TOLERANCE_MINUTES`. */
  const ShippedTolerance := 120
}
