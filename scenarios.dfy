/** Worked examples: the folder-name example in the source's comment, the
    calendar edge cases `strptime` rejects, the 12-hour schedule times, and
    the shipped schedule at and just past its tolerance boundary, and the
    plan for two recordings of one class listed out of order. */
module Scenarios {
  import opened Wrappers
  import opened Digits
  import opened DateTimes
  import opened FolderNames
  import opened Schedule
  import opened TimeSort
  import opened Planning

  lemma CommentStamp()
    ensures FormatStamp(DateTime(2025, 7, 22, 14, 48, 0)) == "2025-07-22 14.48.00"
  {
  }

  /** A name that is a formatted stamp followed by `suffix` parses to it. */
  lemma AcceptsStamp(name: string, stamp: string, suffix: string, dt: DateTime)
    requires ValidDateTime(dt) && stamp == FormatStamp(dt) && name == stamp + suffix
    ensures ParseFolderDateTime(name) == Some(dt)
  {
    FormatThenParse(dt, suffix);
  }

  /** A formatted stamp whose fields `datetime` refuses does not parse. */
  lemma RejectsStamp(name: string, dt: DateTime)
    requires FieldsFit(dt) && !ValidDateTime(dt) && name == FormatStamp(dt)
    ensures ParseFolderDateTime(name) == None
  {
    ParseOfFormatted(dt, "");
    assert FormatStamp(dt) + "" == name;
  }

  lemma CommentName()
    ensures "2025-07-22 14.48.00 your name' Zoom Meeting" == "2025-07-22 14.48.00" + " your name' Zoom Meeting"
  {
  }

  /** The name in the source's comment parses to 22 July 2025, 14:48:00. */
  lemma SourceCommentExample()
    ensures ParseFolderDateTime("2025-07-22 14.48.00 your name' Zoom Meeting") == Some(DateTime(2025, 7, 22, 14, 48, 0))
  {
    CommentStamp();
    CommentName();
    AcceptsStamp("2025-07-22 14.48.00 your name' Zoom Meeting", "2025-07-22 14.48.00", " your name' Zoom Meeting",
                 DateTime(2025, 7, 22, 14, 48, 0));
  }

  lemma MonthThirteenStamp()
    ensures FormatStamp(DateTime(2025, 13, 1, 10, 0, 0)) == "2025-13-01 10.00.00"
  {
  }

  lemma CommonLeapDayStamp()
    ensures FormatStamp(DateTime(2023, 2, 29, 10, 0, 0)) == "2023-02-29 10.00.00"
  {
  }

  lemma HourTwentyFourStamp()
    ensures FormatStamp(DateTime(2025, 7, 21, 24, 0, 0)) == "2025-07-21 24.00.00"
  {
  }

  lemma LeapSecondStamp()
    ensures FormatStamp(DateTime(2025, 7, 21, 10, 0, 60)) == "2025-07-21 10.00.60"
  {
  }

  lemma YearZeroStamp()
    ensures FormatStamp(DateTime(0, 1, 1, 0, 0, 0)) == "0000-01-01 00.00.00"
  {
  }

  /** Names of the right shape whose fields `datetime` refuses: month 13,
      29 February of a common year, hour 24, second 60, year 0. */
  lemma RejectedNames()
    ensures ParseFolderDateTime("2025-13-01 10.00.00") == None
    ensures ParseFolderDateTime("2023-02-29 10.00.00") == None
    ensures ParseFolderDateTime("2025-07-21 24.00.00") == None
    ensures ParseFolderDateTime("2025-07-21 10.00.60") == None
    ensures ParseFolderDateTime("0000-01-01 00.00.00") == None
  {
    MonthThirteenStamp();
    RejectsStamp("2025-13-01 10.00.00", DateTime(2025, 13, 1, 10, 0, 0));
    CommonLeapDayStamp();
    RejectsStamp("2023-02-29 10.00.00", DateTime(2023, 2, 29, 10, 0, 0));
    HourTwentyFourStamp();
    RejectsStamp("2025-07-21 24.00.00", DateTime(2025, 7, 21, 24, 0, 0));
    LeapSecondStamp();
    RejectsStamp("2025-07-21 10.00.60", DateTime(2025, 7, 21, 10, 0, 60));
    YearZeroStamp();
    RejectsStamp("0000-01-01 00.00.00", DateTime(0, 1, 1, 0, 0, 0));
  }

  lemma LeapDayStamp()
    ensures FormatStamp(DateTime(2024, 2, 29, 10, 0, 0)) == "2024-02-29 10.00.00"
  {
  }

  /** 29 February of a leap year is a real date. */
  lemma LeapDayAccepted()
    ensures ParseFolderDateTime("2024-02-29 10.00.00") == Some(DateTime(2024, 2, 29, 10, 0, 0))
  {
    LeapDayStamp();
    AcceptsStamp("2024-02-29 10.00.00", "2024-02-29 10.00.00", "", DateTime(2024, 2, 29, 10, 0, 0));
  }

  /** Names without the dotted prefix do not parse, colons included. */
  lemma UnrecognizedNames()
    ensures ParseFolderDateTime("randomfolder") == None
    ensures ParseFolderDateTime("2025-07-21 11:05:00' Meeting") == None
    ensures ParseFolderDateTime("Personal Meeting Room - John") == None
  {
    assert !HasStampShape("2025-07-21 11:05:00' Meeting") by {
      assert "2025-07-21 11:05:00' Meeting"[13] == ':';
    }
  }

  // ---- schedule times ----

  lemma ElevenAmText()
    ensures FormatClockTime(ClockTime(11, 0)) == "11:00am"
  {
  }

  lemma FivePmText()
    ensures FormatClockTime(ClockTime(17, 0)) == "5:00pm"
  {
  }

  lemma TwoPmText()
    ensures FormatClockTime(ClockTime(14, 0)) == "2:00pm"
  {
  }

  lemma SixPmText()
    ensures FormatClockTime(ClockTime(18, 0)) == "6:00pm"
  {
  }

  lemma NoonText()
    ensures FormatClockTime(ClockTime(12, 0)) == "12:00pm"
  {
  }

  /** The shipped schedule's times, and noon, read as 24-hour clock times. */
  lemma ShippedTimesRead()
    ensures ParseClockTime("11:00am") == Some(ClockTime(11, 0))
    ensures ParseClockTime("5:00pm") == Some(ClockTime(17, 0))
    ensures ParseClockTime("2:00pm") == Some(ClockTime(14, 0))
    ensures ParseClockTime("6:00pm") == Some(ClockTime(18, 0))
    ensures ParseClockTime("12:00pm") == Some(ClockTime(12, 0))
  {
    ElevenAmText();
    FormatThenParseClockTime(ClockTime(11, 0));
    FivePmText();
    FormatThenParseClockTime(ClockTime(17, 0));
    TwoPmText();
    FormatThenParseClockTime(ClockTime(14, 0));
    SixPmText();
    FormatThenParseClockTime(ClockTime(18, 0));
    NoonText();
    FormatThenParseClockTime(ClockTime(12, 0));
  }

  /** Twelve midnight is hour 0, and the meridiem may be upper case. */
  lemma MidnightHourIsZero()
    ensures ParseClockTime("12:30AM") == Some(ClockTime(0, 30))
  {
    var s := "12:30AM";
    assert s[1] != ':' && s[2] == ':';
    assert s[..2] == "12" && s[3..5] == "30";
    assert DigitsValue("12") == 12 && DigitsValue("30") == 30;
    assert [Lower(s[5]), Lower(s[6])] == "am";
  }

  /** `%I` stops at 12, and a time without `am`/`pm` does not read. */
  lemma MalformedTimes()
    ensures ParseClockTime("13:00pm") == None
    ensures ParseClockTime("11:00") == None
  {
    var s := "13:00pm";
    assert s[1] != ':' && s[2] == ':';
    assert s[..2] == "13";
    assert DigitsValue("13") == 13;
  }

  // ---- the shipped schedule ----

  lemma July21IsMonday()
    ensures WeekdayName(DateTime(2025, 7, 21, 11, 5, 0)) == "Monday"
    ensures WeekdayName(DateTime(2025, 7, 21, 14, 0, 0)) == "Monday"
  {
  }

  lemma July22IsTuesday()
    ensures WeekdayName(DateTime(2025, 7, 22, 16, 0, 0)) == "Tuesday"
    ensures WeekdayName(DateTime(2025, 7, 22, 11, 59, 59)) == "Tuesday"
  {
  }

  lemma July24IsThursday()
    ensures WeekdayName(DateTime(2025, 7, 24, 11, 0, 0)) == "Thursday"
  {
  }

  /** Five minutes after Monday's 11:00am class is that class. */
  lemma MondayMorningRecording()
    ensures MatchSession(ShippedSchedule, ShippedTolerance, DateTime(2025, 7, 21, 11, 5, 0)) == Matched("Scratch Senior 2s")
  {
    July21IsMonday();
    ShippedTimesRead();
  }

  /** Exactly two hours after Tuesday's 2:00pm class still matches it, and
      the earlier entry wins over the 6:00pm class that is also in reach. */
  lemma TuesdayToleranceBoundary()
    ensures MatchSession(ShippedSchedule, ShippedTolerance, DateTime(2025, 7, 22, 16, 0, 0)) == Matched("Python Senior 2s")
  {
    July22IsTuesday();
    ShippedTimesRead();
  }

  /** One second more than two hours before the 2:00pm class matches nothing. */
  lemma TuesdayJustOutsideTolerance()
    ensures MatchSession(ShippedSchedule, ShippedTolerance, DateTime(2025, 7, 22, 11, 59, 59)) == NoMatch
  {
    July22IsTuesday();
    ShippedTimesRead();
  }

  /** Three hours from both Monday classes matches neither. */
  lemma MondayBetweenClasses()
    ensures MatchSession(ShippedSchedule, ShippedTolerance, DateTime(2025, 7, 21, 14, 0, 0)) == NoMatch
  {
    July21IsMonday();
    ShippedTimesRead();
  }

  /** A day without classes matches nothing. */
  lemma ThursdayHasNoClasses()
    ensures MatchSession(ShippedSchedule, ShippedTolerance, DateTime(2025, 7, 24, 11, 0, 0)) == NoMatch
  {
    July24IsThursday();
  }

  // ---- a plan ----

  const LateRecording := Candidate(DateTime(2025, 7, 21, 11, 30, 0), "Scratch Senior 2s", "late")
  const EarlyRecording := Candidate(DateTime(2025, 7, 21, 11, 5, 0), "Scratch Senior 2s", "early")
  const MondayKey := GroupKey("Scratch Senior 2s", "2025-07-21")

  lemma RecordingKeys()
    ensures KeyOf(LateRecording) == MondayKey && KeyOf(EarlyRecording) == MondayKey
  {
  }

  lemma SortPutsEarlierFirst()
    ensures SortByTime([LateRecording, EarlyRecording]) == [EarlyRecording, LateRecording]
  {
    assert [LateRecording, EarlyRecording][..1] == [LateRecording];
    assert SortByTime([LateRecording]) == [LateRecording];
  }

  lemma OneMondayGroup()
    ensures FirstKeys([EarlyRecording, LateRecording]) == [MondayKey]
    ensures Group([EarlyRecording, LateRecording], MondayKey) == [EarlyRecording, LateRecording]
  {
    OneMondayKey();
    MondayGroupHoldsBoth();
  }

  lemma OneMondayKey()
    ensures FirstKeys([EarlyRecording, LateRecording]) == [MondayKey]
  {
    RecordingKeys();
    PairHasOneKey(EarlyRecording, LateRecording, MondayKey);
  }

  lemma MondayGroupHoldsBoth()
    ensures Group([EarlyRecording, LateRecording], MondayKey) == [EarlyRecording, LateRecording]
  {
    RecordingKeys();
    PairIsOneGroup(EarlyRecording, LateRecording, MondayKey);
  }

  /** Two recordings with one key give one group key ... */
  lemma PairHasOneKey(a: Candidate, b: Candidate, k: GroupKey)
    requires KeyOf(a) == k && KeyOf(b) == k
    ensures FirstKeys([a, b]) == [k]
  {
    assert [a, b][..1] == [a];
    assert [a][..0] == [];
    assert FirstKeys([a]) == [k];
  }

  /** ... whose group holds both, in listing order. */
  lemma PairIsOneGroup(a: Candidate, b: Candidate, k: GroupKey)
    requires KeyOf(a) == k && KeyOf(b) == k
    ensures Group([a, b], k) == [a, b]
  {
    assert [a, b][..1] == [a];
    assert [a][..0] == [];
    assert Group([a], k) == [a];
  }

  lemma MondayParts()
    ensures Number([EarlyRecording, LateRecording], MondayKey)
            == [PlanEntry("early", DateTime(2025, 7, 21, 11, 5, 0), "Scratch Senior 2s", "2025-07-21", 1),
                PlanEntry("late", DateTime(2025, 7, 21, 11, 30, 0), "Scratch Senior 2s", "2025-07-21", 2)]
  {
  }

  /** Two recordings of one class on one day, listed later one first: the
      earlier becomes Part 1, the later Part 2. */
  lemma OutOfOrderListingPlan()
    ensures BuildPlan([LateRecording, EarlyRecording])
            == [PlanEntry("early", DateTime(2025, 7, 21, 11, 5, 0), "Scratch Senior 2s", "2025-07-21", 1),
                PlanEntry("late", DateTime(2025, 7, 21, 11, 30, 0), "Scratch Senior 2s", "2025-07-21", 2)]
  {
    SortPutsEarlierFirst();
    OneMondayGroup();
    MondayParts();
    var s := [EarlyRecording, LateRecording];
    assert [MondayKey][..0] == [];
    assert PlanOf([MondayKey], s) == Number(s, MondayKey);
  }
}
