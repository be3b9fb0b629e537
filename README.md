# Zoom recordings organiser — a verified model

`organaize_zoom_recordings.py` tidies the folders Zoom writes for recorded
meetings. Each folder name starts with a timestamp such as
`2025-07-22 14.48.00`. The script:

1. reads that timestamp;
2. looks up the weekday in a weekly class schedule;
3. takes the first class whose 12-hour start time (`"11:00am"`) lies within
   `TIME_TOLERANCE_MINUTES` (120) of the recording's time;
4. sorts the matched recordings by time and groups them by `(class, date)`;
5. files the N recordings of each group as `Part 1` … `Part N` under
   `DEST_ROOT/<class>/<date>/`.

This project models that logic in Dafny and proves what it promises. Ordinary
inputs and failures are both modelled. A folder that is not a directory, carries
the personal-room marker, has an unreadable name or matches no class is skipped.
A malformed schedule time raises a `ValueError` that nothing catches, so the
run stops before any folder is moved.

Modules, one file each:

- `Wrappers` (`wrappers.dfy`): `Option` and `Result`.
- `Digits` (`digits.dfy`): decimal digit strings, zero-padding and reading
  them back. This is what `strptime`'s numeric fields and `strftime`'s
  `%Y`/`%m`/`%d` do.
- `DateTimes` (`datetimes.dfy`): a `DateTime` value and the rules `datetime`
  applies to it:
  - validity: leap years, month lengths, years 1..9999;
  - the day number and weekday (`toordinal`, `weekday`, `%A`);
  - the order that `list.sort` compares by.
- `FolderNames` (`folder_names.dfy`): `parse_folder_datetime`, meaning the
  regular expression `(\d{4}-\d{2}-\d{2}) (\d{2})\.(\d{2})\.(\d{2})` matched
  at the start of the name, then `strptime`'s range checks. Also
  `"Personal Meeting Room" in name`.
- `Schedule` (`schedule.dfy`): `strptime(t, "%I:%M%p")`, the tolerance test
  and `match_session`, plus the schedule and tolerance as shipped.
- `TimeSort` (`time_sort.dfy`): the stable sort by timestamp. The model is an
  insertion sort, proved equal to every stable sort.
- `Planning` (`planning.dfy`): the specification of `organize` up to the
  moves:
  - the scanning loop (`Scan`);
  - grouping in dict insertion order (`FirstKeys`, `Group`);
  - numbering (`Number`, `BuildPlan`).
  All theorems about the plan sit here.
- `Organizer` (`organizer.dfy`): `organize` as the script runs it, step by
  step, with loops over the listing, the `grouped` dict (a `map` plus its
  insertion order) and `enumerate(items, start=1)`. It is proved equal to the
  `Planning` specification. Also the destination path of each entry.
- `Scenarios` (`scenarios.dfy`): worked examples checked by the verifier:
  - the folder name in the source's comment;
  - names that `strptime` rejects;
  - the shipped schedule at and just past the two-hour boundary;
  - two recordings listed out of order.

Two behaviours of the code, stated plainly:

- A name whose time uses colons, such as `2025-07-21 11:05:00' Meeting`, does
  not match the pattern and is skipped (`Scenarios.UnrecognizedNames`). The
  dotted form is matched (`Scenarios.MondayMorningRecording`).
- Session names and dates go into the path unchanged, and folders are always
  moved.

## Model

| member | source | states |
|---|---|---|
| Digits.PadThenRead | organaize_zoom_recordings.py:45-47 | reading back the digits of a number zero-padded to a width it fits in yields that number (a field written into the name is read back by `strptime`) |
| Digits.ReadThenPad | organaize_zoom_recordings.py:42-47 | every digit string is the zero-padded form of its own value, so a matched `\d{2}` group and the number it denotes carry the same information |
| DateTimes.DaysInMonth | organaize_zoom_recordings.py:47 | every month has 28..31 days, and 29 exactly for February of a leap year: the day check `datetime` applies |
| DateTimes.EarlierIsStrictTotalOrder | organaize_zoom_recordings.py:90 | the timestamp order the sort compares by is irreflexive, asymmetric, transitive and total |
| DateTimes.OrdinalOfNextDate | organaize_zoom_recordings.py:52 | consecutive calendar days, across month and year ends, have consecutive day numbers |
| DateTimes.WeekdayOfNextDate | organaize_zoom_recordings.py:52 | the weekday `%A` names advances by one, cyclically, from each day to the next |
| DateTimes.WeekdayName | organaize_zoom_recordings.py:52 | the name is one of the seven English weekday names; characterised by `DateTimes.WeekdayOfNextDate` and `DateTimes.FirstDayIsMonday` |
| DateTimes.FirstDayIsMonday | organaize_zoom_recordings.py:52 | 0001-01-01 is a Monday, which with the previous row pins the weekday of every date |
| FolderNames.ParseFolderDateTime | organaize_zoom_recordings.py:40-49 | a parsed timestamp is always a valid date-time, and a name without the dotted timestamp prefix gives `None` |
| FolderNames.FormatThenParse | organaize_zoom_recordings.py:40-49 | every valid date-time written as `YYYY-MM-DD HH.MM.SS`, followed by any text, parses back to itself |
| FolderNames.ParseOfFormatted | organaize_zoom_recordings.py:46-49 | a timestamp written in the folder format parses to itself when it is a valid date-time and to `None` otherwise (the `except` branch for month 13, 30 February, hour 24, second 60, year 0) |
| FolderNames.ParseThenFormat | organaize_zoom_recordings.py:42-47 | conversely, a name that parses is exactly its timestamp written back in the folder format followed by the rest of the name |
| FolderNames.DateString | organaize_zoom_recordings.py:95 | the date folder name is ten characters long; characterised by `FolderNames.FormatThenParse` and `Planning.PlanDatesMatchTimes` |
| FolderNames.ParseIgnoresSuffix | organaize_zoom_recordings.py:42 | `re.match` anchors only at the start: what follows the 19-character prefix never changes the result |
| FolderNames.Contains | organaize_zoom_recordings.py:77 | no contract; characterised by `FolderNames.ContainsOccurrence` |
| FolderNames.ContainsOccurrence | organaize_zoom_recordings.py:77 | `sub in s` holds exactly when `sub` occurs at some position of `s` |
| Schedule.ParseClockTime | organaize_zoom_recordings.py:56 | a time that reads has hour below 24 and minute below 60; characterised by `Schedule.FormatThenParseClockTime` and the clock scenarios |
| Schedule.FormatThenParseClockTime | organaize_zoom_recordings.py:56 | every time of day has a 12-hour `%I:%M%p` spelling that reads back as itself (12am is hour 0, 12pm is hour 12) |
| Schedule.WithinTolerance | organaize_zoom_recordings.py:57-61 | no contract; characterised by `Schedule.MatchedIsFirstHit` and the boundary scenarios `Scenarios.TuesdayToleranceBoundary` and `Scenarios.TuesdayJustOutsideTolerance` |
| Schedule.MatchEntries | organaize_zoom_recordings.py:55-63 | no contract; characterised by `Schedule.MatchedIsFirstHit`, `Schedule.NoMatchWhenAllPass` and `Schedule.BadTimeIsFirstUnreadable` |
| Schedule.MatchSession | organaize_zoom_recordings.py:51-54 | a weekday missing from the schedule gives no match |
| Schedule.MatchedIsFirstHit | organaize_zoom_recordings.py:55-62 | the session named is exactly that of the first entry within tolerance, every earlier entry having been read and found outside it (both directions) |
| Schedule.NoMatchWhenAllPass | organaize_zoom_recordings.py:55-63 | no match exactly when every entry of the day is readable and outside tolerance |
| Schedule.BadTimeIsFirstUnreadable | organaize_zoom_recordings.py:55-56 | the `ValueError` comes from entry `i` exactly when its time is unreadable and every earlier entry was read and passed over; an unreadable entry after a match is never read |
| TimeSort.SortByTime | organaize_zoom_recordings.py:90 | the result is sorted by timestamp and is a permutation of the input |
| TimeSort.SortByTimeIsStable | organaize_zoom_recordings.py:90 | recordings with equal timestamps keep their listing order |
| TimeSort.StableSortIsUnique | organaize_zoom_recordings.py:90 | any sorted, stable rearrangement equals `SortByTime`, so the model is `list.sort` and not just some sort |
| Planning.Classify | organaize_zoom_recordings.py:75-87 | no contract; characterised by `Planning.ClassifyMeaning` and `Planning.ClassifyFault` |
| Planning.ClassifyFault | organaize_zoom_recordings.py:75-83 | one pass of the loop raises the schedule error exactly when the folder is a directory without the marker whose name parses and whose lookup reads a malformed time |
| Planning.Scan | organaize_zoom_recordings.py:72-87 | no contract; characterised by `Planning.ScanKeepsSurvivors`, `Planning.ScanFailsAtFirstFault`, `Planning.ScanFaultFree`, `Planning.ScanOkWhenFaultFree` and `Planning.ScanErrorPersists` |
| Planning.ClassifyMeaning | organaize_zoom_recordings.py:74-87 | one pass of the loop keeps a folder exactly when it is a directory, lacks the marker, parses and matches a non-empty session, and fails exactly when its lookup reads a malformed time |
| Planning.ScanKeepsSurvivors | organaize_zoom_recordings.py:72-87 | a scan without error yields exactly the surviving folders' recordings, in listing order |
| Planning.ScanFailsAtFirstFault | organaize_zoom_recordings.py:79-87 | the scan fails with a given schedule time exactly when the first faulty folder of the listing reads that time (both directions) |
| Planning.ScanFaultFree | organaize_zoom_recordings.py:72-87 | a scan that succeeds met no faulty folder |
| Planning.ScanOkWhenFaultFree | organaize_zoom_recordings.py:72-87 | a listing without faulty folders scans without error |
| Planning.ScanErrorPersists | organaize_zoom_recordings.py:83 | once a prefix of the listing has failed, the whole scan fails with the same time, since nothing after it runs |
| Planning.Group | organaize_zoom_recordings.py:93-96 | `grouped[key]` holds only elements of the input with that key |
| Planning.GroupCount | organaize_zoom_recordings.py:93-96 | `grouped[key]` holds every element with that key as often as the input does, and nothing else |
| Planning.FirstKeys | organaize_zoom_recordings.py:93-98 | no contract; characterised by `Planning.FirstKeysDistinct` and `Planning.FirstKeysAreGroupKeys` |
| Planning.FirstKeysAreGroupKeys | organaize_zoom_recordings.py:93-96 | a key is in the dict exactly when its group is non-empty |
| Planning.FirstKeysDistinct | organaize_zoom_recordings.py:93-98 | the dict's keys, in insertion order, are distinct |
| Planning.GroupSorted | organaize_zoom_recordings.py:90-96 | each group of time-sorted recordings is itself time-sorted |
| Planning.BuildPlan | organaize_zoom_recordings.py:89-101 | no contract; characterised by `Planning.PlanGroups`, `Planning.PartsAreContiguousAndChronological` and `Planning.PlanFilesEachRecordingOnce` |
| Planning.PlanGroups | organaize_zoom_recordings.py:98-101 | the plan's entries for a key are that key's group of sorted recordings, numbered from 1 |
| Planning.PartsAreContiguousAndChronological | organaize_zoom_recordings.py:89-101 | within each `(session, date)` group the parts are exactly 1..N in ascending time order, N being the number of recordings with that key |
| Planning.PlanFilesEachRecordingOnce | organaize_zoom_recordings.py:92-101 | every recording handed to the planner is filed exactly once, and nothing else is |
| Planning.PlanOrderWithinGroup | organaize_zoom_recordings.py:98-101 | of two entries of one group, the one earlier in the plan has the smaller part and is not the later recording |
| Planning.EarlierRecordingGetsLowerPart | organaize_zoom_recordings.py:89-101 | whatever order the folders were listed in, of two recordings of one group the earlier one gets the lower part |
| Planning.PartsDistinctWithinGroup | organaize_zoom_recordings.py:100-101 | two entries of one group never share a part number |
| Planning.PlanDatesMatchTimes | organaize_zoom_recordings.py:95-99 | each entry's date folder is its own recording's date |
| Organizer.OrganizeSpec | organaize_zoom_recordings.py:67-101 | no contract; characterised by `Organizer.Organize`, `Organizer.RunFilesEachSurvivorOnce`, `Organizer.RunStopsAtFirstFault` and `Organizer.RunNumbersGroupsChronologically` |
| Organizer.Organize | organaize_zoom_recordings.py:67-101 | the step-by-step run returns exactly the specified outcome: source missing, schedule error, or the plan of `BuildPlan` |
| Organizer.CollectSessionFolders | organaize_zoom_recordings.py:72-87 | the loop over the listing computes exactly `Scan`, stopping at the first malformed schedule time |
| Organizer.GroupByKey | organaize_zoom_recordings.py:92-96 | the `setdefault(...).append` loop yields exactly the groups, and its insertion order is each key where it first occurs |
| Organizer.NumberParts | organaize_zoom_recordings.py:98-101 | the nested `enumerate(..., start=1)` loops produce exactly the numbered groups in dict order |
| Organizer.Destination | organaize_zoom_recordings.py:99-101 | the destination is the root extended by exactly three components; `Organizer.DestinationsAreDistinct` proves no two plan entries share one |
| Organizer.RunFilesEachSurvivorOnce | organaize_zoom_recordings.py:72-101 | a run files each surviving folder exactly once under its own time and session, and no other folder |
| Organizer.RunStopsAtFirstFault | organaize_zoom_recordings.py:56-87 | a run stops with a schedule error exactly when the first faulty folder reads that unparseable time |
| Organizer.RunNumbersGroupsChronologically | organaize_zoom_recordings.py:89-101 | in a run's plan each `(session, date)` group holds all of that key's survivors as parts 1..N in ascending time |
| Organizer.DestinationsAreDistinct | organaize_zoom_recordings.py:99-101 | no two entries of a plan share a destination |
| Scenarios.SourceCommentExample | organaize_zoom_recordings.py:41 | the name in the source's comment parses to 2025-07-22 14:48:00 |
| Scenarios.RejectedNames | organaize_zoom_recordings.py:46-49 | month 13, 29 February 2023, hour 24, second 60 and year 0000 are refused |
| Scenarios.LeapDayAccepted | organaize_zoom_recordings.py:46-47 | 29 February 2024 is accepted |
| Scenarios.UnrecognizedNames | organaize_zoom_recordings.py:42-44 | names without the dotted timestamp, including the colon form, do not parse |
| Scenarios.ShippedTimesRead | organaize_zoom_recordings.py:12-24 | the shipped schedule's times read as 11:00, 17:00, 14:00 and 18:00, and 12:00pm as noon |
| Scenarios.MidnightHourIsZero | organaize_zoom_recordings.py:56 | `12:30AM` reads as 00:30; the meridiem is case-insensitive |
| Scenarios.MalformedTimes | organaize_zoom_recordings.py:56 | `13:00pm` and a time without `am`/`pm` do not read |
| Scenarios.MondayMorningRecording | organaize_zoom_recordings.py:51-62 | Monday 2025-07-21 11:05 matches "Scratch Senior 2s" |
| Scenarios.TuesdayToleranceBoundary | organaize_zoom_recordings.py:55-62 | exactly 120 minutes after the 2:00pm class still matches it, and the earlier entry wins over the 6:00pm class also in reach |
| Scenarios.TuesdayJustOutsideTolerance | organaize_zoom_recordings.py:55-63 | one second beyond 120 minutes matches nothing |
| Scenarios.ThursdayHasNoClasses | organaize_zoom_recordings.py:52-54 | a day missing from the schedule matches nothing |
| Scenarios.OutOfOrderListingPlan | organaize_zoom_recordings.py:89-101 | two recordings of one class on one day, listed later one first, become Part 1 (earlier) and Part 2 (later) |

## Left out

- Filesystem effects are not modelled; the model stops at the plan:
  - the existence check of the recordings folder becomes an `Option` listing;
  - `iterdir`, `is_dir`, `mkdir` and `shutil.move` (lines 74-75, 105-106) are not modelled;
  - the order `iterdir` lists entries in is an input.
- Moving into an existing `Part i` directory is not modelled. `shutil.move` to an existing directory puts the folder inside it, so the final path is `…/Part i/<folder name>`. `Organizer.Destination` is the `dest` the script prints and creates.
- Printed messages and the `--dry-run` branch are left out (lines 69, 81, 85, 102-107). The same plan is computed either way; the branch only chooses between printing and moving.
- Command-line parsing, `__main__` and `Path.home()` are left out (lines 36-37, 110-114). They are configuration and I/O.
- Floating point: `abs(total_seconds) / 60 <= TIME_TOLERANCE_MINUTES` is modelled as the exact integer test `|seconds| <= tolerance * 60`. With whole seconds and a whole-minute tolerance the two agree.
- Locale: `%A` is modelled with the English weekday names, which the schedule's keys assume.
- Unicode digits: `\d` in Python also matches non-ASCII decimal digits. The model accepts ASCII digits only.
- FolderNames.DateString: pads `%Y` to four digits. For years below 1000 glibc's `strftime` does not pad, so the date folder for such a year would differ.
- Organizer.Destination: a session name containing `/` would add path levels; the model keeps it as one path component.
- Microseconds are not modelled. A parsed folder time has none, and `dt.replace` keeps them at zero.
