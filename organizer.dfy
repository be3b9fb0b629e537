/** `organize`: scan the listing, sort, group and number, as the source does
    it step by step, proved equal to the plan `Planning` specifies; and the
    destination each entry is filed under. */
module Organizer {
  import opened Wrappers
  import opened Digits
  import opened DateTimes
  import opened FolderNames
  import opened Schedule
  import opened TimeSort
  import opened Planning

  /** How a run ends: the recordings folder is missing, a schedule time
      could not be read (an uncaught `ValueError`, before anything moves),
      or a filing plan. */
  datatype Outcome = SourceMissing | ScheduleError(time: string) | Planned(plan: seq<PlanEntry>)

  /** What a run does, given the directory listing (`None` when the
      recordings folder does not exist), the schedule and the tolerance. */
  function OrganizeSpec(listing: Option<seq<Folder>>, schedule: WeeklySchedule, tolerance: int): Outcome {
    match listing
    case None => SourceMissing
    case Some(fs) =>
      match Scan(schedule, tolerance, fs)
      case Err(t) => ScheduleError(t)
      case Ok(cs) => Planned(BuildPlan(cs))
  }

  /** `DEST_ROOT / session / date_str / f"Part {i}"`, as path components. */
  function Destination(root: seq<string>, e: PlanEntry): (path: seq<string>)
    ensures |path| == |root| + 3 && path[..|root|] == root
  {
    root + [e.session, e.date, "Part " + Decimal(e.part)]
  }

  /** The body of `organize` up to the moves: scan, sort, group, number. */
  method Organize(listing: Option<seq<Folder>>, schedule: WeeklySchedule, tolerance: int) returns (outcome: Outcome)
    ensures outcome == OrganizeSpec(listing, schedule, tolerance)
  {
    if listing.None? {
      return SourceMissing;
    }
    var scanned := CollectSessionFolders(listing.value, schedule, tolerance);
    if scanned.Err? {
      return ScheduleError(scanned.error);
    }
    var sessionFolders := scanned.value;
    sessionFolders := SortByTime(sessionFolders);
    var grouped, order := GroupByKey(sessionFolders);
    var plan := NumberParts(sessionFolders, grouped, order);
    return Planned(plan);
  }

  /** The loop over `iterdir()` that appends `(dt, session, folder)` to
      `session_folders`; it ends early when a schedule time is unreadable. */
  method CollectSessionFolders(folders: seq<Folder>, schedule: WeeklySchedule, tolerance: int)
    returns (r: Result<seq<Candidate>, string>)
    ensures r == Scan(schedule, tolerance, folders)
  {
    var sessionFolders: seq<Candidate> := [];
    for i := 0 to |folders|
      invariant Scan(schedule, tolerance, folders[..i]) == Ok(sessionFolders)
    {
      var folder := folders[i];
      assert folders[..i + 1][..i] == folders[..i];
      if !folder.isDir {
        continue;
      }
      if Contains(folder.name, PersonalRoomMarker) {
        continue;
      }
      var dt := ParseFolderDateTime(folder.name);
      if dt.None? {
        continue;
      }
      var session := MatchSession(schedule, tolerance, dt.value);
      if session.BadScheduleTime? {
        ScanErrorPersists(schedule, tolerance, folders, i + 1, session.time);
        return Err(session.time);
      }
      if session.NoMatch? || session.name == "" {
        continue;
      }
      sessionFolders := sessionFolders + [Candidate(dt.value, session.name, folder.name)];
    }
    assert folders[..|folders|] == folders;
    return Ok(sessionFolders);
  }

  /** The loop `grouped.setdefault(key, []).append(...)`; `order` is the
      dict's insertion order. */
  method GroupByKey(sessionFolders: seq<Candidate>)
    returns (grouped: map<GroupKey, seq<Candidate>>, order: seq<GroupKey>)
    ensures order == FirstKeys(sessionFolders)
    ensures forall k :: k in grouped <==> k in order
    ensures forall k | k in grouped :: grouped[k] == Group(sessionFolders, k)
  {
    grouped, order := map[], [];
    for j := 0 to |sessionFolders|
      invariant order == FirstKeys(sessionFolders[..j])
      invariant forall k :: k in grouped <==> k in order
      invariant forall k | k in grouped :: grouped[k] == Group(sessionFolders[..j], k)
    {
      var c := sessionFolders[j];
      var key := GroupKey(c.session, DateString(c.dt));
      assert sessionFolders[..j + 1][..j] == sessionFolders[..j];
      if key !in grouped {
        FirstKeysAreGroupKeys(sessionFolders[..j], key);
        order := order + [key];
        grouped := grouped[key := []];
      }
      grouped := grouped[key := grouped[key] + [c]];
    }
    assert sessionFolders[..|sessionFolders|] == sessionFolders;
  }

  /** The nested loops over `grouped.items()` and `enumerate(items, start=1)`. */
  method NumberParts(sessionFolders: seq<Candidate>, grouped: map<GroupKey, seq<Candidate>>, order: seq<GroupKey>)
    returns (plan: seq<PlanEntry>)
    requires forall k | k in order :: k in grouped && grouped[k] == Group(sessionFolders, k)
    ensures plan == PlanOf(order, sessionFolders)
  {
    plan := [];
    for g := 0 to |order|
      invariant plan == PlanOf(order[..g], sessionFolders)
    {
      var key := order[g];
      var items := grouped[key];
      for p := 0 to |items|
        invariant plan == PlanOf(order[..g], sessionFolders) + Number(items[..p], key)
      {
        var entry := PlanEntry(items[p].name, items[p].dt, key.session, key.date, p + 1);
        assert Number(items[..p + 1], key) == Number(items[..p], key) + [entry];
        plan := plan + [entry];
      }
      assert items[..|items|] == items;
      assert order[..g + 1][..g] == order[..g];
    }
    assert order[..|order|] == order;
  }

  // ---- what a run promises, stated over the listing ----

  /** Every folder that is a directory, lacks the personal-room marker,
      parses and matches a named session is filed exactly once, under its
      own time and session; every other folder is left out. */
  lemma RunFilesEachSurvivorOnce(fs: seq<Folder>, schedule: WeeklySchedule, tolerance: int)
    requires OrganizeSpec(Some(fs), schedule, tolerance).Planned?
    ensures multiset(Recovered(OrganizeSpec(Some(fs), schedule, tolerance).plan)) == multiset(Recordings(schedule, tolerance, fs))
  {
    ScanKeepsSurvivors(schedule, tolerance, fs);
    PlanFilesEachRecordingOnce(Scan(schedule, tolerance, fs).value);
  }

  /** A run stops with a schedule error exactly when the first faulty
      folder of the listing reads that unparseable schedule time. */
  lemma RunStopsAtFirstFault(fs: seq<Folder>, schedule: WeeklySchedule, tolerance: int, time: string)
    ensures OrganizeSpec(Some(fs), schedule, tolerance) == ScheduleError(time) <==>
            exists i :: IsFirstFault(schedule, tolerance, fs, i, time)
  {
    ScanFailsAtFirstFault(schedule, tolerance, fs, time);
  }

  /** In a run's plan, each `(session, date)` group holds that key's
      surviving recordings with parts 1..N in ascending time order. */
  lemma RunNumbersGroupsChronologically(fs: seq<Folder>, schedule: WeeklySchedule, tolerance: int, k: GroupKey)
    requires OrganizeSpec(Some(fs), schedule, tolerance).Planned?
    ensures var g := EntriesFor(OrganizeSpec(Some(fs), schedule, tolerance).plan, k);
            && |g| == |Group(Recordings(schedule, tolerance, fs), k)|
            && (forall p | 0 <= p < |g| :: g[p].part == p + 1)
            && (forall p, q | 0 <= p < q < |g| :: !Earlier(g[q].time, g[p].time))
  {
    ScanKeepsSurvivors(schedule, tolerance, fs);
    PartsAreContiguousAndChronological(Scan(schedule, tolerance, fs).value, k);
  }

  /** No two entries of a plan share a destination, so no two folders are
      filed into the same `Part` folder. */
  lemma DestinationsAreDistinct(cs: seq<Candidate>, root: seq<string>, i: nat, j: nat)
    requires i < |BuildPlan(cs)| && j < |BuildPlan(cs)| && i != j
    ensures Destination(root, BuildPlan(cs)[i]) != Destination(root, BuildPlan(cs)[j])
  {
    var plan := BuildPlan(cs);
    var a, b := plan[i], plan[j];
    if Destination(root, a) == Destination(root, b) {
      assert Destination(root, a)[|root|] == a.session && Destination(root, b)[|root|] == b.session;
      assert Destination(root, a)[|root| + 1] == a.date && Destination(root, b)[|root| + 1] == b.date;
      var pa, pb := "Part " + Decimal(a.part), "Part " + Decimal(b.part);
      assert Destination(root, a)[|root| + 2] == pa && Destination(root, b)[|root| + 2] == pb;
      assert pa[5..] == Decimal(a.part) && pb[5..] == Decimal(b.part);
      DecimalInjective(a.part, b.part);
      PartsDistinctWithinGroup(cs, i, j);
    }
  }
}
