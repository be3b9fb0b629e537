/** The planning half of `organize`: which folders are kept, how the kept
    recordings are grouped by `(session, date)`, and which part number each
    one gets. These functions are the specification the imperative
    `Organizer.Organize` is proved against. */
module Planning {
  import opened Wrappers
  import opened DateTimes
  import opened FolderNames
  import opened Schedule
  import opened TimeSort

  /** One entry of the recordings directory listing. */
  datatype Folder = Folder(name: string, isDir: bool)

  const PersonalRoomMarker := "Personal Meeting Room"

  /** What the scanning loop does with one folder. */
  datatype Verdict =
    | NotADirectory
    | PersonalRoom
    | Unrecognized
    | NoSession
    | Kept(candidate: Candidate)
    | ScheduleFault(time: string)

  /** One pass of the scanning loop, checks in the source's order: not a
      directory, the personal-room marker, an unparseable name, no session
      (`not session` also drops an empty session name). */
  function Classify(schedule: WeeklySchedule, tolerance: int, f: Folder): Verdict {
    if !f.isDir then NotADirectory
    else if Contains(f.name, PersonalRoomMarker) then PersonalRoom
    else match ParseFolderDateTime(f.name)
      case None => Unrecognized
      case Some(dt) =>
        match MatchSession(schedule, tolerance, dt)
        case BadScheduleTime(t) => ScheduleFault(t)
        case NoMatch => NoSession
        case Matched(n) => if n == "" then NoSession else Kept(Candidate(dt, n, f.name))
  }

  /** The scanning loop: `session_folders` after the listing, or the time
      text of the schedule entry whose `ValueError` ended the run. */
  function Scan(schedule: WeeklySchedule, tolerance: int, fs: seq<Folder>): Result<seq<Candidate>, string> {
    if fs == [] then Ok([])
    else match Scan(schedule, tolerance, fs[..|fs| - 1])
      case Err(t) => Err(t)
      case Ok(cs) =>
        match Classify(schedule, tolerance, fs[|fs| - 1])
        case ScheduleFault(t) => Err(t)
        case Kept(c) => Ok(cs + [c])
        case _ => Ok(cs)
  }

  /** A folder that ends up in the plan: a directory without the marker in
      its name, whose name parses, and whose time matches a named session. */
  ghost predicate Survives(schedule: WeeklySchedule, tolerance: int, f: Folder) {
    && f.isDir
    && !(exists i :: OccursAt(f.name, PersonalRoomMarker, i))
    && ParseFolderDateTime(f.name).Some?
    && var m := MatchSession(schedule, tolerance, ParseFolderDateTime(f.name).value);
       m.Matched? && m.name != ""
  }

  /** A folder whose session lookup reads a schedule time it cannot parse. */
  ghost predicate Faults(schedule: WeeklySchedule, tolerance: int, f: Folder, time: string) {
    && f.isDir
    && !(exists i :: OccursAt(f.name, PersonalRoomMarker, i))
    && ParseFolderDateTime(f.name).Some?
    && MatchSession(schedule, tolerance, ParseFolderDateTime(f.name).value) == BadScheduleTime(time)
  }

  ghost predicate Faulty(schedule: WeeklySchedule, tolerance: int, f: Folder) {
    exists t :: Faults(schedule, tolerance, f, t)
  }

  /** The recording a surviving folder stands for. */
  ghost function RecordingOf(schedule: WeeklySchedule, tolerance: int, f: Folder): Candidate
    requires Survives(schedule, tolerance, f)
  {
    var dt := ParseFolderDateTime(f.name).value;
    Candidate(dt, MatchSession(schedule, tolerance, dt).name, f.name)
  }

  /** The recordings of the surviving folders, in listing order. */
  ghost function Recordings(schedule: WeeklySchedule, tolerance: int, fs: seq<Folder>): seq<Candidate> {
    if fs == [] then []
    else Recordings(schedule, tolerance, fs[..|fs| - 1])
         + (if Survives(schedule, tolerance, fs[|fs| - 1]) then [RecordingOf(schedule, tolerance, fs[|fs| - 1])] else [])
  }

  lemma ClassifyMeaning(schedule: WeeklySchedule, tolerance: int, f: Folder)
    ensures Classify(schedule, tolerance, f).Kept? <==> Survives(schedule, tolerance, f)
    ensures Classify(schedule, tolerance, f).Kept? ==>
              Classify(schedule, tolerance, f).candidate == RecordingOf(schedule, tolerance, f)
    ensures forall t :: Classify(schedule, tolerance, f) == ScheduleFault(t) <==> Faults(schedule, tolerance, f, t)
  {
    ContainsOccurrence(f.name, PersonalRoomMarker);
  }

  /** The scan keeps exactly the surviving folders, in listing order, unless
      some folder faults. */
  lemma {:induction false} ScanKeepsSurvivors(schedule: WeeklySchedule, tolerance: int, fs: seq<Folder>)
    ensures Scan(schedule, tolerance, fs).Ok? ==> Scan(schedule, tolerance, fs).value == Recordings(schedule, tolerance, fs)
  {
    if fs != [] {
      ScanKeepsSurvivors(schedule, tolerance, fs[..|fs| - 1]);
      ClassifyMeaning(schedule, tolerance, fs[|fs| - 1]);
    }
  }

  /** `fs[i]` faults reading `time`, and no folder before it faults at all. */
  ghost predicate IsFirstFault(schedule: WeeklySchedule, tolerance: int, fs: seq<Folder>, i: int, time: string) {
    && 0 <= i < |fs|
    && Faults(schedule, tolerance, fs[i], time)
    && forall j :: 0 <= j < i ==> !Faulty(schedule, tolerance, fs[j])
  }

  /** The run ends with the time text of a bad schedule entry exactly when
      that is what the first faulty folder of the listing reads. */
  lemma ScanFailsAtFirstFault(schedule: WeeklySchedule, tolerance: int, fs: seq<Folder>, time: string)
    ensures Scan(schedule, tolerance, fs) == Err(time) <==>
            exists i :: IsFirstFault(schedule, tolerance, fs, i, time)
  {
    if Scan(schedule, tolerance, fs) == Err(time) {
      ScanErrIsFirstFault(schedule, tolerance, fs, time);
    }
    if exists i :: IsFirstFault(schedule, tolerance, fs, i, time) {
      var i :| IsFirstFault(schedule, tolerance, fs, i, time);
      FirstFaultEndsScan(schedule, tolerance, fs, i, time);
    }
  }

  lemma ClassifyFault(schedule: WeeklySchedule, tolerance: int, f: Folder)
    ensures Classify(schedule, tolerance, f).ScheduleFault? <==> Faulty(schedule, tolerance, f)
  {
    ClassifyMeaning(schedule, tolerance, f);
    if Classify(schedule, tolerance, f).ScheduleFault? {
      assert Faults(schedule, tolerance, f, Classify(schedule, tolerance, f).time);
    }
  }

  lemma {:induction false} ScanErrIsFirstFault(schedule: WeeklySchedule, tolerance: int, fs: seq<Folder>, time: string)
    requires Scan(schedule, tolerance, fs) == Err(time)
    ensures exists i :: IsFirstFault(schedule, tolerance, fs, i, time)
  {
    var p, f := fs[..|fs| - 1], fs[|fs| - 1];
    assert forall j :: 0 <= j < |p| ==> p[j] == fs[j];
    match Scan(schedule, tolerance, p)
    case Err(t) =>
      ScanErrIsFirstFault(schedule, tolerance, p, time);
      var i :| IsFirstFault(schedule, tolerance, p, i, time);
      assert IsFirstFault(schedule, tolerance, fs, i, time);
    case Ok(_) =>
      ScanFaultFree(schedule, tolerance, p);
      ClassifyMeaning(schedule, tolerance, f);
      assert IsFirstFault(schedule, tolerance, fs, |p|, time);
  }

  lemma FirstFaultEndsScan(schedule: WeeklySchedule, tolerance: int, fs: seq<Folder>, i: int, time: string)
    requires IsFirstFault(schedule, tolerance, fs, i, time)
    ensures Scan(schedule, tolerance, fs) == Err(time)
  {
    var p := fs[..i];
    assert forall j :: 0 <= j < |p| ==> p[j] == fs[j];
    ScanOkWhenFaultFree(schedule, tolerance, p);
    ScanAppendFault(schedule, tolerance, p, fs[i], time);
    assert fs[..i + 1] == p + [fs[i]];
    ScanErrorPersists(schedule, tolerance, fs, i + 1, time);
  }

  /** A faulting folder after a clean prefix ends the scan with its time. */
  lemma ScanAppendFault(schedule: WeeklySchedule, tolerance: int, p: seq<Folder>, f: Folder, time: string)
    requires Scan(schedule, tolerance, p).Ok? && Faults(schedule, tolerance, f, time)
    ensures Scan(schedule, tolerance, p + [f]) == Err(time)
  {
    var q := p + [f];
    assert q[..|q| - 1] == p;
    assert q[|q| - 1] == f;
    ClassifyMeaning(schedule, tolerance, f);
  }

  /** Once the scan of a prefix has failed, the whole scan fails the same way. */
  lemma {:induction false} ScanErrorPersists(schedule: WeeklySchedule, tolerance: int, fs: seq<Folder>, n: nat, time: string)
    requires n <= |fs| && Scan(schedule, tolerance, fs[..n]) == Err(time)
    ensures Scan(schedule, tolerance, fs) == Err(time)
    decreases |fs| - n
  {
    if n < |fs| {
      assert fs[..n + 1][..n] == fs[..n];
      ScanErrorPersists(schedule, tolerance, fs, n + 1, time);
    } else {
      assert fs[..n] == fs;
    }
  }

  /** A listing that scans without error has no faulty folder
      (the converse is `ScanOkWhenFaultFree`). */
  lemma {:induction false} ScanFaultFree(schedule: WeeklySchedule, tolerance: int, fs: seq<Folder>)
    requires Scan(schedule, tolerance, fs).Ok?
    ensures forall j :: 0 <= j < |fs| ==> !Faulty(schedule, tolerance, fs[j])
  {
    if fs != [] {
      var p, f := fs[..|fs| - 1], fs[|fs| - 1];
      assert Scan(schedule, tolerance, p).Ok? && !Classify(schedule, tolerance, f).ScheduleFault?;
      ScanFaultFree(schedule, tolerance, p);
      ClassifyFault(schedule, tolerance, f);
      forall j | 0 <= j < |fs| ensures !Faulty(schedule, tolerance, fs[j]) {
        if j < |p| {
          assert fs[j] == p[j];
        } else {
          assert fs[j] == f;
        }
      }
    }
  }

  /** A listing without faulty folders scans without error. */
  lemma {:induction false} ScanOkWhenFaultFree(schedule: WeeklySchedule, tolerance: int, fs: seq<Folder>)
    requires forall j :: 0 <= j < |fs| ==> !Faulty(schedule, tolerance, fs[j])
    ensures Scan(schedule, tolerance, fs).Ok?
  {
    if fs != [] {
      var p := fs[..|fs| - 1];
      assert forall j :: 0 <= j < |p| ==> p[j] == fs[j];
      ScanOkWhenFaultFree(schedule, tolerance, p);
      ClassifyFault(schedule, tolerance, fs[|fs| - 1]);
    }
  }

  /** The grouping key `(session, dt.strftime("%Y-%m-%d"))`. */
  datatype GroupKey = GroupKey(session: string, date: string)

  function KeyOf(c: Candidate): GroupKey {
    GroupKey(c.session, DateString(c.dt))
  }

  /** The keys of `grouped` in dict order: each key where it first occurs. */
  function FirstKeys(s: seq<Candidate>): seq<GroupKey> {
    if s == [] then []
    else
      var ks := FirstKeys(s[..|s| - 1]);
      if KeyOf(s[|s| - 1]) in ks then ks else ks + [KeyOf(s[|s| - 1])]
  }

  /** `grouped[k]`: the elements of `s` with key `k`, in order. */
  function Group(s: seq<Candidate>, k: GroupKey): (r: seq<Candidate>)
    ensures forall c | c in r :: c in s && KeyOf(c) == k
  {
    if s == [] then []
    else Group(s[..|s| - 1], k) + (if KeyOf(s[|s| - 1]) == k then [s[|s| - 1]] else [])
  }

  /** One line of the filing plan: which folder goes to which part of which
      `session/date` folder. */
  datatype PlanEntry = PlanEntry(source: string, time: DateTime, session: string, date: string, part: nat)

  function EntryKey(e: PlanEntry): GroupKey {
    GroupKey(e.session, e.date)
  }

  /** The recording an entry files. */
  function AsCandidate(e: PlanEntry): Candidate {
    Candidate(e.time, e.session, e.source)
  }

  /** `enumerate(items, start=1)` over one group. */
  function Number(items: seq<Candidate>, k: GroupKey): seq<PlanEntry> {
    seq(|items|, i requires 0 <= i < |items| => PlanEntry(items[i].name, items[i].dt, k.session, k.date, i + 1))
  }

  /** The groups of `keys`, in that order, each numbered. */
  function PlanOf(keys: seq<GroupKey>, s: seq<Candidate>): seq<PlanEntry> {
    if keys == [] then []
    else PlanOf(keys[..|keys| - 1], s) + Number(Group(s, keys[|keys| - 1]), keys[|keys| - 1])
  }

  /** Sort, group, number: the plan for the surviving recordings `cs`. */
  function BuildPlan(cs: seq<Candidate>): seq<PlanEntry> {
    var s := SortByTime(cs);
    PlanOf(FirstKeys(s), s)
  }

  /** The entries of a plan with key `k`, in plan order. */
  function EntriesFor(es: seq<PlanEntry>, k: GroupKey): (r: seq<PlanEntry>)
    ensures |r| <= |es|
  {
    if es == [] then []
    else EntriesFor(es[..|es| - 1], k) + (if EntryKey(es[|es| - 1]) == k then [es[|es| - 1]] else [])
  }

  /** The recordings a plan files, in plan order. */
  function Recovered(es: seq<PlanEntry>): (r: seq<Candidate>)
    ensures |r| == |es|
  {
    if es == [] then [] else Recovered(es[..|es| - 1]) + [AsCandidate(es[|es| - 1])]
  }

  predicate Distinct<T(==)>(ks: seq<T>) {
    forall i, j | 0 <= i < j < |ks| :: ks[i] != ks[j]
  }

  // ---- facts about the grouping ----

  lemma {:induction false} FirstKeysDistinct(s: seq<Candidate>)
    ensures Distinct(FirstKeys(s))
  {
    if s != [] {
      FirstKeysDistinct(s[..|s| - 1]);
    }
  }

  /** A key is listed exactly when its group is non-empty. */
  lemma {:induction false} FirstKeysAreGroupKeys(s: seq<Candidate>, k: GroupKey)
    ensures k in FirstKeys(s) <==> Group(s, k) != []
  {
    if s != [] {
      FirstKeysAreGroupKeys(s[..|s| - 1], k);
    }
  }

  /** A group holds every element of its key as often as `s` does, and nothing else. */
  lemma {:induction false} GroupCount(s: seq<Candidate>, k: GroupKey, c: Candidate)
    ensures multiset(Group(s, k))[c] == if KeyOf(c) == k then multiset(s)[c] else 0
  {
    if s != [] {
      GroupCount(s[..|s| - 1], k, c);
      assert s == s[..|s| - 1] + [s[|s| - 1]];
    }
  }

  /** A group of a time-sorted sequence is time-sorted. */
  lemma {:induction false} GroupSorted(s: seq<Candidate>, k: GroupKey)
    requires SortedByTime(s)
    ensures SortedByTime(Group(s, k))
  {
    if s != [] {
      var p, x := s[..|s| - 1], s[|s| - 1];
      assert SortedByTime(p) by {
        forall i, j | 0 <= i < j < |p| ensures !Earlier(p[j].dt, p[i].dt) {
          assert p[i] == s[i] && p[j] == s[j];
        }
      }
      GroupSorted(p, k);
      if KeyOf(x) == k {
        var g := Group(p, k);
        var r := g + [x];
        forall i, j | 0 <= i < j < |r| ensures !Earlier(r[j].dt, r[i].dt) {
          if j == |g| {
            assert r[i] in g;
            var m :| 0 <= m < |p| && p[m] == r[i];
            assert s[m] == r[i];
          } else {
            assert r[i] == g[i] && r[j] == g[j];
          }
        }
      }
    }
  }

  lemma {:induction false} EntriesForAppend(a: seq<PlanEntry>, b: seq<PlanEntry>, k: GroupKey)
    ensures EntriesFor(a + b, k) == EntriesFor(a, k) + EntriesFor(b, k)
  {
    if b == [] {
      assert a + b == a;
    } else {
      assert (a + b)[..|a + b| - 1] == a + b[..|b| - 1];
      EntriesForAppend(a, b[..|b| - 1], k);
    }
  }

  /** Filtering entries that all share one key keeps all or nothing. */
  lemma {:induction false} EntriesForUniform(es: seq<PlanEntry>, k0: GroupKey, k: GroupKey)
    requires forall i | 0 <= i < |es| :: EntryKey(es[i]) == k0
    ensures EntriesFor(es, k) == if k == k0 then es else []
  {
    if es != [] {
      EntriesForUniform(es[..|es| - 1], k0, k);
    }
  }

  lemma {:induction false} RecoveredAppend(a: seq<PlanEntry>, b: seq<PlanEntry>)
    ensures Recovered(a + b) == Recovered(a) + Recovered(b)
  {
    if b == [] {
      assert a + b == a;
    } else {
      assert (a + b)[..|a + b| - 1] == a + b[..|b| - 1];
      RecoveredAppend(a, b[..|b| - 1]);
    }
  }

  /** Numbering a group loses nothing of its recordings. */
  lemma {:induction false} RecoveredNumber(items: seq<Candidate>, k: GroupKey)
    requires forall i | 0 <= i < |items| :: KeyOf(items[i]) == k
    ensures Recovered(Number(items, k)) == items
  {
    if items != [] {
      var p := items[..|items| - 1];
      RecoveredNumber(p, k);
      assert Number(items, k)[..|items| - 1] == Number(p, k);
    }
  }

  /** Over distinct keys, the plan's entries of key `k` are group `k`, numbered. */
  lemma {:induction false} EntriesForPlanOf(keys: seq<GroupKey>, s: seq<Candidate>, k: GroupKey)
    requires Distinct(keys)
    ensures EntriesFor(PlanOf(keys, s), k) == if k in keys then Number(Group(s, k), k) else []
  {
    if keys != [] {
      var init, last := keys[..|keys| - 1], keys[|keys| - 1];
      assert Distinct(init);
      EntriesForPlanOf(init, s, k);
      EntriesForPlanOfStep(keys, s, k);
      assert keys == init + [last];
      assert k == last ==> k !in init;
    }
  }

  lemma EntriesForPlanOfStep(keys: seq<GroupKey>, s: seq<Candidate>, k: GroupKey)
    requires keys != []
    ensures var last := keys[|keys| - 1];
            EntriesFor(PlanOf(keys, s), k)
            == EntriesFor(PlanOf(keys[..|keys| - 1], s), k) + (if k == last then Number(Group(s, last), last) else [])
  {
    var init, last := keys[..|keys| - 1], keys[|keys| - 1];
    EntriesForAppend(PlanOf(init, s), Number(Group(s, last), last), k);
    EntriesForUniform(Number(Group(s, last), last), last, k);
  }

  /** Over distinct keys, the plan files each element of `s` whose key is
      listed exactly as often as it occurs. */
  lemma {:induction false} PlanOfCount(keys: seq<GroupKey>, s: seq<Candidate>, c: Candidate)
    requires Distinct(keys)
    ensures multiset(Recovered(PlanOf(keys, s)))[c] == if KeyOf(c) in keys then multiset(s)[c] else 0
  {
    if keys != [] {
      var init, last := keys[..|keys| - 1], keys[|keys| - 1];
      PlanOfCount(init, s, c);
      RecoveredAppend(PlanOf(init, s), Number(Group(s, last), last));
      RecoveredNumber(Group(s, last), last);
      GroupCount(s, last, c);
      assert keys == init + [last];
      assert KeyOf(c) == last ==> KeyOf(c) !in init;
    }
  }

  /** Where entry `i` lands among the entries of its key. */
  lemma EntryIndex(es: seq<PlanEntry>, i: nat)
    requires i < |es|
    ensures var g := EntriesFor(es, EntryKey(es[i]));
            var p := |EntriesFor(es[..i], EntryKey(es[i]))|;
            p < |g| && g[p] == es[i]
  {
    var k := EntryKey(es[i]);
    assert es == es[..i] + ([es[i]] + es[i + 1..]);
    EntriesForAppend(es[..i], [es[i]] + es[i + 1..], k);
    EntriesForAppend([es[i]], es[i + 1..], k);
    assert EntriesFor([es[i]], k) == [es[i]] by {
      assert [es[i]][..0] == [];
    }
  }

  /** A later entry of the same key lands later among that key's entries. */
  lemma EntryIndexMonotone(es: seq<PlanEntry>, i: nat, j: nat)
    requires i < j <= |es|
    ensures |EntriesFor(es[..i], EntryKey(es[i]))| < |EntriesFor(es[..j], EntryKey(es[i]))|
  {
    var k := EntryKey(es[i]);
    assert es[..j] == es[..i] + ([es[i]] + es[i + 1..j]);
    EntriesForAppend(es[..i], [es[i]] + es[i + 1..j], k);
    EntriesForAppend([es[i]], es[i + 1..j], k);
    assert EntriesFor([es[i]], k) == [es[i]] by {
      assert [es[i]][..0] == [];
    }
  }

  // ---- the plan's promises ----

  /** Each group of the plan is that group of the sorted recordings,
      numbered 1..N: the part of its `p`-th entry is `p + 1`. */
  lemma PlanGroups(cs: seq<Candidate>, k: GroupKey)
    ensures EntriesFor(BuildPlan(cs), k) == Number(Group(SortByTime(cs), k), k)
  {
    var s := SortByTime(cs);
    FirstKeysDistinct(s);
    EntriesForPlanOf(FirstKeys(s), s, k);
    FirstKeysAreGroupKeys(s, k);
  }

  /** Within a `(session, date)` group the parts are exactly 1..N, in
      ascending time order, and N is the number of recordings with that key. */
  lemma PartsAreContiguousAndChronological(cs: seq<Candidate>, k: GroupKey)
    ensures var g := EntriesFor(BuildPlan(cs), k);
            && |g| == |Group(cs, k)|
            && (forall p | 0 <= p < |g| :: g[p].part == p + 1 && EntryKey(g[p]) == k)
            && (forall p, q | 0 <= p < q < |g| :: !Earlier(g[q].time, g[p].time))
  {
    var gs := Group(SortByTime(cs), k);
    PlanGroups(cs, k);
    GroupSorted(SortByTime(cs), k);
    SortingKeepsGroupSize(cs, k);
    NumberSorted(gs, k);
  }

  /** Numbering a chronological list keeps its order and counts from 1. */
  lemma NumberSorted(gs: seq<Candidate>, k: GroupKey)
    requires SortedByTime(gs)
    ensures var g := Number(gs, k);
            && |g| == |gs|
            && (forall p | 0 <= p < |g| :: g[p].part == p + 1 && EntryKey(g[p]) == k)
            && (forall p, q | 0 <= p < q < |g| :: !Earlier(g[q].time, g[p].time))
  {
    var g := Number(gs, k);
    forall p, q | 0 <= p < q < |g| ensures !Earlier(g[q].time, g[p].time) {
      assert g[p].time == gs[p].dt && g[q].time == gs[q].dt;
    }
  }

  /** Sorting leaves the size of every group unchanged. */
  lemma SortingKeepsGroupSize(cs: seq<Candidate>, k: GroupKey)
    ensures |Group(SortByTime(cs), k)| == |Group(cs, k)|
  {
    var s := SortByTime(cs);
    forall c ensures multiset(Group(s, k))[c] == multiset(Group(cs, k))[c] {
      GroupCount(s, k, c);
      GroupCount(cs, k, c);
    }
    assert multiset(Group(s, k)) == multiset(Group(cs, k));
    assert |multiset(Group(s, k))| == |Group(s, k)|;
  }

  /** Every recording handed to the planner is filed exactly once, and nothing else is. */
  lemma PlanFilesEachRecordingOnce(cs: seq<Candidate>)
    ensures multiset(Recovered(BuildPlan(cs))) == multiset(cs)
  {
    var s := SortByTime(cs);
    FirstKeysDistinct(s);
    forall c ensures multiset(Recovered(BuildPlan(cs)))[c] == multiset(cs)[c] {
      PlanOfCount(FirstKeys(s), s, c);
      if KeyOf(c) !in FirstKeys(s) {
        FirstKeysAreGroupKeys(s, KeyOf(c));
        GroupCount(s, KeyOf(c), c);
      }
    }
  }

  /** Of two entries of one group, the one earlier in the plan has the
      smaller part and is not the later recording. */
  lemma PlanOrderWithinGroup(cs: seq<Candidate>, i: nat, j: nat)
    requires i < j < |BuildPlan(cs)|
    requires EntryKey(BuildPlan(cs)[i]) == EntryKey(BuildPlan(cs)[j])
    ensures BuildPlan(cs)[i].part < BuildPlan(cs)[j].part
    ensures !Earlier(BuildPlan(cs)[j].time, BuildPlan(cs)[i].time)
  {
    var plan := BuildPlan(cs);
    var k := EntryKey(plan[i]);
    EntryIndex(plan, i);
    EntryIndex(plan, j);
    EntryIndexMonotone(plan, i, j);
    PartsAreContiguousAndChronological(cs, k);
  }

  /** Whatever order the folders were listed in: of two recordings of the
      same session and date, the earlier one gets the smaller part. */
  lemma EarlierRecordingGetsLowerPart(cs: seq<Candidate>, i: nat, j: nat)
    requires i < |BuildPlan(cs)| && j < |BuildPlan(cs)|
    requires EntryKey(BuildPlan(cs)[i]) == EntryKey(BuildPlan(cs)[j])
    requires Earlier(BuildPlan(cs)[i].time, BuildPlan(cs)[j].time)
    ensures BuildPlan(cs)[i].part < BuildPlan(cs)[j].part
  {
    var plan := BuildPlan(cs);
    EarlierIsStrictTotalOrder(plan[i].time, plan[j].time, plan[i].time);
    if j < i {
      PlanOrderWithinGroup(cs, j, i);
    } else {
      PlanOrderWithinGroup(cs, i, j);
    }
  }

  /** Entries of one group have distinct parts. */
  lemma PartsDistinctWithinGroup(cs: seq<Candidate>, i: nat, j: nat)
    requires i < |BuildPlan(cs)| && j < |BuildPlan(cs)| && i != j
    requires EntryKey(BuildPlan(cs)[i]) == EntryKey(BuildPlan(cs)[j])
    ensures BuildPlan(cs)[i].part != BuildPlan(cs)[j].part
  {
    if i < j {
      PlanOrderWithinGroup(cs, i, j);
    } else {
      PlanOrderWithinGroup(cs, j, i);
    }
  }

  /** Each entry's date folder is its recording's own date. */
  lemma PlanDatesMatchTimes(cs: seq<Candidate>, i: nat)
    requires i < |BuildPlan(cs)|
    ensures BuildPlan(cs)[i].date == DateString(BuildPlan(cs)[i].time)
  {
    var plan := BuildPlan(cs);
    var k := EntryKey(plan[i]);
    EntryIndex(plan, i);
    PlanGroups(cs, k);
    var p := |EntriesFor(plan[..i], k)|;
    var g := Group(SortByTime(cs), k);
    assert g[p] in g;
  }
}
