/** Naive proleptic-Gregorian date-times, as Python's `datetime` holds them:
    the validity rules its constructor enforces, the day count `toordinal`,
    the weekday, and the ordering `<`. */
module DateTimes {

  datatype DateTime = DateTime(year: nat, month: nat, day: nat, hour: nat, minute: nat, second: nat)

  const MinYear := 1
  const MaxYear := 9999

  predicate IsLeapYear(y: int) {
    y % 4 == 0 && (y % 100 != 0 || y % 400 == 0)
  }

  function DaysInMonth(y: int, m: int): (n: int)
    requires 1 <= m <= 12
    ensures 28 <= n <= 31
    ensures n == 29 <==> m == 2 && IsLeapYear(y)
  {
    if m == 2 then (if IsLeapYear(y) then 29 else 28)
    else if m == 4 || m == 6 || m == 9 || m == 11 then 30
    else 31
  }

  predicate ValidDate(y: int, m: int, d: int) {
    MinYear <= y <= MaxYear && 1 <= m <= 12 && 1 <= d <= DaysInMonth(y, m)
  }

  /** What `datetime(...)` accepts: a real calendar date and a 24-hour time. */
  predicate ValidDateTime(dt: DateTime) {
    ValidDate(dt.year, dt.month, dt.day) && dt.hour < 24 && dt.minute < 60 && dt.second < 60
  }

  function DaysBeforeYear(y: int): int
    requires y >= 1
  {
    var p := y - 1;
    p * 365 + p / 4 - p / 100 + p / 400
  }

  function DaysBeforeMonth(y: int, m: int): int
    requires 1 <= m <= 12
  {
    [0, 31, 59, 90, 120, 151, 181, 212, 243, 273, 304, 334][m - 1]
      + (if m > 2 && IsLeapYear(y) then 1 else 0)
  }

  /** Day number with 0001-01-01 as day 1 (`date.toordinal`). */
  function Ordinal(y: int, m: int, d: int): int
    requires ValidDate(y, m, d)
  {
    DaysBeforeYear(y) + DaysBeforeMonth(y, m) + d
  }

  /** 0 is Monday, 6 is Sunday (`date.weekday`, `(toordinal() + 6) % 7`). */
  function Weekday(dt: DateTime): (w: nat)
    requires ValidDateTime(dt)
    ensures w < 7
  {
    var n := Ordinal(dt.year, dt.month, dt.day);
    DayOfWeek(n)
  }

  function DayOfWeek(n: int): (w: nat)
    ensures w < 7
  {
    (n + 6) % 7
  }

  const WeekdayNames: seq<string> :=
    ["Monday", "Tuesday", "Wednesday", "Thursday", "Friday", "Saturday", "Sunday"]

  /** `strftime("%A")` in the C locale. */
  function WeekdayName(dt: DateTime): (name: string)
    requires ValidDateTime(dt)
    ensures name in WeekdayNames
  {
    WeekdayNames[Weekday(dt)]
  }

  /** Seconds since midnight. */
  function SecondOfDay(dt: DateTime): (s: nat)
    requires ValidDateTime(dt)
    ensures s < 86400
  {
    dt.hour * 3600 + dt.minute * 60 + dt.second
  }

  /** `a < b` on naive datetimes: field by field, year first. */
  predicate Earlier(a: DateTime, b: DateTime) {
    if a.year != b.year then a.year < b.year
    else if a.month != b.month then a.month < b.month
    else if a.day != b.day then a.day < b.day
    else if a.hour != b.hour then a.hour < b.hour
    else if a.minute != b.minute then a.minute < b.minute
    else a.second < b.second
  }

  /** `Earlier` is a strict total order on date-times. */
  lemma EarlierIsStrictTotalOrder(a: DateTime, b: DateTime, c: DateTime)
    ensures !Earlier(a, a)
    ensures Earlier(a, b) ==> !Earlier(b, a)
    ensures Earlier(a, b) && Earlier(b, c) ==> Earlier(a, c)
    ensures a == b || Earlier(a, b) || Earlier(b, a)
  {
  }

  /** The calendar day after a valid date. */
  function NextDate(y: int, m: int, d: int): (r: (int, int, int))
    requires ValidDate(y, m, d) && (y, m, d) != (MaxYear, 12, 31)
    ensures ValidDate(r.0, r.1, r.2)
  {
    if d < DaysInMonth(y, m) then (y, m, d + 1)
    else if m < 12 then (y, m + 1, 1)
    else (y + 1, 1, 1)
  }

  lemma YearLength(y: int)
    requires y >= 1
    ensures DaysBeforeYear(y + 1) == DaysBeforeYear(y) + (if IsLeapYear(y) then 366 else 365)
  {
    var p := y - 1;
    assert DaysBeforeYear(y + 1) == y * 365 + y / 4 - y / 100 + y / 400;
    assert DaysBeforeYear(y) == p * 365 + p / 4 - p / 100 + p / 400;
    QuarterStep(y);
    CenturyStep(y);
    QuadricentennialStep(y);
    MultiplesNest(y);
  }

  lemma MultiplesNest(y: int)
    ensures y % 400 == 0 ==> y % 100 == 0
    ensures y % 100 == 0 ==> y % 4 == 0
  {
    if y % 400 == 0 {
      assert y == 400 * (y / 400);
      HundredDividesMultiple(4 * (y / 400));
    }
    if y % 100 == 0 {
      assert y == 100 * (y / 100);
      FourDividesMultiple(25 * (y / 100));
    }
  }

  lemma HundredDividesMultiple(q: int)
    ensures (100 * q) % 100 == 0
  {
  }

  lemma FourDividesMultiple(q: int)
    ensures (4 * q) % 4 == 0
  {
  }

  // Moving from `y - 1` to `y` raises `y / k` by one exactly at multiples of `k`.
  lemma QuarterStep(y: int)
    ensures y / 4 == (y - 1) / 4 + (if y % 4 == 0 then 1 else 0)
  {
  }

  lemma CenturyStep(y: int)
    ensures y / 100 == (y - 1) / 100 + (if y % 100 == 0 then 1 else 0)
  {
  }

  lemma QuadricentennialStep(y: int)
    ensures y / 400 == (y - 1) / 400 + (if y % 400 == 0 then 1 else 0)
  {
  }

  /** Consecutive calendar days have consecutive day numbers. */
  lemma OrdinalOfNextDate(y: int, m: int, d: int)
    requires ValidDate(y, m, d) && (y, m, d) != (MaxYear, 12, 31)
    ensures var n := NextDate(y, m, d); Ordinal(n.0, n.1, n.2) == Ordinal(y, m, d) + 1
  {
    if d == DaysInMonth(y, m) && m == 12 {
      YearLength(y);
    }
  }

  /** The weekday advances by one, cyclically, from each day to the next;
      together with 0001-01-01 being a Monday this fixes every weekday. */
  lemma WeekdayOfNextDate(dt: DateTime)
    requires ValidDateTime(dt) && (dt.year, dt.month, dt.day) != (MaxYear, 12, 31)
    ensures var n := NextDate(dt.year, dt.month, dt.day);
            Weekday(dt.(year := n.0, month := n.1, day := n.2)) == (Weekday(dt) + 1) % 7
  {
    var n := NextDate(dt.year, dt.month, dt.day);
    var next := dt.(year := n.0, month := n.1, day := n.2);
    var o := Ordinal(dt.year, dt.month, dt.day);
    OrdinalOfNextDate(dt.year, dt.month, dt.day);
    assert Weekday(dt) == DayOfWeek(o);
    assert Weekday(next) == DayOfWeek(o + 1);
    DayOfWeekStep(o);
  }

  lemma DayOfWeekStep(o: int)
    ensures DayOfWeek(o + 1) == (DayOfWeek(o) + 1) % 7
  {
  }

  /** Python's anchor: 0001-01-01 is day 1 and a Monday. */
  lemma FirstDayIsMonday()
    ensures Weekday(DateTime(1, 1, 1, 0, 0, 0)) == 0
  {
    OrdinalOfFirstDay();
    DayOfWeekOfOne();
  }

  lemma OrdinalOfFirstDay()
    ensures ValidDate(1, 1, 1) && Ordinal(1, 1, 1) == 1
  {
  }

  lemma DayOfWeekOfOne()
    ensures DayOfWeek(1) == 0
  {
  }
}
