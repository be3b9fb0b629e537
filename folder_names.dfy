/** Reading the recording time from the start of a folder name
    (`parse_folder_datetime`), the inverse formatting, the `YYYY-MM-DD`
    date text (`strftime("%Y-%m-%d")`) and Python's substring test `in`. */
module FolderNames {
  import opened Wrappers
  import opened Digits
  import opened DateTimes

  /** Length of the `YYYY-MM-DD HH.MM.SS` prefix. */
  const StampLength := 19

  /** The anchored pattern `(\d{4}-\d{2}-\d{2}) (\d{2})\.(\d{2})\.(\d{2})`, ASCII digits. */
  predicate HasStampShape(name: string) {
    && |name| >= StampLength
    && AllDigits(name[0..4]) && name[4] == '-'
    && AllDigits(name[5..7]) && name[7] == '-'
    && AllDigits(name[8..10]) && name[10] == ' '
    && AllDigits(name[11..13]) && name[13] == '.'
    && AllDigits(name[14..16]) && name[16] == '.'
    && AllDigits(name[17..19])
  }

  /** The six captured numbers, before any calendar check. */
  function StampFields(name: string): DateTime
    requires HasStampShape(name)
  {
    DateTime(DigitsValue(name[0..4]), DigitsValue(name[5..7]), DigitsValue(name[8..10]),
             DigitsValue(name[11..13]), DigitsValue(name[14..16]), DigitsValue(name[17..19]))
  }

  /** `parse_folder_datetime`: `None` when the pattern does not match at the
      start, or when `strptime` rejects the fields as a date-time. */
  function ParseFolderDateTime(name: string): (r: Option<DateTime>)
    ensures r.Some? ==> ValidDateTime(r.value)
    ensures !HasStampShape(name) ==> r == None
  {
    if HasStampShape(name) && ValidDateTime(StampFields(name)) then Some(StampFields(name)) else None
  }

  /** `YYYY-MM-DD`, the date part of a folder name and of a destination. */
  function DateString(dt: DateTime): (s: string)
    ensures |s| == 10
  {
    Pad(dt.year, 4) + "-" + Pad(dt.month, 2) + "-" + Pad(dt.day, 2)
  }

  /** `YYYY-MM-DD HH.MM.SS`, the prefix a recorder writes. */
  function FormatStamp(dt: DateTime): (s: string)
    ensures |s| == StampLength
  {
    DateString(dt) + " " + Pad(dt.hour, 2) + "." + Pad(dt.minute, 2) + "." + Pad(dt.second, 2)
  }

  /** Each field fits the number of digits the pattern gives it. */
  predicate FieldsFit(dt: DateTime) {
    dt.year < 10000 && dt.month < 100 && dt.day < 100 && dt.hour < 100 && dt.minute < 100 && dt.second < 100
  }

  /** A formatted prefix, followed by any text, has the pattern's shape and
      its captured fields are the ones formatted. */
  lemma FormatThenReadFields(dt: DateTime, suffix: string)
    requires FieldsFit(dt)
    ensures HasStampShape(FormatStamp(dt) + suffix)
    ensures StampFields(FormatStamp(dt) + suffix) == dt
  {
    StampSlices(dt, suffix);
    assert Pow10(2) == 100 && Pow10(4) == 10000;
    PadThenRead(dt.year, 4);
    PadThenRead(dt.month, 2);
    PadThenRead(dt.day, 2);
    PadThenRead(dt.hour, 2);
    PadThenRead(dt.minute, 2);
    PadThenRead(dt.second, 2);
  }

  /** Where each field and separator sits in a formatted prefix. */
  lemma StampSlices(dt: DateTime, suffix: string)
    ensures var name := FormatStamp(dt) + suffix;
            && |name| >= StampLength
            && name[0..4] == Pad(dt.year, 4) && name[4] == '-'
            && name[5..7] == Pad(dt.month, 2) && name[7] == '-'
            && name[8..10] == Pad(dt.day, 2) && name[10] == ' '
            && name[11..13] == Pad(dt.hour, 2) && name[13] == '.'
            && name[14..16] == Pad(dt.minute, 2) && name[16] == '.'
            && name[17..19] == Pad(dt.second, 2)
  {
    var name := FormatStamp(dt) + suffix;
    var date := DateString(dt);
    assert name[..10] == date;
    assert date[0..4] == Pad(dt.year, 4) && date[5..7] == Pad(dt.month, 2) && date[8..10] == Pad(dt.day, 2);
  }

  /** So the verdict on such a name is exactly the calendar check. */
  lemma ParseOfFormatted(dt: DateTime, suffix: string)
    requires FieldsFit(dt)
    ensures ParseFolderDateTime(FormatStamp(dt) + suffix) == if ValidDateTime(dt) then Some(dt) else None
  {
    FormatThenReadFields(dt, suffix);
  }

  /** Round trip: a valid date-time written as a folder prefix, followed by
      any text, parses back to itself. */
  lemma FormatThenParse(dt: DateTime, suffix: string)
    requires ValidDateTime(dt)
    ensures ParseFolderDateTime(FormatStamp(dt) + suffix) == Some(dt)
  {
    ParseOfFormatted(dt, suffix);
  }

  lemma Extend(s: string, i: nat, j: nat)
    requires i <= j <= |s|
    ensures s[..j] == s[..i] + s[i..j]
  {
  }

  /** Converse: whatever parses is a valid date-time whose formatted prefix
      is exactly the start of the name; the rest of the name is ignored. */
  lemma ParseThenFormat(name: string)
    requires ParseFolderDateTime(name).Some?
    ensures var dt := ParseFolderDateTime(name).value;
            ValidDateTime(dt) && name == FormatStamp(dt) + name[StampLength..]
  {
    var dt := ParseFolderDateTime(name).value;
    ReadThenPad(name[0..4]);
    ReadThenPad(name[5..7]);
    ReadThenPad(name[8..10]);
    ReadThenPad(name[11..13]);
    ReadThenPad(name[14..16]);
    ReadThenPad(name[17..19]);
    assert name[..4] == Pad(dt.year, 4);
    Extend(name, 4, 5);
    Extend(name, 5, 7);
    Extend(name, 7, 8);
    Extend(name, 8, 10);
    assert name[..10] == DateString(dt);
    Extend(name, 10, 11);
    Extend(name, 11, 13);
    Extend(name, 13, 14);
    Extend(name, 14, 16);
    Extend(name, 16, 17);
    Extend(name, 17, 19);
    assert name[..StampLength] == FormatStamp(dt);
    assert name == name[..StampLength] + name[StampLength..];
  }

  /** A name that parses leads with the shape; whether it parses depends
      on nothing after the first 19 characters. */
  lemma ParseIgnoresSuffix(name: string, suffix: string)
    requires |name| >= StampLength
    ensures ParseFolderDateTime(name + suffix) == ParseFolderDateTime(name)
  {
    var n := name + suffix;
    assert n[0..4] == name[0..4] && n[5..7] == name[5..7] && n[8..10] == name[8..10];
    assert n[11..13] == name[11..13] && n[14..16] == name[14..16] && n[17..19] == name[17..19];
    assert n[4] == name[4] && n[7] == name[7] && n[10] == name[10] && n[13] == name[13] && n[16] == name[16];
  }

  /** Python's `sub in s`. */
  function Contains(s: string, sub: string): (r: bool)
    decreases |s|
  {
    if |s| < |sub| then false
    else if s[..|sub|] == sub then true
    else Contains(s[1..], sub)
  }

  /** `sub` occurs in `s` starting at index `i`. */
  predicate OccursAt(s: string, sub: string, i: int) {
    0 <= i && i + |sub| <= |s| && s[i..i + |sub|] == sub
  }

  /** `Contains` holds exactly when `sub` occurs at some position of `s`. */
  lemma {:induction false} ContainsOccurrence(s: string, sub: string)
    ensures Contains(s, sub) <==> exists i :: OccursAt(s, sub, i)
    decreases |s|
  {
    if |s| < |sub| {
    } else if s[..|sub|] == sub {
      assert OccursAt(s, sub, 0);
    } else {
      ContainsOccurrence(s[1..], sub);
      if Contains(s, sub) {
        var i :| OccursAt(s[1..], sub, i);
        SliceOfTail(s, i + 1, |sub|);
        assert OccursAt(s, sub, i + 1);
      } else {
        forall i | OccursAt(s, sub, i)
          ensures false
        {
          if i > 0 {
            SliceOfTail(s, i, |sub|);
            assert OccursAt(s[1..], sub, i - 1);
          }
        }
      }
    }
  }

  lemma SliceOfTail(s: string, i: nat, n: nat)
    requires 1 <= i && i + n <= |s|
    ensures s[1..][i - 1..i - 1 + n] == s[i..i + n]
  {
  }
}
