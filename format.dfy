/**
 * The small text helpers of the new-tab page: the clock and date formats
 * with their first-occurrence token replacement, the initials shown on an
 * icon-less shortcut, and the order of the backup list.
 */
module Format {
  import opened Wrappers
  import opened Strings
  import opened SyncFiles

  const DefaultTimeFormat: string := "hh:mm:ss"
  const DefaultDateFormat: string := "YYYY年MM月DD日"

  /** `replace` where the first occurrence is known: it is the one replaced. */
  lemma ReplaceAt(s: string, p: string, r: string, i: nat)
    requires OccursAt(s, p, i) && forall j: nat :: j < i ==> !OccursAt(s, p, j)
    ensures ReplaceFirst(s, p, r) == s[..i] + r + s[i + |p|..]
  {
    assert Contains(s, p);
    var k: nat :| OccursAt(s, p, k) && (forall j: nat :: j < k ==> !OccursAt(s, p, j)) &&
      ReplaceFirst(s, p, r) == s[..k] + r + s[k + |p|..];
    assert !(k < i) && !(i < k);
  }

  /** The token is replaced where it first appears after a prefix that does not hold its first character. */
  lemma ReplaceAfter(a: string, p: string, rest: string, r: string)
    requires p != [] && p[0] !in a
    ensures ReplaceFirst(a + p + rest, p, r) == a + r + rest
  {
    var s := a + p + rest;
    assert OccursAt(s, p, |a|) by { assert s[|a|..|a| + |p|] == p; }
    forall j: nat | j < |a| ensures !OccursAt(s, p, j) {
      assert s[j] == a[j];
      if j + |p| <= |s| {
        assert s[j..j + |p|][0] == s[j];
      }
    }
    ReplaceAt(s, p, r, |a|);
    assert s[..|a|] == a && s[|a| + |p|..] == rest;
  }

  /** A token at the very start is the one replaced. */
  lemma ReplaceHead(p: string, rest: string, r: string)
    requires p != []
    ensures ReplaceFirst(p + rest, p, r) == r + rest
  {
    var s := p + rest;
    assert s[0..|p|] == p;
    ReplaceAt(s, p, r, 0);
    assert s[|p|..] == rest;
  }

  /** `formatTime(date, format)` on the clock fields of `date`; an empty format means the default one. */
  function FormatTime(format: string, hours: nat, minutes: nat, seconds: nat): string {
    var f := if format == "" then DefaultTimeFormat else format;
    ReplaceFirst(ReplaceFirst(ReplaceFirst(f, "hh", TwoDigits(hours)), "mm", TwoDigits(minutes)), "ss", TwoDigits(seconds))
  }

  /** `formatDate(date, format)` on the calendar fields of `date` (the month counted from 1). */
  function FormatDate(format: string, year: nat, month: nat, day: nat): string {
    var f := if format == "" then DefaultDateFormat else format;
    ReplaceFirst(ReplaceFirst(ReplaceFirst(f, "YYYY", NatToString(year)), "MM", TwoDigits(month)), "DD", TwoDigits(day))
  }

  lemma TwoDigitsAreDigits(n: nat)
    ensures |TwoDigits(n)| >= 2 && AllDigits(TwoDigits(n))
  {
  }

  /** A run of digits holds no other character. */
  lemma DigitsLack(s: string, c: char)
    requires AllDigits(s) && !IsDigit(c)
    ensures c !in s
  {
  }

  /** The default clock reads `hh:mm:ss` with every field padded to two digits. */
  lemma DefaultTimeShape(hours: nat, minutes: nat, seconds: nat)
    ensures FormatTime("", hours, minutes, seconds) ==
      TwoDigits(hours) + ":" + TwoDigits(minutes) + ":" + TwoDigits(seconds)
  {
    var h, m, s := TwoDigits(hours), TwoDigits(minutes), TwoDigits(seconds);
    TwoDigitsAreDigits(hours);
    TwoDigitsAreDigits(minutes);
    DigitsLack(h, 'm');
    DigitsLack(h, 's');
    DigitsLack(m, 's');
    TimeSteps(h, m, s);
  }

  lemma TimeSteps(h: string, m: string, s: string)
    requires 'm' !in h && 's' !in h && 's' !in m
    ensures ReplaceFirst(ReplaceFirst(ReplaceFirst(DefaultTimeFormat, "hh", h), "mm", m), "ss", s) ==
      h + ":" + m + ":" + s
  {
    TimeStep1(h);
    TimeStep2(h, m);
    NoSecondsBefore(h, m);
    TimeStep3(h + ":" + m + ":", s);
  }

  lemma NoSecondsBefore(h: string, m: string)
    requires 's' !in h && 's' !in m
    ensures 's' !in h + ":" + m + ":"
  {
  }

  lemma TimeStep1(h: string)
    ensures ReplaceFirst(DefaultTimeFormat, "hh", h) == h + ":mm:ss"
  {
    ReplaceHead("hh", ":mm:ss", h);
    assert "hh" + ":mm:ss" == DefaultTimeFormat;
  }

  lemma TimeStep2(h: string, m: string)
    requires 'm' !in h
    ensures ReplaceFirst(h + ":mm:ss", "mm", m) == (h + ":" + m + ":") + "ss"
  {
    assert h + ":mm:ss" == (h + ":") + "mm" + ":ss";
    ReplaceAfter(h + ":", "mm", ":ss", m);
    assert (h + ":") + m + ":ss" == (h + ":" + m + ":") + "ss";
  }

  lemma TimeStep3(prefix: string, s: string)
    requires 's' !in prefix
    ensures ReplaceFirst(prefix + "ss", "ss", s) == prefix + s
  {
    assert prefix + "ss" == prefix + "ss" + [];
    ReplaceAfter(prefix, "ss", [], s);
  }

  /** For clock values below 100 the default clock reads its three fields back. */
  lemma DefaultTimeReadsBack(hours: nat, minutes: nat, seconds: nat)
    requires hours < 100 && minutes < 100 && seconds < 100
    ensures var t := FormatTime("", hours, minutes, seconds);
      |t| == 8 && t[2] == ':' && t[5] == ':' &&
      AllDigits(t[0..2]) && AllDigits(t[3..5]) && AllDigits(t[6..8]) &&
      ParseDecimal(t[0..2]) == hours && ParseDecimal(t[3..5]) == minutes && ParseDecimal(t[6..8]) == seconds
  {
    DefaultTimeShape(hours, minutes, seconds);
    TwoDigitsValue(hours);
    TwoDigitsValue(minutes);
    TwoDigitsValue(seconds);
    ClockFields(TwoDigits(hours), TwoDigits(minutes), TwoDigits(seconds));
  }

  /** Three two-character fields joined by colons sit at offsets 0, 3 and 6. */
  lemma ClockFields(a: string, b: string, c: string)
    requires |a| == 2 && |b| == 2 && |c| == 2
    ensures var t := a + ":" + b + ":" + c;
      |t| == 8 && t[2] == ':' && t[5] == ':' && t[0..2] == a && t[3..5] == b && t[6..8] == c
  {
  }

  /** The default date reads `YYYY年MM月DD日`: the year in full, month and day padded to two digits. */
  lemma DefaultDateShape(year: nat, month: nat, day: nat)
    ensures FormatDate("", year, month, day) ==
      NatToString(year) + "年" + TwoDigits(month) + "月" + TwoDigits(day) + "日"
  {
    var y, m, d := NatToString(year), TwoDigits(month), TwoDigits(day);
    TwoDigitsAreDigits(month);
    DigitsLack(y, 'M');
    DigitsLack(y, 'D');
    DigitsLack(m, 'D');
    DateSteps(y, m, d);
  }

  lemma DateSteps(y: string, m: string, d: string)
    requires 'M' !in y && 'D' !in y && 'D' !in m
    ensures ReplaceFirst(ReplaceFirst(ReplaceFirst(DefaultDateFormat, "YYYY", y), "MM", m), "DD", d) ==
      y + "年" + m + "月" + d + "日"
  {
    DateStep1(y);
    DateStep2(y, m);
    DateStep3(y + "年" + m + "月", d);
  }

  lemma DateStep1(y: string)
    ensures ReplaceFirst(DefaultDateFormat, "YYYY", y) == (y + "年") + "MM月DD日"
  {
    var tail := "年MM月DD日";
    assert DefaultDateFormat == "YYYY" + tail;
    ReplaceHead("YYYY", tail, y);
  }

  lemma DateStep2(y: string, m: string)
    requires 'M' !in y
    ensures ReplaceFirst((y + "年") + "MM月DD日", "MM", m) == (y + "年" + m + "月") + "DD日"
  {
    assert (y + "年") + "MM月DD日" == (y + "年") + "MM" + "月DD日";
    ReplaceAfter(y + "年", "MM", "月DD日", m);
  }

  lemma DateStep3(prefix: string, d: string)
    requires 'D' !in prefix
    ensures ReplaceFirst(prefix + "DD日", "DD", d) == prefix + d + "日"
  {
    assert prefix + "DD日" == prefix + "DD" + "日";
    ReplaceAfter(prefix, "DD", "日", d);
  }

  /** A custom format without any token is shown as it is. */
  lemma FormatWithoutTokens(format: string, hours: nat, minutes: nat, seconds: nat)
    requires format != "" && !Contains(format, "hh") && !Contains(format, "mm") && !Contains(format, "ss")
    ensures FormatTime(format, hours, minutes, seconds) == format
  {
  }

  /** Only the first occurrence of a token is replaced: a repeated token stays as typed. */
  lemma RepeatedTokenKept(hours: nat, minutes: nat, seconds: nat)
    ensures FormatTime("hh-hh", hours, minutes, seconds) == TwoDigits(hours) + "-hh"
  {
    var h := TwoDigits(hours);
    TwoDigitsAreDigits(hours);
    assert OccursAt("hh-hh", "hh", 0);
    ReplaceAt("hh-hh", "hh", h, 0);
    var f1 := h + "-hh";
    assert ReplaceFirst("hh-hh", "hh", h) == f1;
    assert 'm' !in f1 && 's' !in f1;
    AbsentFirstChar(f1, "mm");
    AbsentFirstChar(f1, "ss");
  }

  /**
   * `getNameInitial(name)`: `?` for a missing or blank name; otherwise the
   * first two characters of the trimmed name, upper-cased when the trimmed
   * name has an ASCII letter anywhere, or its only character.
   */
  function NameInitial(name: Option<string>): (r: string)
    ensures name.None? || Trim(name.value) == "" ==> r == "?"
    ensures name.Some? && Trim(name.value) != "" ==>
      var t := Trim(name.value);
      |r| == (if |t| >= 2 then 2 else 1) &&
      forall i :: 0 <= i < |r| ==> r[i] == if |t| >= 2 && HasAsciiLetter(t) then UpperChar(t[i]) else t[i]
  {
    if name.None? || name.value == "" || Trim(name.value) == "" then "?"
    else
      var t := Trim(name.value);
      if |t| >= 2 then
        if HasAsciiLetter(t) then ToUpperAscii(t[..2]) else t[..2]
      else t[..1]
  }

  /** An initial is never empty and never starts with a space. */
  lemma InitialNeverBlank(name: Option<string>)
    ensures NameInitial(name) != "" && !IsJsSpace(NameInitial(name)[0])
  {
    if name.Some? && Trim(name.value) != "" {
      TrimShape(name.value);
    }
  }

  /**
   * The 13-digit timestamp `/(\d{13})(?:\.json)?$/` finds at the end of a
   * backup file name, before an optional `.json`.
   */
  function Stamp(name: string): (t: Option<nat>)
    ensures t.Some? <==>
      (EndsWith(name, ".json") && |name| >= 18 && AllDigits(name[|name| - 18..|name| - 5])) ||
      (|name| >= 13 && AllDigits(name[|name| - 13..]))
  {
    if EndsWith(name, ".json") && |name| >= 18 && AllDigits(name[|name| - 18..|name| - 5]) then
      Some(ParseDecimal(name[|name| - 18..|name| - 5]))
    else if |name| >= 13 && AllDigits(name[|name| - 13..]) then
      Some(ParseDecimal(name[|name| - 13..]))
    else None
  }

  /**
   * The comparator of the backup list: timestamped files newest first, and
   * before files without a timestamp, which follow in reverse name order.
   */
  function CompareBackups(a: BackupInfo, b: BackupInfo): int {
    match (Stamp(a.name), Stamp(b.name))
    case (Some(ta), Some(tb)) => tb - ta
    case (Some(_), None) => -1
    case (None, Some(_)) => 1
    case (None, None) => Compare(b.name, a.name)
  }

  /** Swapping the arguments negates the comparator. */
  lemma CompareBackupsAntisymmetric(a: BackupInfo, b: BackupInfo)
    ensures CompareBackups(a, b) == -CompareBackups(b, a)
  {
    CompareAntisymmetric(a.name, b.name);
  }

  /** The comparator is a consistent order: "no later than" is transitive. */
  lemma CompareBackupsTransitive(a: BackupInfo, b: BackupInfo, c: BackupInfo)
    requires CompareBackups(a, b) <= 0 && CompareBackups(b, c) <= 0
    ensures CompareBackups(a, c) <= 0
  {
    if Stamp(a.name).None? && Stamp(b.name).None? && Stamp(c.name).None? {
      LeTransitive(c.name, b.name, a.name);
    }
  }

  predicate BackupsSorted(s: seq<BackupInfo>) {
    forall i, j :: 0 <= i < j < |s| ==> CompareBackups(s[i], s[j]) <= 0
  }

  function InsertBackup(x: BackupInfo, s: seq<BackupInfo>): (r: seq<BackupInfo>)
    requires BackupsSorted(s)
    ensures BackupsSorted(r) && multiset(r) == multiset(s) + multiset{x}
  {
    if s == [] then [x]
    else if CompareBackups(x, s[0]) <= 0 then
      PrecedesSorted(x, s);
      ConsSorted(x, s);
      [x] + s
    else
      var rest := InsertBackup(x, s[1..]);
      CompareBackupsAntisymmetric(x, s[0]);
      HeadPrecedesInserted(x, s, rest);
      ConsSorted(s[0], rest);
      assert s == [s[0]] + s[1..];
      [s[0]] + rest
  }

  /** An element no later than every element of a sorted list can go in front of it. */
  lemma ConsSorted(h: BackupInfo, s: seq<BackupInfo>)
    requires BackupsSorted(s)
    requires forall j :: 0 <= j < |s| ==> CompareBackups(h, s[j]) <= 0
    ensures BackupsSorted([h] + s)
  {
    var r := [h] + s;
    forall i, j | 0 <= i < j < |r| ensures CompareBackups(r[i], r[j]) <= 0 {
      assert r[j] == s[j - 1];
      if i > 0 {
        assert r[i] == s[i - 1];
      }
    }
  }

  /** An element no later than the head of a sorted list is no later than all of it. */
  lemma PrecedesSorted(x: BackupInfo, s: seq<BackupInfo>)
    requires BackupsSorted(s) && s != [] && CompareBackups(x, s[0]) <= 0
    ensures forall j :: 0 <= j < |s| ==> CompareBackups(x, s[j]) <= 0
  {
    forall j | 0 < j < |s| ensures CompareBackups(x, s[j]) <= 0 {
      CompareBackupsTransitive(x, s[0], s[j]);
    }
  }

  /** The head of a sorted list stays no later than everything once a later element joins its tail. */
  lemma HeadPrecedesInserted(x: BackupInfo, s: seq<BackupInfo>, rest: seq<BackupInfo>)
    requires BackupsSorted(s) && s != [] && CompareBackups(s[0], x) <= 0
    requires multiset(rest) == multiset(s[1..]) + multiset{x}
    ensures forall j :: 0 <= j < |rest| ==> CompareBackups(s[0], rest[j]) <= 0
  {
    forall j | 0 <= j < |rest| ensures CompareBackups(s[0], rest[j]) <= 0 {
      assert rest[j] in multiset(rest);
      if rest[j] != x {
        assert rest[j] in multiset(s[1..]);
        assert rest[j] in s[1..];
        var k :| 1 <= k < |s| && s[k] == rest[j];
      }
    }
  }

  /** `backupFiles.sort(compare)`: the backups, reordered by the comparator. */
  function SortBackups(files: seq<BackupInfo>): (r: seq<BackupInfo>)
    ensures BackupsSorted(r) && multiset(r) == multiset(files)
  {
    if files == [] then []
    else
      assert files == [files[0]] + files[1..];
      InsertBackup(files[0], SortBackups(files[1..]))
  }

  /**
   * In the sorted list every timestamped backup comes before every backup
   * without one, timestamped backups run from newest to oldest, and the
   * others run in reverse name order.
   */
  lemma SortedBackupsOrder(files: seq<BackupInfo>, i: nat, j: nat)
    requires i < j < |SortBackups(files)|
    ensures var r := SortBackups(files);
      (Stamp(r[j].name).Some? ==> Stamp(r[i].name).Some?) &&
      (Stamp(r[i].name).Some? && Stamp(r[j].name).Some? ==> Stamp(r[i].name).value >= Stamp(r[j].name).value) &&
      (Stamp(r[i].name).None? && Stamp(r[j].name).None? ==> Le(r[j].name, r[i].name))
  {
    var r := SortBackups(files);
    assert CompareBackups(r[i], r[j]) <= 0;
  }
}
