/**
 * Names of the files under `AndyTab/` on the WebDAV server: the sync file
 * name built at upload, the timestamp read back out of it with the pattern
 * `[_-]([0-9]+)\.json$`, the ordering that selects the newest sync file and
 * the files pruning removes, and the backup list.
 */
module SyncFiles {
  import opened Wrappers
  import opened Strings

  const Directory: string := "AndyTab"
  const SyncPrefix: string := "bookmarks_sync"
  const BackupPrefix: string := "bookmarks_"
  const JsonSuffix: string := ".json"

  /** `AndyTab/<name>`, the path every remote file is read, written and deleted at. */
  function RemotePath(name: string): (p: string)
    ensures StartsWith(p, Directory + "/") && p[|Directory| + 1..] == name
  {
    StartsWithConcat(Directory + "/", name);
    Directory + "/" + name
  }

  /** `bookmarks_sync_${dateStr}_${timestamp}.json` */
  function SyncFileName(date: string, t: nat): (name: string)
    ensures StartsWith(name, SyncPrefix) && StartsWith(name, BackupPrefix)
  {
    var name := SyncPrefix + "_" + date + "_" + NatToString(t) + JsonSuffix;
    assert name == SyncPrefix + ("_" + date + "_" + NatToString(t) + JsonSuffix);
    StartsWithConcat(SyncPrefix, "_" + date + "_" + NatToString(t) + JsonSuffix);
    assert name[..|BackupPrefix|] == SyncPrefix[..|BackupPrefix|];
    name
  }

  /** The longest run of digits `s` ends with. */
  function TrailingDigits(s: string): (d: string)
    ensures |d| <= |s| && d == s[|s| - |d|..] && AllDigits(d)
    ensures |d| < |s| ==> !IsDigit(s[|s| - |d| - 1])
  {
    if s != [] && IsDigit(s[|s| - 1]) then
      var init := s[..|s| - 1];
      var d := TrailingDigits(init) + [s[|s| - 1]];
      assert d == s[|s| - |d|..] by {
        assert init[|init| - (|d| - 1)..] == s[|s| - |d|..|s| - 1];
      }
      d
    else []
  }

  /**
   * `name.match(/[_-]([0-9]+)\.json$/)` followed by `parseInt` of the group:
   * the digits just before the `.json` ending, when there is at least one and
   * a '_' or '-' stands before them.
   */
  function ExtractTimestamp(name: string): Option<nat> {
    if |name| < |JsonSuffix| || name[|name| - |JsonSuffix|..] != JsonSuffix then None
    else
      var stem := name[..|name| - |JsonSuffix|];
      var d := TrailingDigits(stem);
      if d == [] || |d| == |stem| then None
      else
        var sep := stem[|stem| - |d| - 1];
        if sep == '_' || sep == '-' then Some(ParseDecimal(d)) else None
  }

  /** The pattern `[_-]([0-9]+)\.json$` matches `name` with its separator at position `j`. */
  predicate MatchesAt(name: string, j: nat) {
    j + 7 <= |name| && (name[j] == '_' || name[j] == '-') &&
    AllDigits(name[j + 1..|name| - 5]) && name[|name| - 5..] == JsonSuffix
  }

  /** The digits the group captures for a match at `j`. */
  function Captured(name: string, j: nat): string
    requires MatchesAt(name, j)
  {
    name[j + 1..|name| - 5]
  }

  /** A non-digit followed only by digits fixes the trailing digit run. */
  lemma TrailingDigitsAfter(s: string, k: nat)
    requires k < |s| && !IsDigit(s[k]) && AllDigits(s[k + 1..])
    ensures TrailingDigits(s) == s[k + 1..]
  {
  }

  /**
   * The timestamp is read exactly when the pattern matches, and it is then
   * the value of the captured digits, wherever the match is.
   */
  lemma ExtractTimestampIsPattern(name: string)
    ensures ExtractTimestamp(name).Some? <==> exists j: nat :: MatchesAt(name, j)
    ensures forall j: nat :: MatchesAt(name, j) ==> ExtractTimestamp(name) == Some(ParseDecimal(Captured(name, j)))
  {
    forall j: nat | MatchesAt(name, j)
      ensures ExtractTimestamp(name) == Some(ParseDecimal(Captured(name, j)))
    {
      MatchGivesTimestamp(name, j);
    }
    if ExtractTimestamp(name).Some? {
      TimestampGivesMatch(name);
      var j: nat := |name| - 5 - |TrailingDigits(name[..|name| - 5])| - 1;
      assert MatchesAt(name, j);
    }
  }

  /** A match at `j` is the match the timestamp is read from. */
  lemma MatchGivesTimestamp(name: string, j: nat)
    requires MatchesAt(name, j)
    ensures ExtractTimestamp(name) == Some(ParseDecimal(Captured(name, j)))
  {
    var stem := name[..|name| - 5];
    assert stem[j + 1..] == Captured(name, j);
    assert stem[j] == name[j];
    TrailingDigitsAfter(stem, j);
  }

  /** A timestamp is read only where the pattern matches: the separator stands before the trailing digits. */
  lemma TimestampGivesMatch(name: string)
    requires ExtractTimestamp(name).Some?
    ensures MatchesAt(name, |name| - 5 - |TrailingDigits(name[..|name| - 5])| - 1)
  {
    assert |name| >= |JsonSuffix| && name[|name| - |JsonSuffix|..] == JsonSuffix;
    var stem := name[..|name| - 5];
    var d := TrailingDigits(stem);
    assert d != [] && |d| < |stem|;
    var j: nat := |stem| - |d| - 1;
    assert stem[j] == '_' || stem[j] == '-';
    assert name[j] == stem[j];
    assert name[j + 1..|name| - 5] == d;
  }

  /** The name an upload writes gives back the upload's timestamp, whatever the date text. */
  lemma SyncFileNameTimestamp(date: string, t: nat)
    ensures ExtractTimestamp(SyncFileName(date, t)) == Some(t)
  {
    var name := SyncFileName(date, t);
    var head := SyncPrefix + "_" + date;
    var j: nat := |head|;
    assert name == head + "_" + NatToString(t) + JsonSuffix;
    assert name[j] == '_';
    assert name[j + 1..|name| - 5] == NatToString(t);
    assert MatchesAt(name, j);
    ExtractTimestampIsPattern(name);
    ParseNatToString(t);
  }

  /** `names.filter(n => n.startsWith(prefix))` */
  function KeepPrefixed(names: seq<string>, prefix: string): (r: seq<string>)
    ensures forall n :: n in r <==> n in names && StartsWith(n, prefix)
    ensures multiset(r) <= multiset(names)
  {
    if names == [] then []
    else
      var rest := KeepPrefixed(names[1..], prefix);
      assert names == [names[0]] + names[1..];
      if StartsWith(names[0], prefix) then [names[0]] + rest else rest
  }

  predicate SortedNames(s: seq<string>) {
    forall i, j :: 0 <= i < j < |s| ==> Le(s[i], s[j])
  }

  function InsertName(x: string, s: seq<string>): (r: seq<string>)
    requires SortedNames(s)
    ensures SortedNames(r) && multiset(r) == multiset(s) + multiset{x}
  {
    if s == [] then [x]
    else if Le(x, s[0]) then
      PrecedesSortedNames(x, s);
      ConsSortedNames(x, s);
      [x] + s
    else
      var rest := InsertName(x, s[1..]);
      LeTotal(x, s[0]);
      HeadPrecedesInsertedName(x, s, rest);
      ConsSortedNames(s[0], rest);
      assert s == [s[0]] + s[1..];
      [s[0]] + rest
  }

  /** A name no greater than every name of a sorted list can go in front of it. */
  lemma ConsSortedNames(h: string, s: seq<string>)
    requires SortedNames(s)
    requires forall j :: 0 <= j < |s| ==> Le(h, s[j])
    ensures SortedNames([h] + s)
  {
    var r := [h] + s;
    forall i, j | 0 <= i < j < |r| ensures Le(r[i], r[j]) {
      assert r[j] == s[j - 1];
      if i > 0 {
        assert r[i] == s[i - 1];
      }
    }
  }

  /** A name no greater than the head of a sorted list is no greater than all of it. */
  lemma PrecedesSortedNames(x: string, s: seq<string>)
    requires SortedNames(s) && s != [] && Le(x, s[0])
    ensures forall j :: 0 <= j < |s| ==> Le(x, s[j])
  {
    forall j | 0 < j < |s| ensures Le(x, s[j]) {
      LeTransitive(x, s[0], s[j]);
    }
  }

  /** The head of a sorted list stays the least once a greater name joins its tail. */
  lemma HeadPrecedesInsertedName(x: string, s: seq<string>, rest: seq<string>)
    requires SortedNames(s) && s != [] && Le(s[0], x)
    requires multiset(rest) == multiset(s[1..]) + multiset{x}
    ensures forall j :: 0 <= j < |rest| ==> Le(s[0], rest[j])
  {
    forall j | 0 <= j < |rest| ensures Le(s[0], rest[j]) {
      assert rest[j] in multiset(rest);
      if rest[j] != x {
        assert rest[j] in multiset(s[1..]);
        assert rest[j] in s[1..];
        var k :| 1 <= k < |s| && s[k] == rest[j];
      }
    }
  }

  /** `names.sort((a, b) => a.localeCompare(b))`, with the ordinal order standing for the locale order. */
  function SortNames(names: seq<string>): (r: seq<string>)
    ensures SortedNames(r) && multiset(r) == multiset(names)
  {
    if names == [] then []
    else
      assert names == [names[0]] + names[1..];
      InsertName(names[0], SortNames(names[1..]))
  }

  lemma SortedHeadsEqual(a: seq<string>, b: seq<string>)
    requires SortedNames(a) && SortedNames(b) && multiset(a) == multiset(b) && a != []
    ensures b != [] && a[0] == b[0]
  {
    assert a[0] in multiset(b);
    assert b[0] in multiset(a);
    var i :| 0 <= i < |b| && b[i] == a[0];
    var k :| 0 <= k < |a| && a[k] == b[0];
    if a[0] != b[0] {
      assert Le(b[0], a[0]) && Le(a[0], b[0]);
      CompareAntisymmetric(a[0], b[0]);
      CompareZeroIsEqual(a[0], b[0]);
    }
  }

  lemma SortedTail(a: seq<string>)
    requires SortedNames(a) && a != []
    ensures SortedNames(a[1..])
  {
    forall i, j | 0 <= i < j < |a[1..]| ensures Le(a[1..][i], a[1..][j]) {
      assert a[1..][i] == a[i + 1] && a[1..][j] == a[j + 1];
    }
  }

  /** Two sorted arrangements of the same names are the same sequence, so any correct sort gives this result. */
  lemma {:induction false} SortedUnique(a: seq<string>, b: seq<string>)
    requires SortedNames(a) && SortedNames(b) && multiset(a) == multiset(b)
    ensures a == b
    decreases |a|
  {
    if a == [] {
      assert |b| == |multiset(b)| == 0;
    } else {
      SortedHeadsEqual(a, b);
      assert a == [a[0]] + a[1..] && b == [b[0]] + b[1..];
      assert multiset(a[1..]) == multiset(a) - multiset{a[0]};
      assert multiset(b[1..]) == multiset(b) - multiset{b[0]};
      SortedTail(a);
      SortedTail(b);
      SortedUnique(a[1..], b[1..]);
    }
  }

  /** The sync file names, in the order `getLatestSyncFile` and `deleteOldSyncFiles` sort them into. */
  function SortedSyncNames(names: seq<string>): (r: seq<string>)
    ensures SortedNames(r) && multiset(r) == multiset(KeepPrefixed(names, SyncPrefix))
    ensures forall n :: n in r <==> n in names && StartsWith(n, SyncPrefix)
  {
    var kept := KeepPrefixed(names, SyncPrefix);
    var r := SortNames(kept);
    assert forall n :: n in r <==> n in multiset(r);
    assert forall n :: n in kept <==> n in multiset(kept);
    r
  }

  /** The last of the sorted sync file names, if there is one. */
  function LatestSyncName(names: seq<string>): Option<string> {
    LastOf(SortedSyncNames(names))
  }

  /** The last element, if there is one. */
  function LastOf(ss: seq<string>): Option<string> {
    if ss == [] then None else Some(ss[|ss| - 1])
  }

  /** There is a latest sync file exactly when a name starts with `bookmarks_sync`, and it is the greatest such name. */
  lemma LatestIsGreatest(names: seq<string>)
    ensures LatestSyncName(names).None? <==> forall n :: n in names ==> !StartsWith(n, SyncPrefix)
    ensures LatestSyncName(names).Some? ==>
      var m := LatestSyncName(names).value;
      m in names && StartsWith(m, SyncPrefix) &&
      forall n :: n in names && StartsWith(n, SyncPrefix) ==> Le(n, m)
  {
    GreatestOf(names, SortedSyncNames(names), SyncPrefix);
  }

  /** The last of the sorted names carrying a prefix is the greatest such name, and there is none only when no name carries it. */
  lemma GreatestOf(names: seq<string>, ss: seq<string>, prefix: string)
    requires SortedNames(ss) && forall n :: n in ss <==> n in names && StartsWith(n, prefix)
    ensures LastOf(ss).None? <==> forall n :: n in names ==> !StartsWith(n, prefix)
    ensures LastOf(ss).Some? ==>
      var m := LastOf(ss).value;
      m in names && StartsWith(m, prefix) &&
      forall n :: n in names && StartsWith(n, prefix) ==> Le(n, m)
  {
    if ss != [] {
      assert ss[|ss| - 1] in ss;
      LastIsGreatest(ss);
    } else {
      forall n | n in names ensures !StartsWith(n, prefix) {
        assert n !in ss;
      }
    }
  }

  /** The last of sorted names is no less than any of them. */
  lemma LastIsGreatest(ss: seq<string>)
    requires SortedNames(ss) && ss != []
    ensures forall n :: n in ss ==> Le(n, ss[|ss| - 1])
  {
    forall n | n in ss ensures Le(n, ss[|ss| - 1]) {
      var i :| 0 <= i < |ss| && ss[i] == n;
      if i == |ss| - 1 {
        CompareZeroIsEqual(n, n);
      }
    }
  }

  /** The names `deleteOldSyncFiles` deletes, in the order it deletes them: every sorted sync name but the last. */
  function PrunedNames(names: seq<string>): seq<string> {
    var ss := SortedSyncNames(names);
    if |ss| <= 1 then [] else ss[..|ss| - 1]
  }

  predicate Distinct(s: seq<string>) {
    forall i, j :: 0 <= i < j < |s| ==> s[i] != s[j]
  }

  lemma DistinctCount(s: seq<string>, x: string)
    requires Distinct(s)
    ensures multiset(s)[x] <= 1
  {
    if s != [] {
      assert s == [s[0]] + s[1..];
      assert Distinct(s[1..]) by {
        forall i, j | 0 <= i < j < |s[1..]| ensures s[1..][i] != s[1..][j] {
          assert s[1..][i] == s[i + 1] && s[1..][j] == s[j + 1];
        }
      }
      DistinctCount(s[1..], x);
      if s[0] == x {
        assert x !in s[1..];
      }
    }
  }

  lemma CountedDistinct(s: seq<string>)
    requires forall x :: multiset(s)[x] <= 1
    ensures Distinct(s)
  {
    forall i, j | 0 <= i < j < |s| ensures s[i] != s[j] {
      assert s == s[..j] + s[j..];
      assert s[i] in s[..j];
      assert s[j] in s[j..];
      assert multiset(s)[s[j]] == multiset(s[..j])[s[j]] + multiset(s[j..])[s[j]];
    }
  }

  /** The sorted sync names of a directory with unique names are themselves unique. */
  lemma SortedSyncNamesDistinct(names: seq<string>)
    requires Distinct(names)
    ensures Distinct(SortedSyncNames(names))
  {
    var ss := SortedSyncNames(names);
    forall x ensures multiset(ss)[x] <= 1 {
      DistinctCount(names, x);
    }
    CountedDistinct(ss);
  }

  /**
   * Of a directory with unique names, pruning deletes every sync file but
   * the latest, keeps the latest, and never deletes a name that does not
   * start with `bookmarks_sync`; with at most one sync file it deletes nothing.
   */
  lemma PruneKeepsOnlyLatest(names: seq<string>)
    requires Distinct(names)
    ensures |SortedSyncNames(names)| <= 1 ==> PrunedNames(names) == []
    ensures forall n :: n in PrunedNames(names) ==> n in names && StartsWith(n, SyncPrefix) && Some(n) != LatestSyncName(names)
    ensures forall n :: n in names && StartsWith(n, SyncPrefix) && Some(n) != LatestSyncName(names) ==> n in PrunedNames(names)
  {
    var ss := SortedSyncNames(names);
    if |ss| > 1 {
      SortedSyncNamesDistinct(names);
      AllButLast(ss);
    }
  }

  /** Of unique names, all but the last are exactly the names other than the last one. */
  lemma AllButLast(ss: seq<string>)
    requires Distinct(ss) && ss != []
    ensures forall n :: n in ss[..|ss| - 1] <==> n in ss && n != ss[|ss| - 1]
  {
    var last := |ss| - 1;
    forall n | n in ss && n != ss[last] ensures n in ss[..last] {
      var i :| 0 <= i < |ss| && ss[i] == n;
      assert ss[..last][i] == n;
    }
    forall n | n in ss[..last] ensures n in ss && n != ss[last] {
      var i :| 0 <= i < last && ss[..last][i] == n;
      assert ss[i] == n;
    }
  }

  /** A backup file name (`bookmarks_backup_…`) is never a sync file name, so pruning never touches it. */
  lemma BackupsNeverPruned(names: seq<string>, n: string)
    requires StartsWith(n, "bookmarks_backup")
    ensures n !in PrunedNames(names)
  {
    assert n[..16] == "bookmarks_backup";
    assert n[10] == 'b';
    assert !StartsWith(n, SyncPrefix);
  }

  /** One row of the backup list. */
  datatype BackupInfo = BackupInfo(name: string, kind: string, size: nat)

  /** The `getBackupFiles` filter: every listed name starting with `bookmarks_`; the listing has no size, so it reads as 0. */
  function BackupList(names: seq<string>): (r: seq<BackupInfo>)
    ensures |r| == |KeepPrefixed(names, BackupPrefix)|
    ensures forall i :: 0 <= i < |r| ==> r[i] == BackupInfo(KeepPrefixed(names, BackupPrefix)[i], "webdav", 0)
  {
    var kept := KeepPrefixed(names, BackupPrefix);
    seq(|kept|, i requires 0 <= i < |kept| => BackupInfo(kept[i], "webdav", 0))
  }

  /** Every sync file is also listed as a backup. */
  lemma SyncFilesAreBackups(n: string)
    requires StartsWith(n, SyncPrefix)
    ensures StartsWith(n, BackupPrefix)
  {
    assert n[..|BackupPrefix|] == n[..|SyncPrefix|][..|BackupPrefix|];
  }
}
