/**
 * The new-tab page's side of synchronisation: the check at start-up that
 * compares the local sync timestamp with the newest sync file, the three
 * ways the conflict dialog resolves a disagreement, and the storage-change
 * listeners that schedule the debounced upload.
 */
module Sync {
  import opened Wrappers
  import opened Strings
  import opened Json
  import opened SyncFiles
  import opened Storage
  import Merge
  import WebDav
  import opened Numbers

  /** The text every alert of the conflict dialog starts with. */
  const ConflictFailurePrefix: string := "处理同步冲突失败："
  /** What reading `getFile` of a `null` client throws. */
  const NullClientMessage: string := "Cannot read properties of null (reading 'getFile')"

  /**
   * `local < cloud` with a number on the right, once the left side has gone
   * through ToNumber: negative infinity is less than every number, and NaN
   * is less than nothing.
   */
  predicate LessThan(local: Number, cloud: nat) {
    match local
    case Finite(v) => v < cloud as real
    case Infinite(positive) => !positive
    case NaN => false
  }

  /**
   * What the start-up check does once it has both timestamps; `Abandoned`
   * when the comparison throws and the check's `catch` only logs.
   */
  datatype Verdict = Download | InSync | Conflict | Abandoned

  /**
   * No local timestamp, or an older one, downloads; the very same number
   * does nothing; anything else is a conflict for the user to resolve.
   */
  function Decide(local: Json, cloud: nat): Verdict {
    if !Truthy(local) then Download
    else
      match ToNumber(local)
      case Err(_) => Abandoned
      case Ok(n) =>
        if LessThan(n, cloud) then Download
        else if local == Num(cloud) then InSync
        else Conflict
  }

  /**
   * On numeric timestamps: a missing (zero) or older local timestamp
   * downloads, an equal one is in sync, and only a local timestamp newer
   * than the cloud's raises the conflict dialog.
   */
  lemma DecideOnNumbers(local: int, cloud: nat)
    ensures Decide(Num(local), cloud) == Download <==> local == 0 || local < cloud
    ensures Decide(Num(local), cloud) == InSync <==> local != 0 && local == cloud
    ensures Decide(Num(local), cloud) == Conflict <==> local != 0 && local > cloud
  {
  }

  /**
   * A stored timestamp of decimal digits compares by its value: an older
   * one downloads, any other one raises the conflict dialog (a string is
   * never the number itself).
   */
  lemma DigitStringTimestamp(s: string, cloud: nat)
    requires s != [] && AllDigits(s)
    ensures Decide(Str(s), cloud) == if ParseDecimal(s) < cloud then Download else Conflict
  {
    UnsignedDigitsRead(s);
    NonNumberDecides(Str(s), cloud, Finite(ParseDecimal(s) as real));
  }

  /** A truthy timestamp that is not a number is decided by its conversion alone. */
  lemma NonNumberDecides(local: Json, cloud: nat, n: Number)
    requires Truthy(local) && !local.Num? && ToNumber(local) == Ok(n)
    ensures Decide(local, cloud) == if LessThan(n, cloud) then Download else Conflict
  {
  }

  /** A one-element array compares as its element: `[5]` with a cloud timestamp of 10 downloads. */
  lemma SingletonArrayTimestamp(n: int, cloud: nat)
    ensures Decide(Arr([Num(n)]), cloud) == if n < cloud then Download else Conflict
  {
    SingletonArrays(n);
  }

  /**
   * An object without an own `toString` is NaN, neither older nor equal, so
   * it always raises the conflict dialog.
   */
  lemma ObjectTimestampConflicts(fields: map<string, Json>, cloud: nat)
    requires "toString" !in fields
    ensures Decide(Obj(fields), cloud) == Conflict
  {
    ObjectIsNaN(fields);
  }

  /**
   * An object with an own `toString` entry, alone or inside an array, makes
   * the comparison throw: the check ends in its `catch`, with neither a
   * download nor the dialog.
   */
  lemma ToStringTimestampAbandoned(fields: map<string, Json>, items: seq<Json>, i: nat, cloud: nat)
    requires "toString" in fields && i < |items| && items[i] == Obj(fields)
    ensures Decide(Obj(fields), cloud) == Abandoned
    ensures Decide(Arr(items), cloud) == Abandoned
  {
    ToStringEntryThrows(fields, items, i);
  }

  /**
   * A page whose own upload made the newest sync file finds itself in sync:
   * the upload stored the timestamp that the file name carries.
   */
  lemma OwnUploadIsInSync(s: LocalState, remote: seq<RemoteFile>, tree: Json, now: nat, date: string,
                           listOk: bool, failAfter: nat)
    requires now != 0
    ensures var e := UploadEffect(s, remote, true, tree, now, date, true, listOk, failAfter);
      e.outcome == Uploaded(SyncFileName(date, now)) &&
      ExtractTimestamp(e.outcome.fileName) == Some(now) &&
      Decide(StoredTimestamp(e.local, true), now) == InSync
  {
    SyncFileNameTimestamp(date, now);
    SaveThenRead(AfterSnapshot(s), SyncTimestampKey, Num(now), Null);
  }

  /**
   * A page that downloaded the newest sync file finds itself in sync
   * afterwards: the download stored the timestamp the name carries, and
   * reading it back compares equal to the cloud timestamp.
   */
  lemma DownloadedIsInSync(s: LocalState, remote: seq<RemoteFile>, name: string, d: Json, t: nat)
    requires Lookup(remote, name) == Some(Doc(d)) && !d.Null?
    requires ExtractTimestamp(name) == Some(t) && t != 0
    ensures var e := DownloadEffect(s, remote, true, name, true);
      e.outcome == Applied && Decide(StoredTimestamp(e.local, true), t) == InSync
  {
    var saved := SaveAll(s, d).value;
    assert DownloadEffect(s, remote, true, name, true).local == Saved(saved, SyncTimestampKey, Num(t));
    SaveThenRead(saved, SyncTimestampKey, Num(t), Null);
  }

  /** The timestamp `getData(SYNC_TS, null)` yields, by whether the storage read succeeds. */
  function StoredTimestamp(s: LocalState, readOk: bool): Json {
    if readOk then ReadValue(s, SyncTimestampKey, Null) else CacheFallback(s.cache, SyncTimestampKey, Null)
  }

  /** The newest sync file `getLatestSyncFile` finds. */
  function LatestOnServer(hasClient: bool, listOk: bool, remote: seq<RemoteFile>): Option<string> {
    if !hasClient || !listOk then None else LatestSyncName(Names(remote))
  }

  /** How `initSyncCheck` ends. */
  datatype Startup =
    | NoSyncFile
    | UnreadableName(name: string)
    | Downloaded(fileName: string, outcome: Outcome)
    | UpToDate
    | ConflictShown(fileName: string, local: Json, cloud: nat)
    | CheckFailed(error: JsError)

  /**
   * `initSyncCheck`: read the local timestamp, find the newest sync file and
   * the timestamp in its name, and act on the verdict. A download is
   * followed by a page reload whatever its outcome.
   */
  method InitSyncCheck(sm: StorageManager, readOk: bool, listOk: bool, get: bool) returns (r: Startup)
    requires sm.Valid()
    modifies sm
    ensures sm.Valid() && sm.remote == old(sm.remote) && sm.pendingUpload == old(sm.pendingUpload)
    ensures
      var latest := LatestOnServer(old(sm.webdavClient) != null, listOk, old(sm.remote));
      var local := StoredTimestamp(old(sm.Local()), readOk);
      match latest
      case None => r == NoSyncFile
      case Some(name) =>
        match ExtractTimestamp(name)
        case None => r == UnreadableName(name)
        case Some(cloud) =>
          match Decide(local, cloud)
          case Download =>
            var read := if readOk then AfterRead(old(sm.Local()), SyncTimestampKey) else old(sm.Local());
            var e := DownloadEffect(read, old(sm.remote), old(sm.webdavClient) != null, name, get);
            r == Downloaded(name, e.outcome) && sm.Local() == e.local
          case InSync => r == UpToDate
          case Conflict => r == ConflictShown(name, local, cloud)
          case Abandoned => r == CheckFailed(ConversionError)
    ensures !r.Downloaded? ==>
      sm.webdavClient == old(sm.webdavClient) &&
      sm.Local() == if readOk then AfterRead(old(sm.Local()), SyncTimestampKey) else old(sm.Local())
    ensures r.Downloaded? ==>
      var cfg := DownloadedConfig(old(sm.remote), old(sm.webdavClient) != null, r.fileName, get);
      (cfg.Some? ==> ClientMatches(sm.webdavClient, ClientSettings(cfg)) && (sm.webdavClient != null ==> fresh(sm.webdavClient))) &&
      (cfg.None? ==> sm.webdavClient == old(sm.webdavClient))
  {
    var local := sm.GetData(SyncTimestampKey, Null, readOk);
    var latest := sm.GetLatestSyncFile(listOk);
    if latest.None? {
      return NoSyncFile;
    }
    var name := latest.value;
    var stamp := ExtractTimestamp(name);
    if stamp.None? {
      return UnreadableName(name);
    }
    r := ActOnVerdict(sm, name, local, stamp.value, get);
  }

  /** What the check does once both timestamps are known: the branches of `Decide`. */
  method ActOnVerdict(sm: StorageManager, name: string, local: Json, cloud: nat, get: bool) returns (r: Startup)
    requires sm.Valid()
    modifies sm
    ensures sm.Valid() && sm.remote == old(sm.remote) && sm.pendingUpload == old(sm.pendingUpload)
    ensures
      match Decide(local, cloud)
      case Download =>
        var e := DownloadEffect(old(sm.Local()), old(sm.remote), old(sm.webdavClient) != null, name, get);
        r == Downloaded(name, e.outcome) && sm.Local() == e.local
      case InSync => r == UpToDate
      case Conflict => r == ConflictShown(name, local, cloud)
      case Abandoned => r == CheckFailed(ConversionError)
    ensures !r.Downloaded? ==> sm.webdavClient == old(sm.webdavClient) && sm.Local() == old(sm.Local())
    ensures r.Downloaded? ==>
      var cfg := DownloadedConfig(old(sm.remote), old(sm.webdavClient) != null, name, get);
      r.fileName == name &&
      (cfg.Some? ==> ClientMatches(sm.webdavClient, ClientSettings(cfg)) && (sm.webdavClient != null ==> fresh(sm.webdavClient))) &&
      (cfg.None? ==> sm.webdavClient == old(sm.webdavClient))
  {
    match Decide(local, cloud)
    case Download =>
      var outcome := sm.DownloadAndApplySyncData(name, get);
      return Downloaded(name, outcome);
    case InSync =>
      return UpToDate;
    case Conflict =>
      return ConflictShown(name, local, cloud);
    case Abandoned =>
      return CheckFailed(ConversionError);
  }

  /** The options of the conflict dialog. */
  datatype Choice = KeepLocal | KeepCloud | MergeBoth

  /** The dialog closes after the chosen action (and the page reloads or not), or it stays open behind an alert. */
  datatype Resolution = Resolved(outcome: Outcome, reload: bool) | Alerted(message: string)

  /**
   * The confirm button of the conflict dialog: keep the local data (upload
   * it), keep the cloud data (download it and reload), or merge the two
   * (fetch and parse the cloud file, merge it with the local snapshot, save
   * the result, upload it and reload). Anything the merge throws becomes an
   * alert. `getError` is the message of the request failure that a
   * failing `getFile` rewraps.
   */
  method ResolveConflict(sm: StorageManager, choice: Choice, fileName: string, now: nat, date: string,
                         put: bool, listOk: bool, failAfter: nat, get: bool, getError: string)
    returns (r: Resolution)
    requires sm.Valid()
    modifies sm
    ensures sm.Valid() && sm.pendingUpload == old(sm.pendingUpload)
    ensures choice == KeepLocal ==>
      var e := UploadEffect(old(sm.Local()), old(sm.remote), old(sm.webdavClient) != null, sm.browserTree,
                            now, date, put, listOk, failAfter);
      r == Resolved(e.outcome, false) && sm.Local() == e.local && sm.remote == e.remote &&
      sm.webdavClient == old(sm.webdavClient)
    ensures choice == KeepCloud ==>
      var e := DownloadEffect(old(sm.Local()), old(sm.remote), old(sm.webdavClient) != null, fileName, get);
      var cfg := DownloadedConfig(old(sm.remote), old(sm.webdavClient) != null, fileName, get);
      r == Resolved(e.outcome, true) && sm.Local() == e.local && sm.remote == e.remote &&
      (cfg.Some? ==> ClientMatches(sm.webdavClient, ClientSettings(cfg)) && (sm.webdavClient != null ==> fresh(sm.webdavClient))) &&
      (cfg.None? ==> sm.webdavClient == old(sm.webdavClient))
    ensures choice == MergeBoth && old(sm.webdavClient) == null ==>
      r == Alerted(ConflictFailurePrefix + NullClientMessage) &&
      sm.Local() == old(sm.Local()) && sm.remote == old(sm.remote) && sm.webdavClient == old(sm.webdavClient)
    ensures choice == MergeBoth && old(sm.webdavClient) != null && (!get || Lookup(old(sm.remote), fileName).None?) ==>
      r == Alerted(ConflictFailurePrefix + WebDav.GetFilePrefix + getError) &&
      sm.Local() == old(sm.Local()) && sm.remote == old(sm.remote) && sm.webdavClient == old(sm.webdavClient)
    ensures choice == MergeBoth && old(sm.webdavClient) != null && get && Lookup(old(sm.remote), fileName) == Some(Unparseable) ==>
      r == Alerted(ConflictFailurePrefix + ParseError.message) &&
      sm.Local() == old(sm.Local()) && sm.remote == old(sm.remote) && sm.webdavClient == old(sm.webdavClient)
    ensures choice == MergeBoth && old(sm.webdavClient) != null && get && Lookup(old(sm.remote), fileName).Some? &&
            Lookup(old(sm.remote), fileName).value.Doc? ==>
      var cloud := Lookup(old(sm.remote), fileName).value.value;
      var merged := Merge.MergeDatasets(cloud, Snapshot(old(sm.Local()), sm.browserTree));
      sm.webdavClient == old(sm.webdavClient) &&
      (merged.Err? ==> r == Alerted(ConflictFailurePrefix + merged.error.message) &&
                       sm.Local() == AfterSnapshot(old(sm.Local())) && sm.remote == old(sm.remote)) &&
      (merged.Ok? ==>
        var e := UploadEffect(SaveAll(AfterSnapshot(old(sm.Local())), merged.value).value, old(sm.remote), true,
                              sm.browserTree, now, date, put, listOk, failAfter);
        r == Resolved(e.outcome, true) && sm.Local() == e.local && sm.remote == e.remote)
  {
    match choice {
      case KeepLocal =>
        var outcome := sm.UploadSyncData(now, date, put, listOk, failAfter);
        return Resolved(outcome, false);
      case KeepCloud =>
        var outcome := sm.DownloadAndApplySyncData(fileName, get);
        return Resolved(outcome, true);
      case MergeBoth =>
        if sm.webdavClient == null {
          return Alerted(ConflictFailurePrefix + NullClientMessage);
        }
        var body := Lookup(sm.remote, fileName);
        if !get || body.None? {
          return Alerted(ConflictFailurePrefix + WebDav.GetFilePrefix + getError);
        }
        if body.value.Unparseable? {
          return Alerted(ConflictFailurePrefix + ParseError.message);
        }
        var cloud := body.value.value;
        var local := sm.GetAllData();
        var merged := Merge.MergeDatasets(cloud, local);
        if merged.Err? {
          return Alerted(ConflictFailurePrefix + merged.error.message);
        }
        NoConfigField(merged.value);
        var saved := sm.SaveAllData(merged.value);
        var outcome := sm.UploadSyncData(now, date, put, listOk, failAfter);
        return Resolved(outcome, true);
    }
  }

  /** A merged dataset carries no `webdavConfig`, so saving it keeps the stored connection settings. */
  lemma NoConfigField(m: Json)
    requires m.Obj? && m.fields.Keys <= {"shortcuts", "settings", "searchEngines", "todos", "notes"}
    ensures Property(m, "webdavConfig") == Ok(None)
  {
  }

  /** The keys whose change schedules an upload. */
  const SyncableKeys: seq<string> := [ShortcutsKey, SettingsKey, SearchEnginesKey, TodosKey, NotesKey]

  /** `Object.keys(changes).some(key => syncableKeys.includes(key) && key !== SYNC_TS)` */
  predicate HasSyncableChange(changed: seq<string>) {
    exists i :: 0 <= i < |changed| && changed[i] in SyncableKeys && changed[i] != SyncTimestampKey
  }

  /**
   * The extra test against the timestamp key changes nothing: a change
   * schedules an upload exactly when it touches one of the five data keys.
   */
  lemma SyncableChangeIsDataChange(changed: seq<string>)
    ensures HasSyncableChange(changed) <==> exists i :: 0 <= i < |changed| && changed[i] in SyncableKeys
  {
    assert SyncTimestampKey !in SyncableKeys by {
      assert SyncTimestampKey[10] != ShortcutsKey[10] && SyncTimestampKey[10] != SettingsKey[10];
      assert SyncTimestampKey[10] != SearchEnginesKey[10] && SyncTimestampKey[10] != TodosKey[10];
      assert SyncTimestampKey[10] != NotesKey[10];
    }
  }

  /**
   * What the upload itself writes (the timestamp and the offline cache)
   * schedules no further upload, so uploads do not feed themselves.
   */
  lemma UploadWritesDoNotReschedule(changed: seq<string>)
    requires forall i :: 0 <= i < |changed| ==> changed[i] == SyncTimestampKey || changed[i] == OfflineCacheKey
    ensures !HasSyncableChange(changed)
    ensures UserBookmarksKey !in changed
  {
    assert UserBookmarksKey != SyncTimestampKey && UserBookmarksKey != OfflineCacheKey;
  }

  /**
   * The two `chrome.storage.onChanged` listeners together: in the local
   * area, a change to the user bookmarks or to a data key schedules the
   * debounced upload at `now`; nothing else does.
   */
  method OnStorageChanged(sm: StorageManager, area: string, changed: seq<string>, now: nat)
    modifies sm
    ensures sm.pendingUpload ==
      if area == "local" && (UserBookmarksKey in changed || HasSyncableChange(changed))
      then Some(now + DebounceDelay) else old(sm.pendingUpload)
    ensures sm.Local() == old(sm.Local()) && sm.remote == old(sm.remote) && sm.webdavClient == old(sm.webdavClient)
  {
    if area == "local" && UserBookmarksKey in changed {
      sm.ScheduleUpload(now);
    }
    if area == "local" {
      var i := 0;
      var found := false;
      while i < |changed| && !found
        invariant 0 <= i <= |changed|
        invariant found <==> exists j :: 0 <= j < i && changed[j] in SyncableKeys && changed[j] != SyncTimestampKey
      {
        found := changed[i] in SyncableKeys && changed[i] != SyncTimestampKey;
        i := i + 1;
      }
      if found {
        sm.ScheduleUpload(now);
      }
    }
  }
}
