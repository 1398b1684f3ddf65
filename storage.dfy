/**
 * `StorageManager`: the extension's view of `chrome.storage.local`, the
 * in-memory offline cache mirrored into it, the WebDAV client built from
 * the stored configuration, the `AndyTab/` directory on the server and the
 * debounce timer of the automatic upload.
 */
module Storage {
  import opened Wrappers
  import opened Strings
  import opened Json
  import opened SyncFiles
  import WebDav

  const SettingsKey: string := "andy_tab_settings"
  const ShortcutsKey: string := "andy_tab_shortcuts"
  const WebDavConfigKey: string := "andy_tab_webdav_config"
  const SearchEnginesKey: string := "andy_tab_search_engines"
  const OfflineCacheKey: string := "andy_tab_offline_cache"
  const TodosKey: string := "andy_tab_todos"
  const NotesKey: string := "andy_tab_notes"
  const SyncTimestampKey: string := "andy_tab_sync_lasttimestamp"
  const UserBookmarksKey: string := "user_bookmarks"

  /** The delay of the debounced upload, in milliseconds. */
  const DebounceDelay: nat := 3000

  const NoClientUploadMessage: string := "WebDAV未配置，无法上传同步数据"
  const NoClientDownloadMessage: string := "WebDAV未配置，无法下载同步数据"

  /** `chrome.storage.local` together with the offline cache. */
  datatype LocalState = LocalState(storage: map<string, Json>, cache: map<string, Json>)

  /** A file body: a JSON document, or text `JSON.parse` rejects. */
  datatype Body = Doc(value: Json) | Unparseable

  datatype RemoteFile = RemoteFile(name: string, body: Body)

  /** How an upload or a download ended. */
  datatype Outcome =
    | Uploaded(fileName: string)
    | Applied
    | NoClient(message: string)
    | RemoteFailed
    | Rejected(error: JsError)

  function Get(m: map<string, Json>, k: string): Option<Json> {
    if k in m then Some(m[k]) else None
  }

  /** The effect of a successful `saveData(key, v)`: the value is stored and cached, then the cache is written back. */
  function Saved(s: LocalState, key: string, v: Json): (r: LocalState)
    ensures r.cache == s.cache[key := v]
    ensures key != OfflineCacheKey ==> Get(r.storage, key) == Some(v)
    ensures Get(r.storage, OfflineCacheKey) == Some(Obj(r.cache))
    ensures forall k :: k != key && k != OfflineCacheKey ==> Get(r.storage, k) == Get(s.storage, k)
  {
    var c := s.cache[key := v];
    LocalState(s.storage[key := v][OfflineCacheKey := Obj(c)], c)
  }

  /** `this.offlineCache.get(key) || defaultValue` */
  function CacheFallback(cache: map<string, Json>, key: string, default: Json): (v: Json)
    ensures IsTruthy(Get(cache, key)) ==> v == cache[key]
    ensures !IsTruthy(Get(cache, key)) ==> v == default
  {
    Or(Get(cache, key), default)
  }

  /** What `getData(key, default)` returns when the read succeeds. */
  function ReadValue(s: LocalState, key: string, default: Json): Json {
    if key in s.storage then s.storage[key] else CacheFallback(s.cache, key, default)
  }

  /** The state after `getData(key)`: a stored value is mirrored into the cache and the cache written back. */
  function AfterRead(s: LocalState, key: string): LocalState {
    if key in s.storage then
      var c := s.cache[key := s.storage[key]];
      LocalState(s.storage[OfflineCacheKey := Obj(c)], c)
    else s
  }

  /** A stored value is read back as stored, and a value saved is read back as saved. */
  lemma SaveThenRead(s: LocalState, key: string, v: Json, default: Json)
    requires key != OfflineCacheKey
    ensures ReadValue(Saved(s, key, v), key, default) == v
    ensures AfterRead(Saved(s, key, v), key).cache[key] == v
  {
  }

  /**
   * Reading never changes a stored value other than the cache's own copy,
   * and a missing value falls back to a truthy cached one, then to the default.
   */
  lemma ReadObservations(s: LocalState, key: string, default: Json)
    ensures forall k :: k != OfflineCacheKey ==> Get(AfterRead(s, key).storage, k) == Get(s.storage, k)
    ensures key !in s.storage ==>
      (AfterRead(s, key) == s &&
       ReadValue(s, key, default) == (if key in s.cache && Truthy(s.cache[key]) then s.cache[key] else default))
    ensures key in s.storage ==> AfterRead(s, key).cache == s.cache[key := s.storage[key]]
  {
  }

  /** Reading one key does not change what another key reads as. */
  lemma ReadIndependent(s: LocalState, read: string, key: string, default: Json)
    requires read != key && key != OfflineCacheKey
    ensures ReadValue(AfterRead(s, read), key, default) == ReadValue(s, key, default)
  {
  }

  /** The five data fields of a snapshot, in the order `saveAllData` writes them, with their storage keys. */
  const DataFields: seq<(string, string)> := [
    ("shortcuts", ShortcutsKey), ("settings", SettingsKey), ("searchEngines", SearchEnginesKey),
    ("todos", TodosKey), ("notes", NotesKey)]

  /** `if (data.<name>) await this.saveData(key, data.<name>)` */
  function SaveField(s: LocalState, data: Json, name: string, key: string): LocalState
    requires !data.Null?
  {
    var v := Property(data, name).value;
    if IsTruthy(v) then Saved(s, key, v.value) else s
  }

  /** `storage.set({[key]: data.<name>})` when the field is truthy, without touching the cache. */
  function SetField(s: LocalState, data: Json, name: string, key: string): LocalState
    requires !data.Null?
  {
    var v := Property(data, name).value;
    if IsTruthy(v) then s.(storage := s.storage[key := v.value]) else s
  }

  /**
   * The local effect of `saveAllData(data)`: the five data fields through
   * `saveData`, then the WebDAV configuration and the bookmarks straight into
   * storage; reading a field of `null` throws before anything is written.
   */
  function SaveAll(s: LocalState, data: Json): (r: Result<LocalState, JsError>)
    ensures r.Err? <==> data.Null?
  {
    if data.Null? then Err(Property(data, "shortcuts").error)
    else
      var s1 := SaveField(s, data, "shortcuts", ShortcutsKey);
      var s2 := SaveField(s1, data, "settings", SettingsKey);
      var s3 := SaveField(s2, data, "searchEngines", SearchEnginesKey);
      var s4 := SaveField(s3, data, "todos", TodosKey);
      var s5 := SaveField(s4, data, "notes", NotesKey);
      var s6 := SetField(s5, data, "webdavConfig", WebDavConfigKey);
      Ok(SetField(s6, data, "bookmarks", UserBookmarksKey))
  }

  /** The storage keys `saveAllData` may write. */
  const SavedKeys: set<string> := {ShortcutsKey, SettingsKey, SearchEnginesKey, TodosKey, NotesKey,
                                   WebDavConfigKey, UserBookmarksKey, OfflineCacheKey}

  lemma SaveFieldFrame(s: LocalState, data: Json, name: string, key: string, k: string)
    requires !data.Null? && k != key && k != OfflineCacheKey
    ensures Get(SaveField(s, data, name, key).storage, k) == Get(s.storage, k)
  {
  }

  lemma SaveFieldHit(s: LocalState, data: Json, name: string, key: string)
    requires !data.Null? && key != OfflineCacheKey
    ensures Get(SaveField(s, data, name, key).storage, key) ==
      if IsTruthy(Property(data, name).value) then Property(data, name).value else Get(s.storage, key)
  {
  }

  /**
   * `saveAllData` writes a data field's key exactly when the field is
   * truthy, with the field's value; a missing field, `""`, `0` or `false`
   * leaves the stored value (or its absence) as it was, while empty arrays
   * and objects are written.
   */
  lemma SaveAllWritesTruthyFields(s: LocalState, data: Json, i: nat)
    requires !data.Null? && i < |DataFields|
    ensures
      var (name, key) := DataFields[i];
      var v := Property(data, name).value;
      Get(SaveAll(s, data).value.storage, key) == if IsTruthy(v) then v else Get(s.storage, key)
  {
    var s1 := SaveField(s, data, "shortcuts", ShortcutsKey);
    var s2 := SaveField(s1, data, "settings", SettingsKey);
    var s3 := SaveField(s2, data, "searchEngines", SearchEnginesKey);
    var s4 := SaveField(s3, data, "todos", TodosKey);
    var s5 := SaveField(s4, data, "notes", NotesKey);
    var s6 := SetField(s5, data, "webdavConfig", WebDavConfigKey);
    var s7 := SetField(s6, data, "bookmarks", UserBookmarksKey);
    assert SaveAll(s, data).value == s7;
    var key := DataFields[i].1;
    SetFieldFrame(s5, data, "webdavConfig", WebDavConfigKey, key);
    SetFieldFrame(s6, data, "bookmarks", UserBookmarksKey, key);
    if i == 0 {
      SaveFieldHit(s, data, "shortcuts", ShortcutsKey);
      SaveFieldFrame(s1, data, "settings", SettingsKey, key);
      SaveFieldFrame(s2, data, "searchEngines", SearchEnginesKey, key);
      SaveFieldFrame(s3, data, "todos", TodosKey, key);
      SaveFieldFrame(s4, data, "notes", NotesKey, key);
    } else if i == 1 {
      SaveFieldFrame(s, data, "shortcuts", ShortcutsKey, key);
      SaveFieldHit(s1, data, "settings", SettingsKey);
      SaveFieldFrame(s2, data, "searchEngines", SearchEnginesKey, key);
      SaveFieldFrame(s3, data, "todos", TodosKey, key);
      SaveFieldFrame(s4, data, "notes", NotesKey, key);
    } else if i == 2 {
      SaveFieldFrame(s, data, "shortcuts", ShortcutsKey, key);
      SaveFieldFrame(s1, data, "settings", SettingsKey, key);
      SaveFieldHit(s2, data, "searchEngines", SearchEnginesKey);
      SaveFieldFrame(s3, data, "todos", TodosKey, key);
      SaveFieldFrame(s4, data, "notes", NotesKey, key);
    } else if i == 3 {
      SaveFieldFrame(s, data, "shortcuts", ShortcutsKey, key);
      SaveFieldFrame(s1, data, "settings", SettingsKey, key);
      SaveFieldFrame(s2, data, "searchEngines", SearchEnginesKey, key);
      SaveFieldHit(s3, data, "todos", TodosKey);
      SaveFieldFrame(s4, data, "notes", NotesKey, key);
    } else {
      SaveFieldFrame(s, data, "shortcuts", ShortcutsKey, key);
      SaveFieldFrame(s1, data, "settings", SettingsKey, key);
      SaveFieldFrame(s2, data, "searchEngines", SearchEnginesKey, key);
      SaveFieldFrame(s3, data, "todos", TodosKey, key);
      SaveFieldHit(s4, data, "notes", NotesKey);
    }
  }

  lemma SetFieldFrame(s: LocalState, data: Json, name: string, key: string, k: string)
    requires !data.Null? && k != key
    ensures Get(SetField(s, data, name, key).storage, k) == Get(s.storage, k)
  {
  }

  /** `saveAllData` leaves every key outside the snapshot's own untouched. */
  lemma SaveAllKeepsOtherKeys(s: LocalState, data: Json, k: string)
    requires !data.Null? && k !in SavedKeys
    ensures Get(SaveAll(s, data).value.storage, k) == Get(s.storage, k)
  {
    var s1 := SaveField(s, data, "shortcuts", ShortcutsKey);
    var s2 := SaveField(s1, data, "settings", SettingsKey);
    var s3 := SaveField(s2, data, "searchEngines", SearchEnginesKey);
    var s4 := SaveField(s3, data, "todos", TodosKey);
    var s5 := SaveField(s4, data, "notes", NotesKey);
    SaveFieldFrame(s, data, "shortcuts", ShortcutsKey, k);
    SaveFieldFrame(s1, data, "settings", SettingsKey, k);
    SaveFieldFrame(s2, data, "searchEngines", SearchEnginesKey, k);
    SaveFieldFrame(s3, data, "todos", TodosKey, k);
    SaveFieldFrame(s4, data, "notes", NotesKey, k);
    var s6 := SetField(s5, data, "webdavConfig", WebDavConfigKey);
    SetFieldFrame(s5, data, "webdavConfig", WebDavConfigKey, k);
    SetFieldFrame(s6, data, "bookmarks", UserBookmarksKey, k);
    assert SaveAll(s, data).value == SetField(s6, data, "bookmarks", UserBookmarksKey);
  }

  /** The defaults `getAllData` reads the five data fields with. */
  function FieldDefault(name: string): Json {
    if name == "shortcuts" || name == "todos" then Arr([])
    else if name == "notes" then Str("")
    else Obj(map[])
  }

  /** The object `getAllData` returns. */
  function Snapshot(s: LocalState, browserTree: Json): (j: Json)
    ensures j.Obj? && j.fields.Keys == {"shortcuts", "settings", "searchEngines", "todos", "notes", "webdavConfig", "bookmarks"}
    ensures forall i :: 0 <= i < |DataFields| ==> j.fields[DataFields[i].0] == ReadValue(s, DataFields[i].1, FieldDefault(DataFields[i].0))
    ensures j.fields["webdavConfig"] == Or(Get(s.storage, WebDavConfigKey), Null)
    ensures j.fields["bookmarks"] == Or(Get(s.storage, UserBookmarksKey), browserTree)
  {
    var m := map[
      "shortcuts" := ReadValue(s, ShortcutsKey, Arr([])),
      "settings" := ReadValue(s, SettingsKey, Obj(map[])),
      "searchEngines" := ReadValue(s, SearchEnginesKey, Obj(map[])),
      "todos" := ReadValue(s, TodosKey, Arr([])),
      "notes" := ReadValue(s, NotesKey, Str("")),
      "webdavConfig" := Or(Get(s.storage, WebDavConfigKey), Null),
      "bookmarks" := Or(Get(s.storage, UserBookmarksKey), browserTree)];
    DataFieldsRead(s, m);
    Obj(m)
  }

  /** A map holding each data field's read under its name holds `DataFields`' reads, field by field. */
  lemma DataFieldsRead(s: LocalState, m: map<string, Json>)
    requires "shortcuts" in m && "settings" in m && "searchEngines" in m && "todos" in m && "notes" in m
    requires m["shortcuts"] == ReadValue(s, ShortcutsKey, Arr([])) && m["settings"] == ReadValue(s, SettingsKey, Obj(map[]))
    requires m["searchEngines"] == ReadValue(s, SearchEnginesKey, Obj(map[])) && m["todos"] == ReadValue(s, TodosKey, Arr([]))
    requires m["notes"] == ReadValue(s, NotesKey, Str(""))
    ensures forall i :: 0 <= i < |DataFields| ==> m[DataFields[i].0] == ReadValue(s, DataFields[i].1, FieldDefault(DataFields[i].0))
  {
  }

  /** The state after the five reads of `getAllData`. */
  function AfterSnapshot(s: LocalState): LocalState {
    AfterRead(AfterRead(AfterRead(AfterRead(AfterRead(s, ShortcutsKey), SettingsKey), SearchEnginesKey), TodosKey), NotesKey)
  }

  /**
   * Restoring a snapshot writes back every data field that was stored with a
   * truthy value, unchanged: the backup of the five fields is faithful.
   */
  lemma SnapshotRestores(s: LocalState, browserTree: Json, i: nat)
    requires i < |DataFields|
    requires DataFields[i].1 in s.storage && Truthy(s.storage[DataFields[i].1])
    ensures
      var key := DataFields[i].1;
      Get(SaveAll(s, Snapshot(s, browserTree)).value.storage, key) == Some(s.storage[key])
  {
    SaveAllWritesTruthyFields(s, Snapshot(s, browserTree), i);
  }

  /**
   * The `webdavConfig` value `initWebDAVClient` builds a client from:
   * `config && config.url` must hold and the URL must start with http:// or
   * https://. A URL that is not a string makes `startsWith` throw, which ends
   * in no client as well; non-string credentials and non-number timeouts read
   * as absent.
   */
  function ClientSettings(config: Option<Json>): (r: Option<WebDav.RawConfig>)
    ensures r.Some? ==> StartsWith(r.value.url, "http://") || StartsWith(r.value.url, "https://")
    ensures !IsTruthy(config) ==> r.None?
  {
    if !IsTruthy(config) then None
    else
      match Property(config.value, "url").value
      case Some(Str(u)) =>
        if u != "" && (StartsWith(u, "http://") || StartsWith(u, "https://")) then
          Some(WebDav.RawConfig(u, StringField(config.value, "username"), StringField(config.value, "password"),
                                NumberField(config.value, "timeout")))
        else None
      case _ => None
  }

  function StringField(j: Json, name: string): string
    requires !j.Null?
  {
    match Property(j, name).value
    case Some(Str(s)) => s
    case _ => ""
  }

  function NumberField(j: Json, name: string): int
    requires !j.Null?
  {
    match Property(j, name).value
    case Some(Num(n)) => n
    case _ => 0
  }

  /** The client in place is the one the constructor makes of `settings`, or none when there are none. */
  predicate ClientMatches(c: WebDav.WebDAVClient?, settings: Option<WebDav.RawConfig>) {
    (c == null <==> settings.None?) &&
    (c != null ==> c.url == WebDav.NormalizedUrl(settings.value.url) &&
                   c.username == settings.value.username && c.password == settings.value.password &&
                   c.timeout == (if settings.value.timeout != 0 then settings.value.timeout else WebDav.DefaultTimeout))
  }

  function Names(files: seq<RemoteFile>): (r: seq<string>)
    ensures |r| == |files| && forall i :: 0 <= i < |files| ==> r[i] == files[i].name
  {
    if files == [] then [] else [files[0].name] + Names(files[1..])
  }

  /** The body stored under `name`, if the directory has that file. */
  function Lookup(files: seq<RemoteFile>, name: string): (r: Option<Body>)
    ensures r.Some? <==> name in Names(files)
  {
    if files == [] then None
    else if files[0].name == name then Some(files[0].body)
    else
      var r := Lookup(files[1..], name);
      assert Names(files) == [files[0].name] + Names(files[1..]);
      r
  }

  /** PUT: the file is replaced where it stands, or added at the end. */
  function Put(files: seq<RemoteFile>, name: string, body: Body): (r: seq<RemoteFile>)
    ensures Lookup(r, name) == Some(body)
    ensures forall n :: n != name ==> Lookup(r, n) == Lookup(files, n)
  {
    if files == [] then [RemoteFile(name, body)]
    else if files[0].name == name then [RemoteFile(name, body)] + files[1..]
    else [files[0]] + Put(files[1..], name, body)
  }

  /** PUT keeps names unique, adds the new name and no other, and grows the directory by at most one file. */
  lemma {:induction false} PutNames(files: seq<RemoteFile>, name: string, body: Body)
    ensures forall n :: n in Names(Put(files, name, body)) <==> n in Names(files) || n == name
    ensures Distinct(Names(files)) ==> Distinct(Names(Put(files, name, body)))
    ensures |Put(files, name, body)| <= |files| + 1
    decreases |files|
  {
    if files != [] {
      var r := Put(files, name, body);
      assert Names(files) == [files[0].name] + Names(files[1..]);
      if files[0].name == name {
        assert Names(r) == [name] + Names(files[1..]);
        if Distinct(Names(files)) {
          DistinctNamesTail(files);
          DistinctCons(name, Names(files[1..]));
        }
      } else {
        var rest := Put(files[1..], name, body);
        PutNames(files[1..], name, body);
        assert Names(r) == [files[0].name] + Names(rest);
        if Distinct(Names(files)) {
          DistinctNamesTail(files);
          DistinctCons(files[0].name, Names(rest));
        }
      }
    }
  }

  /** The tail of a directory with unique names has unique names, none of them the head's. */
  lemma DistinctNamesTail(files: seq<RemoteFile>)
    requires files != [] && Distinct(Names(files))
    ensures Distinct(Names(files[1..])) && files[0].name !in Names(files[1..])
  {
    var tail := Names(files[1..]);
    forall i, j | 0 <= i < j < |tail| ensures tail[i] != tail[j] {
      assert tail[i] == Names(files)[i + 1];
      assert tail[j] == Names(files)[j + 1];
    }
  }

  /** A new name in front of unique names keeps them unique. */
  lemma DistinctCons(x: string, s: seq<string>)
    requires Distinct(s) && x !in s
    ensures Distinct([x] + s)
  {
    var r := [x] + s;
    forall i, j | 0 <= i < j < |r| ensures r[i] != r[j] {
      assert r[j] == s[j - 1];
      if i > 0 {
        assert r[i] == s[i - 1];
      }
    }
  }

  /** DELETE of every file whose name is listed, keeping the others in order. */
  function Without(files: seq<RemoteFile>, gone: seq<string>): (r: seq<RemoteFile>)
    ensures forall n :: n !in gone ==> Lookup(r, n) == Lookup(files, n)
    ensures forall n :: n in gone ==> Lookup(r, n).None?
  {
    if files == [] then []
    else
      var rest := Without(files[1..], gone);
      if files[0].name in gone then rest else [files[0]] + rest
  }

  /** Deleting keeps names unique and removes exactly the listed names. */
  lemma {:induction false} WithoutNames(files: seq<RemoteFile>, gone: seq<string>)
    ensures forall n :: n in Names(Without(files, gone)) <==> n in Names(files) && n !in gone
    ensures Distinct(Names(files)) ==> Distinct(Names(Without(files, gone)))
    decreases |files|
  {
    if files != [] {
      var rest := Without(files[1..], gone);
      WithoutNames(files[1..], gone);
      assert Names(files) == [files[0].name] + Names(files[1..]);
      if files[0].name !in gone {
        assert Names(Without(files, gone)) == [files[0].name] + Names(rest);
        if Distinct(Names(files)) {
          DistinctNamesTail(files);
          DistinctCons(files[0].name, Names(rest));
        }
      } else if Distinct(Names(files)) {
        DistinctNamesTail(files);
      }
    }
  }

  lemma {:induction false} WithoutNothing(files: seq<RemoteFile>)
    ensures Without(files, []) == files
    decreases |files|
  {
    if files != [] {
      WithoutNothing(files[1..]);
      assert files == [files[0]] + files[1..];
    }
  }

  lemma {:induction false} WithoutOneMore(files: seq<RemoteFile>, gone: seq<string>, n: string)
    ensures Without(files, gone + [n]) == Without(Without(files, gone), [n])
    decreases |files|
  {
    if files != [] {
      WithoutOneMore(files[1..], gone, n);
    }
  }

  lemma WithoutStep(files: seq<RemoteFile>, gone: seq<string>, i: nat)
    requires i < |gone|
    ensures Without(files, gone[..i + 1]) == Without(Without(files, gone[..i]), [gone[i]])
  {
    assert gone[..i + 1] == gone[..i] + [gone[i]];
    WithoutOneMore(files, gone[..i], gone[i]);
  }

  /** The first `k` names, or all of them. */
  lemma TakeNothing(k: nat)
    ensures Take([], k) == []
  {
  }

  /** The names pruning deletes: all sorted sync names but the last, none when there is at most one. */
  lemma PrunedNamesOf(names: seq<string>, ss: seq<string>)
    requires ss == SortedSyncNames(names)
    ensures |ss| <= 1 ==> PrunedNames(names) == []
    ensures |ss| > 1 ==> PrunedNames(names) == ss[..|ss| - 1]
  {
  }

  function Take(s: seq<string>, k: nat): (r: seq<string>)
    ensures |r| == if k < |s| then k else |s|
    ensures r == s[..|r|]
  {
    if k < |s| then s[..k] else s
  }

  /**
   * The directory after `deleteOldSyncFiles` when it can list it: every
   * sync file but the newest is deleted in name order, and the deleting
   * stops at the first DELETE that fails, after `failAfter` successes.
   */
  function Pruned(files: seq<RemoteFile>, failAfter: nat): seq<RemoteFile> {
    Without(files, Take(PrunedNames(Names(files)), failAfter))
  }

  /**
   * When every DELETE succeeds, pruning leaves exactly one sync file, the
   * newest, and every other file as it was.
   */
  lemma PrunedLeavesNewest(files: seq<RemoteFile>, failAfter: nat, n: string)
    requires Distinct(Names(files))
    requires failAfter >= |Names(files)|
    ensures StartsWith(n, SyncPrefix) ==>
      (n in Names(Pruned(files, failAfter)) <==> LatestSyncName(Names(files)) == Some(n))
    ensures !StartsWith(n, SyncPrefix) ==> Lookup(Pruned(files, failAfter), n) == Lookup(files, n)
  {
    var names := Names(files);
    var gone := PrunedNames(names);
    PruneKeepsOnlyLatest(names);
    LatestIsGreatest(names);
    PrunedNamesLength(names);
    assert Take(gone, failAfter) == gone;
    var kept := Without(files, gone);
    WithoutNames(files, gone);
    PruneCore(names, Names(kept), gone, LatestSyncName(names), n);
  }

  /** The name-level argument behind `PrunedLeavesNewest`, stated on the names alone. */
  lemma PruneCore(names: seq<string>, kept: seq<string>, gone: seq<string>, latest: Option<string>, n: string)
    requires forall x :: x in kept <==> x in names && x !in gone
    requires forall x :: x in gone ==> x in names && StartsWith(x, SyncPrefix) && Some(x) != latest
    requires forall x :: x in names && StartsWith(x, SyncPrefix) && Some(x) != latest ==> x in gone
    requires latest.Some? ==> latest.value in names && StartsWith(latest.value, SyncPrefix)
    ensures StartsWith(n, SyncPrefix) ==> (n in kept <==> latest == Some(n))
    ensures !StartsWith(n, SyncPrefix) ==> n !in gone
  {
  }

  lemma PrunedNamesLength(names: seq<string>)
    ensures |PrunedNames(names)| <= |names|
  {
    var kept := KeepPrefixed(names, SyncPrefix);
    assert |multiset(kept)| <= |multiset(names)| by {
      assert multiset(kept) <= multiset(names);
      MultisetSubsetSize(multiset(kept), multiset(names));
    }
  }

  lemma MultisetSubsetSize(a: multiset<string>, b: multiset<string>)
    requires a <= b
    ensures |a| <= |b|
  {
    assert b == a + (b - a);
  }

  /** Pruning never deletes a file whose name does not start with `bookmarks_sync`, however many DELETEs fail. */
  lemma PrunedKeepsOthers(files: seq<RemoteFile>, failAfter: nat, n: string)
    requires !StartsWith(n, SyncPrefix)
    ensures Lookup(Pruned(files, failAfter), n) == Lookup(files, n)
  {
  }

  /** What an upload or a download leaves behind: how it ended, the local state and the server's directory. */
  datatype Effect = Effect(outcome: Outcome, local: LocalState, remote: seq<RemoteFile>)

  /**
   * `uploadSyncData` at time `now` on the UTC day `date`, over the local
   * state `s` and the directory `remote`: without a client nothing happens;
   * otherwise the snapshot is read, and when the PUT goes through it is
   * stored under the sync name, the timestamp is saved and, when the
   * listing succeeds, the older sync files are pruned.
   */
  function UploadEffect(s: LocalState, remote: seq<RemoteFile>, hasClient: bool, tree: Json,
                        now: nat, date: string, put: bool, listOk: bool, failAfter: nat): Effect
  {
    if !hasClient then Effect(NoClient(NoClientUploadMessage), s, remote)
    else if !put then Effect(RemoteFailed, AfterSnapshot(s), remote)
    else
      var name := SyncFileName(date, now);
      var uploaded := Put(remote, name, Doc(Snapshot(s, tree)));
      Effect(Uploaded(name), Saved(AfterSnapshot(s), SyncTimestampKey, Num(now)),
             if listOk then Pruned(uploaded, failAfter) else uploaded)
  }

  /**
   * `downloadAndApplySyncData(fileName)` over `s` and `remote`: a missing
   * client, a failed GET, a body that does not parse and `null` data end
   * without a write; any other document is saved with `saveAllData`, then
   * the timestamp in the name, if any, is stored.
   */
  function DownloadEffect(s: LocalState, remote: seq<RemoteFile>, hasClient: bool, fileName: string, get: bool): Effect
  {
    if !hasClient then Effect(NoClient(NoClientDownloadMessage), s, remote)
    else
      match (if get then Lookup(remote, fileName) else None)
      case None => Effect(RemoteFailed, s, remote)
      case Some(Unparseable) => Effect(Rejected(ParseError), s, remote)
      case Some(Doc(data)) =>
        if data.Null? then Effect(Rejected(SaveAll(s, data).error), s, remote)
        else
          var saved := SaveAll(s, data).value;
          Effect(Applied, match ExtractTimestamp(fileName)
                          case Some(t) => Saved(saved, SyncTimestampKey, Num(t))
                          case None => saved, remote)
  }

  /** The truthy `webdavConfig` of the document a download applies, from which `saveAllData` rebuilds the client. */
  function DownloadedConfig(remote: seq<RemoteFile>, hasClient: bool, fileName: string, get: bool): Option<Json> {
    if !hasClient || !get then None
    else
      match Lookup(remote, fileName)
      case Some(Doc(data)) =>
        if !data.Null? && IsTruthy(Property(data, "webdavConfig").value) then Property(data, "webdavConfig").value else None
      case _ => None
  }

  /**
   * A download applies exactly a non-null document it fetched; every other
   * outcome leaves the local state as it was, and the server is never changed.
   */
  lemma DownloadWritesOnlyWhenApplied(s: LocalState, remote: seq<RemoteFile>, hasClient: bool, fileName: string, get: bool)
    ensures var e := DownloadEffect(s, remote, hasClient, fileName, get);
      e.remote == remote &&
      (e.outcome == Applied <==>
        hasClient && get && Lookup(remote, fileName).Some? && Lookup(remote, fileName).value.Doc? &&
        !Lookup(remote, fileName).value.value.Null?) &&
      (e.outcome != Applied ==> e.local == s)
  {
  }

  /** The client changes only through a download that applies a document holding a configuration. */
  lemma DownloadedConfigApplied(remote: seq<RemoteFile>, hasClient: bool, fileName: string, get: bool, s: LocalState)
    ensures DownloadedConfig(remote, hasClient, fileName, get).Some? ==>
      DownloadEffect(s, remote, hasClient, fileName, get).outcome == Applied &&
      Truthy(DownloadedConfig(remote, hasClient, fileName, get).value)
  {
  }

  class StorageManager {
    var storage: map<string, Json>
    var offlineCache: map<string, Json>
    var webdavClient: WebDav.WebDAVClient?
    /** The files of `AndyTab/` on the server, in listing order. */
    var remote: seq<RemoteFile>
    /** When the debounced upload is due, if one is scheduled. */
    var pendingUpload: Option<nat>
    /** The tree `chrome.bookmarks.getTree` yields, used when no user bookmarks are stored. */
    const browserTree: Json

    function Local(): LocalState
      reads this
    {
      LocalState(storage, offlineCache)
    }

    /** File names on the server are unique. */
    predicate Valid()
      reads this
    {
      Distinct(Names(remote))
    }

    /** A fresh manager: no client, an empty cache and no pending timer. */
    constructor (local: map<string, Json>, server: seq<RemoteFile>, tree: Json)
      requires Distinct(Names(server))
      ensures Valid()
      ensures storage == local && offlineCache == map[] && webdavClient == null
      ensures remote == server && pendingUpload == None && browserTree == tree
    {
      storage := local;
      offlineCache := map[];
      webdavClient := null;
      remote := server;
      pendingUpload := None;
      browserTree := tree;
    }

    /** `saveOfflineCache`: the cache as an object under its own key. */
    method SaveOfflineCache()
      modifies this
      ensures storage == old(storage)[OfflineCacheKey := Obj(offlineCache)]
      ensures offlineCache == old(offlineCache) && remote == old(remote)
      ensures webdavClient == old(webdavClient) && pendingUpload == old(pendingUpload)
    {
      storage := storage[OfflineCacheKey := Obj(offlineCache)];
    }

    /** `loadOfflineCache`: the stored cache object's entries, or an empty cache when the read fails. */
    method LoadOfflineCache(readOk: bool)
      modifies this
      ensures offlineCache == if readOk then OwnEntries(Some(Or(Get(storage, OfflineCacheKey), Obj(map[])))) else map[]
      ensures storage == old(storage) && remote == old(remote)
      ensures webdavClient == old(webdavClient) && pendingUpload == old(pendingUpload)
    {
      if readOk {
        var cache := Or(Get(storage, OfflineCacheKey), Obj(map[]));
        offlineCache := OwnEntries(Some(cache));
      } else {
        offlineCache := map[];
      }
    }

    /** `saveData(key, v)`; when the first write fails nothing changes and failure is reported. */
    method SaveData(key: string, v: Json, writeOk: bool) returns (success: bool)
      modifies this
      ensures success == writeOk
      ensures Local() == if writeOk then Saved(old(Local()), key, v) else old(Local())
      ensures remote == old(remote) && webdavClient == old(webdavClient) && pendingUpload == old(pendingUpload)
    {
      if !writeOk {
        return false;
      }
      storage := storage[key := v];
      offlineCache := offlineCache[key := v];
      SaveOfflineCache();
      return true;
    }

    /** `getData(key, default)`; a failing read answers from the cache, then the default. */
    method GetData(key: string, default: Json, readOk: bool) returns (v: Json)
      modifies this
      ensures readOk ==> v == ReadValue(old(Local()), key, default) && Local() == AfterRead(old(Local()), key)
      ensures !readOk ==> v == CacheFallback(old(offlineCache), key, default) && Local() == old(Local())
      ensures remote == old(remote) && webdavClient == old(webdavClient) && pendingUpload == old(pendingUpload)
    {
      if !readOk {
        return Or(Get(offlineCache, key), default);
      }
      if key !in storage {
        v := Or(Get(offlineCache, key), default);
      } else {
        v := storage[key];
        offlineCache := offlineCache[key := v];
        SaveOfflineCache();
      }
    }

    /** `getWebDAVConfig`: the stored configuration, or null. */
    function GetWebDAVConfig(): (c: Json)
      reads this
      ensures IsTruthy(Get(storage, WebDavConfigKey)) ==> c == storage[WebDavConfigKey]
      ensures !IsTruthy(Get(storage, WebDavConfigKey)) ==> c == Null
    {
      Or(Get(storage, WebDavConfigKey), Null)
    }

    /** `getAllData`: the five data fields, the WebDAV configuration and the bookmarks. */
    method GetAllData() returns (data: Json)
      modifies this
      ensures data == Snapshot(old(Local()), browserTree)
      ensures Local() == AfterSnapshot(old(Local()))
      ensures remote == old(remote) && webdavClient == old(webdavClient) && pendingUpload == old(pendingUpload)
    {
      ghost var s0 := Local();
      var shortcuts := GetData(ShortcutsKey, Arr([]), true);
      ghost var s1 := Local();
      var settings := GetData(SettingsKey, Obj(map[]), true);
      ReadIndependent(s0, ShortcutsKey, SettingsKey, Obj(map[]));
      ghost var s2 := Local();
      var engines := GetData(SearchEnginesKey, Obj(map[]), true);
      ReadIndependent(s0, ShortcutsKey, SearchEnginesKey, Obj(map[]));
      ReadIndependent(s1, SettingsKey, SearchEnginesKey, Obj(map[]));
      ghost var s3 := Local();
      var todos := GetData(TodosKey, Arr([]), true);
      ReadIndependent(s0, ShortcutsKey, TodosKey, Arr([]));
      ReadIndependent(s1, SettingsKey, TodosKey, Arr([]));
      ReadIndependent(s2, SearchEnginesKey, TodosKey, Arr([]));
      ghost var s4 := Local();
      var notes := GetData(NotesKey, Str(""), true);
      ReadIndependent(s0, ShortcutsKey, NotesKey, Str(""));
      ReadIndependent(s1, SettingsKey, NotesKey, Str(""));
      ReadIndependent(s2, SearchEnginesKey, NotesKey, Str(""));
      ReadIndependent(s3, TodosKey, NotesKey, Str(""));
      ReadObservations(s0, ShortcutsKey, Null);
      ReadObservations(s1, SettingsKey, Null);
      ReadObservations(s2, SearchEnginesKey, Null);
      ReadObservations(s3, TodosKey, Null);
      ReadObservations(s4, NotesKey, Null);
      var config := GetWebDAVConfig();
      var bookmarks := Or(Get(storage, UserBookmarksKey), browserTree);
      data := Obj(map["shortcuts" := shortcuts, "settings" := settings, "searchEngines" := engines,
                      "todos" := todos, "notes" := notes, "webdavConfig" := config, "bookmarks" := bookmarks]);
    }

    /** `initWebDAVClient`: a client for a usable stored configuration, none otherwise. */
    method InitWebDAVClient()
      modifies this
      ensures ClientMatches(webdavClient, ClientSettings(Get(storage, WebDavConfigKey)))
      ensures webdavClient != null ==> fresh(webdavClient)
      ensures Local() == old(Local()) && remote == old(remote) && pendingUpload == old(pendingUpload)
    {
      var settings := ClientSettings(Get(storage, WebDavConfigKey));
      if settings.Some? {
        webdavClient := new WebDav.WebDAVClient(settings.value);
      } else {
        webdavClient := null;
      }
    }

    /** `saveWebDAVConfig(config)`: store it, then rebuild the client from it. */
    method SaveWebDAVConfig(config: Json)
      modifies this
      ensures storage == old(storage)[WebDavConfigKey := config] && offlineCache == old(offlineCache)
      ensures ClientMatches(webdavClient, ClientSettings(Some(config)))
      ensures webdavClient != null ==> fresh(webdavClient)
      ensures remote == old(remote) && pendingUpload == old(pendingUpload)
    {
      storage := storage[WebDavConfigKey := config];
      InitWebDAVClient();
    }

    /** One `if (data.<name>) await this.saveData(key, data.<name>)` of `saveAllData`. */
    method SaveFieldOf(data: Json, name: string, key: string)
      requires !data.Null?
      modifies this
      ensures Local() == SaveField(old(Local()), data, name, key)
      ensures remote == old(remote) && webdavClient == old(webdavClient) && pendingUpload == old(pendingUpload)
    {
      var v := Property(data, name).value;
      if IsTruthy(v) {
        var ok := SaveData(key, v.value, true);
      }
    }

    /** `saveAllData(data)`, writing field after field; the bookmarks' restore into the browser is not part of it. */
    method SaveAllData(data: Json) returns (r: Result<(), JsError>)
      modifies this
      ensures r.Err? <==> data.Null?
      ensures r.Ok? ==> Local() == SaveAll(old(Local()), data).value
      ensures r.Err? ==> Local() == old(Local()) && webdavClient == old(webdavClient) && r.error == SaveAll(old(Local()), data).error
      ensures r.Ok? && IsTruthy(Property(data, "webdavConfig").value) ==>
        ClientMatches(webdavClient, ClientSettings(Property(data, "webdavConfig").value)) &&
        (webdavClient != null ==> fresh(webdavClient))
      ensures r.Ok? && !IsTruthy(Property(data, "webdavConfig").value) ==> webdavClient == old(webdavClient)
      ensures remote == old(remote) && pendingUpload == old(pendingUpload)
    {
      if data.Null? {
        return Err(Property(data, "shortcuts").error);
      }
      SaveFieldOf(data, "shortcuts", ShortcutsKey);
      SaveFieldOf(data, "settings", SettingsKey);
      SaveFieldOf(data, "searchEngines", SearchEnginesKey);
      SaveFieldOf(data, "todos", TodosKey);
      SaveFieldOf(data, "notes", NotesKey);
      ghost var s5 := Local();
      var config := Property(data, "webdavConfig").value;
      if IsTruthy(config) {
        SaveWebDAVConfig(config.value);
      }
      ghost var s6 := Local();
      assert s6 == SetField(s5, data, "webdavConfig", WebDavConfigKey);
      var bookmarks := Property(data, "bookmarks").value;
      if IsTruthy(bookmarks) {
        storage := storage[UserBookmarksKey := bookmarks.value];
      }
      return Ok(());
    }

    /** `getLatestSyncFile`: no client or a failed listing gives none; otherwise the greatest sync file name. */
    method GetLatestSyncFile(listOk: bool) returns (latest: Option<string>)
      ensures webdavClient == null || !listOk ==> latest.None?
      ensures webdavClient != null && listOk ==> latest == LatestSyncName(Names(remote))
    {
      if webdavClient == null || !listOk {
        return None;
      }
      var syncFiles := KeepPrefixed(Names(remote), SyncPrefix);
      if |syncFiles| == 0 {
        return None;
      }
      var sorted := SortNames(syncFiles);
      latest := Some(sorted[|sorted| - 1]);
    }

    /** The `getBackupFiles` list: every `bookmarks_` file when there is a client and the listing succeeds. */
    method GetBackupFiles(listOk: bool) returns (backups: seq<BackupInfo>)
      ensures webdavClient == null || !listOk ==> backups == []
      ensures webdavClient != null && listOk ==> backups == BackupList(Names(remote))
    {
      if webdavClient == null || !listOk {
        return [];
      }
      backups := BackupList(Names(remote));
    }

    /** `deleteOldSyncFiles`: the loop of DELETEs over the sorted sync names but the last. */
    method DeleteOldSyncFiles(listOk: bool, failAfter: nat)
      requires Valid()
      modifies this
      ensures Valid()
      ensures remote == if webdavClient != null && listOk then Pruned(old(remote), failAfter) else old(remote)
      ensures Local() == old(Local()) && webdavClient == old(webdavClient) && pendingUpload == old(pendingUpload)
    {
      if webdavClient == null || !listOk {
        return;
      }
      var syncFiles := SortedSyncNames(Names(remote));
      PrunedNamesOf(Names(remote), syncFiles);
      if |syncFiles| <= 1 {
        TakeNothing(failAfter);
        WithoutNothing(remote);
        return;
      }
      var victims := syncFiles[..|syncFiles| - 1];
      DeleteInOrder(victims, failAfter);
    }

    /** The `for` loop of `deleteOldSyncFiles`: DELETE each name in turn, stopping at the first failure. */
    method DeleteInOrder(victims: seq<string>, failAfter: nat)
      requires Valid()
      modifies this
      ensures Valid()
      ensures remote == Without(old(remote), Take(victims, failAfter))
      ensures Local() == old(Local()) && webdavClient == old(webdavClient) && pendingUpload == old(pendingUpload)
    {
      var files := DeleteEach(remote, victims, failAfter);
      WithoutNames(remote, Take(victims, failAfter));
      remote := files;
    }

    /** The DELETEs of the loop on the listing, one name at a time; the first `failAfter` succeed. */
    static method DeleteEach(files: seq<RemoteFile>, victims: seq<string>, failAfter: nat) returns (r: seq<RemoteFile>)
      ensures r == Without(files, Take(victims, failAfter))
    {
      var stop := Take(victims, failAfter);
      r := files;
      assert stop[..0] == [];
      WithoutNothing(files);
      for i := 0 to |stop|
        invariant r == Without(files, stop[..i])
      {
        WithoutStep(files, stop, i);
        r := Without(r, [stop[i]]);
      }
      assert stop[..|stop|] == stop;
    }

    /**
     * `uploadSyncData` at time `now` (ms) on the UTC day `date`: snapshot,
     * PUT under the sync name, record the timestamp, prune. `put` says
     * whether the PUT went through.
     */
    method UploadSyncData(now: nat, date: string, put: bool, listOk: bool, failAfter: nat) returns (r: Outcome)
      requires Valid()
      modifies this
      ensures Valid()
      ensures webdavClient == old(webdavClient) && pendingUpload == old(pendingUpload)
      ensures Effect(r, Local(), remote) ==
        UploadEffect(old(Local()), old(remote), old(webdavClient) != null, browserTree, now, date, put, listOk, failAfter)
    {
      if webdavClient == null {
        return NoClient(NoClientUploadMessage);
      }
      var data := GetAllData();
      var name := SyncFileName(date, now);
      if !put {
        return RemoteFailed;
      }
      PutNames(remote, name, Doc(data));
      remote := Put(remote, name, Doc(data));
      var ok := SaveData(SyncTimestampKey, Num(now), true);
      DeleteOldSyncFiles(listOk, failAfter);
      return Uploaded(name);
    }

    /**
     * `downloadAndApplySyncData(fileName)`: GET, parse, `saveAllData`, then
     * record the timestamp in the name when it has one. `get` says whether
     * the GET went through.
     */
    method DownloadAndApplySyncData(fileName: string, get: bool) returns (r: Outcome)
      requires Valid()
      modifies this
      ensures Valid() && pendingUpload == old(pendingUpload)
      ensures Effect(r, Local(), remote) == DownloadEffect(old(Local()), old(remote), old(webdavClient) != null, fileName, get)
      ensures var cfg := DownloadedConfig(old(remote), old(webdavClient) != null, fileName, get);
        (cfg.Some? ==> ClientMatches(webdavClient, ClientSettings(cfg)) && (webdavClient != null ==> fresh(webdavClient))) &&
        (cfg.None? ==> webdavClient == old(webdavClient))
    {
      if webdavClient == null {
        return NoClient(NoClientDownloadMessage);
      }
      var body := Lookup(remote, fileName);
      if !get || body.None? {
        return RemoteFailed;
      }
      if body.value.Unparseable? {
        return Rejected(ParseError);
      }
      var saved := SaveAllData(body.value.value);
      if saved.Err? {
        return Rejected(saved.error);
      }
      var stamp := ExtractTimestamp(fileName);
      if stamp.Some? {
        var ok := SaveData(SyncTimestampKey, Num(stamp.value), true);
      }
      return Applied;
    }

    /** `uploadSyncDataWithDebounce` at time `now`: any pending upload is replaced by one due 3000 ms later. */
    method ScheduleUpload(now: nat)
      modifies this
      ensures pendingUpload == Some(now + DebounceDelay)
      ensures Local() == old(Local()) && remote == old(remote) && webdavClient == old(webdavClient)
    {
      pendingUpload := Some(now + DebounceDelay);
    }

    /** The clock reaching `now`: a due upload runs once and the timer is spent; otherwise nothing happens. */
    method Tick(now: nat, date: string, put: bool, listOk: bool, failAfter: nat) returns (r: Option<Outcome>)
      requires Valid()
      modifies this
      ensures Valid()
      ensures old(pendingUpload).None? || now < old(pendingUpload).value ==>
        r.None? && pendingUpload == old(pendingUpload) && Local() == old(Local()) && remote == old(remote)
      ensures old(pendingUpload).Some? && now >= old(pendingUpload).value ==>
        var e := UploadEffect(old(Local()), old(remote), old(webdavClient) != null, browserTree, now, date, put, listOk, failAfter);
        r == Some(e.outcome) && pendingUpload.None? && Local() == e.local && remote == e.remote
      ensures webdavClient == old(webdavClient)
    {
      if pendingUpload.None? || now < pendingUpload.value {
        return None;
      }
      pendingUpload := None;
      var outcome := UploadSyncData(now, date, put, listOk, failAfter);
      return Some(outcome);
    }
  }

  /**
   * The upload records the timestamp its file name carries, so a later
   * download of that file stores the same timestamp again.
   */
  lemma UploadNameCarriesTimestamp(date: string, now: nat)
    ensures ExtractTimestamp(SyncFileName(date, now)) == Some(now)
    ensures Saved(LocalState(map[], map[]), SyncTimestampKey, Num(now)).storage[SyncTimestampKey] == Num(now)
  {
    SyncFileNameTimestamp(date, now);
  }

  /**
   * When the new sync name sorts after every sync name already on the
   * server and every DELETE succeeds, the upload leaves it as the only sync
   * file, and every other file as it was.
   */
  lemma UploadLeavesOnlyItsFile(files: seq<RemoteFile>, date: string, now: nat, body: Body, failAfter: nat, n: string)
    requires Distinct(Names(files))
    requires forall m :: m in Names(files) && StartsWith(m, SyncPrefix) ==> Le(m, SyncFileName(date, now))
    requires failAfter >= |Names(files)| + 1
    ensures StartsWith(n, SyncPrefix) ==>
      (n in Names(Pruned(Put(files, SyncFileName(date, now), body), failAfter)) <==> n == SyncFileName(date, now))
    ensures !StartsWith(n, SyncPrefix) ==> Lookup(Pruned(Put(files, SyncFileName(date, now), body), failAfter), n) == Lookup(files, n)
  {
    var name := SyncFileName(date, now);
    var up := Put(files, name, body);
    PutNames(files, name, body);
    PrunedLeavesNewest(up, failAfter, n);
    LatestIsGreatest(Names(up));
    var latest := LatestSyncName(Names(up)).value;
    assert name in Names(up);
    assert Le(name, latest);
    if latest != name {
      assert latest in Names(files);
      assert Le(latest, name);
      CompareAntisymmetric(latest, name);
      CompareZeroIsEqual(latest, name);
    }
  }
}
