# AndyTAB in Dafny

AndyTAB is a browser extension that replaces the new-tab page. It has:

- shortcuts, a search box with custom search engines, todos and notes;
- image caches for favicons, backgrounds and Bing wallpapers;
- synchronisation of all its data through a WebDAV server.

This project models the logic at the core of the extension and proves properties of it:

- **`StorageManager`** (`storage.dfy`). It covers:
  - `chrome.storage.local` and the in-memory offline cache;
  - the WebDAV client built from the stored configuration;
  - the `AndyTab/` directory on the server;
  - the debounce timer of the automatic upload, as a class whose methods update those fields.
- **The sync-file naming** (`syncfiles.dfy`): `bookmarks_sync_<date>_<t>.json`, the timestamp pattern `[_-]([0-9]+)\.json$`, the selection of the newest sync file, pruning and the backup list.
- **The new-tab page's side of sync** (`sync.dfy`, `merge.dfy`):
  - the start-up decision between download, nothing and the conflict dialog;
  - the dialog's three resolutions, with the merge modelled as the code behaves;
  - the storage-change listeners that schedule an upload.
- **The WebDAV client** (`webdav.dfy`, `base64.dfy`):
  - URL normalisation;
  - Basic authentication (section 2 of RFC 7617), with base64 as in section 4 of RFC 4648;
  - request options, status handling and error rewording;
  - the connection-test wording;
  - the PROPFIND multistatus listing (sections 9.1 and 13 of RFC 4918).
- **`ImageCacheManager`** (`imagecache.dfy`):
  - three maps updated in place, with their stored copies;
  - routing by flags and the single-entry Bing cache;
  - the same-day freshness rule and the 30-day expiry sweep;
  - batches of five.
- **The small pieces of the new-tab page**:
  - pagination and wheel paging (`pagination.dfy`);
  - drag reordering (`drag.dfy`);
  - the todo list (`todos.dfy`);
  - search-engine add, edit and delete (`engines.dfy`);
  - clock and date formats, name initials and the backup-list order (`format.dfy`).

Shared definitions:

- `wrappers.dfy`: `Option` and `Result`.
- `json.dfy`: JSON values with JavaScript truthiness, property access and spread.
- `strings.dfy`: JavaScript string operations.
- `numbers.dfy`: JavaScript's `ToNumber` on JSON values (section 7.1.4 of ECMA-262), with string numeric literals read as exact rationals.

Things outside the model become parameters:

- **Network:** the network is a function from request to transport result. Remote calls in `StorageManager` take "went through" flags.
- **Clocks and dates:** the timestamp, the date text, the hour and the calendar day of a timestamp are arguments.
- **Browser parsers:** the validity verdict of `new URL` and the elements DOMParser extracts are inputs.
- **Storage:** `getData` and `loadOfflineCache` take a read flag, and the image-cache `init` takes one read flag for each of its three loads. `saveData` and the image-cache saves and removal take a write flag. The sync operations (`getAllData`, `saveAllData`, the upload and the download) call them with both flags set, so their storage reads and writes always succeed.

## Model

| member | source | states |
|---|---|---|
| Base64.Encode | AndyTAB/src/utils/webdav.js:21 | four characters per started group of three bytes |
| Base64.DecodeEncode | AndyTAB/src/utils/webdav.js:21 | the RFC 4648 decoder gives back every byte sequence the encoder is given |
| Base64.Latin1Bytes | AndyTAB/src/utils/webdav.js:21 | the string has a byte reading exactly when every character code is below 256, and then byte i is character i's code |
| Base64.Btoa | AndyTAB/src/utils/webdav.js:21 | `btoa` succeeds exactly on strings of Latin-1 characters, with output length 4·⌈n/3⌉; any other character throws |
| Base64.BtoaDecodes | AndyTAB/src/utils/webdav.js:21 | the Basic credentials decode back to the character codes of `user:password` |
| WebDav.NormalizedUrl | AndyTAB/src/utils/webdav.js:13-15 | the base URL ends with '/'; an already slashed URL is kept; otherwise exactly one '/' is added |
| WebDav.NormalizedUrlIdempotent | AndyTAB/src/utils/webdav.js:13-15 | normalising twice equals normalising once |
| WebDav.WebDAVClient.constructor | AndyTAB/src/utils/webdav.js:4-16 | normalised URL; credentials as given (missing ones are ""); a missing timeout becomes 10000 ms |
| WebDav.WebDAVClient.AuthHeaders | AndyTAB/src/utils/webdav.js:19-25 | `Authorization: Basic base64(user:pass)` iff both the user name and the password are non-empty, else `{}`; `btoa` failure propagates |
| WebDav.WebDAVClient.BuildRequestOptions | AndyTAB/src/utils/webdav.js:28-47 | method as given; the auth headers are kept; Content-Type iff a content type is given; a body iff the body is truthy, a string unchanged and any other value serialised |
| WebDav.WebDAVClient.RequestUrl | AndyTAB/src/utils/webdav.js:51 | the request URL is the base URL followed by the path |
| WebDav.FailureMessage | AndyTAB/src/utils/webdav.js:75-82 | the error of a non-ok response starts with the failure prefix and contains the numeric status and the status text |
| WebDav.HandleResponse | AndyTAB/src/utils/webdav.js:74-101 | non-2xx throws the failure message; 204 gives null; a JSON content type gives the parsed body; anything else gives the text |
| WebDav.Reword | AndyTAB/src/utils/webdav.js:102-118 | AbortError becomes the timeout message; a `Failed to fetch` TypeError becomes the network message and a CORS failure the CORS message; everything else is rethrown unchanged |
| WebDav.WebDAVClient.SendRequest | AndyTAB/src/utils/webdav.js:50-119 | an abort gives the timeout error; a response is handled by its status; a thrown error is rethrown as `Reword` of it |
| WebDav.Wrap | AndyTAB/src/utils/webdav.js:164-171 | success passes through; a failure is re-thrown with the operation's prefix before its message |
| WebDav.WebDAVClient.TestConnection | AndyTAB/src/utils/webdav.js:122-161 | success iff the depth-0 PROPFIND on the base URL succeeds; a failure is worded by the first matching test |
| WebDav.UnauthorizedReportsCredentials | AndyTAB/src/utils/webdav.js:135-136 | a server answering 401 is reported as an authentication failure |
| WebDav.UnmatchedIsGeneric | AndyTAB/src/utils/webdav.js:155-157 | a message matching none of the patterns, on an error with no special name, is reported after the generic prefix |
| WebDav.TimeoutWordedGenerically | AndyTAB/src/utils/webdav.js:145-157 | the client's own timeout text matches none of the patterns and is worded generically |
| WebDav.ClientTimeoutReportedAsGeneric | AndyTAB/src/utils/webdav.js:104-152 | a timed-out connection test never shows the test's timeout wording, because `sendRequest` rewords the abort first |
| WebDav.WebDAVClient.Exists | AndyTAB/src/utils/webdav.js:196-204 | true iff the HEAD request succeeds |
| WebDav.WebDAVClient.DestinationHeaders | AndyTAB/src/utils/webdav.js:263-288 | COPY and MOVE add exactly `Destination` = base URL + destination and `Overwrite: T` |
| WebDav.WebDAVClient.ListDirectory | AndyTAB/src/utils/webdav.js:218-229 | a depth-1 PROPFIND whose reply is parsed into the listing; a failure is re-thrown with the listing prefix |
| WebDav.StripTrailingSlashes | AndyTAB/src/utils/webdav.js:248 | removes exactly the run of trailing '/' |
| WebDav.AfterLastSlash | AndyTAB/src/utils/webdav.js:248 | the suffix after the last '/' |
| WebDav.LastSegmentShape | AndyTAB/src/utils/webdav.js:248 | `href.split('/').filter(Boolean).pop()` is undefined iff the href is only slashes; otherwise it is the segment between the last inner '/' and the trailing slashes |
| WebDav.LastSegmentOfChild | AndyTAB/src/utils/webdav.js:248 | the href of a child `base/name` or `base/name/` yields `name` |
| WebDav.EntryFor | AndyTAB/src/utils/webdav.js:241-256 | `""`, `"../"` and segment-less hrefs are dropped; a kept entry carries its href and whether a `d:collection` is present |
| WebDav.ListingMembers | AndyTAB/src/utils/webdav.js:238-259 | an entry is listed iff some response element yields it |
| WebDav.ParseDirectoryListing | AndyTAB/src/utils/webdav.js:232-260 | the loop's result is the element-by-element listing, in response order |
| SyncFiles.RemotePath | AndyTAB/src/utils/storage.js:768 | every remote file lives under `AndyTab/` |
| SyncFiles.SyncFileName | AndyTAB/src/utils/storage.js:805-807 | the upload's name starts with `bookmarks_sync` and therefore with `bookmarks_` |
| SyncFiles.TrailingDigits | AndyTAB/src/utils/storage.js:845 | the maximal run of digits at the end of a string |
| SyncFiles.ExtractTimestampIsPattern | AndyTAB/src/utils/storage.js:845-847 | a timestamp is read iff `[_-]([0-9]+)\.json$` matches, and it is the value of the captured digits |
| SyncFiles.SyncFileNameTimestamp | AndyTAB/src/utils/storage.js:805-807 | the pattern gives back the upload's timestamp from the upload's name, whatever the date text |
| SyncFiles.KeepPrefixed | AndyTAB/src/utils/storage.js:726 | the filter keeps exactly the names with the prefix, with no additions |
| SyncFiles.SortNames | AndyTAB/src/utils/storage.js:733 | sorted and a permutation of the input |
| SyncFiles.SortedUnique | AndyTAB/src/utils/storage.js:733 | any two sorted permutations are equal, so the sort's result is determined |
| SyncFiles.SortedSyncNames | AndyTAB/src/utils/storage.js:726-733 | exactly the sync names, sorted |
| SyncFiles.LatestIsGreatest | AndyTAB/src/utils/storage.js:714-741 | no latest file iff no name starts with `bookmarks_sync`; otherwise the latest is a listed sync name no smaller than any other |
| SyncFiles.PruneKeepsOnlyLatest | AndyTAB/src/utils/storage.js:757-770 | with at most one sync file nothing is deleted; otherwise exactly the sync names other than the latest are deleted |
| SyncFiles.BackupsNeverPruned | AndyTAB/src/utils/storage.js:757 | a `bookmarks_backup` name is never among those deleted |
| SyncFiles.BackupList | AndyTAB/src/utils/storage.js:674-683 | one `webdav` row of size 0 per `bookmarks_` name, in listing order |
| SyncFiles.SyncFilesAreBackups | AndyTAB/src/utils/storage.js:676 | every sync file also appears in the backup list |
| Storage.Saved | AndyTAB/src/utils/storage.js:219-235 | a successful save stores the value and caches it, the cache object is written back, and every other key is kept |
| Storage.CacheFallback | AndyTAB/src/utils/storage.js:246 | a truthy cached value, else the default |
| Storage.SaveThenRead | AndyTAB/src/utils/storage.js:219-259 | a value saved is read back as saved, and the read mirrors it into the cache |
| Storage.ReadObservations | AndyTAB/src/utils/storage.js:238-259 | a read changes only the cache's copy; a missing key falls back to the cache, then to the default; a stored one is mirrored |
| Storage.ReadIndependent | AndyTAB/src/utils/storage.js:238-259 | reading one key does not change what another key reads as |
| Storage.SaveAll | AndyTAB/src/utils/storage.js:533-570 | `saveAllData(null)` throws before any write, and every other input succeeds |
| Storage.SaveAllWritesTruthyFields | AndyTAB/src/utils/storage.js:536-554 | a data field's key is written iff the field is truthy, with the field's value; `""`, `0`, `false` and missing fields leave the stored value |
| Storage.SaveAllKeepsOtherKeys | AndyTAB/src/utils/storage.js:533-570 | keys outside the snapshot's own are untouched |
| Storage.Snapshot | AndyTAB/src/utils/storage.js:310-323 | the seven fields, each data field read with its default, the WebDAV configuration or null, and the stored bookmarks or the browser's tree |
| Storage.SnapshotRestores | AndyTAB/src/utils/storage.js:310-323 | saving a snapshot writes back each truthy stored data field unchanged |
| Storage.ClientSettings | AndyTAB/src/utils/storage.js:176-196 | a client is built only from a truthy configuration whose URL starts with http:// or https:// |
| Storage.Lookup | AndyTAB/src/utils/storage.js:838 | a body is found iff the directory has the name |
| Storage.Put | AndyTAB/src/utils/storage.js:813 | PUT makes the name hold the body and leaves every other name as it was |
| Storage.PutNames | AndyTAB/src/utils/storage.js:813 | PUT adds only its own name and keeps names unique |
| Storage.Without | AndyTAB/src/utils/storage.js:768 | DELETE removes exactly the listed names |
| Storage.WithoutNames | AndyTAB/src/utils/storage.js:768 | deleting keeps names unique and leaves exactly the unlisted names |
| Storage.Take | AndyTAB/src/utils/storage.js:767-770 | the deletes issued before the first failing one |
| Storage.PrunedLeavesNewest | AndyTAB/src/utils/storage.js:744-774 | when every DELETE succeeds only the newest sync file remains, and every other file is as it was |
| Storage.PrunedKeepsOthers | AndyTAB/src/utils/storage.js:744-774 | a name without the `bookmarks_sync` prefix is never deleted, however many DELETEs fail |
| Storage.StorageManager.constructor | AndyTAB/src/utils/storage.js:19-26 | no client, an empty offline cache and no pending timer |
| Storage.StorageManager.SaveOfflineCache | AndyTAB/src/utils/storage.js:276-288 | the cache is stored as an object under its own key, and nothing else changes |
| Storage.StorageManager.LoadOfflineCache | AndyTAB/src/utils/storage.js:262-274 | the cache becomes the stored object's entries, or `{}`; a failed read empties it |
| Storage.StorageManager.SaveData | AndyTAB/src/utils/storage.js:219-235 | on success the state is `Saved`; a failed write changes nothing and reports failure |
| Storage.StorageManager.GetData | AndyTAB/src/utils/storage.js:238-259 | the stored value, mirrored; a missing value gives the truthy cached one or the default; a failed read answers from the cache without writing |
| Storage.StorageManager.GetWebDAVConfig | AndyTAB/src/utils/storage.js:207-212 | the stored configuration when truthy, else null |
| Storage.StorageManager.GetAllData | AndyTAB/src/utils/storage.js:310-323 | returns `Snapshot` and leaves the state after the five reads |
| Storage.StorageManager.InitWebDAVClient | AndyTAB/src/utils/storage.js:176-196 | the client matches the stored configuration, or there is none |
| Storage.StorageManager.SaveWebDAVConfig | AndyTAB/src/utils/storage.js:197-206 | the configuration is stored and the client rebuilt from it |
| Storage.StorageManager.SaveFieldOf | AndyTAB/src/utils/storage.js:536-538 | one conditional save of a data field |
| Storage.StorageManager.SaveAllData | AndyTAB/src/utils/storage.js:533-570 | null fails with nothing written and the error of `SaveAll`; otherwise the new state is `SaveAll`, and the client is rebuilt iff a truthy configuration is present |
| Storage.StorageManager.GetLatestSyncFile | AndyTAB/src/utils/storage.js:714-741 | none without a client or listing; otherwise the greatest sync name |
| Storage.StorageManager.GetBackupFiles | AndyTAB/src/utils/storage.js:662-694 | empty without a client or listing; otherwise the `bookmarks_` files |
| Storage.StorageManager.DeleteOldSyncFiles | AndyTAB/src/utils/storage.js:744-774 | the directory becomes `Pruned` when there is a client and the listing succeeds; nothing local changes |
| Storage.StorageManager.DeleteInOrder | AndyTAB/src/utils/storage.js:767-770 | the names are deleted in order until the first failing DELETE |
| Storage.StorageManager.DeleteEach | AndyTAB/src/utils/storage.js:767-770 | the remote holdings after deleting, one at a time, the names before the first failing DELETE are exactly those without them |
| Storage.StorageManager.UploadSyncData | AndyTAB/src/utils/storage.js:794-828 | the outcome, the local state and the directory are `UploadEffect` of the old ones: no client fails with nothing changed; a failed PUT leaves only the snapshot's reads; a successful one stores the snapshot under the sync name, records the name's timestamp and prunes when the listing succeeds |
| Storage.StorageManager.DownloadAndApplySyncData | AndyTAB/src/utils/storage.js:831-858 | the outcome and the local state are `DownloadEffect` of the old ones: a missing client, a failed GET or a parse failure writes nothing; `null` data fails with `saveAllData`'s error; otherwise `saveAllData` is applied, then the name's timestamp is stored. The client is rebuilt from the downloaded `webdavConfig` when it is truthy and kept otherwise; the directory never changes |
| Storage.StorageManager.ScheduleUpload | AndyTAB/src/utils/storage.js:777-791 | any pending upload is replaced by one due 3000 ms later, so at most one is pending |
| Storage.StorageManager.Tick | AndyTAB/src/utils/storage.js:784-790 | a due upload runs once, with the outcome, local state and directory of `UploadEffect`, and the timer is spent; otherwise nothing happens |
| Storage.DownloadWritesOnlyWhenApplied | AndyTAB/src/utils/storage.js:831-858 | a download applies iff there is a client, the GET succeeds and the file holds a non-null document; any other outcome leaves the local state as it was, and no outcome touches the directory |
| Storage.DownloadedConfigApplied | AndyTAB/src/utils/storage.js:556-558 | a downloaded configuration, which rebuilds the client, exists only for an applied download, and it is truthy |
| Storage.UploadNameCarriesTimestamp | AndyTAB/src/utils/storage.js:805-817 | the timestamp the upload stores is the one its file name yields back |
| Storage.UploadLeavesOnlyItsFile | AndyTAB/src/utils/storage.js:794-823 | uploading a name that sorts last, with every DELETE succeeding, leaves it as the only sync file, and every other file is unchanged |
| Sync.DecideOnNumbers | AndyTAB/src/newtab/index.js:150-166 | a missing or older local timestamp downloads; an equal one does nothing; a newer one raises the conflict dialog |
| Sync.OwnUploadIsInSync | AndyTAB/src/newtab/index.js:141-160 | after a successful upload (`UploadEffect`) the uploaded file's name yields the upload time, and the local timestamp the upload stored is in sync with it |
| Sync.DownloadedIsInSync | AndyTAB/src/newtab/index.js:141-160 | downloading a file (`DownloadEffect`) that holds a non-null document applies it, and the local timestamp it stores is in sync with the file's name |
| Sync.InitSyncCheck | AndyTAB/src/newtab/index.js:131-168 | no latest file or no timestamp in its name does nothing; otherwise a download (then reload) whose outcome and local state are `DownloadEffect` and whose client follows the downloaded configuration, nothing, or the dialog, by `Decide`; a comparison that throws ends in the catch with nothing else done |
| Sync.ActOnVerdict | AndyTAB/src/newtab/index.js:150-168 | by `Decide`: download with the outcome and local state of `DownloadEffect`, nothing, the dialog, or the catch; only the download touches the local state or the client |
| Sync.ResolveConflict | AndyTAB/src/newtab/index.js:301-347 | local only uploads, with the state of `UploadEffect`; cloud only downloads and reloads, with the state of `DownloadEffect` and the client from the downloaded configuration; merge saves `MergeDatasets` of the cloud file and the local snapshot, then uploads (as `UploadEffect` from the saved state) and reloads; a missing client, a failed GET (`获取文件失败: ` after the dialog's prefix), an unparseable file or a failed merge becomes an alert with the client kept and nothing saved |
| Sync.DigitStringTimestamp | AndyTAB/src/newtab/index.js:152 | a stored timestamp that is a string of digits compares as its numeric value: older downloads, otherwise the dialog |
| Sync.SingletonArrayTimestamp | AndyTAB/src/newtab/index.js:152 | a one-element array `[n]` compares as `n` |
| Sync.ObjectTimestampConflicts | AndyTAB/src/newtab/index.js:152-166 | an object timestamp without an own `toString` is NaN, neither older nor equal, so it always opens the dialog |
| Sync.ToStringTimestampAbandoned | AndyTAB/src/newtab/index.js:152-168 | an object with an own `toString` key, or an array holding one, makes `<` throw, so the check is abandoned in its catch |
| Sync.SyncableChangeIsDataChange | AndyTAB/src/newtab/index.js:102-113 | a change schedules an upload iff it touches one of the five data keys |
| Sync.UploadWritesDoNotReschedule | AndyTAB/src/newtab/index.js:102-113 | what an upload itself writes schedules no further upload |
| Sync.OnStorageChanged | AndyTAB/src/newtab/index.js:71-119 | a local change to a data key or to the user bookmarks (storage.js:82-91) schedules the debounced upload; nothing else does |
| Merge.KeyOf | AndyTAB/src/newtab/index.js:328 | primitive keys compare by value; object keys never collide |
| Merge.Find | AndyTAB/src/newtab/index.js:328 | the position of a key in a Map's entries |
| Merge.MapSet | AndyTAB/src/newtab/index.js:328 | `map.set` keeps an existing key's place and appends a new key |
| Merge.FirstIndex | AndyTAB/src/newtab/index.js:328 | the position of a key's first occurrence |
| Merge.FirstOccurrencesShape | AndyTAB/src/newtab/index.js:328 | each key once, all of them, in first-occurrence order |
| Merge.FromEntriesShape | AndyTAB/src/newtab/index.js:328 | `new Map(entries)` has first-occurrence order and last-occurrence values |
| Merge.KeyItems | AndyTAB/src/newtab/index.js:328 | keying fails iff an item is null; otherwise each item is paired with its key |
| Merge.Combined | AndyTAB/src/newtab/index.js:328 | the spread of both lists succeeds only on non-null snapshots |
| Merge.MergeList | AndyTAB/src/newtab/index.js:328 | both snapshots are non-null when the list merge succeeds |
| Merge.MergeListShape | AndyTAB/src/newtab/index.js:328 | the merged list has one item per key of cloud followed by local, in first-occurrence order, each the last item with its key |
| Merge.SharedKeyTakesLaterValue | AndyTAB/src/newtab/index.js:328 | a key in both runs sits in the first run's place with the second run's value |
| Merge.LocalReplacesCloud | AndyTAB/src/newtab/index.js:328 | on a shared url or id, the local item replaces the cloud item in the cloud item's place |
| Merge.MergeNotes | AndyTAB/src/newtab/index.js:336 | the cloud notes when truthy, else the local ones |
| Merge.CloudWinsObjectKeys | AndyTAB/src/newtab/index.js:330-332 | in settings and search engines the cloud value wins a shared key, and local-only keys are kept |
| Merge.MergeDatasets | AndyTAB/src/newtab/index.js:326-337 | succeeds iff both list merges do; the result has only the five data fields, with no bookmarks and no webdavConfig |
| Merge.MergeDatasetsFields | AndyTAB/src/newtab/index.js:326-337 | shortcuts and todos hold the two list merges, settings and search engines the two object merges, and notes are present iff `MergeNotes` gives a value, which they then hold |
| Pagination.SettingOr | AndyTAB/src/newtab/index.js:1549-1550 | `parseInt(x) \|\| d` is the parsed value unless it is absent or zero, in which case it is the default |
| Pagination.CeilDiv | AndyTAB/src/newtab/index.js:1555 | `Math.ceil(a / b)`: the least integer not below the quotient |
| Pagination.ItemsPerPageZero | AndyTAB/src/newtab/index.js:1561-1562 | a page holds no items iff there are no shortcuts and both settings are positive (the NaN page count) |
| Pagination.ItemsPerPageFillsRows | AndyTAB/src/newtab/index.js:1549-1561 | whole rows, at most the rows set, and no empty row on the first page |
| Pagination.PagesCoverShortcuts | AndyTAB/src/newtab/index.js:1561-1562 | at least one page; the pages hold every shortcut and the last page is not empty |
| Pagination.AcceptsWithinBounds | AndyTAB/src/newtab/index.js:1977 | `changePage` takes exactly the pages from 1 to the count |
| Pagination.Pager.constructor | AndyTAB/src/newtab/index.js:20-22 | page 1 of 1, with 0 items per page |
| Pagination.Pager.Render | AndyTAB/src/newtab/index.js:1549-1567 | the page count and items per page from the settings; a current page beyond the last moves to max(1, count) |
| Pagination.Pager.Load | AndyTAB/src/newtab/index.js:1413-1437 | back to page 1, then the same layout |
| Pagination.Pager.ChangePage | AndyTAB/src/newtab/index.js:1976-1979 | the page changes iff it lies within bounds |
| Pagination.Pager.Wheel | AndyTAB/src/newtab/index.js:2070-2101 | nothing with a modal open or at most one page; otherwise one page on in the dominant scroll direction, stopping at the ends |
| Drag.Remove | AndyTAB/src/newtab/index.js:2266 | one fewer item |
| Drag.Insert | AndyTAB/src/newtab/index.js:2267 | one more item, at the index or at the end |
| Drag.MovedIsPermutation | AndyTAB/src/newtab/index.js:2265-2267 | the preview has the same items, reordered |
| Drag.MovedPlacesItem | AndyTAB/src/newtab/index.js:2265-2267 | the dragged item lands at the drop index, and the others keep their order |
| Drag.MovedBack | AndyTAB/src/newtab/index.js:2265-2267 | dragging back restores the order |
| Drag.DragPreview.constructor | AndyTAB/src/newtab/index.js:2116-2128 | the preview starts as the shortcuts, with no target |
| Drag.DragPreview.DragOver | AndyTAB/src/newtab/index.js:2249-2277 | the same target or the item's own index changes nothing; otherwise the item moves to the drop index and the preview stays a permutation |
| Todos.TodosJson | AndyTAB/src/newtab/index.js:772 | one stored element per todo |
| Todos.ToggleTwice | AndyTAB/src/newtab/index.js:888-892 | toggling twice is the identity; a toggle flips only its own item's flag |
| Todos.SplicedRemovesOne | AndyTAB/src/newtab/index.js:957-961 | exactly the indexed todo is removed, and the others keep their order |
| Todos.DeleteUndoesAdd | AndyTAB/src/newtab/index.js:762-772 | deleting the todo just added restores the list |
| Todos.EditedTextIsTrimmed | AndyTAB/src/newtab/index.js:926-928 | stored text is never blank and has no surrounding spaces |
| Todos.InPlace | AndyTAB/src/utils/storage.js:218-235 | changing the cached array in place changes only the cache's todos entry and writes nothing |
| Todos.SavedAfterInPlace | AndyTAB/src/utils/storage.js:218-235 | a successful save after an in-place change has the effect of the save alone |
| Todos.UnsavedListStaysCached | AndyTAB/src/utils/storage.js:218-249 | after a failed write of a changed shared list the stored list is the old one, but a read answered from the cache gives the new list, and the next successful save of another key writes the cache, new list included, to storage |
| Todos.TodoList.Load | AndyTAB/src/newtab/index.js:733-735 | `getData(TODOS, [])` with its effect on the store; the list shares the cached array iff the value came from storage or from a truthy cache entry (storage.js:238-249) |
| Todos.TodoList.ChangedInPlace | AndyTAB/src/newtab/index.js:771 | when the cache holds the list's own array, its todos entry follows the changed list; otherwise nothing changes |
| Todos.TodoList.Save | AndyTAB/src/utils/storage.js:218-235 | a successful write stores and caches the list, which is then shared; a failed one leaves storage alone, and the cache follows the list only when it was shared |
| Todos.TodoList.Add | AndyTAB/src/newtab/index.js:762-772 | an empty open todo stamped with the time is pushed and saved, with the store as `Stored` gives it for both outcomes of the write |
| Todos.TodoList.Toggle | AndyTAB/src/newtab/index.js:888-892 | the flag flips and the list is saved as `Stored` gives it; an index without a todo throws before anything changes |
| Todos.TodoList.Edit | AndyTAB/src/newtab/index.js:926-932 | non-blank trimmed input becomes the text and is saved as `Stored` gives it; blank input changes nothing |
| Todos.TodoList.Delete | AndyTAB/src/newtab/index.js:957-961 | splice, then save as `Stored` gives it |
| Todos.TodoList.Replace | AndyTAB/src/newtab/index.js:86-92 | the listener's new value becomes the list, a fresh array no cache holds |
| Engines.Table | AndyTAB/src/newtab/index.js:1102-1109 | the stored table, or `{}` |
| Engines.Submit | AndyTAB/src/newtab/index.js:4749-4801 | refused iff a field is blank, the URL does not parse or lacks `%s`, or (adding only) the key holds an engine, own and truthy or inherited from `Object.prototype`; the notice names the mode |
| Engines.AcceptedAdd | AndyTAB/src/newtab/index.js:4783-4790 | an accepted add assigns the trimmed engine to the trimmed key, which held no engine |
| Engines.AcceptedEdit | AndyTAB/src/newtab/index.js:4777-4782 | an accepted edit assigns the engine to the key in the table without the old entry, and reports an update |
| Engines.AssignOwned | AndyTAB/src/newtab/index.js:4781-4789 | assigning any key other than an unowned `__proto__` adds exactly that entry and keeps the rest |
| Engines.InheritedKeyRefused | AndyTAB/src/newtab/index.js:4784-4788 | adding under a key such as `toString` or `__proto__` that the table inherits but does not own is refused as a duplicate |
| Engines.EditToProtoLosesEngine | AndyTAB/src/newtab/index.js:4778-4782 | editing an engine onto the key `__proto__` reports an update but stores nothing: the old key is gone and every other entry is kept |
| Engines.SubmitMessages | AndyTAB/src/newtab/index.js:4756-4773 | the first failing check's message is the one shown |
| Engines.AddKeepsOthers | AndyTAB/src/newtab/index.js:4784-4790 | adding never replaces an engine: the new key is added and every other entry kept |
| Engines.EditRenames | AndyTAB/src/newtab/index.js:4778-4782 | for any key but an unowned `__proto__`, the old key is removed, the typed key is set, and the others are kept |
| Engines.EditOntoOtherKeyLosesEngine | AndyTAB/src/newtab/index.js:4778-4782 | editing onto another engine's key overwrites it, so the table loses one entry |
| Engines.Delete | AndyTAB/src/newtab/index.js:4805-4827 | default engines are refused; unconfirmed does nothing; otherwise exactly that key is deleted |
| Engines.DefaultsSurviveDelete | AndyTAB/src/newtab/index.js:4807-4811 | google, baidu, bing and duckduckgo are never removed |
| Engines.SubmitEngine | AndyTAB/src/newtab/index.js:4749-4801 | the table is written back iff the form is accepted |
| Engines.DeleteEngine | AndyTAB/src/newtab/index.js:4805-4827 | the table is written back only after a confirmed delete of a non-default engine |
| Strings.IndexOf | AndyTAB/src/newtab/index.js:1030 | the first occurrence, or none exactly when there is none |
| Strings.ReplaceFirst | AndyTAB/src/newtab/index.js:1030-1032 | `replace` with a string pattern changes only the first occurrence, and nothing when there is none |
| Strings.PadStart2 | AndyTAB/src/newtab/index.js:1031 | `padStart(2, '0')` |
| Strings.TwoDigitsValue | AndyTAB/src/newtab/index.js:1031 | a two-digit field reads back its value |
| Strings.ParseNatToString | AndyTAB/src/utils/storage.js:847 | `parseInt(String(n))` is `n` |
| Strings.TrimShape | AndyTAB/src/newtab/index.js:4751-4753 | `trim` keeps a contiguous piece with no space at either end, and is empty iff the input is all spaces |
| Strings.ToUpperAscii | AndyTAB/src/newtab/index.js:4854 | upper-cases each ASCII letter and keeps the length |
| Strings.CompareAntisymmetric | AndyTAB/src/utils/storage.js:733 | swapping the operands negates the comparison |
| Strings.LeTransitive | AndyTAB/src/utils/storage.js:733 | the name order is transitive |
| Strings.LeTotal | AndyTAB/src/utils/storage.js:733 | the name order is total |
| Format.ReplaceAfter | AndyTAB/src/newtab/index.js:1030-1032 | a token is replaced where it first appears after a prefix lacking its first character |
| Format.DefaultTimeShape | AndyTAB/src/newtab/index.js:1023-1033 | the default clock is `hh:mm:ss` with two-digit fields |
| Format.DefaultTimeReadsBack | AndyTAB/src/newtab/index.js:1023-1033 | fields below 100 are read back from the default clock |
| Format.DefaultDateShape | AndyTAB/src/newtab/index.js:1037-1048 | the default date is `YYYY年MM月DD日`, with the full year and two-digit month and day |
| Format.FormatWithoutTokens | AndyTAB/src/newtab/index.js:1023-1033 | a format without tokens is shown as it is |
| Format.RepeatedTokenKept | AndyTAB/src/newtab/index.js:1030-1032 | only the first occurrence of a token is replaced |
| Format.NameInitial | AndyTAB/src/newtab/index.js:4842-4861 | `?` for a missing or blank name; otherwise the first two trimmed characters (upper-cased when the name has an ASCII letter), or the only character |
| Format.InitialNeverBlank | AndyTAB/src/newtab/index.js:4842-4861 | an initial is never empty and never starts with a space |
| Format.Stamp | AndyTAB/src/newtab/index.js:4414-4415 | the 13 digits that end the name, before an optional `.json` |
| Format.CompareBackupsAntisymmetric | AndyTAB/src/newtab/index.js:4412-4430 | the comparator is antisymmetric |
| Format.CompareBackupsTransitive | AndyTAB/src/newtab/index.js:4412-4430 | the comparator's order is transitive |
| Format.SortBackups | AndyTAB/src/newtab/index.js:4412-4430 | sorted by the comparator, and a permutation of the input |
| Format.SortedBackupsOrder | AndyTAB/src/newtab/index.js:4412-4430 | timestamped files come first, newest first; the rest follow in reverse name order |
| Numbers.DigitsReadAsValue | AndyTAB/src/newtab/index.js:152 | a run of digits, with or without a minus sign, converts to its value |
| Numbers.IntStringReadsBack | AndyTAB/src/newtab/index.js:152 | `Number(String(n))` is `n` for every integer |
| Numbers.SingletonArrays | AndyTAB/src/newtab/index.js:152 | `[n]` converts to `n`; `[null]` and `[]` convert to 0 |
| Numbers.ObjectIsNaN | AndyTAB/src/newtab/index.js:152 | an object without an own `toString` converts to NaN |
| Numbers.ToStringEntryThrows | AndyTAB/src/newtab/index.js:152 | converting an object with an own `toString` key, or an array holding one, throws a TypeError |
| Numbers.ElementThrowsSome | AndyTAB/src/newtab/index.js:152 | an array's conversion throws iff one of its elements' does |
| Numbers.SignAndSpaces | AndyTAB/src/newtab/index.js:152 | surrounding white space and a `+` sign are read past |
| Numbers.SpacesReadPast | AndyTAB/src/newtab/index.js:152 | any white space around a literal leaves its value unchanged |
| Numbers.PlusDigitsRead | AndyTAB/src/newtab/index.js:152 | a `+` before decimal digits leaves their value unchanged |
| Numbers.PlusStringReadsBack | AndyTAB/src/newtab/index.js:152 | `+` followed by `String(m)` converts to `m` |
| Numbers.HexDigitsRead | AndyTAB/src/newtab/index.js:152 | `0x` followed by hexadecimal digits converts to their value |
| Numbers.ExponentForm | AndyTAB/src/newtab/index.js:152 | an exponent scales the digits |
| Numbers.FractionForm | AndyTAB/src/newtab/index.js:152 | digits after the point are a fraction |
| Numbers.HexForm | AndyTAB/src/newtab/index.js:152 | `0x` introduces hexadecimal digits |
| Numbers.SignedHexForm | AndyTAB/src/newtab/index.js:152 | a signed hexadecimal literal is NaN |
| Numbers.InfinityForm | AndyTAB/src/newtab/index.js:152 | `-Infinity` converts to negative infinity |
| ImageCache.BackgroundRuleIgnoresHour | AndyTAB/src/utils/imageCache.js:102-129 | the background rule is the Bing rule: stale iff missing or from another day, whatever the hour |
| ImageCache.CacheStep | AndyTAB/src/utils/imageCache.js:152-194 | a failed fetch resolves null with nothing cached; a failed read rejects, and its `onloadend` still files a `null` entry; otherwise it resolves with the data URL |
| ImageCache.CacheStepRouting | AndyTAB/src/utils/imageCache.js:162-179 | after any successful fetch the entry lands in exactly one map (Bing, else backgrounds, else icons), stamped with the time, with the data URL or `null` after a failed read; that map is saved and the other maps are kept |
| ImageCache.KeyedStep | AndyTAB/src/utils/imageCache.js:197-237 | settles as `cacheImage`; without the Bing flag no map changes |
| ImageCache.KeyedBingHoldsOne | AndyTAB/src/utils/imageCache.js:207-222 | after a successful fetch with the Bing flag, the Bing map holds exactly that key, with the data URL or `null` after a failed read, and is saved |
| ImageCache.Unexpired | AndyTAB/src/utils/imageCache.js:383-398 | exactly the icons at most thirty days old are kept, unchanged |
| ImageCache.UnexpiredIdempotent | AndyTAB/src/utils/imageCache.js:383-398 | a second sweep at the same time removes nothing |
| ImageCache.FlattenSnoc | AndyTAB/src/utils/imageCache.js:350-356 | flattening distributes over appending a chunk |
| ImageCache.BatchSpec | AndyTAB/src/utils/imageCache.js:347-380 | one result per URL |
| ImageCache.BatchTouchesOnlyItsMap | AndyTAB/src/utils/imageCache.js:347-380 | an icon batch never touches the background or Bing maps, and each result is that of its own fetch |
| ImageCache.BatchCachesLastFetch | AndyTAB/src/utils/imageCache.js:347-380 | an icon holds the entry of the last call whose fetch succeeded for it: that call's data URL, or `null` when its read failed |
| ImageCache.ImageCacheManager.constructor | AndyTAB/src/utils/imageCache.js:12-17 | three empty maps |
| ImageCache.ImageCacheManager.Load | AndyTAB/src/utils/imageCache.js:20-89 | each of the three loads reads its own key: its map comes from the stored object, or `{}`, and a failure of its read leaves only that map empty |
| ImageCache.ImageCacheManager.StoredOr | AndyTAB/src/utils/imageCache.js:30-39 | the stored map, or an empty one |
| ImageCache.ImageCacheManager.CacheImage | AndyTAB/src/utils/imageCache.js:152-194 | the new state and the result are `CacheStep` |
| ImageCache.ImageCacheManager.CacheImageWithKey | AndyTAB/src/utils/imageCache.js:197-237 | the new state and the result are `KeyedStep` |
| ImageCache.ImageCacheManager.CachedImage | AndyTAB/src/utils/imageCache.js:240-260 | an icon's data whenever present; backgrounds and Bing wallpapers only when cached today; `null` otherwise, and for an entry a failed read left |
| ImageCache.ImageCacheManager.ClearAllCache | AndyTAB/src/utils/imageCache.js:289-302 | on success all three maps are empty; on failure nothing changes |
| ImageCache.ImageCacheManager.ClearExpiredCache | AndyTAB/src/utils/imageCache.js:383-398 | icons become `Unexpired`, the other maps are kept, and the icons are saved |
| ImageCache.ImageCacheManager.Chunks | AndyTAB/src/utils/imageCache.js:350-356 | the chunks concatenate to the input; there are ⌈n/5⌉ of them, each 1 to 5 long, all but the last exactly 5 |
| ImageCache.ImageCacheManager.BatchCacheImages | AndyTAB/src/utils/imageCache.js:347-380 | the new state and the results are `BatchSpec` |
| ImageCache.ImageCacheManager.CacheBatch | AndyTAB/src/utils/imageCache.js:361-365 | one batch extends the results of the earlier batches as `BatchSpec` says |
| ImageCache.ImageCacheManager.FlattenPrefix | AndyTAB/src/utils/imageCache.js:350-356 | the first chunks flatten to a prefix of the whole |
| ImageCache.ImageCacheManager.FlattenAppend | AndyTAB/src/utils/imageCache.js:350-356 | flattening distributes over concatenation |

Notes on the model:

- **The merge.** It is modelled as the code behaves. The code's comment promises "cloud first" for shortcuts and todos (index.js:317, 326). But `new Map([...cloud, ...local])` gives each repeated url or id the value of its *last* occurrence, so a local item replaces the cloud item with the same key, in the cloud item's place (`Merge.LocalReplacesCloud`). The merged object has no `bookmarks` or `webdavConfig`, so `saveAllData` leaves those stored values alone.
- **Editing a search engine** does not look for a clash with another engine's key, unlike adding one. Renaming an engine onto an existing key silently replaces that engine (`Engines.EditOntoOtherKeyLosesEngine`).
- **The connection test's timeout wording.** It tests for `timeout` and for `AbortError` (webdav.js:145, 151), but neither can match. `sendRequest` has already rewritten the abort into a message in Chinese with the name `Error`, so a timeout is reported under the generic prefix (`WebDav.ClientTimeoutReportedAsGeneric`).
- **Zero shortcuts** with positive settings give `itemsPerPage` 0 and `totalPages` NaN. Comparisons against NaN are false, so `changePage` accepts any page from 1 upwards and the wheel can only go back (`Pagination.AcceptsWithinBounds`, `Pagination.Pager.Wheel`).
- **The local timestamp** is compared the way JavaScript compares a stored value with a number: `<` converts it with `ToNumber`, so a string of digits or a one-element array compares as its number, and an object as NaN (`Sync.DigitStringTimestamp`, `Sync.SingletonArrayTimestamp`, `Sync.ObjectTimestampConflicts`). An object with an own `toString` key, or an array holding one, cannot be converted: a JSON value is never callable, so `<` throws a TypeError, the catch only logs it and the check does nothing more (`Sync.ToStringTimestampAbandoned`). The equality test is strict, so only a number can be equal. Any other value that is neither falsy, smaller nor exactly equal opens the conflict dialog (`Sync.Decide`).
- **Search-engine keys** live in a plain object. An add under a name that `Object.prototype` supplies, such as `toString` or `__proto__`, is refused as a duplicate (`Engines.InheritedKeyRefused`). An edit onto `__proto__` sets the prototype instead of a property, so the engine disappears (`Engines.EditToProtoLosesEngine`).

## Left out

- **UI:** DOM rendering, dialogs, notifications, event wiring and the popup page (AndyTAB/src/popup/popup.js). Only the state they change is modelled.
- **Bookmarks:** restoring and merging the `chrome.bookmarks` tree (storage.js:325-530) and the bookmark listeners. The bookmarks are an opaque JSON value.
- **Network transport:**
  - `fetch`, AbortController timers and `fetchWithTimeout` are a function from request to transport result.
  - DOMParser is reduced to the `(href, hasCollection)` pairs it yields.
  - `JSON.stringify`/`JSON.parse` of a snapshot is assumed to round-trip.
  - A file body is either a JSON document or text that does not parse.
- **Server operations on `StorageManager`:**
  - They take success flags: a PUT, GET or listing that fails, and the number of DELETEs that succeed before one fails.
  - `_ensureAndyTabDirectory` (MKCOL) is taken to leave the directory listing unchanged.
  - Every `getFile` reply is taken as text. With a JSON content type (webdav.js:94-97), `getFile` returns the parsed value instead, and the caller's `JSON.parse` reads that value's `String()`. For a stored-data object this is `"[object Object]"`, which does not parse, so the download reports a SyntaxError and the merge shows its alert. The model never produces that failure.
- **Clocks:** `Date.now`, `toISOString`, `getHours` and `toDateString` are arguments. The calendar day of a timestamp is a function parameter.
- **Concurrency:** the `Promise.all` in `init`, the overlap of a debounced upload with an explicit one, and `Promise.allSettled` within a batch. Each operation is atomic, and the calls of a batch run in URL order. The debounce timer is a due time checked by `Tick`.
- **Storage failures:** a storage read can fail only in `getData`, `loadOfflineCache` and the three image-cache loads, and a write only in `saveData` and in the image-cache saves and removal. `chrome.storage.local.set` in the engine form and in `saveOfflineCache` always succeeds here.
- **Storage.StorageManager.GetAllData:** every read it makes succeeds, and `getWebDAVConfig` (storage.js:207-210) never rejects. In the source a rejected read there has no handler, so `getAllData` rejects and an upload reports failure.
- **Storage.StorageManager.GetWebDAVConfig:** the read always succeeds; the rejection described for `GetAllData` is not modelled.
- **Storage.StorageManager.UploadSyncData:** the timestamp write after a successful PUT (storage.js:816) always succeeds. `saveData` catches a failure (storage.js:219-235), so the source would still report success with the old timestamp kept.
- **Storage.StorageManager.DownloadAndApplySyncData:** the writes of `saveAllData` and of the timestamp always succeed.
- **Storage.StorageManager.SaveFieldOf:** the write always succeeds; a failure would only be logged by `saveData`.
- **Storage.StorageManager.SaveAllData:** its writes always succeed, so it fails only on `null` data.
- **Map order:** the insertion order of a JavaScript `Map` or object is kept only where the output is a sequence (the merge lists, the listing). The offline cache, the engine table and the image caches are Dafny maps.
- **Numbers:** JSON numbers are integers. `ToNumber` gives exact rationals, so double rounding, overflow to Infinity and underflow to 0 are not modelled. `-0` is 0. Neither are `parseInt` of very long digit runs or the float scroll deltas of the wheel, which are taken as integers.
- **Engines.Table:** a truthy stored search-engine value that is not an object is treated as an empty table; JavaScript would spread its own properties, if any.
- **ImageCache.ImageCacheManager.StoredOr:** stored image-cache values are assumed to be maps of `{ data, timestamp }` entries.
- **Storage.ClientSettings:** non-string credentials and non-number timeouts read as absent.
- **Format.NameInitial:** upper-casing covers ASCII letters only. A Dafny character is a Unicode scalar value, while `length`, `slice` and `charAt` count UTF-16 code units. So a name whose first two characters include one outside the Basic Multilingual Plane diverges: for `a😀` the source keeps `a` and half of the emoji's surrogate pair, the model `A😀`.
- **SyncFiles.SortNames:** `localeCompare` is ordinal order, which agrees with it on the ASCII names the extension writes. The same holds for `Format.CompareBackups`.
- **Format.SortBackups:** the sort's stability is not proved; equal backups are ordered by the insertion sort.
- **Format.FormatDate:** the year is a natural number.
- **Drag.DragPreview.DragOver:** it requires the drop index to fall within the preview, as the grid's indices do. The non-edit-mode drag and the page switching during a drag are not modelled.
- **Excluded functions:**
  - `generateNameColor`;
  - `deleteBackup`, `testWebDAVConnection`, `backupData` and the restore functions;
  - `getOrCacheImage`, `cacheImageInBackground`, `preloadIcons` and `preloadBackgroundImage`;
  - `initStorageData` and `readOptionsFile`.

  These are rendering, wrappers over modelled operations, or file input.
- **Todos.TodoList.Load:** the value `getData` returns is taken to be a list of todos (its `requires`); a stored value of any other shape is not modelled.
- **Todos.TodoList.Add / Toggle / Edit / Delete:** `shared` tracks the one aliasing these operations create and end: the load and a successful save make the list the cached array, and `Replace` ends that. Other operations that replace the cache's todos entry (the `getData` reads of `getAllData` during an upload, `saveAllData` in a download, `loadOfflineCache`) also end the sharing in the source, and the flag does not see them. After one of those, a failed write leaves the cache alone in the source, while the model still lets it follow the list.
