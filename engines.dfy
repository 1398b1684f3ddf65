/**
 * The search engine manager of the new-tab page: the table of custom
 * engines kept under its own storage key, the form that adds or edits an
 * engine and the delete button. The table is read and written with
 * `chrome.storage.local` directly, past the offline cache.
 */
module Engines {
  import opened Wrappers
  import opened Strings
  import opened Json
  import opened Storage

  const RequiredMessage: string := "请填写所有必填字段"
  const InvalidUrlMessage: string := "请输入有效的URL"
  const PlaceholderMessage: string := "URL必须包含%s作为搜索关键词占位符"
  const DuplicateMessage: string := "该搜索引擎标识已存在"
  const UpdatedMessage: string := "搜索引擎已更新"
  const AddedMessage: string := "搜索引擎已添加"
  const DefaultDeleteMessage: string := "不能删除默认搜索引擎"
  const DeletedMessage: string := "搜索引擎已删除"

  /** The placeholder a search URL must carry for the query. */
  const Placeholder: string := "%s"

  /** The engines that come with the extension and cannot be deleted. */
  const DefaultEngines: seq<string> := ["google", "baidu", "bing", "duckduckgo"]

  /** A notification: an error or a success, with its text. */
  datatype Notice = Error(message: string) | Success(message: string)

  /** The result of the engine form: the table to store and the notice, or the error shown. */
  datatype Submission = Accepted(table: map<string, Json>, notice: string) | Refused(message: string)

  /** `getSearchEngines`: the stored table, or `{}` when nothing truthy is stored. */
  function Table(stored: Option<Json>): (t: map<string, Json>)
    ensures stored.Some? && stored.value.Obj? ==> t == stored.value.fields
    ensures !IsTruthy(stored) ==> t == map[]
  {
    match stored
    case Some(Obj(fields)) => fields
    case _ => map[]
  }

  /** The accessor `Object.prototype` carries for an object's prototype. */
  const ProtoName: string := "__proto__"

  /**
   * The names a table read from storage inherits from `Object.prototype`:
   * reading one of them, when the table has no entry of its own, gives a
   * function or, for `__proto__`, the prototype, and both are truthy.
   */
  const InheritedNames: seq<string> := [
    "constructor", "hasOwnProperty", "isPrototypeOf", "propertyIsEnumerable",
    "toLocaleString", "toString", "valueOf", ProtoName,
    "__defineGetter__", "__defineSetter__", "__lookupGetter__", "__lookupSetter__"
  ]

  /** Whether `engines[key]` is truthy: an own entry by its value, otherwise whether the name is inherited. */
  predicate Present(table: map<string, Json>, key: string) {
    if key in table then Truthy(table[key]) else key in InheritedNames
  }

  /**
   * `engines[key] = value`: the entry is set, except that an assignment to a
   * `__proto__` the table does not own goes to the prototype accessor and
   * stores no entry.
   */
  function Assign(table: map<string, Json>, key: string, value: Json): (t: map<string, Json>)
    ensures key != ProtoName || key in table ==> t == table[key := value]
    ensures key == ProtoName && key !in table ==> t == table
  {
    if key == ProtoName && key !in table then table else table[key := value]
  }

  /** `{ name, url }` */
  function Engine(name: string, url: string): Json {
    Obj(map["name" := Str(name), "url" := Str(url)])
  }

  /**
   * `handleEngineFormSubmit` on the table read from storage: the hidden id
   * field (empty when adding), the key, name and URL fields as typed, and
   * whether `new URL` accepts the trimmed URL.
   */
  function Submit(table: map<string, Json>, engineId: string, keyInput: string, nameInput: string,
                  urlInput: string, urlParses: bool): (r: Submission)
    ensures r.Refused? <==>
      Trim(keyInput) == "" || Trim(nameInput) == "" || Trim(urlInput) == "" || !urlParses ||
      !Contains(Trim(urlInput), Placeholder) || (engineId == "" && Present(table, Trim(keyInput)))
    ensures r.Accepted? ==> r.notice == if engineId != "" then UpdatedMessage else AddedMessage
  {
    var key := Trim(keyInput);
    var name := Trim(nameInput);
    var url := Trim(urlInput);
    if key == "" || name == "" || url == "" then Refused(RequiredMessage)
    else if !urlParses then Refused(InvalidUrlMessage)
    else if !Contains(url, Placeholder) then Refused(PlaceholderMessage)
    else if engineId != "" then
      Accepted(Assign(table - {engineId}, key, Engine(name, url)), UpdatedMessage)
    else if Present(table, key) then Refused(DuplicateMessage)
    else Accepted(Assign(table, key, Engine(name, url)), AddedMessage)
  }

  /** Validation comes first and reports the earliest failing check. */
  lemma SubmitMessages(table: map<string, Json>, engineId: string, keyInput: string, nameInput: string,
                       urlInput: string, urlParses: bool)
    ensures var r := Submit(table, engineId, keyInput, nameInput, urlInput, urlParses);
      var url := Trim(urlInput);
      (Trim(keyInput) == "" || Trim(nameInput) == "" || url == "" ==> r == Refused(RequiredMessage)) &&
      (Trim(keyInput) != "" && Trim(nameInput) != "" && url != "" && !urlParses ==> r == Refused(InvalidUrlMessage)) &&
      (Trim(keyInput) != "" && Trim(nameInput) != "" && url != "" && urlParses && !Contains(url, Placeholder) ==>
        r == Refused(PlaceholderMessage))
  {
  }

  /**
   * Adding never replaces an engine: it is accepted only for a key with no
   * engine, which then holds the new one, and every other entry stays.
   */
  lemma AddKeepsOthers(table: map<string, Json>, keyInput: string, nameInput: string, urlInput: string, urlParses: bool)
    requires Submit(table, "", keyInput, nameInput, urlInput, urlParses).Accepted?
    ensures var t := Submit(table, "", keyInput, nameInput, urlInput, urlParses).table;
      var key := Trim(keyInput);
      !Present(table, key) &&
      key in t && t[key] == Engine(Trim(nameInput), Trim(urlInput)) &&
      t.Keys == table.Keys + {key} &&
      forall k :: k in table && k != key ==> t[k] == table[k]
  {
    var key := Trim(keyInput);
    AcceptedAdd(table, keyInput, nameInput, urlInput, urlParses);
    ProtoInherited();
    AssignOwned(table, key, Engine(Trim(nameInput), Trim(urlInput)));
  }

  /** An accepted addition found no entry under the key and assigns the engine to it. */
  lemma AcceptedAdd(table: map<string, Json>, keyInput: string, nameInput: string, urlInput: string, urlParses: bool)
    requires Submit(table, "", keyInput, nameInput, urlInput, urlParses).Accepted?
    ensures !Present(table, Trim(keyInput))
    ensures Submit(table, "", keyInput, nameInput, urlInput, urlParses).table ==
      Assign(table, Trim(keyInput), Engine(Trim(nameInput), Trim(urlInput)))
  {
  }

  /** An accepted edit assigns the engine to the key in the table without its old entry. */
  lemma AcceptedEdit(table: map<string, Json>, engineId: string, keyInput: string, nameInput: string,
                     urlInput: string, urlParses: bool)
    requires engineId != "" && Submit(table, engineId, keyInput, nameInput, urlInput, urlParses).Accepted?
    ensures var r := Submit(table, engineId, keyInput, nameInput, urlInput, urlParses);
      r.notice == UpdatedMessage &&
      r.table == Assign(table - {engineId}, Trim(keyInput), Engine(Trim(nameInput), Trim(urlInput)))
  {
  }

  lemma ProtoInherited()
    ensures ProtoName in InheritedNames
  {
  }

  /** Setting a key that is not an unowned `__proto__` adds exactly that entry. */
  lemma AssignOwned(table: map<string, Json>, key: string, value: Json)
    requires key != ProtoName || key in table
    ensures var t := Assign(table, key, value);
      key in t && t[key] == value && t.Keys == table.Keys + {key} &&
      forall k :: k in table && k != key ==> t[k] == table[k]
  {
  }

  /**
   * A key the table inherits and does not own, such as `toString` or
   * `constructor`, counts as taken: adding under it is refused as a
   * duplicate.
   */
  lemma InheritedKeyRefused(table: map<string, Json>, keyInput: string, nameInput: string, urlInput: string, urlParses: bool)
    requires Trim(keyInput) in InheritedNames && Trim(keyInput) !in table
    requires Trim(nameInput) != "" && urlParses && Contains(Trim(urlInput), Placeholder)
    ensures Submit(table, "", keyInput, nameInput, urlInput, urlParses) == Refused(DuplicateMessage)
  {
    InheritedNonEmpty(Trim(keyInput));
    assert Trim(urlInput) != "" by {
      var i: nat :| OccursAt(Trim(urlInput), Placeholder, i);
    }
    assert Present(table, Trim(keyInput));
  }

  lemma InheritedNonEmpty(k: string)
    requires k in InheritedNames
    ensures k != ""
  {
    var i :| 0 <= i < |InheritedNames| && InheritedNames[i] == k;
    assert forall j :: 0 <= j < |InheritedNames| ==> |InheritedNames[j]| > 0;
  }

  /**
   * Editing an engine to the key `__proto__`, when the table owns no such
   * entry after the old key is removed, reports success yet files the
   * engine nowhere: the old entry is gone and nothing replaces it.
   */
  lemma EditToProtoLosesEngine(table: map<string, Json>, engineId: string, keyInput: string, nameInput: string,
                               urlInput: string, urlParses: bool)
    requires engineId != "" && Submit(table, engineId, keyInput, nameInput, urlInput, urlParses).Accepted?
    requires Trim(keyInput) == ProtoName && (ProtoName !in table || engineId == ProtoName)
    ensures var r := Submit(table, engineId, keyInput, nameInput, urlInput, urlParses);
      r.notice == UpdatedMessage && ProtoName !in r.table && r.table.Keys == table.Keys - {engineId} &&
      forall k :: k in r.table ==> r.table[k] == table[k]
  {
    AcceptedEdit(table, engineId, keyInput, nameInput, urlInput, urlParses);
    assert ProtoName !in table - {engineId};
  }

  /**
   * Editing takes the engine out under its old key and files the new one
   * under the typed key; every other entry of the table stays as it was.
   * (The typed key `__proto__` is the exception above.)
   */
  lemma EditRenames(table: map<string, Json>, engineId: string, keyInput: string, nameInput: string,
                    urlInput: string, urlParses: bool)
    requires engineId != "" && Submit(table, engineId, keyInput, nameInput, urlInput, urlParses).Accepted?
    requires Trim(keyInput) != ProtoName || (ProtoName in table && engineId != ProtoName)
    ensures var t := Submit(table, engineId, keyInput, nameInput, urlInput, urlParses).table;
      var key := Trim(keyInput);
      key in t && t[key] == Engine(Trim(nameInput), Trim(urlInput)) &&
      (engineId != key ==> engineId !in t) &&
      t.Keys == (table.Keys - {engineId}) + {key} &&
      forall k :: k in table && k != engineId && k != key ==> t[k] == table[k]
  {
    AcceptedEdit(table, engineId, keyInput, nameInput, urlInput, urlParses);
    RenameShape(table, engineId, Trim(keyInput), Engine(Trim(nameInput), Trim(urlInput)));
  }

  /** Removing one key and assigning another, which is not an unowned `__proto__`. */
  lemma RenameShape(table: map<string, Json>, engineId: string, key: string, value: Json)
    requires key != ProtoName || (ProtoName in table && engineId != ProtoName)
    ensures var t := Assign(table - {engineId}, key, value);
      key in t && t[key] == value &&
      (engineId != key ==> engineId !in t) &&
      t.Keys == (table.Keys - {engineId}) + {key} &&
      forall k :: k in table && k != engineId && k != key ==> t[k] == table[k]
  {
    assert (table - {engineId}).Keys == table.Keys - {engineId};
    AssignOwned(table - {engineId}, key, value);
  }

  /**
   * Unlike adding, editing does not look for a clash: renaming an engine to
   * the key of another one replaces that other engine, so the table loses
   * an entry.
   */
  lemma EditOntoOtherKeyLosesEngine(table: map<string, Json>, engineId: string, keyInput: string, nameInput: string,
                                    urlInput: string, urlParses: bool)
    requires engineId != "" && Submit(table, engineId, keyInput, nameInput, urlInput, urlParses).Accepted?
    requires engineId in table && Trim(keyInput) in table && Trim(keyInput) != engineId
    ensures var t := Submit(table, engineId, keyInput, nameInput, urlInput, urlParses).table;
      |t| == |table| - 1 && Trim(keyInput) in t && t[Trim(keyInput)] == Engine(Trim(nameInput), Trim(urlInput))
  {
    EditRenames(table, engineId, keyInput, nameInput, urlInput, urlParses);
    OneFewer(table, Submit(table, engineId, keyInput, nameInput, urlInput, urlParses).table, engineId, Trim(keyInput));
  }

  lemma OneFewer(table: map<string, Json>, t: map<string, Json>, engineId: string, key: string)
    requires engineId in table && key in table && key != engineId && t.Keys == (table.Keys - {engineId}) + {key}
    ensures |t| == |table| - 1
  {
    assert t.Keys == table.Keys - {engineId};
    assert |table.Keys - {engineId}| == |table.Keys| - 1;
  }

  /** `deleteEngine(key)` on the table read from storage, after the confirmation dialog's answer. */
  function Delete(table: map<string, Json>, key: string, confirmed: bool): (r: (Option<map<string, Json>>, Option<Notice>))
    ensures key in DefaultEngines ==> r == (None, Some(Error(DefaultDeleteMessage)))
    ensures key !in DefaultEngines && !confirmed ==> r == (None, None)
    ensures key !in DefaultEngines && confirmed ==>
      r.1 == Some(Success(DeletedMessage)) && r.0.Some? && r.0.value.Keys == table.Keys - {key} &&
      forall k :: k in r.0.value ==> r.0.value[k] == table[k]
  {
    if key in DefaultEngines then (None, Some(Error(DefaultDeleteMessage)))
    else if !confirmed then (None, None)
    else (Some(table - {key}), Some(Success(DeletedMessage)))
  }

  /** No delete removes one of the engines that come with the extension. */
  lemma DefaultsSurviveDelete(table: map<string, Json>, key: string, confirmed: bool, d: string)
    requires d in DefaultEngines && d in table
    ensures var r := Delete(table, key, confirmed).0;
      r.Some? ==> d in r.value && r.value[d] == table[d]
  {
  }

  /** The engine form's submit: the table is written back only when the form is accepted. */
  method SubmitEngine(sm: StorageManager, engineId: string, keyInput: string, nameInput: string,
                      urlInput: string, urlParses: bool) returns (notice: Notice)
    modifies sm
    ensures var r := Submit(Table(Get(old(sm.storage), SearchEnginesKey)), engineId, keyInput, nameInput, urlInput, urlParses);
      (r.Refused? ==> notice == Error(r.message) && sm.storage == old(sm.storage)) &&
      (r.Accepted? ==> notice == Success(r.notice) && sm.storage == old(sm.storage)[SearchEnginesKey := Obj(r.table)])
    ensures sm.offlineCache == old(sm.offlineCache) && sm.remote == old(sm.remote)
    ensures sm.webdavClient == old(sm.webdavClient) && sm.pendingUpload == old(sm.pendingUpload)
  {
    var engines := Table(Get(sm.storage, SearchEnginesKey));
    var r := Submit(engines, engineId, keyInput, nameInput, urlInput, urlParses);
    if r.Refused? {
      return Error(r.message);
    }
    sm.storage := sm.storage[SearchEnginesKey := Obj(r.table)];
    return Success(r.notice);
  }

  /** The delete button of an engine. */
  method DeleteEngine(sm: StorageManager, key: string, confirmed: bool) returns (notice: Option<Notice>)
    modifies sm
    ensures key in DefaultEngines || !confirmed ==> sm.storage == old(sm.storage)
    ensures var (t, n) := Delete(Table(Get(old(sm.storage), SearchEnginesKey)), key, confirmed);
      notice == n && (t.Some? ==> sm.storage == old(sm.storage)[SearchEnginesKey := Obj(t.value)])
    ensures sm.offlineCache == old(sm.offlineCache) && sm.remote == old(sm.remote)
    ensures sm.webdavClient == old(sm.webdavClient) && sm.pendingUpload == old(sm.pendingUpload)
  {
    var engines := Table(Get(sm.storage, SearchEnginesKey));
    var (t, n) := Delete(engines, key, confirmed);
    if t.Some? {
      sm.storage := sm.storage[SearchEnginesKey := Obj(t.value)];
    }
    return n;
  }
}
