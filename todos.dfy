/**
 * The todo list of the new-tab page: the `todos` array with its add,
 * toggle, edit and delete operations, each of which writes the whole
 * array back through `saveData`.
 */
module Todos {
  import opened Wrappers
  import opened Strings
  import opened Json
  import opened Storage

  datatype Todo = Todo(text: string, completed: bool, id: int)

  /** A todo as it is stored. */
  function TodoJson(t: Todo): Json {
    Obj(map["text" := Str(t.text), "completed" := Bool(t.completed), "id" := Num(t.id)])
  }

  /** The array `saveData(TODOS, todos)` stores. */
  function TodosJson(ts: seq<Todo>): (j: Json)
    ensures j.Arr? && |j.items| == |ts|
  {
    Arr(seq(|ts|, i requires 0 <= i < |ts| => TodoJson(ts[i])))
  }

  /** `todos[index].completed = !todos[index].completed` */
  function Toggled(ts: seq<Todo>, index: nat): seq<Todo>
    requires index < |ts|
  {
    ts[index := ts[index].(completed := !ts[index].completed)]
  }

  /** `todos.splice(index, 1)`: an index past the end removes nothing. */
  function Spliced(ts: seq<Todo>, index: nat): seq<Todo> {
    if index < |ts| then ts[..index] + ts[index + 1..] else ts
  }

  /** Toggling twice gives the list back, and a toggle touches only its own item's flag. */
  lemma ToggleTwice(ts: seq<Todo>, index: nat)
    requires index < |ts|
    ensures Toggled(Toggled(ts, index), index) == ts
    ensures |Toggled(ts, index)| == |ts|
    ensures forall i :: 0 <= i < |ts| && i != index ==> Toggled(ts, index)[i] == ts[i]
    ensures Toggled(ts, index)[index].text == ts[index].text && Toggled(ts, index)[index].id == ts[index].id
    ensures Toggled(ts, index)[index].completed != ts[index].completed
  {
  }

  /** Deleting takes exactly the item at the index out and keeps the others in order. */
  lemma SplicedRemovesOne(ts: seq<Todo>, index: nat)
    requires index < |ts|
    ensures |Spliced(ts, index)| == |ts| - 1
    ensures multiset(Spliced(ts, index)) + multiset{ts[index]} == multiset(ts)
    ensures forall i :: 0 <= i < |ts| - 1 ==> Spliced(ts, index)[i] == if i < index then ts[i] else ts[i + 1]
  {
    SplicedCount(ts, index);
    SplicedOrder(ts, index);
  }

  lemma SplicedCount(ts: seq<Todo>, index: nat)
    requires index < |ts|
    ensures multiset(Spliced(ts, index)) + multiset{ts[index]} == multiset(ts)
  {
    var a, b := ts[..index], ts[index + 1..];
    assert ts == a + [ts[index]] + b;
    assert Spliced(ts, index) == a + b;
  }

  lemma SplicedOrder(ts: seq<Todo>, index: nat)
    requires index < |ts|
    ensures |Spliced(ts, index)| == |ts| - 1
    ensures forall i :: 0 <= i < |ts| - 1 ==> Spliced(ts, index)[i] == if i < index then ts[i] else ts[i + 1]
  {
  }

  /** Deleting the todo just added gives the list back. */
  lemma DeleteUndoesAdd(ts: seq<Todo>, t: Todo)
    ensures Spliced(ts + [t], |ts|) == ts
  {
    assert (ts + [t])[..|ts|] == ts;
  }

  /** The text an edit stores is never blank and carries no space at either end. */
  lemma EditedTextIsTrimmed(input: string)
    requires Trim(input) != ""
    ensures !IsJsSpace(Trim(input)[0]) && !IsJsSpace(Trim(input)[|Trim(input)| - 1])
  {
    TrimShape(input);
  }

  /**
   * Whether `getData(TODOS, [])` hands back the array it keeps in the
   * offline cache: a stored array, which it caches, or a truthy cached one.
   * The default `[]` is a fresh array of its own.
   */
  predicate LoadShares(s: LocalState, readOk: bool) {
    (readOk && TodosKey in s.storage) || (TodosKey in s.cache && Truthy(s.cache[TodosKey]))
  }

  /** The value `getData(TODOS, [])` returns. */
  function LoadedValue(s: LocalState, readOk: bool): Json {
    if readOk then ReadValue(s, TodosKey, Arr([])) else CacheFallback(s.cache, TodosKey, Arr([]))
  }

  /**
   * The local state once the list has been changed in place while the
   * offline cache holds that same array: the cached entry follows, and
   * nothing is written to storage.
   */
  function InPlace(s: LocalState, ts: seq<Todo>): (r: LocalState)
    ensures r.storage == s.storage && r.cache.Keys == s.cache.Keys + {TodosKey}
    ensures r.cache[TodosKey] == TodosJson(ts)
    ensures forall k :: k in s.cache && k != TodosKey ==> r.cache[k] == s.cache[k]
  {
    LocalState(s.storage, s.cache[TodosKey := TodosJson(ts)])
  }

  /** A successful save after an in-place change is the same as the save alone. */
  lemma SavedAfterInPlace(s: LocalState, ts: seq<Todo>)
    ensures Saved(InPlace(s, ts), TodosKey, TodosJson(ts)) == Saved(s, TodosKey, TodosJson(ts))
  {
    var v := TodosJson(ts);
    assert s.cache[TodosKey := v][TodosKey := v] == s.cache[TodosKey := v];
  }

  /**
   * After a change whose write failed, the stored list is still the old one,
   * but a read that falls back on the cache sees the new list, and so does
   * the next successful `saveData` of another key, which writes the cache
   * (with the unsaved list in it) to storage.
   */
  lemma UnsavedListStaysCached(s: LocalState, ts: seq<Todo>, key: string, v: Json)
    requires key != TodosKey && key != OfflineCacheKey
    ensures Get(InPlace(s, ts).storage, TodosKey) == Get(s.storage, TodosKey)
    ensures CacheFallback(InPlace(s, ts).cache, TodosKey, Arr([])) == TodosJson(ts)
    ensures
      var after := Saved(InPlace(s, ts), key, v);
      Get(after.storage, OfflineCacheKey) == Some(Obj(after.cache)) && after.cache[TodosKey] == TodosJson(ts) &&
      Get(after.storage, TodosKey) == Get(s.storage, TodosKey)
  {
    var after := Saved(InPlace(s, ts), key, v);
    assert after.cache == InPlace(s, ts).cache[key := v];
  }

  class TodoList {
    var todos: seq<Todo>
    /** Whether `todos` is the very array the offline cache holds under the todos key, so that changing it in place changes the cached entry too. */
    var shared: bool

    /**
     * `initTodos`: `todos = await getData(TODOS, [])`. The value read is
     * taken to be a list of todos; it is the cached array itself unless it
     * is the default.
     */
    constructor Load(sm: StorageManager, readOk: bool, loaded: seq<Todo>)
      requires LoadedValue(sm.Local(), readOk) == TodosJson(loaded)
      modifies sm
      ensures todos == loaded && shared == LoadShares(old(sm.Local()), readOk)
      ensures sm.Local() == if readOk then AfterRead(old(sm.Local()), TodosKey) else old(sm.Local())
      ensures sm.remote == old(sm.remote) && sm.webdavClient == old(sm.webdavClient) && sm.pendingUpload == old(sm.pendingUpload)
    {
      shared := LoadShares(sm.Local(), readOk);
      var v := sm.GetData(TodosKey, Arr([]), readOk);
      todos := loaded;
    }

    /**
     * The store after the list changed and `saveData(TODOS, todos)` ran: the
     * save when the write went through; otherwise the cached entry follows
     * the list when the cache held that array, and nothing changes when not.
     */
    ghost predicate Stored(sm: StorageManager, before: LocalState, wasShared: bool, writeOk: bool)
      reads this, sm
    {
      sm.Local() ==
        if writeOk then Saved(before, TodosKey, TodosJson(todos))
        else if wasShared then InPlace(before, todos)
        else before
    }

    /** The list has been changed in place: when the cache holds the same array, its entry changes with it. */
    method ChangedInPlace(sm: StorageManager)
      modifies sm
      ensures sm.Local() == if shared then InPlace(old(sm.Local()), todos) else old(sm.Local())
      ensures sm.remote == old(sm.remote) && sm.webdavClient == old(sm.webdavClient) && sm.pendingUpload == old(sm.pendingUpload)
    {
      if shared {
        sm.offlineCache := sm.offlineCache[TodosKey := TodosJson(todos)];
      }
    }

    /** `saveData(TODOS, todos)` after an in-place change; a successful save caches this very array. */
    method Save(sm: StorageManager, writeOk: bool)
      modifies this, sm
      ensures todos == old(todos) && shared == (old(shared) || writeOk)
      ensures Stored(sm, old(sm.Local()), old(shared), writeOk)
      ensures sm.remote == old(sm.remote) && sm.webdavClient == old(sm.webdavClient) && sm.pendingUpload == old(sm.pendingUpload)
    {
      ChangedInPlace(sm);
      SavedAfterInPlace(old(sm.Local()), todos);
      var ok := sm.SaveData(TodosKey, TodosJson(todos), writeOk);
      shared := shared || ok;
    }

    /** The add button: an empty, open todo stamped with `now` is pushed, then saved. */
    method Add(sm: StorageManager, now: int, writeOk: bool)
      modifies this, sm
      ensures todos == old(todos) + [Todo("", false, now)] && shared == (old(shared) || writeOk)
      ensures Stored(sm, old(sm.Local()), old(shared), writeOk)
      ensures sm.remote == old(sm.remote) && sm.webdavClient == old(sm.webdavClient) && sm.pendingUpload == old(sm.pendingUpload)
    {
      todos := todos + [Todo("", false, now)];
      Save(sm, writeOk);
    }

    /** `toggleTodo(index)`; an index with no todo throws before anything changes. */
    method Toggle(sm: StorageManager, index: nat, writeOk: bool) returns (ok: bool)
      modifies this, sm
      ensures ok <==> index < |old(todos)|
      ensures ok ==> todos == Toggled(old(todos), index) && shared == (old(shared) || writeOk) &&
                     Stored(sm, old(sm.Local()), old(shared), writeOk)
      ensures !ok ==> todos == old(todos) && shared == old(shared) && sm.Local() == old(sm.Local())
      ensures sm.remote == old(sm.remote) && sm.webdavClient == old(sm.webdavClient) && sm.pendingUpload == old(sm.pendingUpload)
    {
      if index >= |todos| {
        return false;
      }
      todos := todos[index := todos[index].(completed := !todos[index].completed)];
      Save(sm, writeOk);
      return true;
    }

    /**
     * The save button of an edit: a non-blank input, trimmed, becomes the
     * todo's text and is saved; a blank one changes nothing. An index with
     * no todo throws before anything changes.
     */
    method Edit(sm: StorageManager, index: nat, input: string, writeOk: bool) returns (ok: bool)
      modifies this, sm
      ensures ok <==> Trim(input) == "" || index < |old(todos)|
      ensures Trim(input) != "" && index < |old(todos)| ==>
        todos == old(todos)[index := old(todos)[index].(text := Trim(input))] && shared == (old(shared) || writeOk) &&
        Stored(sm, old(sm.Local()), old(shared), writeOk)
      ensures Trim(input) == "" || index >= |old(todos)| ==> todos == old(todos) && shared == old(shared) && sm.Local() == old(sm.Local())
      ensures sm.remote == old(sm.remote) && sm.webdavClient == old(sm.webdavClient) && sm.pendingUpload == old(sm.pendingUpload)
    {
      var text := Trim(input);
      if text == "" {
        return true;
      }
      if index >= |todos| {
        return false;
      }
      todos := todos[index := todos[index].(text := text)];
      Save(sm, writeOk);
      return true;
    }

    /** `deleteTodo(index)`: splice, then save (also when nothing was removed). */
    method Delete(sm: StorageManager, index: nat, writeOk: bool)
      modifies this, sm
      ensures todos == Spliced(old(todos), index) && shared == (old(shared) || writeOk)
      ensures Stored(sm, old(sm.Local()), old(shared), writeOk)
      ensures sm.remote == old(sm.remote) && sm.webdavClient == old(sm.webdavClient) && sm.pendingUpload == old(sm.pendingUpload)
    {
      if index < |todos| {
        todos := todos[..index] + todos[index + 1..];
      }
      Save(sm, writeOk);
    }

    /** The storage listener's `todos = newValue`: a fresh array, shared with no cache. */
    method Replace(newValue: seq<Todo>)
      modifies this
      ensures todos == newValue && !shared
    {
      todos := newValue;
      shared := false;
    }
  }
}
