/**
 * The "merge" resolution of a sync conflict: shortcuts and todos go
 * through `new Map(entries).values()` keyed by `url` and by `id`, the
 * settings and search engines through object spread with the cloud side
 * last, and the notes through `||`.
 */
module Merge {
  import opened Wrappers
  import opened Json

  /**
   * A key of a JavaScript `Map` as the merge produces it: `undefined`, a
   * primitive (compared by value), or an array or object, which is a
   * different key wherever it appears; such a key is tagged with the
   * position of the item it was read from.
   */
  datatype MapKey = Undefined | Prim(value: Json) | Ref(position: nat)

  function KeyOf(v: Option<Json>, position: nat): MapKey {
    match v
    case None => Undefined
    case Some(Arr(_)) => Ref(position)
    case Some(Obj(_)) => Ref(position)
    case Some(j) => Prim(j)
  }

  function Keys<K, V>(m: seq<(K, V)>): (ks: seq<K>)
    ensures |ks| == |m| && forall i :: 0 <= i < |m| ==> ks[i] == m[i].0
  {
    seq(|m|, i requires 0 <= i < |m| => m[i].0)
  }

  function Values<K, V>(m: seq<(K, V)>): (vs: seq<V>)
    ensures |vs| == |m| && forall i :: 0 <= i < |m| ==> vs[i] == m[i].1
  {
    seq(|m|, i requires 0 <= i < |m| => m[i].1)
  }

  predicate DistinctKeys<K(==)>(ks: seq<K>) {
    forall i, j :: 0 <= i < j < |ks| ==> ks[i] != ks[j]
  }

  /** The position of `k` in the entries, if any. */
  function Find<K(==), V>(m: seq<(K, V)>, k: K): (r: Option<nat>)
    ensures r.None? <==> k !in Keys(m)
    ensures r.Some? ==> r.value < |m| && m[r.value].0 == k
  {
    if m == [] then None
    else if m[|m| - 1].0 == k then Some(|m| - 1)
    else
      var r := Find(m[..|m| - 1], k);
      assert Keys(m) == Keys(m[..|m| - 1]) + [m[|m| - 1].0];
      r
  }

  /** `map.set(k, v)`: an existing key keeps its place and takes the new value; a new key goes last. */
  function MapSet<K(==), V>(m: seq<(K, V)>, k: K, v: V): (r: seq<(K, V)>)
    ensures k in Keys(m) ==> Keys(r) == Keys(m)
    ensures k !in Keys(m) ==> Keys(r) == Keys(m) + [k]
    ensures DistinctKeys(Keys(m)) ==>
      forall i :: 0 <= i < |r| ==> r[i] == if i < |m| && m[i].0 != k then m[i] else (k, v)
  {
    match Find(m, k)
    case Some(i) =>
      var r := m[i := (k, v)];
      assert Keys(r) == Keys(m);
      r
    case None =>
      var r := m + [(k, v)];
      assert Keys(r) == Keys(m) + [k];
      r
  }

  /** `new Map(entries)`: the entries set one after the other. */
  function FromEntries<K(==), V>(items: seq<(K, V)>): seq<(K, V)> {
    if items == [] then [] else
      var last := items[|items| - 1];
      MapSet(FromEntries(items[..|items| - 1]), last.0, last.1)
  }

  /** The keys in order of first occurrence, each once. */
  function FirstOccurrences<K(==)>(ks: seq<K>): seq<K> {
    if ks == [] then [] else
      var init := ks[..|ks| - 1];
      FirstOccurrences(init) + (if ks[|ks| - 1] in init then [] else [ks[|ks| - 1]])
  }

  /** The position of the first occurrence of `k`. */
  function FirstIndex<K(==)>(ks: seq<K>, k: K): (i: nat)
    requires k in ks
    ensures i < |ks| && ks[i] == k && forall j :: 0 <= j < i ==> ks[j] != k
  {
    if ks[0] == k then 0 else 1 + FirstIndex(ks[1..], k)
  }

  /** The value the last entry with key `k` carries. */
  function LastWith<K(==), V>(items: seq<(K, V)>, k: K): V
    requires k in Keys(items)
  {
    if items[|items| - 1].0 == k then items[|items| - 1].1
    else
      assert Keys(items) == Keys(items[..|items| - 1]) + [items[|items| - 1].0];
      LastWith(items[..|items| - 1], k)
  }

  lemma FirstIndexPrefix<K>(ks: seq<K>, n: nat, k: K)
    requires n <= |ks| && k in ks[..n]
    ensures FirstIndex(ks[..n], k) == FirstIndex(ks, k)
  {
    var i := FirstIndex(ks[..n], k);
    var j := FirstIndex(ks, k);
    assert ks[..n][i] == ks[i];
  }

  lemma FirstOccurrencesSnoc<K>(init: seq<K>, k: K)
    ensures FirstOccurrences(init + [k]) == FirstOccurrences(init) + (if k in init then [] else [k])
  {
    assert (init + [k])[..|init|] == init;
  }

  lemma {:induction false} FirstOccurrencesMembers<K>(ks: seq<K>)
    ensures forall k :: k in FirstOccurrences(ks) <==> k in ks
    decreases |ks|
  {
    if ks != [] {
      var init := ks[..|ks| - 1];
      assert ks == init + [ks[|ks| - 1]];
      FirstOccurrencesMembers(init);
      FirstOccurrencesSnoc(init, ks[|ks| - 1]);
    }
  }

  lemma {:induction false} FirstOccurrencesDistinct<K>(ks: seq<K>)
    ensures DistinctKeys(FirstOccurrences(ks))
    decreases |ks|
  {
    if ks != [] {
      var init := ks[..|ks| - 1];
      var last := ks[|ks| - 1];
      assert ks == init + [last];
      FirstOccurrencesDistinct(init);
      FirstOccurrencesMembers(init);
      FirstOccurrencesSnoc(init, last);
      if last !in init {
        var f := FirstOccurrences(init);
        assert last !in f;
        assert FirstOccurrences(ks) == f + [last];
      }
    }
  }

  lemma {:induction false} FirstOccurrencesOrdered<K>(ks: seq<K>)
    ensures forall i :: 0 <= i < |FirstOccurrences(ks)| ==> FirstOccurrences(ks)[i] in ks
    ensures forall i, j :: 0 <= i < j < |FirstOccurrences(ks)| ==>
      FirstIndex(ks, FirstOccurrences(ks)[i]) < FirstIndex(ks, FirstOccurrences(ks)[j])
    decreases |ks|
  {
    if ks != [] {
      var n := |ks| - 1;
      var init := ks[..n];
      var last := ks[n];
      var f := FirstOccurrences(init);
      FirstOccurrencesOrdered(init);
      FirstOccurrencesSnoc(init, last);
      assert ks == init + [last];
      var r := FirstOccurrences(ks);
      forall i | 0 <= i < |r| ensures r[i] in ks {
        if i < |f| {
          OrderedStep(ks, f, i, i + 1);
        }
      }
      forall i, j | 0 <= i < j < |r| ensures FirstIndex(ks, r[i]) < FirstIndex(ks, r[j]) {
        OrderedStep(ks, f, i, j);
        if j == |f| {
          FirstIndexOfNew(ks);
        }
      }
    }
  }

  lemma FirstIndexOfNew<K>(ks: seq<K>)
    requires ks != [] && ks[|ks| - 1] !in ks[..|ks| - 1]
    ensures FirstIndex(ks, ks[|ks| - 1]) == |ks| - 1
  {
    assert forall j :: 0 <= j < |ks| - 1 ==> ks[..|ks| - 1][j] == ks[j];
  }

  lemma OrderedStep<K>(ks: seq<K>, f: seq<K>, i: nat, j: nat)
    requires ks != [] && f == FirstOccurrences(ks[..|ks| - 1])
    requires forall i :: 0 <= i < |f| ==> f[i] in ks[..|ks| - 1]
    requires forall i, j :: 0 <= i < j < |f| ==> FirstIndex(ks[..|ks| - 1], f[i]) < FirstIndex(ks[..|ks| - 1], f[j])
    requires i < j && i < |f|
    ensures f[i] in ks && FirstIndex(ks, f[i]) < |ks| - 1
    ensures j < |f| ==> f[j] in ks && FirstIndex(ks, f[i]) < FirstIndex(ks, f[j])
  {
    var n := |ks| - 1;
    var init := ks[..n];
    assert f[i] in f;
    FirstIndexPrefix(ks, n, f[i]);
    if j < |f| {
      assert f[j] in f;
      FirstIndexPrefix(ks, n, f[j]);
    }
  }

  /**
   * Every key once, all of them, and in the order of their first
   * occurrences.
   */
  lemma FirstOccurrencesShape<K>(ks: seq<K>)
    ensures DistinctKeys(FirstOccurrences(ks))
    ensures forall k :: k in FirstOccurrences(ks) <==> k in ks
    ensures forall i, j :: 0 <= i < j < |FirstOccurrences(ks)| ==>
      FirstIndex(ks, FirstOccurrences(ks)[i]) < FirstIndex(ks, FirstOccurrences(ks)[j])
  {
    FirstOccurrencesMembers(ks);
    FirstOccurrencesDistinct(ks);
    FirstOccurrencesOrdered(ks);
  }

  /** The last value for a key, after one more entry. */
  lemma LastWithSnoc<K, V>(init: seq<(K, V)>, k: K, v: V, key: K)
    requires key == k || key in Keys(init)
    ensures key in Keys(init + [(k, v)])
    ensures LastWith(init + [(k, v)], key) == if key == k then v else LastWith(init, key)
  {
    var items := init + [(k, v)];
    assert items[..|items| - 1] == init;
    assert Keys(items) == Keys(init) + [k];
  }

  lemma FromEntriesStepKeys<K, V>(init: seq<(K, V)>, k: K, v: V)
    requires Keys(FromEntries(init)) == FirstOccurrences(Keys(init))
    ensures Keys(FromEntries(init + [(k, v)])) == FirstOccurrences(Keys(init + [(k, v)]))
  {
    var items := init + [(k, v)];
    assert items[..|items| - 1] == init;
    assert Keys(items) == Keys(init) + [k];
    FirstOccurrencesShape(Keys(init));
    FirstOccurrencesSnoc(Keys(init), k);
  }

  lemma FromEntriesStepValues<K, V>(init: seq<(K, V)>, k: K, v: V)
    requires Keys(FromEntries(init)) == FirstOccurrences(Keys(init))
    requires forall i :: 0 <= i < |FromEntries(init)| ==>
      FromEntries(init)[i].0 in Keys(init) && FromEntries(init)[i].1 == LastWith(init, FromEntries(init)[i].0)
    ensures forall i :: 0 <= i < |FromEntries(init + [(k, v)])| ==>
      FromEntries(init + [(k, v)])[i].0 in Keys(init + [(k, v)]) &&
      FromEntries(init + [(k, v)])[i].1 == LastWith(init + [(k, v)], FromEntries(init + [(k, v)])[i].0)
  {
    var items := init + [(k, v)];
    var m := FromEntries(init);
    assert items[..|items| - 1] == init;
    var r := FromEntries(items);
    assert r == MapSet(m, k, v);
    FirstOccurrencesShape(Keys(init));
    forall i | 0 <= i < |r| ensures r[i].0 in Keys(items) && r[i].1 == LastWith(items, r[i].0) {
      if i < |m| && m[i].0 != k {
        assert r[i] == m[i];
        LastWithSnoc(init, k, v, r[i].0);
      } else {
        assert r[i] == (k, v);
        LastWithSnoc(init, k, v, k);
      }
    }
  }

  /**
   * `new Map(entries)` holds each key once, in the order of its first
   * occurrence among the entries, with the value of its last occurrence.
   */
  lemma {:induction false} FromEntriesShape<K, V>(items: seq<(K, V)>)
    ensures Keys(FromEntries(items)) == FirstOccurrences(Keys(items))
    ensures forall i :: 0 <= i < |FromEntries(items)| ==>
      FromEntries(items)[i].0 in Keys(items) && FromEntries(items)[i].1 == LastWith(items, FromEntries(items)[i].0)
    decreases |items|
  {
    if items != [] {
      var n := |items| - 1;
      var init := items[..n];
      FromEntriesShape(init);
      assert items == init + [items[n]];
      FromEntriesStepKeys(init, items[n].0, items[n].1);
      FromEntriesStepValues(init, items[n].0, items[n].1);
    }
  }

  /** The last occurrence of a key that the second run holds is in the second run. */
  lemma {:induction false} LastWithAppend<K, V>(a: seq<(K, V)>, b: seq<(K, V)>, k: K)
    requires k in Keys(b)
    ensures k in Keys(a + b) && LastWith(a + b, k) == LastWith(b, k)
    decreases |b|
  {
    var ab := a + b;
    assert Keys(ab) == Keys(a) + Keys(b);
    if b[|b| - 1].0 != k {
      var b' := b[..|b| - 1];
      assert ab[..|ab| - 1] == a + b';
      assert Keys(b) == Keys(b') + [b[|b| - 1].0];
      LastWithAppend(a, b', k);
    }
  }

  /** `items.map(item => [item[keyName], item])`; reading a property of `null` throws. */
  function KeyItems(items: seq<Json>, keyName: string): (r: Result<seq<(MapKey, Json)>, JsError>)
    ensures r.Ok? <==> forall i :: 0 <= i < |items| ==> !items[i].Null?
    ensures r.Ok? ==> Values(r.value) == items
    ensures r.Ok? ==> forall i :: 0 <= i < |items| ==> r.value[i].0 == KeyOf(Property(items[i], keyName).value, i)
  {
    if exists i :: 0 <= i < |items| && items[i].Null? then Err(Property(Null, keyName).error)
    else
      var r := seq(|items|, i requires 0 <= i < |items| => (KeyOf(Property(items[i], keyName).value, i), items[i]));
      assert Values(r) == items;
      Ok(r)
  }

  /** `[...cloud[field], ...local[field]]`, split back into its two runs. */
  function Combined(cloud: Json, local: Json, field: string): (r: Result<(seq<Json>, seq<Json>), JsError>)
    ensures r.Ok? ==> !cloud.Null? && !local.Null?
  {
    match Property(cloud, field)
    case Err(e) => Err(e)
    case Ok(c) =>
      match Spread(c)
      case Err(e) => Err(e)
      case Ok(cs) =>
        match Property(local, field)
        case Err(e) => Err(e)
        case Ok(l) =>
          match Spread(l)
          case Err(e) => Err(e)
          case Ok(ls) => Ok((cs, ls))
  }

  /**
   * `[...new Map([...cloud[field], ...local[field]].map(item => [item[keyName], item])).values()]`
   */
  function MergeList(cloud: Json, local: Json, field: string, keyName: string): (r: Result<seq<Json>, JsError>)
    ensures r.Ok? ==> !cloud.Null? && !local.Null?
  {
    match Combined(cloud, local, field)
    case Err(e) => Err(e)
    case Ok((cs, ls)) =>
      match KeyItems(cs + ls, keyName)
      case Err(e) => Err(e)
      case Ok(keyed) => Ok(Values(FromEntries(keyed)))
  }

  /** `{ ...local[field], ...cloud[field] }`: every own property of both, the cloud's where both have one. */
  function MergeObject(cloud: Json, local: Json, field: string): (m: map<string, Json>)
    requires !cloud.Null? && !local.Null?
  {
    OwnEntries(Property(local, field).value) + OwnEntries(Property(cloud, field).value)
  }

  /** `cloud.notes || local.notes` */
  function MergeNotes(cloud: Json, local: Json): (n: Option<Json>)
    requires !cloud.Null? && !local.Null?
    ensures IsTruthy(Property(cloud, "notes").value) ==> n == Property(cloud, "notes").value
    ensures !IsTruthy(Property(cloud, "notes").value) ==> n == Property(local, "notes").value
  {
    var c := Property(cloud, "notes").value;
    if IsTruthy(c) then c else Property(local, "notes").value
  }

  /** The `mergedData` object; a `notes` of `undefined` is a property `JSON.stringify` and `saveAllData` skip, so it is left out. */
  function MergeDatasets(cloud: Json, local: Json): (r: Result<Json, JsError>)
    ensures r.Ok? <==> MergeList(cloud, local, "shortcuts", "url").Ok? && MergeList(cloud, local, "todos", "id").Ok?
    ensures r.Ok? ==> r.value.Obj? && r.value.fields.Keys <= {"shortcuts", "settings", "searchEngines", "todos", "notes"}
  {
    match MergeList(cloud, local, "shortcuts", "url")
    case Err(e) => Err(e)
    case Ok(shortcuts) =>
      match MergeList(cloud, local, "todos", "id")
      case Err(e) => Err(e)
      case Ok(todos) =>
        var fields := map[
          "shortcuts" := Arr(shortcuts),
          "settings" := Obj(MergeObject(cloud, local, "settings")),
          "searchEngines" := Obj(MergeObject(cloud, local, "searchEngines")),
          "todos" := Arr(todos)];
        var notes := MergeNotes(cloud, local);
        Ok(Obj(if notes.Some? then fields["notes" := notes.value] else fields))
  }

  /**
   * A merge that succeeds holds the merged lists, the two merged objects
   * and, when one is defined, the merged notes, under their own names.
   */
  lemma MergeDatasetsFields(cloud: Json, local: Json)
    requires MergeDatasets(cloud, local).Ok?
    ensures var f := MergeDatasets(cloud, local).value.fields;
      "shortcuts" in f && f["shortcuts"] == Arr(MergeList(cloud, local, "shortcuts", "url").value) &&
      "todos" in f && f["todos"] == Arr(MergeList(cloud, local, "todos", "id").value) &&
      "settings" in f && f["settings"] == Obj(MergeObject(cloud, local, "settings")) &&
      "searchEngines" in f && f["searchEngines"] == Obj(MergeObject(cloud, local, "searchEngines")) &&
      ("notes" in f <==> MergeNotes(cloud, local).Some?) &&
      (MergeNotes(cloud, local).Some? ==> f["notes"] == MergeNotes(cloud, local).value)
  {
  }

  /**
   * The merged list holds one item per key of cloud followed by local, in
   * the order the keys first occur, and each is the last item with its key.
   */
  lemma MergeListShape(cs: seq<Json>, ls: seq<Json>, keyName: string)
    requires KeyItems(cs + ls, keyName).Ok?
    ensures
      var keyed := KeyItems(cs + ls, keyName).value;
      var merged := FromEntries(keyed);
      DistinctKeys(Keys(merged)) &&
      (forall k :: k in Keys(merged) <==> k in Keys(keyed)) &&
      (forall i, j :: 0 <= i < j < |merged| ==> FirstIndex(Keys(keyed), merged[i].0) < FirstIndex(Keys(keyed), merged[j].0)) &&
      (forall i :: 0 <= i < |merged| ==> merged[i].1 == LastWith(keyed, merged[i].0))
  {
    var keyed := KeyItems(cs + ls, keyName).value;
    FromEntriesShape(keyed);
    FirstOccurrencesShape(Keys(keyed));
  }

  /**
   * On a key that entries of both runs hold, the map's entry sits where the
   * key first occurs in the first run and holds the last value of the second.
   */
  lemma SharedKeyTakesLaterValue<K, V>(a: seq<(K, V)>, b: seq<(K, V)>, k: K)
    requires k in Keys(a) && k in Keys(b)
    ensures k in Keys(a + b) && FirstIndex(Keys(a + b), k) < |a|
    ensures exists p :: 0 <= p < |FromEntries(a + b)| && FromEntries(a + b)[p].0 == k &&
                        FromEntries(a + b)[p].1 == LastWith(b, k)
  {
    var ab := a + b;
    assert Keys(ab) == Keys(a) + Keys(b);
    var i :| 0 <= i < |a| && Keys(a)[i] == k;
    assert Keys(ab)[i] == k;
    FromEntriesShape(ab);
    FirstOccurrencesShape(Keys(ab));
    assert k in Keys(FromEntries(ab));
    var p :| 0 <= p < |FromEntries(ab)| && Keys(FromEntries(ab))[p] == k;
    LastWithAppend(a, b, k);
  }

  /**
   * On a key a cloud item and a local item share, the merged entry holds
   * the last local item with that key and sits where the key first occurs
   * among the cloud items: the local item replaces the cloud one in the
   * cloud's place.
   */
  lemma LocalReplacesCloud(cs: seq<Json>, ls: seq<Json>, keyName: string, ci: nat, lj: nat)
    requires KeyItems(cs + ls, keyName).Ok?
    requires ci < |cs| && lj < |ls|
    requires KeyItems(cs + ls, keyName).value[ci].0 == KeyItems(cs + ls, keyName).value[|cs| + lj].0
    ensures
      var keyed := KeyItems(cs + ls, keyName).value;
      var k := keyed[ci].0;
      FirstIndex(Keys(keyed), k) < |cs| &&
      exists p :: 0 <= p < |FromEntries(keyed)| && FromEntries(keyed)[p].0 == k &&
        FromEntries(keyed)[p].1 == LastWith(keyed[|cs|..], k)
  {
    var keyed := KeyItems(cs + ls, keyName).value;
    var k := keyed[ci].0;
    var a := keyed[..|cs|];
    var b := keyed[|cs|..];
    assert keyed == a + b;
    assert Keys(a)[ci] == k;
    assert Keys(b)[lj] == k;
    SharedKeyTakesLaterValue(a, b, k);
  }

  /** In the merged settings and search engines the cloud's value wins a shared key, and local-only keys are kept. */
  lemma CloudWinsObjectKeys(cloud: Json, local: Json, field: string, k: string)
    requires !cloud.Null? && !local.Null?
    ensures k in OwnEntries(Property(cloud, field).value) ==>
      k in MergeObject(cloud, local, field) && MergeObject(cloud, local, field)[k] == OwnEntries(Property(cloud, field).value)[k]
    ensures k !in OwnEntries(Property(cloud, field).value) && k in OwnEntries(Property(local, field).value) ==>
      k in MergeObject(cloud, local, field) && MergeObject(cloud, local, field)[k] == OwnEntries(Property(local, field).value)[k]
    ensures k in MergeObject(cloud, local, field) <==>
      k in OwnEntries(Property(cloud, field).value) || k in OwnEntries(Property(local, field).value)
  {
  }
}
