/**
 * The JSON values the extension keeps in `chrome.storage.local` and in the
 * snapshot files, with JavaScript's truthiness, property access and the two
 * spread forms the merge uses. Numbers are integers.
 */
module Json {
  import opened Wrappers
  import opened Strings

  datatype Json =
    | Null
    | Bool(b: bool)
    | Num(n: int)
    | Str(s: string)
    | Arr(items: seq<Json>)
    | Obj(fields: map<string, Json>)

  /** A thrown JavaScript error: its `name` and its `message`. */
  datatype JsError = JsError(name: string, message: string)

  const TypeErrorName: string := "TypeError"

  /**
   * The SyntaxError `JSON.parse` throws on text that is not JSON. V8's own
   * message also names the offending token and its position; the model
   * uses one fixed text for every such failure.
   */
  const ParseError: JsError := JsError("SyntaxError", "Unexpected token in JSON")

  /** JavaScript truthiness: `null`, `false`, `0` and `""` are falsy; every array and object is truthy. */
  predicate Truthy(j: Json) {
    match j
    case Null => false
    case Bool(b) => b
    case Num(n) => n != 0
    case Str(s) => s != ""
    case Arr(_) => true
    case Obj(_) => true
  }

  /** Truthiness of a possibly-undefined value. */
  predicate IsTruthy(o: Option<Json>) {
    o.Some? && Truthy(o.value)
  }

  /**
   * `o.name`: reading a property of `null` throws a TypeError; objects give
   * their own field or `undefined`; every other value has no such property.
   */
  function Property(j: Json, name: string): (r: Result<Option<Json>, JsError>)
    ensures r.Err? <==> j.Null?
    ensures j.Obj? ==> r == Ok(if name in j.fields then Some(j.fields[name]) else None)
  {
    match j
    case Null => Err(JsError(TypeErrorName, "Cannot read properties of null (reading '" + name + "')"))
    case Obj(m) => Ok(if name in m then Some(m[name]) else None)
    case _ => Ok(None)
  }

  /** `a || b` on JSON values */
  function Or(a: Option<Json>, b: Json): (r: Json)
    ensures IsTruthy(a) ==> r == a.value
    ensures !IsTruthy(a) ==> r == b
  {
    if IsTruthy(a) then a.value else b
  }

  /**
   * `[...x]`: arrays give their elements, strings their characters; any other
   * value (and `undefined`) is not iterable and throws a TypeError. V8's
   * message names the value that is not iterable; the model uses one fixed
   * text for every such failure.
   */
  function Spread(o: Option<Json>): (r: Result<seq<Json>, JsError>)
    ensures r.Ok? <==> o.Some? && (o.value.Arr? || o.value.Str?)
    ensures r.Ok? && o.value.Arr? ==> r.value == o.value.items
    ensures r.Ok? && o.value.Str? ==> |r.value| == |o.value.s|
  {
    match o
    case Some(Arr(items)) => Ok(items)
    case Some(Str(s)) => Ok(seq(|s|, i requires 0 <= i < |s| => Str([s[i]])))
    case _ => Err(JsError(TypeErrorName, "object is not iterable"))
  }

  /** The own enumerable properties `{...x}` copies: index keys for arrays and strings, none for primitives. */
  function OwnEntries(o: Option<Json>): (m: map<string, Json>)
    ensures o.Some? && o.value.Obj? ==> m == o.value.fields
    ensures o.None? || (!o.value.Obj? && !o.value.Arr? && !o.value.Str?) ==> m == map[]
  {
    match o
    case Some(Obj(fields)) => fields
    case Some(Arr(items)) => IndexKeyed(items)
    case Some(Str(s)) => IndexKeyed(seq(|s|, i requires 0 <= i < |s| => Str([s[i]])))
    case _ => map[]
  }

  /** An array's elements under the keys "0", "1", ... */
  function IndexKeyed(items: seq<Json>): (m: map<string, Json>)
    ensures forall i :: 0 <= i < |items| ==> NatToString(i) in m && m[NatToString(i)] == items[i]
    ensures forall k :: k in m ==> exists i :: 0 <= i < |items| && k == NatToString(i)
  {
    NatToStringInjectiveAll();
    map i | 0 <= i < |items| :: NatToString(i) := items[i]
  }
}
