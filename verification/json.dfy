/** JavaScript values as they pass through `JSON.stringify`/`JSON.parse`, and
    the browser's string-valued key-value medium.

    Numbers are integers (floating point is not modelled). An object is a map
    from property name to value; property order is not modelled. */
module Json {
  import opened Wrappers
  import JsText

  datatype Json =
    | JNull
    | JBool(b: bool)
    | JNum(n: int)
    | JStr(s: string)
    | JArr(items: seq<Json>)
    | JObj(fields: map<string, Json>)

  /** JavaScript truthiness (`!!v`). */
  predicate Truthy(v: Json) {
    match v
    case JNull => false
    case JBool(b) => b
    case JNum(n) => n != 0
    case JStr(s) => s != ""
    case _ => true
  }

  /** The `typeof` operator. Note that `typeof null` is "object". */
  function TypeOf(v: Json): string {
    match v
    case JNull => "object"
    case JBool(_) => "boolean"
    case JNum(_) => "number"
    case JStr(_) => "string"
    case _ => "object"
  }

  /** Records and arrays: the values that are truthy with `typeof` "object". */
  predicate IsObjectLike(v: Json) {
    v.JObj? || v.JArr?
  }

  lemma {:induction false} ObjectLikeIffTruthyObject(v: Json)
    ensures IsObjectLike(v) <==> Truthy(v) && TypeOf(v) == "object"
  {
  }

  /** Index-named entries of a list: "0" to the first element, and so on. */
  function IndexEntries(items: seq<Json>): (m: map<string, Json>)
    ensures m.Keys == IndexKeys(|items|)
    ensures forall i :: 0 <= i < |items| ==> JsText.NatToString(i) in m && m[JsText.NatToString(i)] == items[i]
    ensures |m.Keys| <= |items|
  {
    JsText.NatToStringInjectiveAll();
    IndexKeysBound(|items|);
    map i | 0 <= i < |items| :: JsText.NatToString(i) := items[i]
  }

  /** The decimal spellings of the indices below `n`. */
  ghost function IndexKeys(n: nat): set<string> {
    set i | 0 <= i < n :: JsText.NatToString(i)
  }

  lemma {:induction false} IndexKeysBound(n: nat)
    ensures |IndexKeys(n)| <= n
  {
    if n > 0 {
      IndexKeysBound(n - 1);
      assert IndexKeys(n) == IndexKeys(n - 1) + {JsText.NatToString(n - 1)};
    } else {
      assert IndexKeys(0) == {};
    }
  }

  /** No index key is a name that starts with anything but a digit. */
  lemma {:induction false} IndexKeysAreDigits(items: seq<Json>, key: string)
    requires key in IndexEntries(items)
    ensures |key| > 0 && JsText.IsDecimalDigit(key[0])
  {
    var i :| 0 <= i < |items| && key == JsText.NatToString(i);
  }

  /** The own property `key` of an array or record, as the `in` operator and
      property access see it: an array has "length" and its indices. Other
      values have no properties here (the `in` operator throws on them). */
  function Prop(v: Json, key: string): Option<Json>
  {
    match v
    case JObj(fields) => if key in fields then Some(fields[key]) else None
    case JArr(items) =>
      if key == "length" then Some(JNum(|items|))
      else if key in IndexEntries(items) then Some(IndexEntries(items)[key])
      else None
    case _ => None
  }

  /** The enumerable own properties that object spread (`{...v}`) copies: a
      record's fields, an array's or a string's index entries, and nothing for
      `null`, booleans and numbers. */
  function Spread(v: Json): map<string, Json>
  {
    match v
    case JObj(fields) => fields
    case JArr(items) => IndexEntries(items)
    case JStr(s) => IndexEntries(seq(|s|, i requires 0 <= i < |s| => JStr([s[i]])))
    case _ => map[]
  }

  /** A piece of text as stored or read from a file: either the serialization
      of a value of type `T` (which `JSON.parse` turns back into that value)
      or text `JSON.parse` rejects. */
  datatype Text<T> = Encoded(value: T) | Malformed(raw: string)

  /** `JSON.stringify` of a value. */
  function Stringify<T>(v: T): (t: Text<T>)
    ensures Parse(t) == Some(v)
  {
    Encoded(v)
  }

  /** `JSON.parse`: the encoded value, or `None` where it throws. */
  function Parse<T>(t: Text<T>): Option<T>
  {
    match t
    case Encoded(v) => Some(v)
    case Malformed(_) => None
  }

  /** JavaScript treats the empty string as falsy; several callers test the
      stored text for truthiness before parsing it. */
  predicate TextTruthy<T>(t: Text<T>) {
    !(t.Malformed? && t.raw == "")
  }

  /** `localStorage`: a string-keyed store of texts, seen by one component
      through the type of value it writes there. */
  type Medium<T> = map<string, Text<T>>
}
