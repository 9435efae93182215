/** Parsed JSON values as the dashboard's JavaScript sees them: truthiness, `a || b`,
    property reads (which throw on `null`) and the `String(v)` conversion. */
module JsJson {

  import opened Wrappers
  import JsText

  /** A value produced by `JSON.parse`. Numbers are modelled as integers. */
  datatype Json =
    | JNull
    | JBool(b: bool)
    | JNum(n: int)
    | JStr(s: string)
    | JArray(items: seq<Json>)
    | JObject(fields: map<string, Json>)

  /** JavaScript truthiness of a property read (also `Boolean(v)`); `None` is `undefined`. */
  predicate Truthy(v: Option<Json>) {
    match v
    case None => false
    case Some(JNull) => false
    case Some(JBool(b)) => b
    case Some(JNum(n)) => n != 0
    case Some(JStr(s)) => s != ""
    case Some(_) => true
  }

  /** The message V8 gives the TypeError thrown by reading a property of `null`. */
  function NullReadMessage(key: string): string {
    "Cannot read properties of null (reading '" + key + "')"
  }

  /** `target.key`. Reading from `null` throws; an object yields its own field or `undefined`;
      the other values have none of the (non-inherited) fields the dashboard reads. */
  function Get(target: Json, key: string): (r: Result<Option<Json>>)
    ensures r.Err? <==> target.JNull?
    ensures target.JObject? && key in target.fields ==> r == Ok(Some(target.fields[key]))
    ensures target.JObject? && key !in target.fields ==> r == Ok(None)
  {
    match target
    case JNull => Err(NullReadMessage(key))
    case JObject(m) => Ok(if key in m then Some(m[key]) else None)
    case _ => Ok(None)
  }

  /** `a || b`: the first operand when it is truthy, otherwise the second. */
  function Or(a: Option<Json>, b: Option<Json>): Option<Json> {
    if Truthy(a) then a else b
  }

  /** `a || b`, then `|| fallback` with a string fallback: the result is never `undefined`. */
  function OrElse(a: Option<Json>, fallback: string): (r: Json)
    ensures Truthy(a) ==> Some(r) == a
    ensures !Truthy(a) ==> r == JStr(fallback)
  {
    if Truthy(a) then a.value else JStr(fallback)
  }

  /** The TypeError `v?.split(...)` throws when `v` is neither nullish nor a string. */
  const SplitNotAFunctionMessage: string := "split is not a function"

  /** `v?.split(sep)[i]`: `undefined` when `v` is `undefined` or `null`; for a string, its `i`-th
      piece (`undefined` past the last one); any other value has no `split` method and throws. */
  function OptionalSplitPiece(v: Option<Json>, sep: char, i: nat): (r: Result<Option<Json>>)
    ensures r.Err? <==> v.Some? && !v.value.JNull? && !v.value.JStr?
    ensures v.None? || v.value.JNull? ==> r == Ok(None)
    ensures v.Some? && v.value.JStr? ==>
      r == Ok(match JsText.Piece(v.value.s, sep, i) case Some(p) => Some(JStr(p)) case None => None)
  {
    match v
    case None => Ok(None)
    case Some(JNull) => Ok(None)
    case Some(JStr(s)) => Ok(match JsText.Piece(s, sep, i) case Some(p) => Some(JStr(p)) case None => None)
    case Some(_) => Err(SplitNotAFunctionMessage)
  }

  /** Decimal digits of a natural number. */
  function NatToString(n: nat): (s: string)
    ensures |s| >= 1
    ensures forall i :: 0 <= i < |s| ==> '0' <= s[i] <= '9'
  {
    var d := [(n % 10 + 48) as char];
    if n < 10 then d else NatToString(n / 10) + d
  }

  /** Reading the digits back gives the number: `NatToString` loses nothing. */
  function DigitsValue(s: string): int
    requires forall i :: 0 <= i < |s| ==> '0' <= s[i] <= '9'
  {
    if s == [] then 0 else DigitsValue(s[..|s| - 1]) * 10 + (s[|s| - 1] - '0') as int
  }

  lemma {:induction false} NatToStringRoundTrip(n: nat)
    ensures DigitsValue(NatToString(n)) == n
  {
    var s := NatToString(n);
    if n >= 10 {
      NatToStringRoundTrip(n / 10);
      assert s[..|s| - 1] == NatToString(n / 10);
    }
  }

  /** `String(v)` for a JSON value. */
  function ToJsString(v: Json): string
    decreases v, 1
  {
    match v
    case JNull => "null"
    case JBool(b) => if b then "true" else "false"
    case JNum(n) => if n < 0 then "-" + NatToString(-n) else NatToString(n)
    case JStr(s) => s
    case JArray(items) => JoinElements(items, v)
    case JObject(_) => "[object Object]"
  }

  /** `items.join(",")`, where `null` elements print as the empty string. */
  function JoinElements(items: seq<Json>, ghost parent: Json): string
    requires forall i :: 0 <= i < |items| ==> items[i] < parent
    decreases parent, 0, |items|
  {
    if items == [] then ""
    else
      var first := if items[0].JNull? then "" else ToJsString(items[0]);
      if |items| == 1 then first else first + "," + JoinElements(items[1..], parent)
  }

}
