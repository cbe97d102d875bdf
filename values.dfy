/** The JavaScript values that parsed YAML, page metadata and template contexts are made of. */
module JsValues {
  import opened Wrappers

  /** A JSON-like JavaScript value. Numbers are integers in this model. */
  datatype Value =
    | Null
    | Bool(b: bool)
    | Num(n: int)
    | Str(s: string)
    | List(items: seq<Value>)
    | Obj(fields: map<string, Value>)

  /** The object literal `{}`. */
  const EmptyObject: Value := Obj(map[])

  /** JavaScript truthiness: null, false, 0 and "" are falsy, everything else is truthy. */
  predicate Truthy(v: Value) {
    match v
    case Null => false
    case Bool(b) => b
    case Num(n) => n != 0
    case Str(s) => s != ""
    case List(_) => true
    case Obj(_) => true
  }

  /** The own enumerable properties of v, as Object.assign reads and writes them
      (only objects have any in this model). */
  function Own(v: Value): map<string, Value> {
    if v.Obj? then v.fields else map[]
  }

  /** `v.key`: the property, or None for `undefined`. */
  function Get(v: Value, key: string): Option<Value> {
    if key in Own(v) then Some(Own(v)[key]) else None
  }

  function Digit(d: nat): char
    requires d < 10
  {
    "0123456789"[d]
  }

  /** Decimal notation of a natural number. */
  function NatToString(n: nat): string
    decreases n
  {
    if n < 10 then [Digit(n)] else NatToString(n / 10) + [Digit(n % 10)]
  }

  /** ECMAScript ToString, as used when a value becomes a property name. */
  function ToString(v: Value): string
    decreases v, 1, 0
  {
    match v
    case Null => "null"
    case Bool(b) => if b then "true" else "false"
    case Num(n) => if n < 0 then "-" + NatToString(-n) else NatToString(n)
    case Str(s) => s
    case List(items) => JoinFrom(v, 0)
    case Obj(_) => "[object Object]"
  }

  /** Array.prototype.join(",") of v's items from index i on; null items print as "". */
  function JoinFrom(v: Value, i: nat): string
    requires v.List? && i <= |v.items|
    decreases v, 0, |v.items| - i
  {
    if i == |v.items| then ""
    else
      var item := if v.items[i] == Null then "" else ToString(v.items[i]);
      if i + 1 == |v.items| then item else item + "," + JoinFrom(v, i + 1)
  }

  /** The property name `obj[key]` looks up: ToString of the key, "undefined" for undefined. */
  function PropertyKey(key: Option<Value>): string {
    match key
    case None => "undefined"
    case Some(v) => ToString(v)
  }
}
