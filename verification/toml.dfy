/** The value `toml.parse` returns, as far as the extension looks into it. The TOML reader itself
    is not modelled: its result is an input. */
module Toml {
  import opened Wrappers

  /** A TOML value. A table keeps its keys in `Object.keys` order. Floats and date-times are not modelled. */
  datatype Value =
    | Str(s: string)
    | Int(i: int)
    | Bool(b: bool)
    | Arr(items: seq<Value>)
    | Table(entries: seq<(string, Value)>)

  type Entries = seq<(string, Value)>

  /** `Object.keys` of a table. */
  function Keys(entries: Entries): (r: seq<string>)
    ensures |r| == |entries|
    ensures forall i :: 0 <= i < |r| ==> r[i] == entries[i].0
  {
    if |entries| == 0 then [] else [entries[0].0] + Keys(entries[1..])
  }

  /** `table[key]`; `None` is `undefined`. */
  function Lookup(entries: Entries, key: string): (r: Option<Value>)
    ensures r.Some? <==> key in Keys(entries)
    ensures r.Some? ==> (key, r.value) in entries
  {
    if |entries| == 0 then None
    else if entries[0].0 == key then Some(entries[0].1)
    else Lookup(entries[1..], key)
  }

  /** `Object.keys(v)`. Numbers and booleans have no own keys; strings and arrays are given none
      here either (JavaScript would list their indices). */
  function ObjectKeys(v: Value): seq<string> {
    if v.Table? then Keys(v.entries) else []
  }

  /** `v[key]` for a key that names no built-in property: only a table has one. */
  function Member(v: Value, key: string): Option<Value> {
    if v.Table? then Lookup(v.entries, key) else None
  }

  function DigitChar(d: nat): char
    requires d < 10
  {
    "0123456789"[d]
  }

  function NatText(n: nat): string
    decreases n
  {
    if n < 10 then [DigitChar(n)] else NatText(n / 10) + [DigitChar(n % 10)]
  }

  /** `String(v)`, which is what `'make ' + v` concatenates; `None` is `undefined`. */
  function JsText(v: Option<Value>): string {
    match v
    case None => "undefined"
    case Some(x) => ValueText(x)
  }

  function ValueText(v: Value): string
    decreases v, 1
  {
    match v
    case Str(s) => s
    case Int(i) => if i < 0 then "-" + NatText(-i) else NatText(i)
    case Bool(b) => if b then "true" else "false"
    case Arr(items) => ItemsText(items)
    case Table(_) => "[object Object]"
  }

  /** An array's `toString`: the elements' texts separated by commas. */
  function ItemsText(items: seq<Value>): string
    decreases items, 0
  {
    if |items| == 0 then ""
    else if |items| == 1 then ValueText(items[0])
    else ValueText(items[0]) + "," + ItemsText(items[1..])
  }
}
