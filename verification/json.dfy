/** JSON values as the functions and the server handle them after `JSON.parse`, with the
    JavaScript operations the code applies to them: truthiness, property access, the `||`
    default, and conversion to text inside a template literal. */
module Json {
  import opened Wrappers
  import Text

  datatype Json =
    | JNull
    | JBool(b: bool)
    | JNum(n: real)
    | JStr(s: string)
    | JArr(items: seq<Json>)
    | JObj(fields: map<string, Json>)

  /** The result of handing a string to `JSON.parse`: a value, or the exception it throws. */
  datatype ParseOutcome = Parsed(value: Json) | Unparseable

  const EmptyObject: Json := JObj(map[])

  /** JavaScript truthiness: `null`, `false`, `0` and `""` are falsy; arrays and objects are
      truthy even when empty. */
  predicate Truthy(v: Json) {
    match v
    case JNull => false
    case JBool(b) => b
    case JNum(n) => n != 0.0
    case JStr(s) => s != []
    case JArr(_) => true
    case JObj(_) => true
  }

  /** A property read that may yield `undefined` (`None`), which is falsy. */
  predicate Present(o: Option<Json>) {
    o.Some? && Truthy(o.value)
  }

  /** `v.key` for the keys the application reads (none of them is a property of strings,
      arrays or `Object.prototype`): an object's own field, `undefined` for every other
      value. Reading a property of `null` throws; callers test for `JNull` first. */
  function Member(v: Json, key: string): Option<Json> {
    if v.JObj? && key in v.fields then Some(v.fields[key]) else None
  }

  /** `o || d`. */
  function OrElse(o: Option<Json>, d: Json): Json {
    if Present(o) then o.value else d
  }

  /** `${v}`: the text JavaScript's `String(v)` gives for a JSON value. Numbers are rendered by
      `fmt`, the runtime's number-to-string conversion. Array elements are joined with
      commas, `null` elements becoming empty; objects become `"[object Object]"`. */
  function ToText(v: Json, fmt: real -> string): string
    decreases v, 1
  {
    match v
    case JNull => "null"
    case JBool(b) => if b then "true" else "false"
    case JNum(n) => fmt(n)
    case JStr(s) => s
    case JArr(items) => Text.Join(ItemTexts(v, 0, fmt), ",")
    case JObj(_) => "[object Object]"
  }

  /** The texts of the elements `i..` of an array, as `Array.prototype.join` renders them. */
  function ItemTexts(v: Json, i: nat, fmt: real -> string): (r: seq<string>)
    requires v.JArr? && i <= |v.items|
    ensures |r| == |v.items| - i
    decreases v, 0, |v.items| - i
  {
    if i == |v.items| then []
    else
      var item := v.items[i];
      [if item.JNull? then [] else ToText(item, fmt)] + ItemTexts(v, i + 1, fmt)
  }
}
