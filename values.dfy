/**
 * Values a caller supplies for template fields (they arrive as JSON, so
 * they are None, booleans, integers, strings or lists of values), Python's
 * `str()` of such a value, its truth value, and what iterating over it
 * yields. A field mapping keeps the caller's order, as a Python dict does.
 */
module Values {
  import opened Wrappers
  import opened Strings

  datatype Value = VNone | VBool(b: bool) | VInt(i: int) | VStr(s: string) | VList(items: seq<Value>)

  /** Python's `str(v)`. */
  function Str(v: Value): string
    decreases v, 0
  {
    match v
    case VNone => "None"
    case VBool(b) => if b then "True" else "False"
    case VInt(i) => IntToString(i)
    case VStr(s) => s
    case VList(items) =>
      "[" + Join(seq(|items|, k requires 0 <= k < |items| => Repr(items[k])), ", ") + "]"
  }

  /** Python's `repr(v)`, as `str` of a list uses it for the elements. */
  function Repr(v: Value): string
    decreases v, 1
  {
    match v
    case VStr(s) => "'" + s + "'"
    case _ => Str(v)
  }

  /** Python's truth value of `v`, as `if v:` tests it. */
  predicate Truthy(v: Value)
  {
    match v
    case VNone => false
    case VBool(b) => b
    case VInt(i) => i != 0
    case VStr(s) => s != []
    case VList(xs) => xs != []
  }

  /**
   * What `for x in v` yields: the elements of a list, or the one-character
   * strings of a string; None where Python raises TypeError.
   */
  function Iterate(v: Value): (r: Option<seq<Value>>)
    ensures v.VList? ==> r == Some(v.items)
    ensures v.VStr? ==> r.Some? && |r.value| == |v.s|
    ensures v.VStr? ==> forall k :: 0 <= k < |v.s| ==> r.value[k] == VStr([v.s[k]])
    ensures r.None? <==> !(v.VList? || v.VStr?)
  {
    match v
    case VList(xs) => Some(xs)
    case VStr(s) => Some(seq(|s|, k requires 0 <= k < |s| => VStr([s[k]])))
    case _ => None
  }

  /** One entry of a field mapping: name and value. */
  datatype Field = Field(name: string, value: Value)

  /** A field mapping, in the caller's order (Python dicts keep insertion order). */
  type Fields = seq<Field>

  /** `set(fields.keys())`. */
  function Names(fields: Fields): set<string>
  {
    set k | 0 <= k < |fields| :: fields[k].name
  }
}
