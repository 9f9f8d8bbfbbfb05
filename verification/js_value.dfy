/** The JavaScript values that reach the validators and the database layer:
    parsed JSON request bodies and the values of the part form. */
module JsValue {
  import opened Base

  /** A JavaScript value. `NaN` only arises from a numeric form input left
      empty; JSON text cannot carry it. Infinite numbers are not modelled. */
  datatype Value =
    | Null
    | Bool(b: bool)
    | Num(n: real)
    | NaN
    | Str(s: string)
    | Arr(items: seq<Value>)
    | Obj(fields: map<string, Value>)

  /** `v[key]` for an object; `undefined` (None) for anything else or a
      missing key. */
  function Get(v: Value, key: string): (r: Option<Value>)
    ensures r.Some? <==> v.Obj? && key in v.fields
  {
    if v.Obj? && key in v.fields then Some(v.fields[key]) else None
  }

  /** The string stored under `key`, if the value there is a string. */
  function StrAt(v: Value, key: string): Option<string>
  {
    match Get(v, key)
    case Some(Str(s)) => Some(s)
    case _ => None
  }

  /** The number stored under `key`, if the value there is a (non-NaN) number. */
  function NumAt(v: Value, key: string): Option<real>
  {
    match Get(v, key)
    case Some(Num(x)) => Some(x)
    case _ => None
  }

  /** `Number.isInteger` on a finite number. */
  predicate IsInteger(x: real)
  {
    x.Floor as real == x
  }

  /** `s || fallback` for a `string | null`: the empty string is falsy too. */
  function OrElse(s: Option<string>, fallback: string): (r: string)
    ensures s.Some? && s.value != "" ==> r == s.value
    ensures s.None? || s.value == "" ==> r == fallback
  {
    if s.Some? && s.value != "" then s.value else fallback
  }
}
