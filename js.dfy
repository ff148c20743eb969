/** JavaScript values as the portal stores and passes them around.

    A record is a plain object: a map from property names to values. A property
    that is absent stands for `undefined`; a property whose value is `undefined`
    is dropped, as JSON encoding drops it before a record reaches the store. */
module Js {

  datatype Option<+T> = None | Some(value: T)

  /** The outcome of an `async` call: a value, or a thrown `Error` with its message. */
  datatype Result<+T> = Ok(value: T) | Err(message: string)

  /** A primitive JSON value. Timestamps are modelled as integer milliseconds. */
  datatype Value = Str(s: string) | Num(n: int) | Bool(b: bool) | Null

  type Record = map<string, Value>

  /** `record.key`: the property, or `undefined` when it is absent. */
  function Get(r: Record, key: string): (v: Option<Value>)
    ensures v.Some? <==> key in r
    ensures v.Some? ==> v.value == r[key]
  {
    if key in r then Some(r[key]) else None
  }

  /** JavaScript truthiness: `undefined`, `null`, `''`, `0` and `false` are falsy. */
  predicate Truthy(v: Option<Value>)
  {
    match v
    case None => false
    case Some(Str(s)) => s != ""
    case Some(Num(n)) => n != 0
    case Some(Bool(b)) => b
    case Some(Null) => false
  }

  /** `a || b`: the first operand when it is truthy, the second otherwise. */
  function Or(a: Option<Value>, b: Option<Value>): (r: Option<Value>)
    ensures Truthy(a) ==> r == a
    ensures !Truthy(a) ==> r == b
  {
    if Truthy(a) then a else b
  }

  /** `{ ...r, [key]: v }`, where an `undefined` v leaves the property out. */
  function SetField(r: Record, key: string, v: Option<Value>): (r': Record)
    ensures Get(r', key) == v
    ensures forall k :: k != key ==> Get(r', k) == Get(r, k)
  {
    if v.Some? then r[key := v.value] else r - {key}
  }

  /** The property as a string, when it is one; `.trim()`, `.toLowerCase()`,
      `.includes()` and `.match()` throw a TypeError on anything else. */
  function AsString(v: Option<Value>): (r: Option<string>)
    ensures r.Some? <==> v.Some? && v.value.Str?
    ensures r.Some? ==> v == Some(Str(r.value))
  {
    match v
    case Some(Str(s)) => Some(s)
    case _ => None
  }

  /** The message a failed property access on a non-string throws. */
  const TypeErrorMessage: string := "TypeError"
}
