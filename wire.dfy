/**
 * The values that travel between the browser clients and the relay: JSON
 * objects carried by socket events and HTTP bodies, read either the Python
 * way (`dict.get`, where a missing key reads as None) or the JavaScript way
 * (`data.key`, where a missing key reads as `undefined`).
 */
module Wire {

  datatype Option<+T> = None | Some(value: T)

  /**
   * A JSON value as it occurs in the fields the core reads. Numbers,
   * booleans and arrays never occur in those fields and are not modelled.
   * Session descriptions and ICE candidates are objects (`Obj`) whose
   * contents are opaque to the core.
   */
  datatype Value = Null | Str(s: string) | Obj(fields: map<string, Value>)

  /** The top-level object of a signalling message. */
  type Payload = map<string, Value>

  /** A `socket.emit(event, data)` made by a browser client. */
  datatype Message = Message(event: string, data: Payload)

  /** Python's `data.get(key)`: a missing key and an explicit null both read as None. */
  function Get(data: Payload, key: string): Value
  {
    if key in data then data[key] else Null
  }

  /** JavaScript's `data.key`; `None` stands for `undefined`. */
  function Field(data: Payload, key: string): Option<Value>
  {
    if key in data then Some(data[key]) else None
  }

  /** JavaScript's `v.key` on an arbitrary value: only objects have properties. */
  function Prop(v: Value, key: string): Option<Value>
  {
    if v.Obj? then Field(v.fields, key) else None
  }

  /** JavaScript truthiness: `undefined`, `null` and `""` are falsy, objects are truthy. */
  predicate JsTruthy(v: Option<Value>)
  {
    match v
    case None => false
    case Some(Null) => false
    case Some(Str(s)) => s != ""
    case Some(Obj(_)) => true
  }

  /** Python truthiness (`not v` is false): None, `""` and `{}` are falsy. */
  predicate PyTruthy(v: Value)
  {
    match v
    case Null => false
    case Str(s) => s != ""
    case Obj(m) => m != map[]
  }

  /**
   * One property of a JavaScript object literal after serialisation:
   * a property whose value is `undefined` does not appear in the JSON.
   */
  function Put(p: Payload, key: string, v: Option<Value>): (r: Payload)
    ensures Field(r, key) == (if v.Some? then v else Field(p, key))
    ensures forall k | k != key :: Field(r, k) == Field(p, k)
  {
    if v.Some? then p[key := v.value] else p
  }
}
