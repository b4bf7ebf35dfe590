/**
  The values a Flask view function receives and returns, as the `restful`
  decorator sees them, and the two outcomes of a call.

  A pydantic model instance is an `Instance`: the name of its model class and
  its field mapping. Everything the decorator does not look inside (numbers,
  strings, None, arbitrary objects) is an atom.
 */
module Values {

  /** The name of a subclass of pydantic's `BaseModel`. */
  type SchemaName = string

  datatype Option<+T> = None | Some(value: T)

  /** A Python value returned by, or passed to, a view function. */
  datatype Value =
    | ModelV(instance: Instance)            // an instance of a BaseModel subclass
    | ListV(items: seq<Value>)              // a `list`
    | TupleV(elems: seq<Value>)             // a `tuple`, e.g. (body, status)
    | DictV(entries: map<string, Value>)    // a `dict` with string keys
    | NoneV
    | BoolV(b: bool)
    | IntV(i: int)
    | StrV(s: string)
    | Opaque(id: nat)                       // any other object (a float, ...)

  /** A validated model: its class and its field values. */
  datatype Instance = Instance(schema: SchemaName, fields: map<string, Value>)

  /**
    What a call produces: a value handed back to Flask, or the `IndexError`
    that reading element 0 of an empty tuple raises.
   */
  datatype Outcome = Returned(value: Value) | IndexError

  /** `model_dump()`: the plain mapping of a model's fields. */
  function Dump(inst: Instance): Value
  {
    DictV(inst.fields)
  }

  /** The element rewrite of the list branches: a model becomes its dump. */
  function DumpIfModel(v: Value): Value
  {
    if v.ModelV? then Dump(v.instance) else v
  }
}
