/** Values that flow through the scheduler: the nested dictionaries of a job
    descriptor, optional arguments and Python's notion of truthiness. */
module Values {

  datatype Option<+T> = None | Some(value: T)

  /** A JSON-like value of a job descriptor: a string scalar or a nested
      dictionary keyed by strings. */
  datatype Value = Str(s: string) | Dict(entries: map<string, Value>)

  /** A dictionary of a job descriptor: what a `Dict` value holds. */
  type Mapping = map<string, Value>

  /** The value found by following `path` key by key from `v`, if every step
      lands on a dictionary holding the next key. */
  function At(v: Value, path: seq<string>): Option<Value>
    decreases |path|
  {
    if path == [] then Some(v)
    else if v.Dict? && path[0] in v.entries then At(v.entries[path[0]], path[1..])
    else None
  }

  /** Python truthiness of an optional value: `None`, `''` and `{}` are false. */
  predicate Truthy(v: Option<Value>)
  {
    match v
    case None => false
    case Some(Str(s)) => s != ""
    case Some(Dict(m)) => m != map[]
  }

  /** Python truthiness of an optional string argument. */
  predicate TruthyStr(s: Option<string>)
  {
    s.Some? && s.value != ""
  }
}
