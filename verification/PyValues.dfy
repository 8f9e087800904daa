/** Run-time values: JSON, the dates a dataset parameter can hold, and references to the shared
    scope objects of a run context. */
module PyValues {

  /** The four scopes a constant can live in. */
  datatype ConstantContext = RunEnvelope | Global | Local | Results

  datatype Value =
    | Null
    | Bool(b: bool)
    | Int(i: int)
    | Float(x: real)
    | Str(s: string)
    | List(items: seq<Value>)
    | Dict(entries: map<string, Value>)
    | Date(day: int)
    | DateTime(date: int, clock: int)
    | Shared(scope: ConstantContext)  // the scope dict itself, not a copy of it

  /** The name a scope has in a path. */
  function ContextName(c: ConstantContext): string {
    match c
    case RunEnvelope => "runEnvelope"
    case Global => "global"
    case Local => "local"
    case Results => "result"
  }
}
