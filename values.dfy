/** Dynamic values shared by the diff engine and its consumers.

    The diagram scripts pass around Python dictionaries whose values are strings, `None`
    or nested dictionaries. `Value` is that universe; `Record` is one dictionary. Python's
    dictionary equality ignores key order, which is exactly Dafny's `map` equality. */
module Values {

  datatype Option<+T> = None | Some(value: T)

  /** Python exceptions the consumers can raise on a malformed changeset. */
  datatype Error =
    | MissingKey(key: string)   // `item[key]` on a dictionary without that key
    | NotADict(key: string)     // `.items()` or `in` applied to something that is not a dictionary

  datatype Result<+T> = Ok(value: T) | Err(error: Error) {
    predicate IsFailure() { Err? }
    function PropagateFailure<U>(): Result<U> requires Err? { Err(error) }
    function Extract(): T requires Ok? { value }
  }

  datatype Value = Null | Str(s: string) | Dict(entries: map<string, Value>)

  type Record = map<string, Value>

  /** `d.get(k)`: the value under `k`, or `None` when the key is missing. */
  function Get(r: Record, k: string): Value {
    if k in r then r[k] else Null
  }

  /** A Python `str | None` as a value. */
  function OfOption(o: Option<string>): Value {
    match o
    case None => Null
    case Some(s) => Str(s)
  }

  /** The `{'from': a, 'to': b}` dictionary of a single difference. */
  function FromTo(a: Value, b: Value): Value {
    Dict(map["from" := a, "to" := b])
  }

  /** Python truthiness of an optional string: present and non-empty. */
  predicate Truthy(o: Option<string>) {
    o.Some? && o.value != ""
  }
}
