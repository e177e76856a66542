/**
 * The few Python values and exceptions the discovery service handles.
 *
 * The AWS responses and the CloudFormation request are decoded JSON: nulls,
 * booleans, strings, lists and string-keyed dictionaries. A Python exception
 * that escapes a step is modelled as a `Raised` result naming its class.
 */
module Python {

  /** A decoded JSON value as Python holds it. */
  datatype Value =
    | Null
    | Bool(b: bool)
    | Str(s: string)
    | List(items: seq<Value>)
    | Dict(fields: map<string, Value>)

  /** One dictionary of an AWS listing: a trail, a bucket or a report definition. */
  type Record = map<string, Value>

  /** The exception classes the service can raise. `Invalid` is voluptuous' schema error. */
  datatype Exception = KeyError | TypeError | IndexError | AttributeError | Invalid

  /** A step that either returns a value or raises; usable with `:-`. */
  datatype Result<+T> = Ok(value: T) | Raised(error: Exception) {

    predicate IsFailure() {
      Raised?
    }

    function PropagateFailure<U>(): Result<U>
      requires Raised?
    {
      Raised(error)
    }

    function Extract(): T
      requires Ok?
    {
      value
    }
  }

  /** Python truthiness: `None`, `False`, the empty string, list and dict are false. */
  predicate Truthy(v: Value) {
    match v
    case Null => false
    case Bool(b) => b
    case Str(s) => s != []
    case List(xs) => xs != []
    case Dict(m) => |m| > 0
  }

  /** Lists and dictionaries cannot be set members: `x in some_set` raises TypeError on them. */
  predicate Hashable(v: Value) {
    !v.List? && !v.Dict?
  }

  /** `d.get(key)` and toolz `get_in` with its default `None`. */
  function GetIn(d: Record, key: string): Value {
    if key in d then d[key] else Null
  }
}
