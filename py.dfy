/** Python runtime notions the store's code relies on: dynamically typed values,
    truthiness, `isinstance`, and the exceptions it raises. */
module Py {

  datatype Option<+T> = None | Some(value: T)

  /** The values a caller can hand to a dynamically typed parameter. */
  datatype Value = PyNone | PyBool(b: bool) | PyInt(i: int) | PyStr(s: string)

  /** Python truthiness: `None`, `False`, `0` and `""` are falsy. */
  predicate Truthy(v: Value)
  {
    match v
    case PyNone => false
    case PyBool(b) => b
    case PyInt(i) => i != 0
    case PyStr(s) => s != ""
  }

  /** `isinstance(v, int)`; `bool` is a subclass of `int` in Python. */
  predicate IsInstanceInt(v: Value)
  {
    v.PyInt? || v.PyBool?
  }

  /** The exceptions the modelled code raises. `Error` is a bare `Exception(...)`. */
  datatype Exception =
    | TypeError(msg: string)
    | ValueError(msg: string)
    | KeyError(key: string)
    | AttributeError(msg: string)
    | Error(msg: string)

  /** `str(e)` for an exception. */
  function Message(e: Exception): string
  {
    match e
    case TypeError(m) => m
    case ValueError(m) => m
    case KeyError(k) => "'" + k + "'"
    case AttributeError(m) => m
    case Error(m) => m
  }

  /** A call that returns a value or raises. */
  datatype Result<+T> = Ok(value: T) | Err(error: Exception)

  /** A call that returns nothing or raises. */
  datatype Outcome = Pass | Raise(error: Exception)
}
