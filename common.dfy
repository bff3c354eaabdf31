/** Shared value types: the outcome of an operation that may raise, and the
    JSON values the manifests carry. */
module Common {

  datatype Option<+T> = None | Some(value: T)

  /** Python exceptions the modelled code raises, by class. */
  datatype Error =
    | KeyError(key: string)
    | ValueError(message: string)
    | IndexError
    | TypeError
    | ZeroDivisionError

  datatype Result<+T> = Ok(value: T) | Err(error: Error)

  datatype Outcome = Pass | Fail(error: Error)

  /** A JSON scalar as it appears in a manifest line. */
  datatype Value = Text(s: string) | Number(n: real) | Null

  /** One parsed manifest line: a JSON object. */
  type Record = map<string, Value>

  /** `dic.get(key, None)` */
  function Get(r: Record, key: string): (v: Value)
    ensures key !in r ==> v == Null
    ensures key in r ==> v == r[key]
  {
    if key in r then r[key] else Null
  }

  function Max(a: int, b: int): (m: int)
    ensures m >= a && m >= b && (m == a || m == b)
  {
    if a >= b then a else b
  }

  function MaxReal(a: real, b: real): (m: real)
    ensures m >= a && m >= b && (m == a || m == b)
  {
    if a >= b then a else b
  }

  function MinReal(a: real, b: real): (m: real)
    ensures m <= a && m <= b && (m == a || m == b)
  {
    if a <= b then a else b
  }
}
