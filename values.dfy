/**
 * Python values as the pipeline stores them: dictionaries of `None`, `str`,
 * `int` and `float` values, and the exceptions the core raises.
 */
module Values {
  import opened Text

  datatype Option<+T> = None | Some(value: T)

  /**
   * A Python float (a FAISS distance). Only the text `repr` gives it is kept;
   * no arithmetic or ordering is ever done on it.
   */
  datatype Score = Score(repr: string)

  datatype PyValue = PyNone | PyStr(s: string) | PyInt(i: int) | PyFloat(f: Score)

  /** A Python `dict` with string keys. */
  type Dict = map<string, PyValue>

  /** `d.get(key, default)`. */
  function GetOr(d: Dict, key: string, default: PyValue): (v: PyValue)
    ensures key in d ==> v == d[key]
    ensures key !in d ==> v == default
  {
    if key in d then d[key] else default
  }

  /** `d.get(key)`. */
  function Get(d: Dict, key: string): PyValue {
    GetOr(d, key, PyNone)
  }

  /** Python truthiness of a value. */
  predicate Truthy(v: PyValue) {
    match v
    case PyNone => false
    case PyStr(s) => s != ""
    case PyInt(i) => i != 0
    case PyFloat(f) => f.repr != "0.0" && f.repr != "-0.0"
  }

  /** `str(v)`, which is also what an f-string substitutes for `{v}`. */
  function Str(v: PyValue): string {
    match v
    case PyNone => "None"
    case PyStr(s) => s
    case PyInt(i) => IntToDecimal(i)
    case PyFloat(f) => f.repr
  }

  /** `type(v).__name__`. */
  function TypeName(v: PyValue): string {
    match v
    case PyNone => "NoneType"
    case PyStr(_) => "str"
    case PyInt(_) => "int"
    case PyFloat(_) => "float"
  }

  function OptionalStr(o: Option<string>): PyValue {
    match o
    case None => PyNone
    case Some(s) => PyStr(s)
  }

  datatype ErrorKind = ValueError | RuntimeError | TypeError | AttributeError | KeyError | ConnectionError | OSError

  /** A raised exception; `message` is what `str(e)` gives. */
  datatype PyError = PyError(kind: ErrorKind, message: string)

  /** The outcome of a call that either returns a value or raises. */
  datatype Outcome<+T> = Ok(value: T) | Raise(error: PyError)
}
