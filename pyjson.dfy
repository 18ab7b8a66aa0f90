/**
 * Decoded upstream JSON as the core navigates it.  Every object key the core
 * reads is a `Value`: absent, present with `null`, or present with a value.
 * This keeps apart what Python's `d.get(k, default)` keeps apart: an absent key
 * gives the default, a null gives `None`, and a field lookup on `None` raises.
 */
module PyJson {
  import opened Wrappers
  import opened Errors
  import opened PyText

  datatype Value<+T> = Missing | Null | Given(v: T)

  /** `d.get(k, default)`; `None` in the result stands for JSON null. */
  function Get<T>(f: Value<T>, default: T): Option<T>
  {
    match f
    case Missing => Some(default)
    case Null => None
    case Given(v) => Some(v)
  }

  /** A JSON scalar used as an identifier: upstream sends ids as numbers or strings. */
  datatype Scalar = Number(n: int) | Text(s: string)

  /** Python's `str(x)` of a scalar. */
  function PyStr(x: Scalar): string
  {
    match x
    case Number(n) => IntToDecimal(n)
    case Text(s) => s
  }

  /** `str(d.get(k, ""))`: the empty string when absent and "None" when null. */
  function StrOrEmpty(f: Value<Scalar>): (r: string)
    ensures f.Missing? ==> r == ""
    ensures f.Null? ==> r == "None"
    ensures f.Given? && f.v.Number? ==> |r| >= 1 && (r[0] == '-' <==> f.v.n < 0)
  {
    match f
    case Missing => ""
    case Null => "None"
    case Given(x) => PyStr(x)
  }

  /** `str(d[k])`: KeyError when absent, "None" when null. */
  function StrAt(f: Value<Scalar>): (r: Result<string, Exception>)
    ensures r.Failure? <==> f.Missing?
    ensures r.Failure? ==> r.error == ShapeError(KeyError)
    ensures r.Success? ==> r.value == StrOrEmpty(f)
  {
    match f
    case Missing => Failure(ShapeError(KeyError))
    case Null => Success("None")
    case Given(x) => Success(PyStr(x))
  }

  /** `for x in d.get(k, [])`: an absent list is empty; iterating a null raises TypeError. */
  function ListOf<T>(f: Value<seq<T>>): (r: Result<seq<T>, Exception>)
    ensures r.Failure? <==> f.Null?
    ensures r.Failure? ==> r.error == ShapeError(TypeError)
    ensures f.Missing? ==> r == Success([])
    ensures f.Given? ==> r == Success(f.v)
  {
    match f
    case Missing => Success([])
    case Null => Failure(ShapeError(TypeError))
    case Given(xs) => Success(xs)
  }
}
