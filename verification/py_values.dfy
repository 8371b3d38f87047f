/**
 * The Python values the plotting scripts read out of a loaded result file, as far as they
 * look at them: `None`, booleans, numbers (JSON integers and floats alike, as reals),
 * strings, and every other object (lists, dicts) known only by whether it is empty.
 */
module PyValues {
  import opened Wrappers

  datatype PyVal = PNone | PBool(b: bool) | PNum(x: real) | PStr(s: string) | PObj(nonEmpty: bool)

  /** `isinstance(v, (int, float))`; `bool` is a subclass of `int`, so booleans count. */
  predicate IsNumber(v: PyVal) { v.PBool? || v.PNum? }

  /** The numeric value of a number; `True` is 1 and `False` is 0. */
  function NumValue(v: PyVal): real
    requires IsNumber(v)
  {
    if v.PBool? then (if v.b then 1.0 else 0.0) else v.x
  }

  /** Python truthiness: `None`, `False`, zero, the empty string and empty containers are false. */
  predicate Truthy(v: PyVal) {
    match v
    case PNone => false
    case PBool(b) => b
    case PNum(x) => x != 0.0
    case PStr(s) => s != ""
    case PObj(n) => n
  }

  /** `x or 0` for a value that is either falsy or a number (anything else makes the
      arithmetic that follows raise TypeError). */
  function OrZero(v: PyVal): (r: real)
    requires !Truthy(v) || IsNumber(v)
    ensures IsNumber(v) ==> r == NumValue(v)
    ensures !IsNumber(v) ==> r == 0.0
  {
    if Truthy(v) then NumValue(v) else if IsNumber(v) then NumValue(v) else 0.0
  }

  /** An optional integer as it comes back from JSON: `null` is `None`. */
  function FromOption(o: Option<int>): (v: PyVal)
    ensures o.None? <==> v.PNone?
    ensures o.Some? ==> IsNumber(v) && NumValue(v) == o.value as real
  {
    if o.None? then PNone else PNum(o.value as real)
  }
}
