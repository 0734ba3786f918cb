// Query-string parameters as the views see them, and the numeric defaults
// the views apply to them.
module Params {
  import opened Wrappers

  /** A query parameter: missing, present but empty, present but not a
    * number, or a number. */
  datatype Param = Absent | Blank | NonNumeric | Numeric(v: real)

  /** Python truthiness of the raw parameter string. */
  predicate Given(p: Param)
  {
    p.NonNumeric? || p.Numeric?
  }

  /** `float(params.get(name, default))` with the `except (ValueError, TypeError)`
    * fallback: any parameter that is not a number reads as the default. */
  function FloatOr(p: Param, default: real): (r: real)
    ensures p.Numeric? ==> r == p.v
    ensures !p.Numeric? ==> r == default
  {
    if p.Numeric? then p.v else default
  }

  /** An integer form field, as read by `int(data.get(name, default))`:
    * missing, an integer, or text `int()` rejects with an exception. */
  datatype IntField = IntAbsent | IntGiven(n: int) | IntInvalid

  /** The parsed value, or `None` when `int()` would raise. */
  function IntOr(f: IntField, default: int): (r: Option<int>)
    ensures f.IntAbsent? ==> r == Some(default)
    ensures f.IntGiven? ==> r == Some(f.n)
    ensures f.IntInvalid? ==> r.None?
  {
    match f
    case IntAbsent => Some(default)
    case IntGiven(n) => Some(n)
    case IntInvalid => None
  }
}
