/** Small shared vocabulary: an optional value (the C# `null`-able reference or
    delegate) and the absolute value used by the seek watchdog. */
module Base {

  /** `None` stands for a C# `null` reference or an unset delegate field. */
  datatype Option<+T> = None | Some(value: T) {

    /** The value, or `default` when absent: the C# `x ?? default`. */
    function GetOr(default: T): T {
      match this
      case Some(v) => v
      case None => default
    }
  }

  /** `Mathf.Abs` over exact reals. */
  function Abs(x: real): (r: real)
    ensures 0.0 <= r
    ensures r == x || r == -x
  {
    if x < 0.0 then -x else x
  }
}
