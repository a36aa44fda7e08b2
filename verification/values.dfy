/**
 Values that flow through the widget: an optional value, and the handful of
 JavaScript values the search code distinguishes (missing, null, a string, an
 integer).
 */
module Values {

  /** A field or argument that may be missing: `None`, or `Some` of its value. */
  datatype Option<+T> = None | Some(value: T) {

    /** The encapsulated value, or `default` when there is none. */
    function GetOr(default: T): T {
      match this
      case Some(v) => v
      case None => default
    }
  }

  /**
   A JavaScript value as the search code sees it. `Undefined` is a missing
   property; `Num` is an integer (the code never builds fractional numbers, and
   NaN is not modelled).
   */
  datatype JsValue = Undefined | Null | Str(s: string) | Num(n: int)

  /** Truthiness of an optional string: present and not the empty string. */
  predicate Present(o: Option<string>) {
    o.Some? && o.value != ""
  }

  /** `s || undefined`: the empty string becomes a missing value. */
  function OrUndefined(s: string): (r: Option<string>)
    ensures Present(r) <==> s != ""
    ensures r.Some? ==> r.value == s
  {
    if s == "" then None else Some(s)
  }
}
