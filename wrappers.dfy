/** Optional values, results with failure propagation, and the Python exceptions
    the modelled code raises. */
module Wrappers {

  datatype Option<+T> = None | Some(value: T) {
    function GetOr(default: T): T {
      match this
      case None => default
      case Some(v) => v
    }
  }

  datatype Result<+R, +E> = Ok(value: R) | Err(error: E) {
    predicate IsFailure() {
      Err?
    }

    function PropagateFailure<U>(): Result<U, E>
      requires Err?
    {
      Err(error)
    }

    function Extract(): R
      requires Ok?
    {
      value
    }
  }

  /** The exception classes the modelled code raises; the reason text of the
      source's messages is kept only where it tells two raises apart. */
  datatype Error =
    | ValueError(reason: string)
    | TypeError(reason: string)
    | KeyError(key: string)
    | AttributeError(attribute: string)
    | RootDeviceError(device: string)
    | OSError(path: string)
    | LookupError(key: string)
    /** Python's stack overflow, for a template that refers to itself
        through the entry attributes it expands. */
    | RecursionError

  /** Python truthiness of an optional string: neither None nor empty. */
  predicate Truthy(o: Option<string>) {
    o.Some? && o.value != ""
  }

  /** `"%s" % o`: the text, or `"None"`. */
  function PyStrOf(o: Option<string>): string {
    if o.Some? then o.value else "None"
  }

  /** The value a falsy argument leaves unset. */
  function SetIfTruthy(s: string): (r: Option<string>)
    ensures r.Some? <==> s != ""
    ensures r.Some? ==> r.value == s
  {
    if s != "" then Some(s) else None
  }
}
