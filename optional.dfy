/** A value that may be absent: a TypeScript `T | undefined`, or a key an object may lack. */
module Optional {

  datatype Option<T> = None | Some(value: T) {

    /** The value, or `default` when absent. */
    function GetOr(default: T): T {
      match this
      case Some(v) => v
      case None => default
    }
  }

  /** TypeScript's nullish coalescing `a ?? b`, and equally the value of a key after
      `{ ...base, ...over }` when `a` is what `over` holds for it and `b` what `base` holds. */
  function Coalesce<T>(a: Option<T>, b: Option<T>): Option<T> {
    if a.Some? then a else b
  }
}
