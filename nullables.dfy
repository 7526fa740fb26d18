/** Kotlin's nullable types (`T?`) as an option datatype. */
module Nullables {

  datatype Option<T> = None | Some(value: T) {

    /** Kotlin's `?:` (elvis) operator: the value when present, else the fallback. */
    function OrElse(fallback: T): T {
      match this
      case Some(v) => v
      case None => fallback
    }
  }
}
