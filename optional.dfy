/** A value that may be absent: a TypeScript optional field (`notes?: string`),
    a `find` that may return `undefined`, a form field that may be empty. */
module Optional {

  datatype Option<+T> = None | Some(value: T) {

    /** The value, or `default` when absent (the `x || default` idiom). */
    function GetOr(default: T): T {
      match this
      case Some(v) => v
      case None => default
    }
  }
}
