/** Optional values: the model's stand-in for TypeScript's `undefined`/`null`
    fields and optional chaining (`a?.b`). */
module Options {

  datatype Option<+T> = None | Some(value: T) {

    /** The value, or `default` when absent (`x ?? default`). */
    function GetOr(default: T): T {
      match this
      case Some(v) => v
      case None => default
    }
  }
}
