/** Failure-compatible wrappers and the JavaScript notion of a "truthy" optional string,
    shared by every other module of the model. */
module Base {

  /** An optional value: `undefined`/`null` on the TypeScript side. */
  datatype Option<+T> = None | Some(value: T) {

    /** The value, or `default` when absent (the `a || b` idiom on objects). */
    function GetOr(default: T): T {
      match this
      case Some(v) => v
      case None => default
    }
  }

  /** A computation that either produced a value or raised an error. */
  datatype Result<+T, +E> = Success(value: T) | Failure(error: E)

  /** JavaScript truthiness of an optional string field: present and not the empty string. */
  predicate Truthy(s: Option<string>) {
    s.Some? && s.value != ""
  }
}
