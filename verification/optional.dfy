/**
 An optional value, the model of Rust's `Option<T>`: `None` is "unset",
 `Some(v)` is "set to v". The mount options keep this distinction so that an
 explicit `false` or `0` is not confused with "use the platform default".
 */
module Optional {

  datatype Option<+T> = None | Some(value: T) {

    /** The value when set, otherwise `default` (Rust's `unwrap_or`). */
    function UnwrapOr(default: T): T {
      match this
      case Some(v) => v
      case None => default
    }
  }
}
