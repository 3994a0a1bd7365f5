/** Small value helpers shared by the whole model. */
module Options {

  /** Rust's `Option<T>`. */
  datatype Option<+T> = None | Some(value: T) {

    /** `Option::unwrap_or`. */
    function UnwrapOr(default: T): T {
      if Some? then value else default
    }
  }

  /** `Option::and_then`. */
  function AndThen<T, U>(o: Option<T>, f: T -> Option<U>): Option<U> {
    if o.Some? then f(o.value) else None
  }

  function Min(a: nat, b: nat): nat {
    if a <= b then a else b
  }
}
