/** Option, Result and the bounds of a range, as the engine's Rust code uses them. */
module Common {
  datatype Option<+T> = None | Some(value: T)

  datatype Result<+T> = Ok(value: T) | Err(message: string)

  datatype Bound<+T> = Included(key: T) | Excluded(key: T) | Unbounded

  function Min(x: nat, y: nat): nat { if x < y then x else y }

  function Max(x: nat, y: nat): nat { if x < y then y else x }
}
