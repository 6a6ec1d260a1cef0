/** Go's byte strings and its (value, error) returns, as the rest of the model uses them. */
module GoTypes {

  /** A Go `byte`. */
  type byte = bv8

  /** A Go `string`: an immutable sequence of bytes (`len` counts bytes, slicing is by byte). */
  type Str = seq<byte>

  /** `nil` or a value: used where Go returns a bare `error`. */
  datatype Option<+T> = None | Some(value: T)

  /** A Go `(T, error)` pair in which exactly one side is meaningful. */
  datatype Result<+T, +E> = Ok(value: T) | Err(error: E)
}
