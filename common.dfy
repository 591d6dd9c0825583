/**
 * Values shared by every component of the signing pipeline: bytes, optional
 * values, the Python exception classes the core raises or catches, and the
 * Ok/Err outcome that stands for "returns a value" / "raises an exception".
 */
module Common {

  /** One octet of a file, a key container or a signature. */
  type byte = x: int | 0 <= x < 256

  type Bytes = seq<byte>

  datatype Option<T> = None | Some(value: T)

  /**
   * The exception classes that occur in the core. IOError is Python's OSError
   * (IOError is an alias of it); FileNotFoundError, PermissionError,
   * FileExistsError and IsADirectoryError are its subclasses raised by
   * `open` and `mkdir`.
   */
  datatype ErrorKind =
    | ValueError
    | TypeError
    | RuntimeError
    | IOError
    | FileNotFoundError
    | PermissionError
    | FileExistsError
    | IsADirectoryError

  /** A raised exception: its class and the text `str(e)` gives. */
  datatype Error = Error(kind: ErrorKind, message: string)

  /** What a Python call does: return a value or raise an exception. */
  datatype Result<T> = Ok(value: T) | Err(error: Error) {
    predicate IsFailure() {
      Err?
    }

    function PropagateFailure<U>(): Result<U>
      requires Err?
    {
      Err(error)
    }

    function Extract(): T
      requires Ok?
    {
      value
    }
  }

  /** Python truthiness of an optional string: None and "" are false. */
  predicate Truthy(s: Option<string>) {
    s.Some? && s.value != ""
  }
}
