/** Small shared types: optional values, and the byte strings the wire formats work on. */
module Base {

  datatype Option<+T> = None | Some(value: T) {
    function GetOr(default: T): T { if Some? then value else default }
  }

  /** A returned value, or the exception that left the call instead. */
  datatype Result<+T, +E> = Ok(value: T) | Err(error: E) {
    predicate IsFailure() { Err? }
    function PropagateFailure<U>(): Result<U, E> requires Err? { Err(error) }
    function Extract(): T requires Ok? { value }
  }

  type Byte = b: int | 0 <= b < 256

  type Bytes = seq<Byte>

  function Max(a: int, b: int): int { if a < b then b else a }

  function Min(a: int, b: int): int { if a < b then a else b }

  function Ceiling(x: real): int { -((-x).Floor) }
}
