/** Option, Result and the fixed-width unsigned integers of the modelled program. */
module Types {

  datatype Option<+T> = None | Some(value: T)

  /** A failure-compatible result, so that decoders can be written with `:-`. */
  datatype Result<+T, +E> = Success(value: T) | Failure(error: E) {

    predicate IsFailure() {
      Failure?
    }

    function PropagateFailure<U>(): Result<U, E>
      requires Failure?
    {
      Failure(error)
    }

    function Extract(): T
      requires Success?
    {
      value
    }
  }

  type uint8 = x: int | 0 <= x < 0x100
  type uint16 = x: int | 0 <= x < 0x1_0000
  type uint32 = x: int | 0 <= x < 0x1_0000_0000
  type uint64 = x: int | 0 <= x < 0x1_0000_0000_0000_0000

  const UINT64_MODULUS: int := 0x1_0000_0000_0000_0000
  const UINT64_MAX: uint64 := 0xFFFF_FFFF_FFFF_FFFF

  /** `u64::wrapping_add`: addition modulo 2^64, never an error. */
  function WrappingAdd(x: uint64, y: uint64): uint64 {
    (x + y) % UINT64_MODULUS
  }
}
