/** Values shared by every module: results, addresses, and the integer arithmetic
    of the contract host, where `i128` overflow is an error the code can name. */
module Base {
  datatype Option<+T> = None | Some(value: T)

  /** The outcome of a contract call.  The host discards every write of a call that
      ends in an error, so an `Err` always means "nothing changed". */
  datatype Result<+T, +E> = Ok(value: T) | Err(error: E) {
    predicate IsFailure() {
      Err?
    }

    function PropagateFailure<U>(): Result<U, E>
      requires Err?
    {
      Err(error)
    }

    function Extract(): T
      requires Ok?
    {
      value
    }
  }

  /** The outcome of a method that only changes state. */
  datatype Outcome<+E> = Pass | Fail(error: E)

  function Need<E>(condition: bool, error: E): Result<(), E> {
    if condition then Ok(()) else Err(error)
  }

  datatype Address = Address(id: nat)

  const U32_MAX: int := 0xFFFF_FFFF
  const I128_MAX: int := 0x7FFF_FFFF_FFFF_FFFF_FFFF_FFFF_FFFF_FFFF
  const I128_MIN: int := -I128_MAX - 1
  const TWO_128: int := 0x1_0000_0000_0000_0000_0000_0000_0000_0000
  const U256_MAX: int := 0xFFFF_FFFF_FFFF_FFFF_FFFF_FFFF_FFFF_FFFF_FFFF_FFFF_FFFF_FFFF_FFFF_FFFF_FFFF_FFFF

  predicate InI128(x: int) {
    I128_MIN <= x <= I128_MAX
  }

  predicate InU256(x: int) {
    0 <= x <= U256_MAX
  }

  /** The checked operations of `i128`: `e` on overflow or division by zero. */
  function I128<E>(x: int, e: E): Result<int, E> {
    if InI128(x) then Ok(x) else Err(e)
  }

  function U256<E>(x: int, e: E): Result<int, E> {
    if InU256(x) then Ok(x) else Err(e)
  }

  /** Division of the source language: it rounds toward zero. */
  function TruncDiv(a: int, b: int): (q: int)
    requires b != 0
  {
    if a >= 0 then (if b > 0 then a / b else -(a / -b))
    else (if b > 0 then -(-a / b) else -a / -b)
  }

  function CheckedDiv<E>(a: int, b: int, e: E): Result<int, E> {
    if b == 0 then Err(e) else I128(TruncDiv(a, b), e)
  }

  function Min(a: int, b: int): int {
    if a <= b then a else b
  }

  function Max(a: int, b: int): int {
    if a <= b then b else a
  }

  /** Saturating arithmetic: the exact value, clamped into `i128`. */
  function Saturate(x: int): int {
    Max(I128_MIN, Min(x, I128_MAX))
  }

  /** Wrapping arithmetic: the representative of `x` modulo 2^128 that `i128` can hold. */
  function Wrap(x: int): int {
    (x - I128_MIN) % TWO_128 + I128_MIN
  }
}
