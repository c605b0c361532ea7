/** Java's 32-bit int and byte, and the results of the helper's byte-array parsers. */
module JavaArithmetic {
  const MAX_INT := 0x7FFF_FFFF
  const TWO_POW_31 := 0x8000_0000
  const TWO_POW_32 := 0x1_0000_0000

  /** A byte after the `& 255` that the helper applies to every byte it reads. */
  type Byte = b: int | 0 <= b < 256

  /** The value of an int expression whose exact mathematical value is `x`. */
  function Int32(x: int): (r: int)
    ensures -TWO_POW_31 <= r <= MAX_INT
    ensures (r - x) % TWO_POW_32 == 0
    ensures -TWO_POW_31 <= x <= MAX_INT ==> r == x
  {
    (x + TWO_POW_31) % TWO_POW_32 - TWO_POW_31
  }

  /** `(length << 8) | next`, where `next` is a byte. */
  function ShiftIn(length: int, next: Byte): int {
    Int32(length * 256 + next)
  }

  /** A parser's outcome: a value, or one of the two exceptions it can raise. */
  datatype Parsed<+T> = Value(value: T) | IllegalArgument | IndexOutOfBounds {
    predicate IsFailure() {
      !Value?
    }

    function PropagateFailure<U>(): Parsed<U>
      requires IsFailure()
    {
      if IllegalArgument? then IllegalArgument else IndexOutOfBounds
    }

    function Extract(): T
      requires !IsFailure()
    {
      value
    }
  }
}
