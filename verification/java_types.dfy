/**
 The few pieces of Java semantics the shape geometry relies on: the narrowing
 conversion `(short)` used when index values are stored into a `short[]`, and
 the run-time exceptions that array creation and array stores can throw.
 */
module JavaTypes {

  const ShortMin: int := -0x8000
  const ShortMax: int := 0x7FFF

  /** True iff `x` is a value of Java's 16-bit signed `short`. */
  predicate IsShort(x: int) {
    ShortMin <= x <= ShortMax
  }

  /** Java's `(short) x`: keeps the low 16 bits and reads them as two's complement. */
  function ToShort(x: int): (s: int)
    ensures IsShort(s)
    ensures (x - s) % 0x1_0000 == 0
    ensures IsShort(x) ==> s == x
  {
    var low := x % 0x1_0000;
    if low <= ShortMax then low else low - 0x1_0000
  }

  /** The exceptions the modelled array code can raise. */
  datatype JavaException =
    | NegativeArraySize       // `new T[k]` with k < 0
    | ArrayIndexOutOfBounds   // a store at an index outside the array

  /** Either the value a Java computation returns or the exception it throws. */
  datatype Result<+T> = Ok(value: T) | Thrown(exception: JavaException)
}
