/** Failure-carrying datatypes shared by every module of the model.
    `Option` stands for a Java reference that may be null; `Result` stands for a
    computation that may end in a runtime exception. */
module Results {

  datatype Option<+T> = None | Some(value: T)

  /** The exceptions the modelled Java code can raise. */
  datatype Error =
    | IndexOutOfBounds      // ArrayIndexOutOfBoundsException / IndexOutOfBoundsException
    | NegativeArraySize     // NegativeArraySizeException
    | BufferUnderflow       // java.nio.BufferUnderflowException
    | UnsupportedBitRate    // the explicit RuntimeException of copyBufferToData
    | BadNumber             // NumberFormatException of Double.parseDouble
    | DivisionByZero        // ArithmeticException of an int division by zero
    | InternalBug           // "There's a bug somewhere" of the aligner backtrace

  datatype Result<+T> = Success(value: T) | Failure(error: Error)

  /** Java's `/` on int: truncation toward zero (Dafny's `/` is Euclidean). The quotient
      times the divisor is the multiple of the divisor nearest the dividend on the zero
      side, and the quotient takes the dividend's sign unless it is 0. */
  function JavaDiv(a: int, b: int): (q: int)
    requires b > 0
    ensures a >= 0 ==> q * b <= a < q * b + b
    ensures a < 0 ==> q * b - b < a <= q * b
    ensures q == 0 || (q < 0 <==> a < 0)
  {
    if a >= 0 then a / b else -((-a) / b)
  }

  /** Real division with the divisor checked; IEEE infinities and NaN are not modelled,
      so a zero divisor yields 0. */
  function Quot(a: real, b: real): (q: real)
    ensures b != 0.0 ==> q * b == a
    ensures b == 0.0 ==> q == 0.0
  {
    if b == 0.0 then 0.0 else a / b
  }

  /** Java's `(int)` cast of a double: truncation toward zero (the saturation at the int
      range and NaN are not modelled). */
  function Truncate(x: real): (r: int)
    ensures x >= 0.0 ==> r as real <= x < r as real + 1.0
    ensures x < 0.0 ==> r as real - 1.0 < x <= r as real
  {
    if x >= 0.0 then x.Floor else -((-x).Floor)
  }

  lemma QuotNonNegative(a: real, b: real)
    requires a >= 0.0 && b > 0.0
    ensures Quot(a, b) >= 0.0
  {
    assert Quot(a, b) * b == a;
  }

  function Abs(x: real): (r: real)
    ensures r >= 0.0
    ensures r == x || r == -x
  {
    if x < 0.0 then -x else x
  }
}
