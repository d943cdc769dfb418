/**
 * The JVM integer semantics the Kotlin source relies on: `Int` is 32-bit two's
 * complement, `/` truncates toward zero and `%` takes the sign of the dividend.
 * Dafny's own `/` and `%` are Euclidean, so they are not used on values that can
 * be negative.
 */
module JvmInt {

  const IntMin: int := -0x8000_0000
  const IntMax: int := 0x7fff_ffff

  /** A Kotlin `Int`. */
  type Int32 = x: int | IntMin <= x <= IntMax

  /** Keep the low 32 bits as a signed value: `Int` overflow and `Long.toInt()`. */
  function Wrap(x: int): (r: Int32)
    ensures IntMin <= x <= IntMax ==> r == x
    ensures (r - x) % 0x1_0000_0000 == 0
  {
    (x - IntMin) % 0x1_0000_0000 + IntMin
  }

  /** Kotlin's integer `/` for a positive divisor: rounds toward zero. */
  function Div(a: int, b: int): int
    requires b > 0
  {
    if a >= 0 then a / b else -((-a) / b)
  }

  /** Kotlin's integer `%` for a positive divisor. */
  function Rem(a: int, b: int): int
    requires b > 0
  {
    a - b * Div(a, b)
  }

  /** Truncating division and its remainder: the remainder takes the sign of the
      dividend and is smaller than the divisor in magnitude. (Kept as a lemma, not
      as the functions' contracts, so that the nonlinear facts are only in scope
      where a proof asks for them.) */
  lemma DivRem(a: int, b: int)
    requires b > 0
    ensures a == b * Div(a, b) + Rem(a, b)
    ensures a >= 0 ==> Div(a, b) >= 0 && 0 <= Rem(a, b) < b
    ensures a < 0 ==> Div(a, b) <= 0 && -b < Rem(a, b) <= 0
  {
  }

  /** Truncation agrees with floor division exactly when the dividend is not negative. */
  lemma DivOfNonNegative(a: int, b: int)
    requires a >= 0 && b > 0
    ensures Div(a, b) == a / b && Rem(a, b) == a % b
  {
  }

  /** Truncation is symmetric about zero. */
  lemma DivNegate(a: int, b: int)
    requires b > 0
    ensures Div(-a, b) == -Div(a, b) && Rem(-a, b) == -Rem(a, b)
  {
  }
}
