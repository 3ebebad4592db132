/** Exact complex arithmetic over the reals, the factorial and the few real helpers the
    iteration uses. Floating point is idealised: every operation here is the exact one. */
module Numbers {

  datatype Complex = Complex(re: real, im: real)

  const Zero := Complex(0.0, 0.0)
  const One := Complex(1.0, 0.0)
  /** The imaginary unit `1j`. */
  const I := Complex(0.0, 1.0)

  function Add(a: Complex, b: Complex): Complex
  {
    Complex(a.re + b.re, a.im + b.im)
  }

  function Sub(a: Complex, b: Complex): Complex
  {
    Complex(a.re - b.re, a.im - b.im)
  }

  function Mul(a: Complex, b: Complex): Complex
  {
    Complex(a.re * b.re - a.im * b.im, a.re * b.im + a.im * b.re)
  }

  /** `z.conjugate()` */
  function Conj(a: Complex): Complex
  {
    Complex(a.re, -a.im)
  }

  /** A complex value times (or, with `1.0 / s`, divided by) a real. */
  function Scale(a: Complex, s: real): Complex
  {
    Complex(a.re * s, a.im * s)
  }

  function NormSq(a: Complex): real
  {
    a.re * a.re + a.im * a.im
  }

  /** Complex division `a / b`. The modelled code divides only by a non-zero value; for a
      zero divisor the result is fixed at zero to keep the function total. */
  function Div(a: Complex, b: Complex): Complex
  {
    var n := NormSq(b);
    if n == 0.0 then Zero else Scale(Mul(a, Conj(b)), 1.0 / n)
  }

  /** `z ** n` for a non-negative integer exponent (`z ** 0` is one, also for zero). */
  function Pow(z: Complex, n: nat): Complex
  {
    if n == 0 then One else Mul(Pow(z, n - 1), z)
  }

  /** `math.factorial(n)` */
  function Fact(n: nat): (r: nat)
    ensures r >= 1
  {
    if n == 0 then 1 else n * Fact(n - 1)
  }

  /** `max(a, b)` on two reals: the first argument unless the second is larger. */
  function Max(a: real, b: real): (m: real)
    ensures m >= a && m >= b && (m == a || m == b)
  {
    if b > a then b else a
  }

  /** `abs(x)` on a real. */
  function AbsReal(x: real): (r: real)
    ensures r >= 0.0 && (r == x || r == -x)
  {
    if x < 0.0 then -x else x
  }

  /** `x ** e` for a real base and an integer exponent; a negative exponent needs a non-zero base. */
  function RealPow(x: real, e: int): real
    requires e >= 0 || x != 0.0
    decreases if e >= 0 then e else -e
  {
    if e == 0 then 1.0
    else if e > 0 then x * RealPow(x, e - 1)
    else RealPow(x, e + 1) / x
  }
}

/** Option and Result, and the Python exceptions the modelled code can raise. */
module Faults {

  datatype Option<+T> = None | Some(value: T)

  datatype Result<+T> = Ok(value: T) | Err(error: Fault)

  datatype Fault =
    | DivisionByZero     // ZeroDivisionError
    | UnboundCounter     // UnboundLocalError: `return i, ...` after a loop that never ran
    | ColumnOutOfRange   // IndexError from a grid write past the last column
    | NegativeTolerance  // ValueError from `cmath.isclose` with a negative `abs_tol`
    | RoundingNone       // TypeError from `np.round(None, decimals)`
}
