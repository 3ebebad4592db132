/** One step of the robust Newton iteration (`_iterate_robust_step`, robust.py): the
    search for the local order k, the bound A over the scaled higher derivatives, the
    four-way direction table, and the move itself.

    The derivative chain is a sequence of evaluators `chain[j]` for the j-th derivative;
    `chain[0]` is the function and `chain[1]` its first derivative (the source's `func`
    and `deriv_func` are the same two evaluators). */
module RobustStep {
  import opened Numbers
  import opened Faults

  /** The floating-point operations the step needs and the model does not define:
      the modulus `abs(z)` of a complex value and `cmath.exp(1j * pi * t)`. */
  datatype Numerics = Numerics(modulus: Complex -> real, cisPi: real -> Complex)

  /** The chain evaluated at one point. */
  function ValuesAt(chain: seq<Complex -> Complex>, x: Complex): (v: seq<Complex>)
    ensures |v| == |chain|
    ensures forall j :: 0 <= j < |chain| ==> v[j] == chain[j](x)
  {
    seq(|chain|, j requires 0 <= j < |chain| => chain[j](x))
  }

  // ---------------------------------------------------------------------------------
  // Order search (robust.py:15-21)
  // ---------------------------------------------------------------------------------

  /** The order search started at order k: the first order from k on whose value reaches
      `tol`, or the last order of the chain if none before it does. */
  function OrderFrom(vals: seq<Complex>, tol: real, modulus: Complex -> real, k: nat): (r: nat)
    requires 1 <= k < |vals|
    ensures k <= r < |vals|
    ensures forall j :: k <= j < r ==> modulus(vals[j]) < tol
    ensures r < |vals| - 1 ==> modulus(vals[r]) >= tol
    decreases |vals| - k
  {
    if modulus(vals[k]) < tol && k + 1 < |vals| then OrderFrom(vals, tol, modulus, k + 1) else k
  }

  /** The local order k of the step. */
  function Order(vals: seq<Complex>, tol: real, modulus: Complex -> real): (k: nat)
    requires |vals| >= 2
    ensures 1 <= k <= |vals| - 1
    ensures forall j :: 1 <= j < k ==> modulus(vals[j]) < tol
    ensures k < |vals| - 1 ==> modulus(vals[k]) >= tol
  {
    OrderFrom(vals, tol, modulus, 1)
  }

  /** What the order search promises, stated without the search. */
  ghost predicate IsOrder(vals: seq<Complex>, tol: real, modulus: Complex -> real, k: int)
  {
    1 <= k < |vals|
    && (forall j :: 1 <= j < k ==> modulus(vals[j]) < tol)
    && (k < |vals| - 1 ==> modulus(vals[k]) >= tol)
  }

  /** The order is the only index with those properties: the first order whose value
      reaches `tol`, and the top of the chain exactly when no earlier order does. */
  lemma OrderIsUnique(vals: seq<Complex>, tol: real, modulus: Complex -> real, k: int)
    requires |vals| >= 2
    ensures IsOrder(vals, tol, modulus, k) <==> k == Order(vals, tol, modulus)
  {
  }

  /** The loop of robust.py:18-21, evaluating the chain as it goes. */
  method SearchOrder(chain: seq<Complex -> Complex>, xi: Complex, tol: real, modulus: Complex -> real)
    returns (k: nat, der: Complex)
    requires |chain| >= 2
    ensures k == Order(ValuesAt(chain, xi), tol, modulus)
    ensures der == chain[k](xi)
  {
    ghost var vals := ValuesAt(chain, xi);
    k, der := 1, chain[1](xi);
    while modulus(der) < tol && k + 1 < |chain|
      invariant 1 <= k < |chain|
      invariant der == chain[k](xi)
      invariant OrderFrom(vals, tol, modulus, k) == Order(vals, tol, modulus)
      decreases |chain| - k
    {
      k := k + 1;
      der := chain[k](xi);
    }
  }

  // ---------------------------------------------------------------------------------
  // The bound A (robust.py:17, 24-30)
  // ---------------------------------------------------------------------------------

  /** `abs(chain[j](xi)) / j!` */
  function Term(vals: seq<Complex>, modulus: Complex -> real, j: nat): real
    requires j < |vals|
  {
    modulus(vals[j]) / (Fact(j) as real)
  }

  /** A after the orders k .. n-1 have been folded in, starting from `abs(f(xi))`:
      the largest of those terms. */
  function BoundUpTo(vals: seq<Complex>, k: nat, modulus: Complex -> real, n: nat): (a: real)
    requires 1 <= k < n <= |vals|
    ensures a >= modulus(vals[0])
    ensures forall j :: k <= j < n ==> a >= Term(vals, modulus, j)
    ensures a == modulus(vals[0]) || exists j :: k <= j < n && a == Term(vals, modulus, j)
    decreases n
  {
    var before := if n == k + 1 then modulus(vals[0]) else BoundUpTo(vals, k, modulus, n - 1);
    Max(before, Term(vals, modulus, n - 1))
  }

  /** The bound A of the step: the maximum of `abs(f(xi))` and of `abs(chain[j](xi)) / j!`
      over the orders j from k to the top of the chain. */
  function ErrorBound(vals: seq<Complex>, k: nat, modulus: Complex -> real): (a: real)
    requires 1 <= k < |vals|
    ensures a >= modulus(vals[0])
    ensures forall j :: k <= j < |vals| ==> a >= Term(vals, modulus, j)
    ensures a == modulus(vals[0]) || exists j :: k <= j < |vals| && a == Term(vals, modulus, j)
  {
    BoundUpTo(vals, k, modulus, |vals|)
  }

  /** The running maximum of robust.py:17, 24-30, given the order k and its value `der`. */
  method BoundDerivatives(chain: seq<Complex -> Complex>, xi: Complex, k: nat, der: Complex,
                          modulus: Complex -> real)
    returns (a: real)
    requires 1 <= k < |chain|
    requires der == chain[k](xi)
    ensures a == ErrorBound(ValuesAt(chain, xi), k, modulus)
  {
    ghost var vals := ValuesAt(chain, xi);
    a := modulus(chain[0](xi));
    a := Max(a, modulus(der) / (Fact(k) as real));
    var j := k;
    while j + 1 < |chain|
      invariant k <= j < |chain|
      invariant a == BoundUpTo(vals, k, modulus, j + 1)
    {
      j := j + 1;
      var d := chain[j](xi);
      a := Max(a, modulus(d) / (Fact(j) as real));
    }
  }

  // ---------------------------------------------------------------------------------
  // The direction table (robust.py:32-46)
  // ---------------------------------------------------------------------------------

  /** The step's scale `ck` and its angle theta = quarter * pi / (2k), `quarter` in 0..3. */
  datatype Heading = Heading(ck: real, quarter: nat)

  /** The table of robust.py:35-46 on gamma = 2 Re(w) and delta = -2 Im(w). */
  function Direction(gamma: real, delta: real): (h: Heading)
    ensures h.ck == Max(AbsReal(gamma), AbsReal(delta))
    ensures h.quarter < 4
    ensures h.quarter % 2 == 0 <==> AbsReal(gamma) >= AbsReal(delta)
  {
    if AbsReal(gamma) >= AbsReal(delta) then
      Heading(AbsReal(gamma), if gamma < 0.0 then 0 else 2)
    else
      Heading(AbsReal(delta), if delta < 0.0 then 1 else 3)
  }

  /** theta / pi for order k. */
  function Angle(h: Heading, k: nat): (t: real)
    requires k >= 1 && h.quarter < 4
    ensures 0.0 <= t < 2.0 / (k as real)
  {
    var q, d := h.quarter as real, (2 * k) as real;
    assert q / d < 4.0 / d by {
      assert q < 4.0 && d > 0.0;
      assert (4.0 - q) / d > 0.0;
    }
    assert 4.0 / d == 2.0 / (k as real);
    q / d
  }

  /** The four rows of the table, as multiples of pi: theta is 0 or pi/k when gamma
      dominates (a tie goes to gamma) and pi/(2k) or 3pi/(2k) when delta does; in all
      cases 0 <= theta < 2 pi. */
  lemma AngleTable(gamma: real, delta: real, k: nat)
    requires k >= 1
    ensures var h := Direction(gamma, delta);
            var t := Angle(h, k);
            0.0 <= t < 2.0
            && (AbsReal(gamma) >= AbsReal(delta) && gamma < 0.0 ==> t == 0.0 && h.ck == -gamma)
            && (AbsReal(gamma) >= AbsReal(delta) && gamma >= 0.0 ==> t == 1.0 / (k as real) && h.ck == gamma)
            && (AbsReal(gamma) < AbsReal(delta) && delta < 0.0 ==> t == 1.0 / (2 * k) as real && h.ck == -delta)
            && (AbsReal(gamma) < AbsReal(delta) && delta >= 0.0 ==> t == 3.0 / (2 * k) as real && h.ck == delta)
  {
    var h := Direction(gamma, delta);
    var t := Angle(h, k);
    assert 2.0 / (k as real) <= 2.0;
    if h.quarter == 2 {
      assert t == 2.0 / (2 * k) as real == 1.0 / (k as real);
    }
  }

  /** e^(i q pi / 2), a quarter turn q times: e^(i k theta) for theta = q pi / (2k). */
  function QuarterTurn(q: nat): Complex
  {
    match q % 4
    case 0 => One
    case 1 => I
    case 2 => Complex(-1.0, 0.0)
    case _ => Complex(0.0, -1.0)
  }

  /** The direction is a descent direction for the leading Taylor term: turning
      w = uk^(k-1) by k theta makes the real part of 2 w e^(i k theta) equal to -ck,
      the larger of |gamma| and |delta| with a minus sign. */
  lemma DirectionDescends(w: Complex)
    ensures var h := Direction(2.0 * w.re, -2.0 * w.im);
            Mul(Scale(w, 2.0), QuarterTurn(h.quarter)).re == -h.ck
  {
    var h := Direction(2.0 * w.re, -2.0 * w.im);
    var v := Scale(w, 2.0);
    if h.quarter == 0 {
      assert Mul(v, One).re == v.re;
    } else if h.quarter == 1 {
      assert Mul(v, I).re == -v.im;
    } else if h.quarter == 2 {
      assert Mul(v, Complex(-1.0, 0.0)).re == -v.re;
    } else {
      assert Mul(v, Complex(0.0, -1.0)).re == v.im;
    }
  }

  // ---------------------------------------------------------------------------------
  // The step (robust.py:8-49)
  // ---------------------------------------------------------------------------------

  /** `uk = f(xi) * conj(chain[k](xi)) / k!` */
  function Progress(vals: seq<Complex>, k: nat): Complex
    requires k < |vals|
  {
    Scale(Mul(vals[0], Conj(vals[k])), 1.0 / (Fact(k) as real))
  }

  /** The move of robust.py:32-48 from xi, given uk and the bound A at order k, or the
      ZeroDivisionError that lines 47-48 raise when `abs(uk)` or A is zero. */
  function Move(xi: Complex, uk: Complex, a: real, k: nat, num: Numerics): (r: Result<Complex>)
    requires k >= 1
    ensures r.Err? <==> num.modulus(uk) == 0.0 || a == 0.0
    ensures r.Err? ==> r.error == DivisionByZero
  {
    var w := Pow(uk, k - 1);
    var h := Direction(2.0 * w.re, -2.0 * w.im);
    var m := num.modulus(uk);
    if m == 0.0 || a == 0.0 then Err(DivisionByZero)
    else
      Ok(Add(xi, Scale(Mul(uk, num.cisPi(Angle(h, k))), StepLength(h.ck, m, k, a))))
  }

  /** The real factor of the move: ck |uk|^(2-k) / (6 A^2), then divided by |uk| and by 3. */
  function StepLength(ck: real, m: real, k: nat, a: real): real
    requires m != 0.0 && a != 0.0
  {
    ck * RealPow(m, 2 - k) / (6.0 * a * a) / m / 3.0
  }

  /** The next iterate from xi (`_iterate_robust_step`). */
  function NextIterate(chain: seq<Complex -> Complex>, xi: Complex, tol: real, num: Numerics)
    : (r: Result<Complex>)
    requires |chain| >= 2
    ensures r.Err? ==> r.error == DivisionByZero
  {
    var vals := ValuesAt(chain, xi);
    var k := Order(vals, tol, num.modulus);
    Move(xi, Progress(vals, k), ErrorBound(vals, k, num.modulus), k, num)
  }

  /** `_iterate_robust_step`: the order search, the bound and the move. */
  method Step(chain: seq<Complex -> Complex>, xi: Complex, tol: real, num: Numerics)
    returns (r: Result<Complex>)
    requires |chain| >= 2
    ensures r == NextIterate(chain, xi, tol, num)
  {
    var fi := chain[0](xi);
    var k, der := SearchOrder(chain, xi, tol, num.modulus);
    var uk := Scale(Mul(fi, Conj(der)), 1.0 / (Fact(k) as real));
    assert uk == Progress(ValuesAt(chain, xi), k);
    var a := BoundDerivatives(chain, xi, k, der, num.modulus);
    r := Move(xi, uk, a, k, num);
  }

  /** At order 1 (a simple root nearby) the table picks ck = 2 and theta = pi, so the step
      is xi - uk / (9 A^2) with uk = f conj(f'): a damped move along the Newton direction,
      not the plain Newton update x - f / f'. */
  lemma SimpleOrderStep(chain: seq<Complex -> Complex>, xi: Complex, tol: real, num: Numerics)
    returns (a: real)
    requires |chain| >= 2
    requires Order(ValuesAt(chain, xi), tol, num.modulus) == 1
    requires num.cisPi(1.0) == Complex(-1.0, 0.0)
    requires NextIterate(chain, xi, tol, num).Ok?
    ensures a == ErrorBound(ValuesAt(chain, xi), 1, num.modulus) && a != 0.0
    ensures var vals := ValuesAt(chain, xi);
            NextIterate(chain, xi, tol, num) == Ok(Add(xi, Scale(Mul(vals[0], Conj(vals[1])), -1.0 / (9.0 * a * a))))
  {
    OrderOneMove(chain, xi, tol, num);
    var vals := ValuesAt(chain, xi);
    var uk := Progress(vals, 1);
    a := ErrorBound(vals, 1, num.modulus);
    OrderOneLength(num.modulus(uk), a);
    NegatedScale(uk, StepLength(2.0, num.modulus(uk), 1, a));
  }

  /** The order-1 move written out as Move computes it: -uk scaled by the step length with
      ck = 2 and k = 1. */
  lemma OrderOneMove(chain: seq<Complex -> Complex>, xi: Complex, tol: real, num: Numerics)
    requires |chain| >= 2
    requires Order(ValuesAt(chain, xi), tol, num.modulus) == 1
    requires num.cisPi(1.0) == Complex(-1.0, 0.0)
    requires NextIterate(chain, xi, tol, num).Ok?
    ensures var vals := ValuesAt(chain, xi);
            var uk := Progress(vals, 1);
            var a := ErrorBound(vals, 1, num.modulus);
            var m := num.modulus(uk);
            m != 0.0 && a != 0.0 && uk == Mul(vals[0], Conj(vals[1]))
            && NextIterate(chain, xi, tol, num)
               == Ok(Add(xi, Scale(Complex(-uk.re, -uk.im), StepLength(2.0, m, 1, a))))
  {
    var vals := ValuesAt(chain, xi);
    var uk := Progress(vals, 1);
    var a := ErrorBound(vals, 1, num.modulus);
    var m := num.modulus(uk);
    assert NextIterate(chain, xi, tol, num) == Move(xi, uk, a, 1, num);
    assert Pow(uk, 0) == One;
    var h := Direction(2.0, -2.0 * 0.0);
    assert h == Heading(2.0, 2);
    assert Angle(h, 1) == 1.0;
    assert uk == Mul(vals[0], Conj(vals[1]));
    assert Mul(uk, Complex(-1.0, 0.0)) == Complex(-uk.re, -uk.im);
  }

  /** With ck = 2 and k = 1 the step length is 1 / (9 A^2). */
  lemma OrderOneLength(m: real, a: real)
    requires m != 0.0 && a != 0.0
    ensures 9.0 * a * a != 0.0 && -StepLength(2.0, m, 1, a) == -1.0 / (9.0 * a * a)
  {
    assert RealPow(m, 1) == m;
    OrderOneRatio(m, a, a);
  }

  lemma NegatedScale(z: Complex, s: real)
    ensures Scale(Complex(-z.re, -z.im), s) == Scale(z, -s)
  {
  }

  lemma OrderOneRatio(m: real, x: real, y: real)
    requires m != 0.0 && x != 0.0 && y != 0.0
    ensures 9.0 * x * y != 0.0
    ensures -(2.0 * m / (6.0 * x * y) / m / 3.0) == -1.0 / (9.0 * x * y)
  {
  }
}
