/** The plain Newton driver (`_iterate_newton`, test.py:33-61): an iteration budget, a
    failure on an exactly zero derivative, the update x - f(x) / f'(x) and a closeness stop. */
module NewtonDriver {
  import opened Numbers
  import opened Faults

  /** How a run ends: the update landed close to its start at iteration `iters`; the
      derivative was exactly zero at iteration `iters`; the budget ran out at `last`;
      or Python raised. */
  datatype Outcome =
    | Found(iters: nat, root: Complex)
    | ZeroDerivative(iters: nat)
    | Exhausted(iters: nat, last: Complex)
    | Raised(error: Fault)

  /** The pair `(i, x)` the source returns, `None` standing for a zero derivative. */
  function Reported(o: Outcome): (nat, Option<Complex>)
    requires !o.Raised?
  {
    match o
    case Found(i, x) => (i, Some(x))
    case ZeroDerivative(i) => (i, None)
    case Exhausted(i, x) => (i, Some(x))
  }

  /** `xi - fi / der_yi` */
  function Update(f: Complex -> Complex, df: Complex -> Complex, x: Complex): Complex
  {
    Sub(x, Div(f(x), df(x)))
  }

  /** `cmath.isclose(a, b, rel_tol=0, abs_tol=tol)` for a non-negative tol: equal, or at
      most tol apart. */
  predicate IsClose(a: Complex, b: Complex, tol: real, modulus: Complex -> real)
  {
    a == b || modulus(Sub(b, a)) <= tol
  }

  /** The update with its functions bound, as a map on iterates. */
  function UpdateMap(f: Complex -> Complex, df: Complex -> Complex): Complex -> Complex
  {
    x => Update(f, df, x)
  }

  /** The n-th iterate of `update` from x0. */
  function NewtonOrbit(update: Complex -> Complex, x0: Complex, n: nat): Complex
  {
    if n == 0 then x0 else update(NewtonOrbit(update, x0, n - 1))
  }

  /** The loop from iteration i on, at the current iterate x. */
  function NewtonFrom(df: Complex -> Complex, update: Complex -> Complex, x: Complex, i: nat,
                      maxIter: int, tol: real, modulus: Complex -> real): Outcome
    requires i >= 1
    decreases maxIter - i
  {
    if i > maxIter then
      if maxIter < 1 then Raised(UnboundCounter) else Exhausted(maxIter, x)
    else if df(x) == Zero then ZeroDerivative(i)
    else
      var y := update(x);
      if tol < 0.0 then Raised(NegativeTolerance)
      else if IsClose(x, y, tol, modulus) then Found(i, y)
      else NewtonFrom(df, update, y, i + 1, maxIter, tol, modulus)
  }

  /** What `_iterate_newton(func, deriv_func, x0, max_iter, tol)` does. */
  function NewtonRun(f: Complex -> Complex, df: Complex -> Complex, x0: Complex, maxIter: int, tol: real,
                     modulus: Complex -> real): Outcome
  {
    NewtonFrom(df, UpdateMap(f, df), x0, 1, maxIter, tol, modulus)
  }

  /** `_iterate_newton` */
  method IterateNewton(f: Complex -> Complex, df: Complex -> Complex, x0: Complex, maxIter: int,
                       tol: real, modulus: Complex -> real)
    returns (o: Outcome)
    ensures o == NewtonRun(f, df, x0, maxIter, tol, modulus)
  {
    ghost var update := UpdateMap(f, df);
    var xi := x0;
    if maxIter < 1 {
      return Raised(UnboundCounter);
    }
    var i := 1;
    while i <= maxIter
      invariant 1 <= i <= maxIter + 1
      invariant NewtonFrom(df, update, xi, i, maxIter, tol, modulus) == NewtonRun(f, df, x0, maxIter, tol, modulus)
      decreases maxIter - i
    {
      var fi := f(xi);
      var der := df(xi);
      if der == Zero {
        return ZeroDerivative(i);
      }
      var xj := Sub(xi, Div(fi, der));
      NewtonFromStep(df, update, xi, i, maxIter, tol, modulus, xj);
      if tol < 0.0 {
        return Raised(NegativeTolerance);
      }
      if IsClose(xi, xj, tol, modulus) {
        return Found(i, xj);
      }
      xi := xj;
      i := i + 1;
    }
    o := Exhausted(maxIter, xi);
  }

  /** One turn of the loop from a non-zero derivative, given the update y. */
  lemma NewtonFromStep(df: Complex -> Complex, update: Complex -> Complex, x: Complex, i: nat,
                       maxIter: int, tol: real, modulus: Complex -> real, y: Complex)
    requires 1 <= i <= maxIter && df(x) != Zero && update(x) == y
    ensures NewtonFrom(df, update, x, i, maxIter, tol, modulus)
            == if tol < 0.0 then Raised(NegativeTolerance)
               else if IsClose(x, y, tol, modulus) then Found(i, y)
               else NewtonFrom(df, update, y, i + 1, maxIter, tol, modulus)
  {
  }

  /** Before the m-th iterate, every iterate has a non-zero derivative and its update is
      not close to it. */
  ghost predicate KeepsGoing(df: Complex -> Complex, update: Complex -> Complex, x0: Complex, tol: real,
                             modulus: Complex -> real, m: int)
  {
    forall n: nat :: n < m ==>
      df(NewtonOrbit(update, x0, n)) != Zero
      && !IsClose(NewtonOrbit(update, x0, n), NewtonOrbit(update, x0, n + 1), tol, modulus)
  }

  /** What each outcome of a run with budget maxIter says about the orbit of x0. */
  ghost predicate Explains(o: Outcome, df: Complex -> Complex, update: Complex -> Complex, x0: Complex,
                           maxIter: int, tol: real, modulus: Complex -> real)
  {
    match o
    case Found(i, x) =>
      1 <= i <= maxIter && tol >= 0.0
      && df(NewtonOrbit(update, x0, i - 1)) != Zero
      && x == NewtonOrbit(update, x0, i)
      && IsClose(NewtonOrbit(update, x0, i - 1), x, tol, modulus)
      && KeepsGoing(df, update, x0, tol, modulus, i - 1)
    case ZeroDerivative(i) =>
      1 <= i <= maxIter
      && df(NewtonOrbit(update, x0, i - 1)) == Zero
      && KeepsGoing(df, update, x0, tol, modulus, i - 1)
    case Exhausted(i, x) =>
      i == maxIter && x == NewtonOrbit(update, x0, maxIter) && tol >= 0.0
      && KeepsGoing(df, update, x0, tol, modulus, maxIter)
    case Raised(e) =>
      if maxIter < 1 then e == UnboundCounter
      else e == NegativeTolerance && tol < 0.0 && df(x0) != Zero
  }

  lemma {:induction false} NewtonFromExplained(df: Complex -> Complex, update: Complex -> Complex,
                                               x0: Complex, maxIter: int, tol: real,
                                               modulus: Complex -> real, i: nat)
    requires 1 <= i <= maxIter + 1
    requires i > 1 ==> tol >= 0.0
    requires KeepsGoing(df, update, x0, tol, modulus, i - 1)
    ensures Explains(NewtonFrom(df, update, NewtonOrbit(update, x0, i - 1), i, maxIter, tol, modulus),
                     df, update, x0, maxIter, tol, modulus)
    decreases maxIter - i
  {
    var x := NewtonOrbit(update, x0, i - 1);
    assert NewtonOrbit(update, x0, i) == update(x);
    if i <= maxIter && df(x) != Zero && tol >= 0.0 && !IsClose(x, update(x), tol, modulus) {
      assert KeepsGoing(df, update, x0, tol, modulus, i);
      NewtonFromExplained(df, update, x0, maxIter, tol, modulus, i + 1);
    }
  }

  /** A Newton run ends in one of four ways, each tied to the orbit of x0 under the
      update x - f(x) / f'(x):
      - found at iteration i in 1..maxIter: the i-th iterate, close to the one before it,
        whose derivative is non-zero, and no earlier update was close;
      - a zero derivative at the (i-1)-th iterate, with i in 1..maxIter, before any
        update from it;
      - exhausted: the count is maxIter and the value is the last iterate computed;
      - raised: the loop never ran (maxIter < 1), or a negative tol reached `isclose`
        at the first iteration. */
  lemma NewtonRunExplained(f: Complex -> Complex, df: Complex -> Complex, x0: Complex, maxIter: int,
                           tol: real, modulus: Complex -> real)
    ensures Explains(NewtonRun(f, df, x0, maxIter, tol, modulus), df, UpdateMap(f, df), x0, maxIter,
                     tol, modulus)
  {
    if maxIter >= 1 {
      NewtonFromExplained(df, UpdateMap(f, df), x0, maxIter, tol, modulus, 1);
    }
  }

  /** With a budget of at least one and a non-negative tol, the run does not raise and
      its count lies in 1..maxIter. */
  lemma NewtonRunCountInBudget(f: Complex -> Complex, df: Complex -> Complex, x0: Complex, maxIter: int,
                               tol: real, modulus: Complex -> real)
    requires maxIter >= 1 && tol >= 0.0
    ensures var o := NewtonRun(f, df, x0, maxIter, tol, modulus);
            !o.Raised? && 1 <= Reported(o).0 <= maxIter
  {
    NewtonRunExplained(f, df, x0, maxIter, tol, modulus);
  }

  /** A negative tol is noticed only by `isclose`, after the first derivative check. */
  lemma NegativeToleranceRaises(f: Complex -> Complex, df: Complex -> Complex, x0: Complex, maxIter: int,
                                tol: real, modulus: Complex -> real)
    requires maxIter >= 1 && tol < 0.0
    ensures NewtonRun(f, df, x0, maxIter, tol, modulus)
            == if df(x0) == Zero then ZeroDerivative(1) else Raised(NegativeTolerance)
  {
  }

  /** An exact root with a non-zero derivative is returned at iteration 1. */
  lemma NewtonStartAtRoot(f: Complex -> Complex, df: Complex -> Complex, x0: Complex, maxIter: int,
                          tol: real, modulus: Complex -> real)
    requires maxIter >= 1 && tol >= 0.0
    requires f(x0) == Zero && df(x0) != Zero
    ensures NewtonRun(f, df, x0, maxIter, tol, modulus) == Found(1, x0)
  {
    assert Div(Zero, df(x0)) == Zero;
    assert Update(f, df, x0) == x0;
  }
}
