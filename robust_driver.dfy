/** The robust iteration driver (`_iterate_robust`, robust.py:52-83): an iteration budget,
    the joint convergence test |f(x) f'(x)| < tol checked before every step, and the
    sentinel -100 when the budget runs out. */
module RobustDriver {
  import opened Numbers
  import opened Faults
  import opened RobustStep

  /** The value the source returns as the "root" when the budget runs out. */
  const Sentinel := Complex(-100.0, 0.0)

  /** How a run ends: the test held at iteration `iters`; the budget ran out; or the
      step (or the empty loop) raised. */
  datatype Outcome =
    | Converged(iters: nat, root: Complex)
    | Exhausted(iters: nat)
    | Raised(error: Fault)

  /** The pair `(i, x)` the source returns, for a run that did not raise. */
  function Reported(o: Outcome): (nat, Complex)
    requires !o.Raised?
  {
    match o
    case Converged(i, x) => (i, x)
    case Exhausted(i) => (i, Sentinel)
  }

  /** The convergence test `abs(func(x) * deriv_func(x)) < tol`. */
  predicate Passes(chain: seq<Complex -> Complex>, x: Complex, tol: real, modulus: Complex -> real)
    requires |chain| >= 2
  {
    modulus(Mul(chain[0](x), chain[1](x))) < tol
  }

  /** The robust step `_iterate_robust_step` with its arguments bound, as a map on iterates. */
  function StepMap(chain: seq<Complex -> Complex>, tol: real, num: Numerics): Complex -> Result<Complex>
    requires |chain| >= 2
  {
    x => NextIterate(chain, x, tol, num)
  }

  /** The convergence test with its arguments bound. */
  function TestMap(chain: seq<Complex -> Complex>, tol: real, modulus: Complex -> real): Complex -> bool
    requires |chain| >= 2
  {
    x => Passes(chain, x, tol, modulus)
  }

  /** The n-th iterate of `step` from x0, or the error of the step that failed. */
  function Orbit(step: Complex -> Result<Complex>, x0: Complex, n: nat): Result<Complex>
  {
    if n == 0 then Ok(x0)
    else match Orbit(step, x0, n - 1)
      case Err(e) => Err(e)
      case Ok(y) => step(y)
  }

  /** The loop from iteration i on, at the current iterate x: test, then step. */
  function RunFrom(step: Complex -> Result<Complex>, passes: Complex -> bool, x: Complex, i: nat,
                   maxIter: int): Outcome
    requires i >= 1
    decreases maxIter - i
  {
    if i > maxIter then
      if maxIter < 1 then Raised(UnboundCounter) else Exhausted(maxIter)
    else if passes(x) then Converged(i, x)
    else match step(x)
      case Err(e) => Raised(e)
      case Ok(y) => RunFrom(step, passes, y, i + 1, maxIter)
  }

  /** What `_iterate_robust(func_list, func, deriv_func, x0, max_iter, tol)` does. */
  function RobustRun(chain: seq<Complex -> Complex>, x0: Complex, maxIter: int, tol: real,
                     num: Numerics): Outcome
    requires |chain| >= 2
  {
    RunFrom(StepMap(chain, tol, num), TestMap(chain, tol, num.modulus), x0, 1, maxIter)
  }

  /** `_iterate_robust`. The source keeps the iterate in two variables, `xi` (stepped
      from) and `xj` (tested), which hold the same value whenever either is read. */
  method IterateRobust(chain: seq<Complex -> Complex>, x0: Complex, maxIter: int, tol: real,
                       num: Numerics)
    returns (o: Outcome)
    requires |chain| >= 2
    ensures o == RobustRun(chain, x0, maxIter, tol, num)
  {
    ghost var step, passes := StepMap(chain, tol, num), TestMap(chain, tol, num.modulus);
    var x := x0;
    if maxIter < 1 {
      return Raised(UnboundCounter);
    }
    var i := 1;
    while i <= maxIter
      invariant 1 <= i <= maxIter + 1
      invariant RunFrom(step, passes, x, i, maxIter) == RobustRun(chain, x0, maxIter, tol, num)
      decreases maxIter - i
    {
      if Passes(chain, x, tol, num.modulus) {
        return Converged(i, x);
      }
      var next := Step(chain, x, tol, num);
      RunFromStep(step, passes, x, i, maxIter, next);
      if next.Err? {
        return Raised(next.error);
      }
      x := next.value;
      i := i + 1;
    }
    o := Exhausted(maxIter);
  }

  /** One turn of the loop: a failing test followed by the step's result. */
  lemma RunFromStep(step: Complex -> Result<Complex>, passes: Complex -> bool, x: Complex, i: nat,
                    maxIter: int, next: Result<Complex>)
    requires 1 <= i <= maxIter && !passes(x) && step(x) == next
    ensures RunFrom(step, passes, x, i, maxIter)
            == if next.Err? then Raised(next.error) else RunFrom(step, passes, next.value, i + 1, maxIter)
  {
  }

  /** The iterates before the m-th all exist and all fail the test. */
  ghost predicate FailsBefore(step: Complex -> Result<Complex>, passes: Complex -> bool, x0: Complex,
                              m: int)
  {
    forall n: nat :: n < m ==> Orbit(step, x0, n).Ok? && !passes(Orbit(step, x0, n).value)
  }

  /** What each outcome of a run with budget maxIter says about the orbit of x0. */
  ghost predicate Explains(o: Outcome, step: Complex -> Result<Complex>, passes: Complex -> bool,
                           x0: Complex, maxIter: int)
  {
    match o
    case Converged(i, x) =>
      1 <= i <= maxIter
      && Orbit(step, x0, i - 1) == Ok(x)
      && passes(x)
      && FailsBefore(step, passes, x0, i - 1)
    case Exhausted(i) =>
      i == maxIter && FailsBefore(step, passes, x0, maxIter) && Orbit(step, x0, maxIter).Ok?
    case Raised(e) =>
      if maxIter < 1 then e == UnboundCounter
      else exists n: nat :: 1 <= n <= maxIter && Orbit(step, x0, n) == Err(e)
                           && FailsBefore(step, passes, x0, n)
  }

  lemma {:induction false} RunFromExplained(step: Complex -> Result<Complex>, passes: Complex -> bool,
                                            x0: Complex, maxIter: int, i: nat)
    requires 1 <= i <= maxIter + 1
    requires Orbit(step, x0, i - 1).Ok?
    requires FailsBefore(step, passes, x0, i - 1)
    ensures Explains(RunFrom(step, passes, Orbit(step, x0, i - 1).value, i, maxIter),
                     step, passes, x0, maxIter)
    decreases maxIter - i
  {
    var x := Orbit(step, x0, i - 1).value;
    if i <= maxIter && !passes(x) {
      assert FailsBefore(step, passes, x0, i);
      assert Orbit(step, x0, i) == step(x);
      if step(x).Ok? {
        RunFromExplained(step, passes, x0, maxIter, i + 1);
      }
    }
  }

  /** A run ends in one of three ways, each tied to the orbit of x0 under the robust step:
      - converged at iteration i, with 1 <= i <= maxIter: the (i-1)-th iterate is the
        returned value, it passes the test, and no earlier iterate does;
      - exhausted: the count is maxIter, and none of the first maxIter iterates passes;
      - raised: maxIter < 1 (the loop never ran), or a step within the budget failed. */
  lemma RobustRunExplained(chain: seq<Complex -> Complex>, x0: Complex, maxIter: int, tol: real,
                           num: Numerics)
    requires |chain| >= 2
    ensures Explains(RobustRun(chain, x0, maxIter, tol, num), StepMap(chain, tol, num),
                     TestMap(chain, tol, num.modulus), x0, maxIter)
  {
    if maxIter >= 1 {
      RunFromExplained(StepMap(chain, tol, num), TestMap(chain, tol, num.modulus), x0, maxIter, 1);
    }
  }

  /** With a budget of at least one, the returned count lies in 1..maxIter. */
  lemma RobustRunCountInBudget(chain: seq<Complex -> Complex>, x0: Complex, maxIter: int, tol: real,
                               num: Numerics)
    requires |chain| >= 2 && maxIter >= 1
    ensures var o := RobustRun(chain, x0, maxIter, tol, num);
            !o.Raised? ==> 1 <= Reported(o).0 <= maxIter
  {
    RobustRunExplained(chain, x0, maxIter, tol, num);
  }

  /** If the first maxIter iterates (x0 included) fail the test and the step from the last
      of them succeeds, the run reports `(maxIter, -100)`; the iterate that step reaches is
      never tested. */
  lemma NeverPassingExhausts(chain: seq<Complex -> Complex>, x0: Complex, maxIter: int, tol: real,
                             num: Numerics)
    requires |chain| >= 2 && maxIter >= 1
    requires FailsBefore(StepMap(chain, tol, num), TestMap(chain, tol, num.modulus), x0, maxIter)
    requires Orbit(StepMap(chain, tol, num), x0, maxIter).Ok?
    ensures RobustRun(chain, x0, maxIter, tol, num) == Exhausted(maxIter)
    ensures Reported(RobustRun(chain, x0, maxIter, tol, num)) == (maxIter, Sentinel)
  {
    var step := StepMap(chain, tol, num);
    var o := RobustRun(chain, x0, maxIter, tol, num);
    RobustRunExplained(chain, x0, maxIter, tol, num);
    if o.Raised? {
      var n: nat :| 1 <= n <= maxIter && Orbit(step, x0, n) == Err(o.error);
      OrbitStaysFailed(step, x0, n, maxIter);
    }
  }

  /** Once an orbit fails it stays failed. */
  lemma {:induction false} OrbitStaysFailed(step: Complex -> Result<Complex>, x0: Complex, n: nat, m: nat)
    requires n <= m && Orbit(step, x0, n).Err?
    ensures Orbit(step, x0, m).Err?
    decreases m - n
  {
    if n < m {
      OrbitStaysFailed(step, x0, n, m - 1);
    }
  }

  /** A start that already passes the test is returned unchanged at iteration 1; in
      particular an exact root does, when |0| = 0 and tol > 0. */
  lemma RobustStartPasses(chain: seq<Complex -> Complex>, x0: Complex, maxIter: int, tol: real,
                          num: Numerics)
    requires |chain| >= 2 && maxIter >= 1
    requires Passes(chain, x0, tol, num.modulus)
             || (chain[0](x0) == Zero && num.modulus(Zero) == 0.0 && tol > 0.0)
    ensures RobustRun(chain, x0, maxIter, tol, num) == Converged(1, x0)
  {
    if chain[0](x0) == Zero {
      assert Mul(Zero, chain[1](x0)) == Zero;
    }
  }

  /** A failed orbit failed at a step from an iterate that exists. */
  lemma {:induction false} OrbitFault(step: Complex -> Result<Complex>, x0: Complex, n: nat)
    requires Orbit(step, x0, n).Err?
    ensures exists m: nat :: m < n && Orbit(step, x0, m).Ok? && step(Orbit(step, x0, m).value) == Orbit(step, x0, n)
  {
    if Orbit(step, x0, n - 1).Err? {
      OrbitFault(step, x0, n - 1);
    }
  }

  /** A run raises only for an empty loop (maxIter < 1) or a division by zero in a step. */
  lemma RobustRunFaults(chain: seq<Complex -> Complex>, x0: Complex, maxIter: int, tol: real, num: Numerics)
    requires |chain| >= 2
    ensures var o := RobustRun(chain, x0, maxIter, tol, num);
            o.Raised? ==> o.error == if maxIter < 1 then UnboundCounter else DivisionByZero
  {
    var o := RobustRun(chain, x0, maxIter, tol, num);
    RobustRunExplained(chain, x0, maxIter, tol, num);
    if o.Raised? && maxIter >= 1 {
      var step := StepMap(chain, tol, num);
      var n: nat :| 1 <= n <= maxIter && Orbit(step, x0, n) == Err(o.error);
      OrbitFault(step, x0, n);
    }
  }
}
