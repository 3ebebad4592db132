# Robust Newton basins, modelled in Dafny

This project models the discrete control logic of a basin-of-attraction plotter for complex
polynomials. The plotter has two root finders:

- plain Newton iteration (`_iterate_newton`, `newton_color_map` in test.py);
- a robust Newton variant (`_iterate_robust_step`, `_iterate_robust`, `robust_color_map` in
  robust.py), whose step picks a local order k, bounds the higher derivatives by A, and
  turns along one of four directions.

Each colour map scans a rectangular grid of start points and runs an iteration from each. It
registers the rounded root in an insertion-ordered dict, and writes the root's class id into a
numpy array.

Modules, one per file:

| module | file | models |
|---|---|---|
| `Numbers`, `Faults` | numbers.dfy | exact complex arithmetic over `real`; `Option`/`Result` and the Python exceptions that can end a run |
| `RobustStep` | robust_step.dfy | `_iterate_robust_step`: order search, bound A, direction table, move |
| `RobustDriver` | robust_driver.dfy | `_iterate_robust`: budget, test-before-step, sentinel -100 |
| `NewtonDriver` | newton_driver.dfy | `_iterate_newton`: budget, zero derivative, update, closeness |
| `Registry` | registry.dfy | the `roots` dict and `root_count` as a class, and the first-occurrence order it builds |
| `Grid` | grid.dfy | the row-major scan as a specification: keys visited, first fault, colour of a cell |
| `Painting` | painting.dfy | the in-place writes `color_map[i, j] = roots[root]` |
| `RobustMap` | robust_map.dfy | `robust_color_map` as written, a corrected version, and the defects |
| `NewtonMap` | newton_map.dfy | `newton_color_map` |

The source's loops are Dafny `while` loops. Each loop is proved against a specification function:

- `Order`, `ErrorBound`, `NextIterate`, `RobustRun`, `NewtonRun` for the step and the drivers;
- `GridScan`, `ScanRoots`, `Painted` for the scans.

The dict and counter are fields of a class that the scan methods update. The colour map is an
`array2<int>` written in place. Floating-point primitives that have no exact meaning are
parameters of the model:

- `abs(z)` and `cmath.exp(1j * pi * t)` (the `Numerics` datatype);
- `np.round(_, decimals)` (a `round` function);
- the evaluators of the derivative chain (`seq<Complex -> Complex>`).

A Python exception is an `Err` of `Fault`:

| fault | source |
|---|---|
| `DivisionByZero` | ZeroDivisionError |
| `UnboundCounter` | the UnboundLocalError of `return i, ...` after an empty loop |
| `ColumnOutOfRange` | numpy's IndexError |
| `NegativeTolerance` | the ValueError of `cmath.isclose` |
| `RoundingNone` | the TypeError of `np.round(None)` |

Two facts about the robust step, which the model follows as coded:

- The order search of robust.py:18 stops at the last index, `len(func_list) - 1`, when no derivative up to the top of the chain reaches `tol`.
- At order 1 the robust step is a damped move along `-f conj(f')`, scaled by 1/(9A²). It is not the plain Newton update `x - f/f'` (`SimpleOrderStep`).

## Model

| member | source | states |
|---|---|---|
| RobustStep.Order | robust.py:15-21 | the order k lies in 1..len-1, every order before k is below tol, and k reaches tol unless it is the top of the chain |
| RobustStep.OrderIsUnique | robust.py:15-21 | the order is the only index with those three properties (both directions) |
| RobustStep.SearchOrder | robust.py:15-21 | the while loop returns the order and the value of that derivative at xi |
| RobustStep.BoundUpTo | robust.py:17-30 | the running maximum is at least abs(f(xi)) and every folded term abs(f_j(xi))/j!, and equals one of them |
| RobustStep.ErrorBound | robust.py:17-30 | A is the maximum of abs(f(xi)) and abs(f_j(xi))/j! for j = k..len-1: at least each and equal to one |
| RobustStep.BoundDerivatives | robust.py:17-30 | the loop computes exactly that bound A |
| RobustStep.Direction | robust.py:35-46 | ck = max(abs(gamma), abs(delta)); the gamma branch (even quarter) is taken exactly when abs(gamma) >= abs(delta), ties included |
| RobustStep.Angle | robust.py:35-46 | theta/pi lies in [0, 2/k) |
| RobustStep.AngleTable | robust.py:35-46 | theta is 0, pi/k, pi/(2k) or 3pi/(2k) by the four cases, each with its ck, and 0 <= theta < 2pi |
| RobustStep.DirectionDescends | robust.py:32-46 | turning 2w by k theta gives real part -ck, so the chosen direction makes the leading Taylor term descend |
| RobustStep.Move | robust.py:47-48 | the move raises ZeroDivisionError exactly when abs(uk) = 0 or A = 0 |
| RobustStep.NextIterate | robust.py:8-49 | a step fails only with ZeroDivisionError |
| RobustStep.Step | robust.py:8-49 | the method computes the next iterate from the order, uk, A and the table |
| RobustStep.OrderOneMove | robust.py:32-48 | at order 1, given cmath.exp(1j*pi) = -1, the table picks theta = pi with ck = 2, so the step moves along -uk, with uk = f conj(f'), by the real factor 2abs(uk)/(6A^2)/abs(uk)/3 |
| RobustStep.OrderOneLength | robust.py:47-48 | that factor, negated, is -1/(9A^2) |
| RobustStep.SimpleOrderStep | robust.py:23-48 | at order 1, given cmath.exp(1j*pi) = -1, a successful step is xi + uk * (-1/(9A^2)), with uk = f conj(f') and A the returned bound; A is non-zero |
| RobustDriver.IterateRobust | robust.py:52-83 | the loop's outcome is `RobustRun`: test before step, raise on a failing step, sentinel on exhaustion |
| RobustDriver.RunFromStep | robust.py:71-81 | one turn of the loop after a failing test |
| RobustDriver.RunFromExplained | robust.py:71-83 | from iteration i on, each outcome is tied to the orbit (see `RobustRunExplained`) |
| RobustDriver.RobustRunExplained | robust.py:71-83 | converged at i in 1..max_iter means iterate i-1 passes and none before does; exhausted means no iterate within the budget passes; raised means max_iter < 1 or a step within the budget failed |
| RobustDriver.RobustRunCountInBudget | robust.py:71-83 | with max_iter >= 1 a returned count lies in 1..max_iter |
| RobustDriver.NeverPassingExhausts | robust.py:71-83 | when no iterate within the budget passes the test and every step within it succeeds, the result is (max_iter, -100) |
| RobustDriver.OrbitStaysFailed | robust.py:74-81 | once a step has raised, every later iterate is an error too |
| RobustDriver.RobustStartPasses | robust.py:71-73 | a start that passes the test (an exact root with tol > 0 does) is returned as (1, x0) |
| RobustDriver.OrbitFault | robust.py:74-81 | a failed orbit failed at a step from an iterate that exists |
| RobustDriver.RobustRunFaults | robust.py:71-83 | a run raises only UnboundLocalError (max_iter < 1) or ZeroDivisionError |
| NewtonDriver.IterateNewton | test.py:33-61 | the loop's outcome is `NewtonRun` |
| NewtonDriver.NewtonFromStep | test.py:46-59 | one turn from a non-zero derivative: isclose raises, stops, or continues from the update |
| NewtonDriver.NewtonFromExplained | test.py:45-61 | from iteration i on, each outcome is tied to the orbit (see `NewtonRunExplained`) |
| NewtonDriver.NewtonRunExplained | test.py:45-61 | found at i in 1..max_iter means iterate i is the update of i-1, close to it, with non-zero derivative and no earlier stop; a zero derivative at i is found before any update from iterate i-1; exhausted reports max_iter and the last iterate |
| NewtonDriver.NewtonRunCountInBudget | test.py:45-61 | with max_iter >= 1 and tol >= 0 the run does not raise and its count is in 1..max_iter |
| NewtonDriver.NegativeToleranceRaises | test.py:50-56 | a negative tol raises at the first isclose, unless the first derivative is zero |
| NewtonDriver.NewtonStartAtRoot | test.py:53-57 | an exact root with a non-zero derivative is returned at iteration 1 |
| Registry.FirstOccurrences | robust.py:131-133 | the registered keys are distinct and are exactly the keys seen |
| Registry.Pos | robust.py:134 | a key's id is the index of its first occurrence |
| Registry.FirstOccurrencesGrow | robust.py:131-133 | registering more keys only appends: earlier keys keep their places |
| Registry.IdStable | robust.py:131-134 | a key's id never changes once it is registered |
| Registry.NewId | robust.py:131-133 | a new key gets the number of distinct keys seen before it |
| Registry.DiscoveryOrder | robust.py:131-141 | a smaller id belongs to a key first seen earlier, so the returned tuple is in discovery order |
| Registry.RegisterStep | robust.py:131-133 | one more key extends the registry as the dict does |
| Registry.RootRegistry.constructor | robust.py:114-115 | an empty registry with count 0 |
| Registry.RootRegistry.Register | robust.py:131-134 | ids stay dense (id n for key n, count = number of keys); a new key is appended; the id returned is the key's index; old ids are unchanged |
| Registry.RootRegistry.Assign | robust.py:140 | a dict store: an existing key keeps its place, only its id changes |
| Grid.CellFault | robust.py:130-134 | a cell faults exactly when its root computation raises or its column is outside the array |
| Grid.RowScan | robust.py:125-135 | a row scan succeeds exactly when no cell faults, lists every cell's root in order, and otherwise reports the first fault |
| Grid.GridScan | robust.py:123-136 | the whole scan succeeds exactly when no cell faults, holds every cell's root, and otherwise reports the first faulting row's fault |
| Grid.ScanRoots | robust.py:141 | the returned roots are distinct and include every cell's root; the error is the scan's first fault |
| Grid.ScanFaults | robust.py:130-134 | a faulting cell ends the whole scan with its fault |
| Grid.ScanWithinWidth | robust.py:123-136 | when every column exists, the scan fails exactly when a root computation does, with that fault |
| Grid.ScanPosition | robust.py:123-135 | each entry p of the scanned keys is the root of one visited cell, and the keys before p are exactly the roots scanned before that cell |
| Grid.ScanKeyFromCell | robust.py:123-135 | every scanned key is the root of a visited cell |
| Grid.RootFromCell | robust.py:131-141 | every returned root is the root of a visited cell (the converse of `ScanRoots`) |
| Grid.ScanDiscoveryOrder | robust.py:123-141 | for ids m < n, root n first appears at a cell before which root m has been seen and root n has not |
| Grid.EmptyColumns | test.py:89 | a scan without columns finds nothing |
| Grid.PaintedNamesRoot | robust.py:134 | after a successful scan a cell's colour is below the number of roots and indexes its own root |
| Grid.SameColourSameRoot | robust.py:131-134 | two cells share a colour exactly when they share a rounded root |
| Painting.PaintedKept | robust.py:131-134 | registering keys never changes what is painted |
| Painting.PaintCell | robust.py:134 | one array write paints the next cell and leaves the rest as they were |
| Painting.VisitCell | robust.py:130-134 | one visit registers the root and paints the cell, or reports the fault that ends the scan |
| Painting.PaintedIsPos | robust.py:134 | after a full scan each visited cell holds its root's index in the key order |
| RobustMap.AsWrittenLattice | robust.py:121-135 | both steps are the real resolution, starting at (interval[0], interval[2]) |
| RobustMap.IntendedLattice | robust.py:121-135 | the corrected lattice starts at the lower corner |
| RobustMap.RobustCell | robust.py:126-130 | a cell fails exactly when its run from the rounded start raises |
| RobustMap.RootAt | robust.py:126-130 | the method computes that cell's rounded root |
| RobustMap.ScanRow | robust.py:124-135 | the inner loop registers and paints a row, or reports the first fault of the scan |
| RobustMap.ScanRows | robust.py:123-136 | the outer loop returns the scan's roots with every visited cell painted, or its first fault |
| RobustMap.ScanCells | robust.py:114-141 | the scan returns `ScanRoots`, and on success the array is `Painted` |
| RobustMap.ScanRobust | robust.py:114-141 | the same for the robust cells of a lattice |
| RobustMap.RobustColorMap | robust.py:86-141 | num[0] = 0 divides by zero; otherwise a num[0] x num[0] scan into a num[0] x num[1] array, columns from num[0] on left 0 |
| RobustMap.RobustColorMapFixed | robust.py:86-141 | the corrected map scans num[0] x num[1] cells on the intended lattice |
| RobustMap.ColumnsOverrun | robust.py:116-134 | as written, num[1] < num[0] raises IndexError whenever every run succeeds |
| RobustMap.ImaginaryStepAsWritten | robust.py:121-135 | on [0,1] x [0,2] with num = (2, 2) the second column samples 0.5j, not 1j |
| RobustMap.AsWrittenImaginarySpan | robust.py:121-135 | as written, n0 steps cover the real extent on the imaginary axis too |
| RobustMap.IntendedSpan | robust.py:121-136 | the corrected lattice spans the box from corner to corner |
| RobustMap.FixedFaultsOnlyFromRuns | robust.py:123-134 | the corrected map fails exactly when a run raises, never with IndexError |
| RobustMap.RobustCellFaults | robust.py:130 | a cell fails with UnboundLocalError (max_iter < 1) or ZeroDivisionError only |
| NewtonMap.LinspaceEnds | test.py:88-89 | the samples start at (re_min, im_min) and, with two or more points, end at (re_max, im_max) |
| NewtonMap.NewtonCellExplained | test.py:45-91 | a cell's root is the rounded iterate n of the orbit for some n in 1..max_iter; np.round(None) fails only after a zero derivative at an iterate within the budget; any other failure is max_iter < 1 or tol < 0 |
| NewtonMap.NewtonRootAt | test.py:90-91 | the method computes that cell's rounded root |
| NewtonMap.ScanRow | test.py:89-95 | the inner loop registers and paints a row, or reports the first fault |
| NewtonMap.ScanRows | test.py:88-95 | the outer loop returns the roots with every cell painted, or the first fault |
| NewtonMap.ScanCells | test.py:84-97 | the scan returns `ScanRoots`, and on success the array is `Painted` |
| NewtonMap.NewtonColorMap | test.py:64-97 | the map returns the distinct roots in discovery order and paints every cell of the num[0] x num[1] array |
| NewtonMap.NewtonMapFaults | test.py:88-95 | with max_iter >= 1 and tol >= 0 the map fails exactly when some start meets a zero derivative |
| NewtonMap.EmptyNewtonMap | test.py:86-97 | with no points on an axis the map returns no roots |

## Left out

- The derivative chain is not built here. The source builds it with sympy and `eval` of the user's string (robust.py:106-112; test.py:28-29,82-83). The model takes the evaluators as a parameter, and `func`/`deriv_func` are its first two entries.
- `newton` (test.py:7-31) is not modelled separately. Once the strings are parsed it only calls `_iterate_newton`, which is `IterateNewton`.
- Floating point is not modelled. Values are exact reals and complex numbers.
- Some floating-point operations are parameters of the model, with no properties assumed: `abs`, `cmath.exp` and `np.round`. The power `abs(uk) ** (2 - k)` is computed exactly (`RealPow`, integer exponent).
- The default arguments (`max_iter=500`; `tol=1e-3` in robust.py, `1e-8` in test.py) are not modelled. Every model operation takes these values explicitly.
- The sample coordinates are exact:
  - robust_color_map accumulates `r += resolution` and `c += resolution` in floating point; the model takes `start + i * step`.
  - `np.linspace` is taken as exact even spacing with both ends included.
- Printing, plotting and the `test_*` functions are not modelled. This includes the pre-loop check of robust.py:66-69, which only prints.
- `cmath.isclose` is modelled only for `rel_tol=0`: equal, or `abs(b - a) <= abs_tol`. Infinities and NaN are not modelled. A negative tolerance raises, as in the source.
- The grid counts are `nat`. Negative entries of `num`, which numpy refuses, are not modelled.
- The colour map holds integer ids. numpy stores them as floats.
- On an exception Python returns nothing. The array a method returns next to an `Err` carries no meaning.
- `Numbers.Div` returns zero for a zero divisor. Only the Newton driver divides complex numbers, and it does so only after finding the derivative non-zero, so that value is never used. The robust step's real divisions are guarded by `Move`, which returns ZeroDivisionError when abs(uk) or A is zero.

## Findings

| source | as written | input that shows it | evidently intended | confidence | as-written member | corrected member |
|---|---|---|---|---|---|---|
| robust.py:125 | the inner loop runs `range(num[0])` over an array `num[1]` columns wide | num = (3, 2) with every run succeeding: the write to column 2 raises IndexError; with num = (2, 3), column 2 is never written and stays 0 | `range(num[1])` | not executed | RobustMap.ColumnsOverrun | RobustMap.FixedFaultsOnlyFromRuns |
| robust.py:121,135 | the imaginary step `c += resolution` reuses the real resolution | interval = (0, 1, 0, 2), num = (2, 2): the second column samples imaginary part 0.5 instead of 1 | `(interval[3] - interval[2]) / num[1]` | not executed | RobustMap.ImaginaryStepAsWritten | RobustMap.IntendedSpan |
