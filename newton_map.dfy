/** `newton_color_map` (test.py:64-97): scan an evenly spaced grid of start points, run
    plain Newton from each, and paint each cell with the class id of its rounded root. */
module NewtonMap {
  import opened Numbers
  import opened Faults
  import opened NewtonDriver
  import opened Registry
  import opened Grid
  import opened Painting

  /** The fixed arguments of one colour map: the function and its derivative, |z|,
      `np.round(_, decimals)`, `max_iter` and `tol`. */
  datatype Setup = Setup(f: Complex -> Complex, df: Complex -> Complex, modulus: Complex -> real,
                         round: Complex -> Complex, maxIter: int, tol: real)

  /** The spacing of `np.linspace(lo, hi, n)`: one point sits at lo, more points split
      [lo, hi] into n - 1 equal parts. */
  function LinspaceStep(lo: real, hi: real, n: nat): real
  {
    if n <= 1 then 0.0 else (hi - lo) / ((n - 1) as real)
  }

  /** Cell (i, j) starts at `np.linspace(re_min, re_max, num[0])[i]` +
      `np.linspace(im_min, im_max, num[1])[j]` 1j. */
  function LinspaceLattice(box: Box, n0: nat, n1: nat): Lattice
  {
    Lattice(box.reMin, box.imMin, LinspaceStep(box.reMin, box.reMax, n0), LinspaceStep(box.imMin, box.imMax, n1))
  }

  /** The samples run from the lower corner of the box to its upper corner: the first point
      of each axis is its minimum and, with two points or more, the last is its maximum. */
  lemma LinspaceEnds(box: Box, n0: nat, n1: nat)
    requires n0 >= 1 && n1 >= 1
    ensures Sample(LinspaceLattice(box, n0, n1), 0, 0) == Complex(box.reMin, box.imMin)
    ensures Sample(LinspaceLattice(box, n0, n1), n0 - 1, n1 - 1)
            == Complex(if n0 >= 2 then box.reMax else box.reMin, if n1 >= 2 then box.imMax else box.imMin)
  {
    if n0 >= 2 {
      LinspaceCancel(box.reMin, box.reMax, n0);
    }
    if n1 >= 2 {
      LinspaceCancel(box.imMin, box.imMax, n1);
    }
  }

  lemma LinspaceCancel(lo: real, hi: real, n: nat)
    requires n >= 2
    ensures lo + ((n - 1) as real) * LinspaceStep(lo, hi, n) == hi
  {
    var d := (n - 1) as real;
    assert d * ((hi - lo) / d) == hi - lo;
  }

  /** What cell (i, j) contributes: the rounded root of the run from its sample point, or
      a fault. A zero derivative makes the run return None, which `np.round` refuses. */
  function NewtonCell(s: Setup, lat: Lattice, i: int, j: int): Result<Key>
  {
    var o := NewtonRun(s.f, s.df, Sample(lat, i, j), s.maxIter, s.tol, s.modulus);
    match o
    case Raised(e) => Err(e)
    case ZeroDerivative(_) => Err(RoundingNone)
    case Found(_, x) => Ok(s.round(x))
    case Exhausted(_, x) => Ok(s.round(x))
  }

  /** A cell's key is the rounding of one of the first max_iter Newton iterates from its
      sample point; `np.round(None)` fails only after a zero derivative within the budget;
      and the driver's own exceptions come from an empty loop or a negative tol. */
  lemma NewtonCellExplained(s: Setup, lat: Lattice, i: int, j: int)
    ensures var r := NewtonCell(s, lat, i, j);
            var x0 := Sample(lat, i, j);
            var update := UpdateMap(s.f, s.df);
            (r.Ok? ==> s.maxIter >= 1 && s.tol >= 0.0
                       && exists n :: 1 <= n <= s.maxIter && r.value == s.round(NewtonOrbit(update, x0, n)))
            && (r == Err(RoundingNone) ==>
                  exists n :: 0 <= n < s.maxIter && s.df(NewtonOrbit(update, x0, n)) == Zero)
            && (r.Err? && r.error != RoundingNone ==>
                  (s.maxIter < 1 && r.error == UnboundCounter)
                  || (s.maxIter >= 1 && s.tol < 0.0 && r.error == NegativeTolerance))
  {
    var x0 := Sample(lat, i, j);
    var update := UpdateMap(s.f, s.df);
    var o := NewtonRun(s.f, s.df, x0, s.maxIter, s.tol, s.modulus);
    NewtonRunExplained(s.f, s.df, x0, s.maxIter, s.tol, s.modulus);
    match o
    case Found(n, x) =>
      assert x == NewtonOrbit(update, x0, n);
    case Exhausted(n, x) =>
      assert x == NewtonOrbit(update, x0, s.maxIter);
    case ZeroDerivative(n) =>
      assert s.df(NewtonOrbit(update, x0, n - 1)) == Zero;
    case Raised(e) =>
  }

  function NewtonCells(s: Setup, lat: Lattice): Cells
  {
    (i, j) => NewtonCell(s, lat, i, j)
  }

  /** The roots `newton_color_map` returns: a `num[0]` x `num[1]` scan into an array of the
      same shape. With no points on an axis the loops do nothing and no root is found. */
  function NewtonRoots(s: Setup, box: Box, n0: nat, n1: nat): Result<seq<Key>>
  {
    ScanRoots(NewtonCells(s, LinspaceLattice(box, n0, n1)), n0, n1, n1)
  }

  /** The rounded root of one cell (test.py:90-91). */
  method NewtonRootAt(s: Setup, lat: Lattice, i: int, j: int) returns (c: Result<Key>)
    ensures c == NewtonCell(s, lat, i, j)
  {
    var o := IterateNewton(s.f, s.df, Sample(lat, i, j), s.maxIter, s.tol, s.modulus);
    match o
    case Raised(e) => c := Err(e);
    case ZeroDerivative(_) => c := Err(RoundingNone);
    case Found(_, x) => c := Ok(s.round(x));
    case Exhausted(_, x) => c := Ok(s.round(x));
  }

  /** The inner loop of test.py:89-95 for row i. */
  method ScanRow(s: Setup, lat: Lattice, ghost cell: Cells, reg: RootRegistry, grid: array2<int>,
                 i: nat, rows: nat, cols: nat, ghost ks: seq<Key>)
    returns (fault: Option<Fault>, ghost rs: seq<Key>)
    requires forall ii, jj :: cell(ii, jj) == NewtonCell(s, lat, ii, jj)
    requires i < rows == grid.Length0 && cols == grid.Length1
    requires reg.Dense() && GridScan(cell, i, cols, cols) == Ok(ks) && reg.keys == FirstOccurrences(ks)
    requires PaintedBefore(grid, reg.ids, cell, i, 0, cols) && BlankFrom(grid, i, 0, cols)
    modifies reg, grid
    ensures fault.Some? ==> ScanRoots(cell, rows, cols, cols) == Err(fault.value)
    ensures fault.None? ==> reg.Dense() && RowScan(cell, i, cols, cols) == Ok(rs)
                            && reg.keys == FirstOccurrences(ks + rs)
                            && PaintedBefore(grid, reg.ids, cell, i + 1, 0, cols) && BlankFrom(grid, i + 1, 0, cols)
  {
    rs := [];
    var j := 0;
    assert ks + rs == ks;
    while j < cols
      invariant 0 <= j <= cols
      invariant reg.Dense()
      invariant RowScan(cell, i, j, cols) == Ok(rs)
      invariant reg.keys == FirstOccurrences(ks + rs)
      invariant PaintedBefore(grid, reg.ids, cell, i, j, cols)
      invariant BlankFrom(grid, i, j, cols)
    {
      var c := NewtonRootAt(s, lat, i, j);
      fault := VisitCell(cell, reg, grid, i, j, c, rows, cols, cols, ks, rs);
      if fault.Some? {
        return;
      }
      rs := rs + [c.value];
      j := j + 1;
    }
    fault := None;
  }

  /** The outer loop of test.py:88-95, on a zeroed array and an empty registry. */
  method ScanRows(s: Setup, lat: Lattice, ghost cell: Cells, reg: RootRegistry, grid: array2<int>,
                  rows: nat, cols: nat)
    returns (fault: Option<Fault>)
    requires forall ii, jj :: cell(ii, jj) == NewtonCell(s, lat, ii, jj)
    requires rows == grid.Length0 && cols == grid.Length1
    requires reg.Dense() && reg.keys == [] && BlankFrom(grid, 0, 0, cols)
    modifies reg, grid
    ensures fault.Some? ==> ScanRoots(cell, rows, cols, cols) == Err(fault.value)
    ensures fault.None? ==> reg.Dense() && ScanRoots(cell, rows, cols, cols) == Ok(reg.keys)
                            && PaintedBefore(grid, reg.ids, cell, rows, 0, cols) && BlankFrom(grid, rows, 0, cols)
  {
    ghost var ks: seq<Key> := [];
    var i := 0;
    while i < rows
      invariant 0 <= i <= rows
      invariant reg.Dense()
      invariant GridScan(cell, i, cols, cols) == Ok(ks)
      invariant reg.keys == FirstOccurrences(ks)
      invariant PaintedBefore(grid, reg.ids, cell, i, 0, cols) && BlankFrom(grid, i, 0, cols)
    {
      ghost var rs;
      fault, rs := ScanRow(s, lat, cell, reg, grid, i, rows, cols, ks);
      if fault.Some? {
        return;
      }
      ks := ks + rs;
      i := i + 1;
    }
    fault := None;
  }

  /** The scan with the cells' roots named by `cell`, which agrees with `NewtonCell`. */
  method ScanCells(s: Setup, lat: Lattice, ghost cell: Cells, rows: nat, cols: nat)
    returns (r: Result<seq<Key>>, grid: array2<int>)
    requires forall ii, jj :: cell(ii, jj) == NewtonCell(s, lat, ii, jj)
    ensures fresh(grid) && grid.Length0 == rows && grid.Length1 == cols
    ensures r == ScanRoots(cell, rows, cols, cols)
    ensures r.Ok? ==> forall i, j :: 0 <= i < rows && 0 <= j < cols ==>
                        grid[i, j] == Painted(cell, r.value, cols, i, j)
  {
    grid := new int[rows, cols]((i, j) => 0);
    var reg := new RootRegistry();
    var fault := ScanRows(s, lat, cell, reg, grid, rows, cols);
    if fault.Some? {
      return Err(fault.value), grid;
    }
    PaintedIsPos(grid, reg, cell, rows, cols, cols);
    r := Ok(reg.keys);
  }

  /** `newton_color_map(function, interval, num, max_iter, tol, decimals)`. On success, `r`
      holds `tuple(roots)` and `grid` the colour map, every cell holding its root's id. */
  method NewtonColorMap(s: Setup, box: Box, n0: nat, n1: nat) returns (r: Result<seq<Key>>, grid: array2<int>)
    ensures r == NewtonRoots(s, box, n0, n1)
    ensures fresh(grid) && grid.Length0 == n0 && grid.Length1 == n1
    ensures r.Ok? ==> forall i, j :: 0 <= i < n0 && 0 <= j < n1 ==>
                        grid[i, j] == Painted(NewtonCells(s, LinspaceLattice(box, n0, n1)), r.value, n1, i, j)
  {
    r, grid := ScanCells(s, LinspaceLattice(box, n0, n1), NewtonCells(s, LinspaceLattice(box, n0, n1)), n0, n1);
  }

  /** With a budget of at least one and a non-negative tol, the map fails exactly when the
      run from some start point meets a zero derivative, and then `np.round(None)` raises. */
  lemma NewtonMapFaults(s: Setup, box: Box, n0: nat, n1: nat)
    requires s.maxIter >= 1 && s.tol >= 0.0
    ensures var r := NewtonRoots(s, box, n0, n1);
            var lat := LinspaceLattice(box, n0, n1);
            (r.Ok? <==> forall i, j :: 0 <= i < n0 && 0 <= j < n1 ==>
                          !NewtonRun(s.f, s.df, Sample(lat, i, j), s.maxIter, s.tol, s.modulus).ZeroDerivative?)
            && (r.Err? ==> r.error == RoundingNone)
  {
    var lat := LinspaceLattice(box, n0, n1);
    var cell := NewtonCells(s, lat);
    ScanWithinWidth(cell, n0, n1, n1);
    forall i, j | 0 <= i < n0 && 0 <= j < n1
      ensures cell(i, j).Ok? <==> !NewtonRun(s.f, s.df, Sample(lat, i, j), s.maxIter, s.tol, s.modulus).ZeroDerivative?
      ensures cell(i, j).Err? ==> cell(i, j).error == RoundingNone
    {
      NewtonRunCountInBudget(s.f, s.df, Sample(lat, i, j), s.maxIter, s.tol, s.modulus);
    }
  }

  /** With no points on either axis the map finds no roots. */
  lemma EmptyNewtonMap(s: Setup, box: Box, n0: nat, n1: nat)
    requires n0 == 0 || n1 == 0
    ensures NewtonRoots(s, box, n0, n1) == Ok([])
  {
    if n0 > 0 {
      EmptyColumns(NewtonCells(s, LinspaceLattice(box, n0, n1)), n0);
    }
  }
}
