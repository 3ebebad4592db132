/** `robust_color_map` (robust.py:86-141): scan a grid of start points, run the robust
    iteration from each, and paint each cell with the class id of its rounded root. */
module RobustMap {
  import opened Numbers
  import opened Faults
  import opened RobustStep
  import opened RobustDriver
  import opened Registry
  import opened Grid
  import opened Painting

  /** The fixed arguments of one colour map: the derivative chain, the numeric primitives,
      `np.round(_, decimals)`, `max_iter` and `tol`. */
  datatype Setup = Setup(chain: seq<Complex -> Complex>, num: Numerics, round: Complex -> Complex,
                         maxIter: int, tol: real)

  /** The lattice as written: both steps are `(interval[1] - interval[0]) / num[0]`. */
  function AsWrittenLattice(box: Box, n0: nat): (lat: Lattice)
    requires n0 > 0
    ensures lat.reStep == lat.imStep && Sample(lat, 0, 0) == Complex(box.reMin, box.imMin)
  {
    var resolution := (box.reMax - box.reMin) / (n0 as real);
    Lattice(box.reMin, box.imMin, resolution, resolution)
  }

  /** The evidently intended lattice: the imaginary step divides the imaginary extent
      into `num[1]` parts. */
  function IntendedLattice(box: Box, n0: nat, n1: nat): (lat: Lattice)
    requires n0 > 0 && n1 > 0
    ensures Sample(lat, 0, 0) == Complex(box.reMin, box.imMin)
  {
    Lattice(box.reMin, box.imMin, (box.reMax - box.reMin) / (n0 as real), (box.imMax - box.imMin) / (n1 as real))
  }

  /** The rounded root the scan registers for cell (i, j), or the fault its run raised:
      the run starts from the rounded sample point and its reported value is rounded. */
  function RobustCell(s: Setup, lat: Lattice, i: int, j: int): (r: Result<Key>)
    requires |s.chain| >= 2
    ensures r.Err? <==> RobustRun(s.chain, s.round(Sample(lat, i, j)), s.maxIter, s.tol, s.num).Raised?
  {
    var o := RobustRun(s.chain, s.round(Sample(lat, i, j)), s.maxIter, s.tol, s.num);
    if o.Raised? then Err(o.error) else Ok(s.round(Reported(o).1))
  }

  function RobustCells(s: Setup, lat: Lattice): Cells
    requires |s.chain| >= 2
  {
    (i, j) => RobustCell(s, lat, i, j)
  }

  /** The rounded root of one cell (robust.py:126,130): run the robust iteration from the
      rounded sample point and round what it reports. */
  method RootAt(s: Setup, lat: Lattice, i: int, j: int) returns (c: Result<Key>)
    requires |s.chain| >= 2
    ensures c == RobustCell(s, lat, i, j)
  {
    var o := IterateRobust(s.chain, s.round(Sample(lat, i, j)), s.maxIter, s.tol, s.num);
    if o.Raised? {
      return Err(o.error);
    }
    c := Ok(s.round(Reported(o).1));
  }

  /** The inner loop of robust.py:124-135 for row i. */
  method ScanRow(s: Setup, lat: Lattice, ghost cell: Cells, reg: RootRegistry, grid: array2<int>,
                 i: nat, rows: nat, cols: nat, width: nat, ghost ks: seq<Key>)
    returns (fault: Option<Fault>, root: Key, ghost rs: seq<Key>)
    requires |s.chain| >= 2 && forall ii, jj :: cell(ii, jj) == RobustCell(s, lat, ii, jj)
    requires i < rows == grid.Length0 && width == grid.Length1
    requires reg.Dense() && GridScan(cell, i, cols, width) == Ok(ks) && reg.keys == FirstOccurrences(ks)
    requires PaintedBefore(grid, reg.ids, cell, i, 0, cols) && BlankFrom(grid, i, 0, cols)
    modifies reg, grid
    ensures fault.Some? ==> ScanRoots(cell, rows, cols, width) == Err(fault.value)
    ensures fault.None? ==> reg.Dense() && RowScan(cell, i, cols, width) == Ok(rs)
                            && reg.keys == FirstOccurrences(ks + rs)
                            && PaintedBefore(grid, reg.ids, cell, i + 1, 0, cols) && BlankFrom(grid, i + 1, 0, cols)
                            && (cols > 0 ==> root in reg.ids)
  {
    rs := [];
    root := Zero;
    var j := 0;
    assert ks + rs == ks;
    while j < cols
      invariant 0 <= j <= cols
      invariant reg.Dense()
      invariant RowScan(cell, i, j, width) == Ok(rs)
      invariant reg.keys == FirstOccurrences(ks + rs)
      invariant j > 0 ==> root in reg.ids
      invariant PaintedBefore(grid, reg.ids, cell, i, j, cols)
      invariant BlankFrom(grid, i, j, cols)
    {
      var c := RootAt(s, lat, i, j);
      assert c == cell(i, j);
      fault := VisitCell(cell, reg, grid, i, j, c, rows, cols, width, ks, rs);
      if fault.Some? {
        return;
      }
      root := c.value;
      rs := rs + [root];
      j := j + 1;
      assert RowScan(cell, i, j, width) == Ok(rs) && reg.keys == FirstOccurrences(ks + rs);
    }
    fault := None;
    assert RowScan(cell, i, cols, width) == Ok(rs);
  }

  /** The scan of robust.py:114-141 over `rows` x `cols` cells of a lattice, into an array
      `width` columns wide. On success it returns the registry's keys, and the array holds
      each visited cell's id; the cells it did not visit hold 0. */
  method ScanRobust(s: Setup, lat: Lattice, rows: nat, cols: nat, width: nat)
    returns (r: Result<seq<Key>>, grid: array2<int>)
    requires |s.chain| >= 2 && rows > 0 && cols > 0
    ensures fresh(grid) && grid.Length0 == rows && grid.Length1 == width
    ensures r == ScanRoots(RobustCells(s, lat), rows, cols, width)
    ensures r.Ok? ==> forall i, j :: 0 <= i < rows && 0 <= j < width ==>
                        grid[i, j] == Painted(RobustCells(s, lat), r.value, cols, i, j)
  {
    r, grid := ScanCells(s, lat, RobustCells(s, lat), rows, cols, width);
  }

  /** The scan with the cells' roots named by `cell`, which agrees with `RobustCell`. */
  method ScanCells(s: Setup, lat: Lattice, ghost cell: Cells, rows: nat, cols: nat, width: nat)
    returns (r: Result<seq<Key>>, grid: array2<int>)
    requires |s.chain| >= 2 && rows > 0 && cols > 0
    requires forall ii, jj :: cell(ii, jj) == RobustCell(s, lat, ii, jj)
    ensures fresh(grid) && grid.Length0 == rows && grid.Length1 == width
    ensures r == ScanRoots(cell, rows, cols, width)
    ensures r.Ok? ==> forall i, j :: 0 <= i < rows && 0 <= j < width ==>
                        grid[i, j] == Painted(cell, r.value, cols, i, j)
  {
    grid := new int[rows, width]((i, j) => 0);
    var reg := new RootRegistry();
    var fault, root := ScanRows(s, lat, cell, reg, grid, rows, cols, width);
    if fault.Some? {
      return Err(fault.value), grid;
    }
    PaintedIsPos(grid, reg, cell, rows, cols, width);
    // robust.py:140 stores the last root's id again; it is already a key, so the
    // key order, which is all the returned tuple shows, stays as it was.
    reg.Assign(root, reg.count);
    r := Ok(reg.keys);
  }

  /** The outer loop of robust.py:123-136, on a zeroed array and an empty registry. */
  method ScanRows(s: Setup, lat: Lattice, ghost cell: Cells, reg: RootRegistry, grid: array2<int>,
                  rows: nat, cols: nat, width: nat)
    returns (fault: Option<Fault>, root: Key)
    requires |s.chain| >= 2 && rows > 0 && cols > 0
    requires forall ii, jj :: cell(ii, jj) == RobustCell(s, lat, ii, jj)
    requires rows == grid.Length0 && width == grid.Length1
    requires reg.Dense() && reg.keys == [] && BlankFrom(grid, 0, 0, cols)
    modifies reg, grid
    ensures fault.Some? ==> ScanRoots(cell, rows, cols, width) == Err(fault.value)
    ensures fault.None? ==> reg.Dense() && ScanRoots(cell, rows, cols, width) == Ok(reg.keys) && root in reg.ids
                            && PaintedBefore(grid, reg.ids, cell, rows, 0, cols) && BlankFrom(grid, rows, 0, cols)
  {
    root := Zero;
    ghost var ks: seq<Key> := [];
    var i := 0;
    while i < rows
      invariant 0 <= i <= rows
      invariant reg.Dense()
      invariant GridScan(cell, i, cols, width) == Ok(ks)
      invariant reg.keys == FirstOccurrences(ks)
      invariant i > 0 ==> root in reg.ids
      invariant PaintedBefore(grid, reg.ids, cell, i, 0, cols) && BlankFrom(grid, i, 0, cols)
    {
      var last;
      ghost var rs;
      fault, last, rs := ScanRow(s, lat, cell, reg, grid, i, rows, cols, width, ks);
      if fault.Some? {
        return;
      }
      root := last;
      ks := ks + rs;
      i := i + 1;
    }
    fault := None;
  }


  /** The roots `robust_color_map` returns, as written: `num[0] == 0` divides by zero at
      robust.py:121; otherwise `num[0]` x `num[0]` cells are scanned into an array `num[1]`
      columns wide, on the lattice whose two steps are both the real resolution. */
  function RobustRoots(s: Setup, box: Box, n0: nat, n1: nat): Result<seq<Key>>
    requires |s.chain| >= 2
  {
    if n0 == 0 then Err(DivisionByZero)
    else ScanRoots(RobustCells(s, AsWrittenLattice(box, n0)), n0, n0, n1)
  }

  /** `robust_color_map(function, interval, num, max_iter, tol, decimals)`, as written. On
      success, `r` holds `tuple(roots)` and `grid` the colour map. */
  method RobustColorMap(s: Setup, box: Box, n0: nat, n1: nat) returns (r: Result<seq<Key>>, grid: array2<int>)
    requires |s.chain| >= 2
    ensures r == RobustRoots(s, box, n0, n1)
    ensures fresh(grid) && grid.Length0 == n0 && grid.Length1 == n1
    ensures r.Ok? ==> forall i, j :: 0 <= i < n0 && 0 <= j < n1 ==>
                        grid[i, j] == Painted(RobustCells(s, AsWrittenLattice(box, n0)), r.value, n0, i, j)
    ensures r.Ok? ==> forall i, j :: 0 <= i < n0 && n0 <= j < n1 ==> grid[i, j] == 0
  {
    if n0 == 0 {
      grid := new int[0, n1]((i, j) => 0);
      return Err(DivisionByZero), grid;
    }
    r, grid := ScanRobust(s, AsWrittenLattice(box, n0), n0, n0, n1);
  }

  /** The roots of the corrected colour map: `num[0]` x `num[1]` cells, the imaginary step
      taken from the imaginary extent, and a zero count on either axis dividing by zero. */
  function RobustRootsFixed(s: Setup, box: Box, n0: nat, n1: nat): Result<seq<Key>>
    requires |s.chain| >= 2
  {
    if n0 == 0 || n1 == 0 then Err(DivisionByZero)
    else ScanRoots(RobustCells(s, IntendedLattice(box, n0, n1)), n0, n1, n1)
  }

  /** The corrected `robust_color_map`: the inner loop runs over `range(num[1])`. */
  method RobustColorMapFixed(s: Setup, box: Box, n0: nat, n1: nat) returns (r: Result<seq<Key>>, grid: array2<int>)
    requires |s.chain| >= 2
    ensures r == RobustRootsFixed(s, box, n0, n1)
    ensures fresh(grid) && grid.Length0 == n0 && grid.Length1 == n1
    ensures r.Ok? ==> forall i, j :: 0 <= i < n0 && 0 <= j < n1 ==>
                        grid[i, j] == Painted(RobustCells(s, IntendedLattice(box, n0, n1)), r.value, n1, i, j)
  {
    if n0 == 0 || n1 == 0 {
      grid := new int[n0, n1]((i, j) => 0);
      return Err(DivisionByZero), grid;
    }
    r, grid := ScanRobust(s, IntendedLattice(box, n0, n1), n0, n1, n1);
  }

  /** As written, a map with fewer imaginary than real points fails with numpy's
      IndexError whenever every run succeeds: the inner loop reaches column `num[1]`. */
  lemma ColumnsOverrun(s: Setup, box: Box, n0: nat, n1: nat)
    requires |s.chain| >= 2 && n1 < n0
    requires forall i, j :: 0 <= i < n0 && 0 <= j < n0 ==> RobustCell(s, AsWrittenLattice(box, n0), i, j).Ok?
    ensures RobustRoots(s, box, n0, n1) == Err(ColumnOutOfRange)
  {
    var cell := RobustCells(s, AsWrittenLattice(box, n0));
    assert CellFault(cell, 0, n1, n1) == Some(ColumnOutOfRange);
    var g := GridScan(cell, n0, n0, n1);
    assert g.Err?;
    var ii :| 0 <= ii < n0 && RowScan(cell, ii, n0, n1) == Err(g.error);
    var jj :| 0 <= jj < n0 && CellFault(cell, ii, jj, n1) == Some(g.error);
    assert cell(ii, jj).Ok?;
  }

  /** As written, the imaginary step is the real one: on the box [0, 1] x [0, 2] with two
      points per axis, the second column samples imaginary part 0.5 instead of 1. */
  lemma ImaginaryStepAsWritten()
    ensures Sample(AsWrittenLattice(Box(0.0, 1.0, 0.0, 2.0), 2), 0, 1).im == 0.5
    ensures Sample(IntendedLattice(Box(0.0, 1.0, 0.0, 2.0), 2, 2), 0, 1).im == 1.0
  {
  }

  /** As written, column n0 would sample imaginary part imMin + (reMax - reMin): the
      imaginary extent is covered only when it equals the real one. */
  lemma AsWrittenImaginarySpan(box: Box, n0: nat)
    requires n0 > 0
    ensures Sample(AsWrittenLattice(box, n0), n0, n0) == Complex(box.reMax, box.imMin + (box.reMax - box.reMin))
  {
    CancelSteps(box.reMax - box.reMin, n0);
  }

  /** The corrected lattice runs from the lower corner of the box by num[0] and num[1]
      steps to its upper corner. */
  lemma IntendedSpan(box: Box, n0: nat, n1: nat)
    requires n0 > 0 && n1 > 0
    ensures Sample(IntendedLattice(box, n0, n1), 0, 0) == Complex(box.reMin, box.imMin)
    ensures Sample(IntendedLattice(box, n0, n1), n0, n1) == Complex(box.reMax, box.imMax)
  {
    var lat := IntendedLattice(box, n0, n1);
    CancelSteps(box.reMax - box.reMin, n0);
    CancelSteps(box.imMax - box.imMin, n1);
    assert lat.re0 + (n0 as real) * lat.reStep == box.reMax;
    assert lat.im0 + (n1 as real) * lat.imStep == box.imMax;
  }

  lemma CancelSteps(extent: real, n: nat)
    requires n > 0
    ensures (n as real) * (extent / (n as real)) == extent
  {
  }

  /** The corrected map fails exactly when some run raises, with the fault of a cell whose
      run raised; it never writes past a column. */
  lemma FixedFaultsOnlyFromRuns(s: Setup, box: Box, n0: nat, n1: nat)
    requires |s.chain| >= 2 && n0 > 0 && n1 > 0
    ensures var r := RobustRootsFixed(s, box, n0, n1);
            (r.Ok? <==> forall i, j :: 0 <= i < n0 && 0 <= j < n1 ==> RobustCell(s, IntendedLattice(box, n0, n1), i, j).Ok?)
            && (r.Err? ==> r.error != ColumnOutOfRange
                           && exists i, j :: 0 <= i < n0 && 0 <= j < n1
                                            && RobustCell(s, IntendedLattice(box, n0, n1), i, j) == Err(r.error))
  {
    var lat := IntendedLattice(box, n0, n1);
    var cell := RobustCells(s, lat);
    ScanWithinWidth(cell, n0, n1, n1);
    var g := GridScan(cell, n0, n1, n1);
    if g.Err? {
      var i, j :| 0 <= i < n0 && 0 <= j < n1 && cell(i, j) == Err(g.error);
      assert RobustCell(s, lat, i, j) == Err(g.error);
      RobustCellFaults(s, lat, i, j);
    } else {
      forall i, j | 0 <= i < n0 && 0 <= j < n1
        ensures RobustCell(s, lat, i, j).Ok?
      {
        assert cell(i, j).Ok?;
      }
    }
  }

  /** A cell fails only as its run raises: never with numpy's IndexError. */
  lemma RobustCellFaults(s: Setup, lat: Lattice, i: int, j: int)
    requires |s.chain| >= 2
    ensures RobustCell(s, lat, i, j).Err? ==>
              RobustCell(s, lat, i, j).error == if s.maxIter < 1 then UnboundCounter else DivisionByZero
  {
    RobustRunFaults(s.chain, s.round(Sample(lat, i, j)), s.maxIter, s.tol, s.num);
  }
}
