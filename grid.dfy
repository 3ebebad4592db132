/** The row-major grid scan both colour maps perform, as a specification: the keys of the
    visited cells in visiting order, or the first fault. A cell faults when computing its
    rounded root raises, or when the write `color_map[i, j]` lands past the last column
    (numpy's IndexError). The root is computed and registered before the write, so the
    first kind of fault wins at a cell that has both. */
module Grid {
  import opened Numbers
  import opened Faults
  import opened Registry

  /** The rounded root of cell (i, j), or the fault computing it raised. */
  type Cells = (int, int) -> Result<Key>

  /** The fault cell (i, j) raises in a grid `width` columns wide, if any. */
  function CellFault(cell: Cells, i: int, j: int, width: int): (r: Option<Fault>)
    ensures r == None <==> cell(i, j).Ok? && j < width
  {
    if cell(i, j).Err? then Some(cell(i, j).error)
    else if j >= width then Some(ColumnOutOfRange)
    else None
  }

  /** The keys of cells (i, 0) .. (i, j-1) in order, or the first fault among them. */
  function RowScan(cell: Cells, i: int, j: nat, width: int): (r: Result<seq<Key>>)
    ensures r.Ok? <==> forall jj :: 0 <= jj < j ==> CellFault(cell, i, jj, width) == None
    ensures r.Ok? ==> |r.value| == j
    ensures r.Ok? ==> forall jj :: 0 <= jj < j ==> cell(i, jj).Ok? && r.value[jj] == cell(i, jj).value
    ensures r.Err? ==> exists jj :: 0 <= jj < j && CellFault(cell, i, jj, width) == Some(r.error)
                                    && forall jj' :: 0 <= jj' < jj ==> CellFault(cell, i, jj', width) == None
  {
    if j == 0 then Ok([])
    else match RowScan(cell, i, j - 1, width)
      case Err(e) => Err(e)
      case Ok(ks) =>
        match CellFault(cell, i, j - 1, width)
        case Some(e) => Err(e)
        case None => Ok(ks + [cell(i, j - 1).value])
  }

  /** The keys of rows 0 .. i-1, `cols` cells each, in row-major order, or the first fault. */
  function GridScan(cell: Cells, i: nat, cols: nat, width: int): (r: Result<seq<Key>>)
    ensures r.Ok? <==> forall ii, jj :: 0 <= ii < i && 0 <= jj < cols ==> CellFault(cell, ii, jj, width) == None
    ensures r.Ok? ==> forall ii, jj :: 0 <= ii < i && 0 <= jj < cols ==> cell(ii, jj).Ok? && cell(ii, jj).value in r.value
    ensures r.Err? ==> exists ii :: 0 <= ii < i && RowScan(cell, ii, cols, width) == Err(r.error)
                                    && forall ii' :: 0 <= ii' < ii ==> RowScan(cell, ii', cols, width).Ok?
  {
    if i == 0 then Ok([])
    else match GridScan(cell, i - 1, cols, width)
      case Err(e) => Err(e)
      case Ok(ks) =>
        match RowScan(cell, i - 1, cols, width)
        case Err(e) => Err(e)
        case Ok(rs) =>
          assert forall jj :: 0 <= jj < cols ==> cell(i - 1, jj).Ok? && rs[jj] == cell(i - 1, jj).value;
          Ok(ks + rs)
  }

  /** The roots a successful scan returns: its keys, each once, in discovery order. */
  function ScanRoots(cell: Cells, rows: nat, cols: nat, width: int): (r: Result<seq<Key>>)
    ensures r.Err? <==> GridScan(cell, rows, cols, width).Err?
    ensures r.Err? ==> r.error == GridScan(cell, rows, cols, width).error
    ensures r.Ok? ==> Distinct(r.value)
    ensures r.Ok? ==> forall ii, jj :: 0 <= ii < rows && 0 <= jj < cols ==> cell(ii, jj).Ok? && cell(ii, jj).value in r.value
  {
    match GridScan(cell, rows, cols, width)
    case Err(e) => Err(e)
    case Ok(ks) => Ok(FirstOccurrences(ks))
  }

  /** One more fault-free cell extends the scanned keys by its key. */
  lemma RowScanStep(cell: Cells, i: int, j: nat, width: int)
    requires RowScan(cell, i, j, width).Ok? && CellFault(cell, i, j, width) == None
    ensures RowScan(cell, i, j + 1, width) == Ok(RowScan(cell, i, j, width).value + [cell(i, j).value])
  {
  }

  /** A faulting cell ends the row's scan with its fault. */
  lemma RowScanFault(cell: Cells, i: int, j: nat, width: int)
    requires RowScan(cell, i, j, width).Ok? && CellFault(cell, i, j, width).Some?
    ensures RowScan(cell, i, j + 1, width) == Err(CellFault(cell, i, j, width).value)
  {
  }

  /** Once a row faults, the rest of that row keeps the fault. */
  lemma {:induction false} RowScanKeepsFault(cell: Cells, i: int, j: nat, j': nat, width: int)
    requires j <= j' && RowScan(cell, i, j, width).Err?
    ensures RowScan(cell, i, j', width) == RowScan(cell, i, j, width)
    decreases j' - j
  {
    if j < j' {
      RowScanKeepsFault(cell, i, j, j' - 1, width);
    }
  }

  /** Once the scan faults, every larger scan keeps that fault. */
  lemma {:induction false} GridScanKeepsFault(cell: Cells, i: nat, rows: nat, cols: nat, width: int)
    requires i <= rows && GridScan(cell, i, cols, width).Err?
    ensures GridScan(cell, rows, cols, width) == GridScan(cell, i, cols, width)
    decreases rows - i
  {
    if i < rows {
      GridScanKeepsFault(cell, i, rows - 1, cols, width);
    }
  }

  /** A cell that faults ends the whole scan with its fault. */
  lemma ScanFaults(cell: Cells, i: nat, j: nat, rows: nat, cols: nat, width: int)
    requires i < rows && j < cols
    requires GridScan(cell, i, cols, width).Ok? && RowScan(cell, i, j, width).Ok?
    requires CellFault(cell, i, j, width).Some?
    ensures ScanRoots(cell, rows, cols, width) == Err(CellFault(cell, i, j, width).value)
  {
    RowScanFault(cell, i, j, width);
    RowScanKeepsFault(cell, i, j + 1, cols, width);
    assert GridScan(cell, i + 1, cols, width) == Err(CellFault(cell, i, j, width).value);
    GridScanKeepsFault(cell, i + 1, rows, cols, width);
  }

  /** When every visited column exists, the scan fails exactly when some cell's root
      computation does, and with that computation's fault. */
  lemma ScanWithinWidth(cell: Cells, rows: nat, cols: nat, width: int)
    requires cols <= width
    ensures var r := GridScan(cell, rows, cols, width);
            (r.Ok? <==> forall i, j :: 0 <= i < rows && 0 <= j < cols ==> cell(i, j).Ok?)
            && (r.Err? ==> exists i, j :: 0 <= i < rows && 0 <= j < cols && cell(i, j) == Err(r.error))
  {
    var r := GridScan(cell, rows, cols, width);
    if r.Err? {
      var i :| 0 <= i < rows && RowScan(cell, i, cols, width) == Err(r.error);
      var j :| 0 <= j < cols && CellFault(cell, i, j, width) == Some(r.error);
      assert cell(i, j) == Err(r.error);
    } else {
      forall i, j | 0 <= i < rows && 0 <= j < cols
        ensures cell(i, j).Ok?
      {
        assert CellFault(cell, i, j, width) == None;
      }
    }
  }

  /** A scan of rows without columns finds nothing. */
  lemma {:induction false} EmptyColumns(cell: Cells, rows: nat)
    ensures GridScan(cell, rows, 0, 0) == Ok([])
  {
    if rows > 0 {
      EmptyColumns(cell, rows - 1);
      var none: seq<Key> := [];
      assert RowScan(cell, rows - 1, 0, 0) == Ok(none) && none + none == none;
    }
  }

  /** Some cell before (i, j) in row-major order, within `cols` columns, computed the
      root k. */
  ghost predicate SeenBefore(cell: Cells, k: Key, i: int, j: int, cols: int)
  {
    exists ii, jj :: ((0 <= ii < i && 0 <= jj < cols) || (ii == i && 0 <= jj < j)) && cell(ii, jj) == Ok(k)
  }

  /** The p-th key of a successful scan is the root of the cell the scan visits p-th: the
      keys before it are those of the whole rows above and of the cells to its left. */
  lemma {:induction false} ScanPosition(cell: Cells, rows: nat, cols: nat, width: int, ks: seq<Key>, p: nat)
    returns (i: nat, j: nat, above: seq<Key>, left: seq<Key>)
    requires GridScan(cell, rows, cols, width) == Ok(ks) && p < |ks|
    ensures i < rows && j < cols
    ensures GridScan(cell, i, cols, width) == Ok(above) && RowScan(cell, i, j, width) == Ok(left)
    ensures above + left == ks[..p]
    ensures cell(i, j) == Ok(ks[p])
  {
    var up, row := GridScanSplit(cell, rows, cols, width, ks);
    assert ks[p] == (up + row)[p];
    if p < |up| {
      i, j, above, left := ScanPosition(cell, rows - 1, cols, width, up, p);
      PrefixInFirst(up, row, p);
      assert cell(i, j) == Ok(ks[p]);
    } else {
      i, j, above, left := rows - 1, p - |up|, up, row[..p - |up|];
      LastRowPosition(cell, i, j, cols, width, up, row, p);
    }
  }

  /** The key at position `p` of the scan, when it lies in the last row scanned. */
  lemma LastRowPosition(cell: Cells, i: nat, j: nat, cols: nat, width: int, up: seq<Key>, row: seq<Key>, p: nat)
    requires GridScan(cell, i, cols, width) == Ok(up) && RowScan(cell, i, cols, width) == Ok(row)
    requires j < cols && p == |up| + j
    ensures RowScan(cell, i, j, width) == Ok(row[..j])
    ensures up + row[..j] == (up + row)[..p]
    ensures cell(i, j) == Ok((up + row)[p])
  {
    RowPrefix(cell, i, j, cols, width, row);
    PrefixInSecond(up, row, p);
  }

  /** A successful scan of `rows` rows is the scan of the rows above the last one followed
      by the last row. */
  lemma GridScanSplit(cell: Cells, rows: nat, cols: nat, width: int, ks: seq<Key>)
    returns (above: seq<Key>, row: seq<Key>)
    requires rows > 0 && GridScan(cell, rows, cols, width) == Ok(ks)
    ensures GridScan(cell, rows - 1, cols, width) == Ok(above) && RowScan(cell, rows - 1, cols, width) == Ok(row)
    ensures ks == above + row
  {
    above := GridScan(cell, rows - 1, cols, width).value;
    row := RowScan(cell, rows - 1, cols, width).value;
  }

  lemma PrefixInFirst(a: seq<Key>, b: seq<Key>, p: nat)
    requires p < |a|
    ensures (a + b)[..p] == a[..p] && (a + b)[p] == a[p]
  {
    assert (a + b)[..p] == a[..p];
  }

  lemma PrefixInSecond(a: seq<Key>, b: seq<Key>, p: nat)
    requires |a| <= p < |a| + |b|
    ensures (a + b)[..p] == a + b[..p - |a|] && (a + b)[p] == b[p - |a|]
  {
    assert (a + b)[..p] == a + b[..p - |a|];
  }

  /** The first j cells of a successful row scan scan successfully, to the first j keys. */
  lemma RowPrefix(cell: Cells, i: int, j: nat, cols: nat, width: int, row: seq<Key>)
    requires j < cols && RowScan(cell, i, cols, width) == Ok(row)
    ensures RowScan(cell, i, j, width) == Ok(row[..j])
    ensures cell(i, j) == Ok(row[j])
  {
    var left := RowScan(cell, i, j, width).value;
    assert forall jj :: 0 <= jj < j ==> left[jj] == row[jj];
    assert left == row[..j];
  }

  /** Every key a successful scan returns is the root of a cell it visited. */
  lemma {:induction false} ScanKeyFromCell(cell: Cells, rows: nat, cols: nat, width: int, k: Key)
    returns (i: nat, j: nat)
    requires GridScan(cell, rows, cols, width).Ok? && k in GridScan(cell, rows, cols, width).value
    ensures i < rows && j < cols && cell(i, j) == Ok(k)
  {
    var above, row := GridScanSplit(cell, rows, cols, width, GridScan(cell, rows, cols, width).value);
    if k in above {
      i, j := ScanKeyFromCell(cell, rows - 1, cols, width, k);
    } else {
      assert k in row;
      var jj :| 0 <= jj < |row| && row[jj] == k;
      i, j := rows - 1, jj;
    }
  }

  /** Every root of a successful scan is the root of a cell it visited: the converse of
      ScanRoots' coverage clause. */
  lemma RootFromCell(cell: Cells, rows: nat, cols: nat, width: int, k: Key)
    returns (i: nat, j: nat)
    requires ScanRoots(cell, rows, cols, width).Ok? && k in ScanRoots(cell, rows, cols, width).value
    ensures i < rows && j < cols && cell(i, j) == Ok(k)
  {
    i, j := ScanKeyFromCell(cell, rows, cols, width, k);
  }

  /** The roots come out in the order the row-major scan first meets them: for m < n the
      cell where root n first appears comes after a cell holding root m. */
  lemma ScanDiscoveryOrder(cell: Cells, rows: nat, cols: nat, width: int, m: nat, n: nat)
    requires ScanRoots(cell, rows, cols, width).Ok? && m < n < |ScanRoots(cell, rows, cols, width).value|
    ensures var roots := ScanRoots(cell, rows, cols, width).value;
            exists i, j :: 0 <= i < rows && 0 <= j < cols && cell(i, j) == Ok(roots[n])
                           && SeenBefore(cell, roots[m], i, j, cols) && !SeenBefore(cell, roots[n], i, j, cols)
  {
    var ks := GridScan(cell, rows, cols, width).value;
    var roots := ScanRoots(cell, rows, cols, width).value;
    assert roots == FirstOccurrences(ks);
    DiscoveryOrder(ks, m, n);
    var p := Pos(ks, roots[n]);
    var i, j, above, left := ScanPosition(cell, rows, cols, width, ks, p);
    var q := Pos(ks, roots[m]);
    assert ks[..p][q] == roots[m];
    SeenEarlier(cell, i, j, cols, width, above, left, roots[m]);
    ListedBefore(cell, i, j, cols, width, above, left);
    assert roots[n] !in ks[..p];
    assert cell(i, j) == Ok(roots[n]) && !SeenBefore(cell, roots[n], i, j, cols);
  }

  /** A key the scan lists before position p was computed by a cell before the one it visits
      p-th. */
  lemma SeenEarlier(cell: Cells, i: nat, j: nat, cols: nat, width: int, above: seq<Key>, left: seq<Key>, k: Key)
    requires GridScan(cell, i, cols, width) == Ok(above) && RowScan(cell, i, j, width) == Ok(left)
    requires k in above + left
    ensures SeenBefore(cell, k, i, j, cols)
  {
    if k in above {
      var ii, jj := ScanKeyFromCell(cell, i, cols, width, k);
    } else {
      var jj :| 0 <= jj < |left| && left[jj] == k;
      assert cell(i, jj) == Ok(k);
    }
  }

  /** The root of every cell visited before cell (i, j) is among the keys scanned before it. */
  lemma ListedBefore(cell: Cells, i: nat, j: nat, cols: nat, width: int, above: seq<Key>, left: seq<Key>)
    requires GridScan(cell, i, cols, width) == Ok(above) && RowScan(cell, i, j, width) == Ok(left)
    ensures forall ii, jj :: ((0 <= ii < i && 0 <= jj < cols) || (ii == i && 0 <= jj < j)) && cell(ii, jj).Ok?
                             ==> cell(ii, jj).value in above + left
  {
    forall ii, jj | ((0 <= ii < i && 0 <= jj < cols) || (ii == i && 0 <= jj < j)) && cell(ii, jj).Ok?
      ensures cell(ii, jj).value in above + left
    {
      if ii < i {
        assert cell(ii, jj).value in above;
      } else {
        assert left[jj] == cell(ii, jj).value;
      }
    }
  }

  /** `interval = (real_min, real_max, complex_min, complex_max)` */
  datatype Box = Box(reMin: real, reMax: real, imMin: real, imMax: real)

  /** Start points on a lattice: cell (i, j) samples (re0 + i reStep) + (im0 + j imStep) 1j. */
  datatype Lattice = Lattice(re0: real, im0: real, reStep: real, imStep: real)

  function Sample(lat: Lattice, i: int, j: int): Complex
  {
    Complex(lat.re0 + (i as real) * lat.reStep, lat.im0 + (j as real) * lat.imStep)
  }

  /** The colour value of cell (i, j) after a scan of `cols` columns that returned `roots`:
      the id of its root when the scan visited it, else the zero numpy started with. */
  function Painted(cell: Cells, roots: seq<Key>, cols: int, i: int, j: int): int
  {
    if j < cols && cell(i, j).Ok? && cell(i, j).value in roots then Pos(roots, cell(i, j).value) else 0
  }

  /** After a successful scan, a visited cell's colour is the index of its own root in
      the returned tuple. */
  lemma PaintedNamesRoot(cell: Cells, rows: nat, cols: nat, width: int, i: int, j: int)
    requires ScanRoots(cell, rows, cols, width).Ok? && 0 <= i < rows && 0 <= j < cols
    ensures var roots := ScanRoots(cell, rows, cols, width).value;
            0 <= Painted(cell, roots, cols, i, j) < |roots| && roots[Painted(cell, roots, cols, i, j)] == cell(i, j).value
  {
    assert cell(i, j).Ok? && cell(i, j).value in ScanRoots(cell, rows, cols, width).value;
  }

  /** Two visited cells share a colour exactly when their runs reached the same rounded
      root. */
  lemma SameColourSameRoot(cell: Cells, rows: nat, cols: nat, width: int, i: int, j: int, i': int, j': int)
    requires ScanRoots(cell, rows, cols, width).Ok?
    requires 0 <= i < rows && 0 <= j < cols && 0 <= i' < rows && 0 <= j' < cols
    ensures var roots := ScanRoots(cell, rows, cols, width).value;
            Painted(cell, roots, cols, i, j) == Painted(cell, roots, cols, i', j')
            <==> cell(i, j).value == cell(i', j').value
  {
    PaintedNamesRoot(cell, rows, cols, width, i, j);
    PaintedNamesRoot(cell, rows, cols, width, i', j');
  }
}
