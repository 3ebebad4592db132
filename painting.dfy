/** The array writes both colour maps make: `color_map[i, j] = roots[root]` for each cell
    in row-major order, on an array numpy filled with zeros. */
module Painting {
  import opened Faults
  import opened Registry
  import opened Grid

  /** Cells of rows before i, and of row i before column j, hold the id their root has in
      the registry. */
  ghost predicate PaintedBefore(grid: array2<int>, ids: map<Key, int>, cell: Cells, i: int, j: int,
                                cols: int)
    reads grid
  {
    forall ii, jj :: ((0 <= ii < i && 0 <= jj < cols) || (0 <= ii == i && 0 <= jj < j)) ==>
      cell(ii, jj).Ok? && cell(ii, jj).value in ids
      && 0 <= jj < grid.Length1 && ii < grid.Length0 && grid[ii, jj] == ids[cell(ii, jj).value]
  }

  /** Cells from (i, j) on in row-major order, and every column from `cols` on, still hold 0. */
  ghost predicate BlankFrom(grid: array2<int>, i: int, j: int, cols: int)
    reads grid
  {
    forall ii, jj :: (0 <= ii < grid.Length0 && 0 <= jj < grid.Length1
                      && (ii > i || jj >= cols || (ii == i && jj >= j))) ==> grid[ii, jj] == 0
  }

  /** Registering keys never changes an existing id, so what was painted stays painted. */
  lemma PaintedKept(grid: array2<int>, ids: map<Key, int>, ids': map<Key, int>, cell: Cells, i: int, j: int,
                    cols: int)
    requires PaintedBefore(grid, ids, cell, i, j, cols)
    requires forall k :: k in ids ==> k in ids' && ids'[k] == ids[k]
    ensures PaintedBefore(grid, ids', cell, i, j, cols)
  {
  }

  /** `color_map[i, j] = id` for the cell after (i, j - 1) in the scan, whose root has
      that id. */
  method PaintCell(grid: array2<int>, ghost ids: map<Key, int>, ghost cell: Cells, i: nat, j: nat, id: int,
                   cols: nat)
    requires i < grid.Length0 && j < grid.Length1 && j < cols
    requires cell(i, j).Ok? && cell(i, j).value in ids && ids[cell(i, j).value] == id
    requires PaintedBefore(grid, ids, cell, i, j, cols) && BlankFrom(grid, i, j, cols)
    modifies grid
    ensures PaintedBefore(grid, ids, cell, i, j + 1, cols) && BlankFrom(grid, i, j + 1, cols)
  {
    grid[i, j] := id;
    forall ii, jj | (0 <= ii < i && 0 <= jj < cols) || (0 <= ii == i && 0 <= jj < j + 1)
      ensures cell(ii, jj).Ok? && cell(ii, jj).value in ids
              && 0 <= jj < grid.Length1 && ii < grid.Length0 && grid[ii, jj] == ids[cell(ii, jj).value]
    {
      if ii != i || jj != j {
        assert cell(ii, jj).Ok? && 0 <= jj < grid.Length1 && ii < grid.Length0;
        assert grid[ii, jj] == old(grid[ii, jj]);
      }
    }
    forall ii, jj | 0 <= ii < grid.Length0 && 0 <= jj < grid.Length1
                    && (ii > i || jj >= cols || (ii == i && jj >= j + 1))
      ensures grid[ii, jj] == 0
    {
      assert grid[ii, jj] == old(grid[ii, jj]);
    }
  }

  /** One visit to cell (i, j) whose root computation gave c (robust.py:131-134,
      test.py:92-95): register the root, then write its id into the array, which raises
      when column j is past its last one. */
  method VisitCell(ghost cell: Cells, reg: RootRegistry, grid: array2<int>, i: nat, j: nat, c: Result<Key>,
                   rows: nat, cols: nat, width: nat, ghost ks: seq<Key>, ghost rs: seq<Key>)
    returns (fault: Option<Fault>)
    requires c == cell(i, j) && i < rows == grid.Length0 && j < cols && width == grid.Length1
    requires reg.Dense() && GridScan(cell, i, cols, width) == Ok(ks) && RowScan(cell, i, j, width) == Ok(rs)
    requires reg.keys == FirstOccurrences(ks + rs)
    requires PaintedBefore(grid, reg.ids, cell, i, j, cols) && BlankFrom(grid, i, j, cols)
    modifies reg, grid
    ensures fault.Some? ==> ScanRoots(cell, rows, cols, width) == Err(fault.value)
    ensures fault.None? ==> c.Ok? && reg.Dense() && RowScan(cell, i, j + 1, width) == Ok(rs + [c.value])
                            && reg.keys == FirstOccurrences(ks + (rs + [c.value])) && c.value in reg.ids
                            && PaintedBefore(grid, reg.ids, cell, i, j + 1, cols) && BlankFrom(grid, i, j + 1, cols)
  {
    if c.Err? {
      ScanFaults(cell, i, j, rows, cols, width);
      return Some(c.error);
    }
    var root := c.value;
    var id := reg.Register(root);
    if j >= width {
      ScanFaults(cell, i, j, rows, cols, width);
      return Some(ColumnOutOfRange);
    }
    PaintedKept(grid, old(reg.ids), reg.ids, cell, i, j, cols);
    PaintCell(grid, reg.ids, cell, i, j, id, cols);
    RowScanStep(cell, i, j, width);
    RegisterStep(ks, rs, root);
    fault := None;
  }

  /** After a full scan, each visited cell holds its root's position in the key order. */
  lemma PaintedIsPos(grid: array2<int>, reg: RootRegistry, cell: Cells, rows: nat, cols: nat, width: nat)
    requires reg.Dense() && PaintedBefore(grid, reg.ids, cell, rows, 0, cols) && BlankFrom(grid, rows, 0, cols)
    requires grid.Length0 == rows && grid.Length1 == width
    ensures forall i, j :: 0 <= i < rows && 0 <= j < width ==>
              grid[i, j] == Painted(cell, reg.keys, cols, i, j)
  {
    forall i, j | 0 <= i < rows && 0 <= j < width
      ensures grid[i, j] == Painted(cell, reg.keys, cols, i, j)
    {
      if j < cols {
        var n := Pos(reg.keys, cell(i, j).value);
        assert reg.ids[reg.keys[n]] == n;
      }
    }
  }
}
