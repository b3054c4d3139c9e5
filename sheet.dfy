/** A worksheet as `xlwt` holds it: a mutable map from (row, column) to the
    value written there. A cell may be written only once (a sheet added with
    the default `cell_overwrite_ok=False` raises on a second write). */
module Sheet {
  import opened Table

  /** What a call of `ws.write` stores: a string, a raw value from the
      input spreadsheet, or a boolean. */
  datatype Out = Text(s: string) | Raw(c: Cell) | Bool(b: bool)

  type Grid = seq<seq<Out>>

  class Worksheet {
    const name: string
    var cells: map<(int, int), Out>

    constructor (name: string)
      ensures this.name == name && cells == map[]
    {
      this.name := name;
      cells := map[];
    }

    /** `ws.write(r, c, v)`. */
    method Write(r: nat, c: nat, v: Out)
      requires (r, c) !in cells
      modifies this
      ensures cells == old(cells)[(r, c) := v]
    {
      cells := cells[(r, c) := v];
    }
  }

  /** Position (i, j) comes before (r, c) in row-major writing order. */
  predicate Before(i: int, j: int, r: int, c: int) {
    i < r || (i == r && j < c)
  }

  /** `cells` holds exactly the cells of `grid` written before (r, c) in
      row-major order, each with its grid value. */
  predicate Holds(cells: map<(int, int), Out>, grid: Grid, r: nat, c: nat) {
    (forall p :: p in cells ==>
      0 <= p.0 < |grid| && 0 <= p.1 < |grid[p.0]| && Before(p.0, p.1, r, c)) &&
    (forall i, j :: 0 <= i < |grid| && 0 <= j < |grid[i]| && Before(i, j, r, c) ==>
      (i, j) in cells && cells[(i, j)] == grid[i][j])
  }

  /** The sheet shows exactly `grid`: every grid cell, nothing else. */
  predicate Shows(cells: map<(int, int), Out>, grid: Grid) {
    Holds(cells, grid, |grid|, 0)
  }

  /** A sheet determines the grid it shows and vice versa. */
  lemma ShowsUnique(a: map<(int, int), Out>, b: map<(int, int), Out>, grid: Grid)
    requires Shows(a, grid) && Shows(b, grid)
    ensures a == b
  {
    forall p | p in a ensures p in b && a[p] == b[p] {
      assert (p.0, p.1) == p;
    }
    forall p | p in b ensures p in a {
      assert (p.0, p.1) == p;
    }
  }

  /** Writing the next cell of a row extends what the sheet holds. */
  lemma HoldsNext(cells: map<(int, int), Out>, grid: Grid, r: nat, c: nat)
    requires r < |grid| && c < |grid[r]| && Holds(cells, grid, r, c)
    ensures (r, c) !in cells
    ensures Holds(cells[(r, c) := grid[r][c]], grid, r, c + 1)
  {
  }

  /** Writes the next cell of the grid in row-major order. */
  method WriteNext(ws: Worksheet, ghost grid: Grid, r: nat, c: nat, v: Out)
    requires r < |grid| && c < |grid[r]| && grid[r][c] == v && Holds(ws.cells, grid, r, c)
    modifies ws
    ensures ws.cells == old(ws.cells)[(r, c) := v]
    ensures Holds(ws.cells, grid, r, c + 1)
  {
    HoldsNext(ws.cells, grid, r, c);
    ws.Write(r, c, v);
  }

  /** A finished row moves the writing position to the next row. */
  lemma HoldsRowDone(cells: map<(int, int), Out>, grid: Grid, r: nat)
    requires r < |grid| && Holds(cells, grid, r, |grid[r]|)
    ensures Holds(cells, grid, r + 1, 0)
  {
  }
}
