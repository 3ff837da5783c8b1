/** Cells, the four move vectors and the generated maze of maze.py, and the
    move-legality test `is_move_right` with the indexing rules of Python and
    numpy: an index in [-n, n) selects an element, a negative one counting from
    the far end, and any other index raises IndexError. */
module MazeGrid {
  import opened Optional

  /** A grid cell: a (row, column) tuple. */
  datatype Cell = Cell(row: int, col: int)

  /** MOVE_RIGHT, MOVE_LEFT, MOVE_DOWN and MOVE_UP. maze.py compares these
      tuples by value, and they are pairwise different, so an enumeration
      compares exactly as the tuples do (see DeltaInjective). */
  datatype MoveVector = MoveRight | MoveLeft | MoveDown | MoveUp

  /** The (row, column) offset of a move. */
  function Delta(mv: MoveVector): (d: Cell)
    ensures d.row * d.row + d.col * d.col == 1
  {
    match mv
    case MoveRight => Cell(0, 1)
    case MoveLeft => Cell(0, -1)
    case MoveDown => Cell(1, 0)
    case MoveUp => Cell(-1, 0)
  }

  /** The cell reached from `c` by one move: a neighbour of `c` in the
      direction of the move. */
  function Translate(c: Cell, mv: MoveVector): (t: Cell)
    ensures t.row - c.row == Delta(mv).row && t.col - c.col == Delta(mv).col
    ensures (t.row - c.row) * (t.row - c.row) + (t.col - c.col) * (t.col - c.col) == 1
  {
    Cell(c.row + Delta(mv).row, c.col + Delta(mv).col)
  }

  /** The maze produced by the external generator and solver: a wall grid
      (true = wall), the start and end cells, and the solution paths. */
  datatype Maze = Maze(grid: seq<seq<bool>>, start: Cell, end: Cell, solutions: seq<seq<Cell>>)

  /** A numpy 2-D array: every row has the same length. */
  predicate Rectangular(g: seq<seq<bool>>)
  {
    forall i :: 0 <= i < |g| ==> |g[i]| == |g[0]|
  }

  /** `grid.shape[1]`. */
  function Width(g: seq<seq<bool>>): nat
  {
    if |g| == 0 then 0 else |g[0]|
  }

  /** Python's index normalisation for a sequence of length n. */
  function PyIndex(i: int, n: nat): (r: Option<nat>)
    ensures r.Some? <==> -(n as int) <= i < n
    ensures r.Some? ==> r.value < n
    ensures r.Some? && 0 <= i ==> r.value == i
    ensures r.Some? && i < 0 ==> r.value == i + n
  {
    if 0 <= i < n then Some(i)
    else if -(n as int) <= i < 0 then Some(i + n)
    else None
  }

  /** `grid[c.row][c.col]`, or None where that raises IndexError: the row
      index must lie in [-|g|, |g|) and the column index in the same range for
      the row it selects, and then the cell read is the one both indices
      wrap to. */
  function GridAt(g: seq<seq<bool>>, c: Cell): (r: Option<bool>)
    ensures r.Some? <==> -|g| <= c.row < |g| && -|g[Wrap(c.row, |g|)]| <= c.col < |g[Wrap(c.row, |g|)]|
    ensures r.Some? ==> r.value == g[Wrap(c.row, |g|)][Wrap(c.col, |g[Wrap(c.row, |g|)]|)]
  {
    match PyIndex(c.row, |g|)
    case None => None
    case Some(r) =>
      match PyIndex(c.col, |g[r]|)
      case None => None
      case Some(k) => Some(g[r][k])
  }

  /** `is_move_right`: the move is legal when the target cell can be indexed
      and is a corridor, or is the maze's end. */
  function IsMoveRight(m: Maze, player: Cell, mv: MoveVector): (legal: bool)
    ensures legal ==> GridAt(m.grid, Translate(player, mv)).Some?
    ensures GridAt(m.grid, Translate(player, mv)) == Some(false) ==> legal
    ensures GridAt(m.grid, Translate(player, mv)).Some? && Translate(player, mv) == m.end ==> legal
    ensures GridAt(m.grid, Translate(player, mv)) == Some(true) && Translate(player, mv) != m.end ==> !legal
  {
    var target := Translate(player, mv);
    match GridAt(m.grid, target)
    case None => false
    case Some(wall) => !wall || target == m.end
  }

  /** A negative index counted from the far end, as Python reads it. */
  function Wrap(i: int, n: nat): int
  {
    if i < 0 then i + n else i
  }

  // ---------------------------------------------------------------------
  // Properties of the move vectors and of the legality test
  // ---------------------------------------------------------------------

  /** Different moves have different offsets, so comparing the tuples by value
      is comparing the moves. */
  lemma DeltaInjective(a: MoveVector, b: MoveVector)
    ensures Delta(a) == Delta(b) <==> a == b
  {
  }

  /** The legality test on a numpy grid, case by case: an index at or beyond
      the size, or below its negation, rejects the move; any other target,
      negative indices included, is legal exactly when the wrapped cell is a
      corridor or the target is the end cell. */
  lemma LegalityByRange(m: Maze, player: Cell, mv: MoveVector)
    requires Rectangular(m.grid)
    ensures var t := Translate(player, mv);
            var h: int := |m.grid|;
            var w: int := Width(m.grid);
            && (t.row >= h || t.row < -h || t.col >= w || t.col < -w ==> !IsMoveRight(m, player, mv))
            && (-h <= t.row < h && -w <= t.col < w ==>
                  (IsMoveRight(m, player, mv) <==> !m.grid[Wrap(t.row, h)][Wrap(t.col, w)] || t == m.end))
  {
    var t := Translate(player, mv);
    if -|m.grid| <= t.row < |m.grid| {
      assert |m.grid[Wrap(t.row, |m.grid|)]| == Width(m.grid);
    }
  }

  /** A target inside the grid is legal exactly when it is a corridor or the end. */
  lemma LegalInsideGrid(m: Maze, player: Cell, mv: MoveVector)
    requires var t := Translate(player, mv); 0 <= t.row < |m.grid| && 0 <= t.col < |m.grid[t.row]|
    ensures var t := Translate(player, mv);
            IsMoveRight(m, player, mv) <==> !m.grid[t.row][t.col] || t == m.end
  {
  }

  /** The end cell can always be entered, whatever the grid holds there,
      provided its coordinates can be indexed. */
  lemma EndAlwaysEnterable(m: Maze, player: Cell, mv: MoveVector)
    requires Translate(player, mv) == m.end
    requires GridAt(m.grid, m.end).Some?
    ensures IsMoveRight(m, player, mv)
  {
  }

  /** Even the end cell is refused when its row cannot be indexed: the
      IndexError is raised before the comparison with the end is made. */
  lemma EndOutsideGridRefused(m: Maze, player: Cell, mv: MoveVector)
    requires Translate(player, mv) == m.end
    requires m.end.row >= |m.grid|
    ensures !IsMoveRight(m, player, mv)
  {
  }

  /** A move from row 0 upwards reaches row -1, which Python reads as the
      last row: on a numpy grid the move is legal exactly when the cell of
      the last row in the player's column is a corridor, or (-1, col) is
      the end. */
  lemma NegativeIndexWraps(m: Maze, player: Cell)
    requires Rectangular(m.grid) && |m.grid| > 0
    requires player.row == 0 && 0 <= player.col < Width(m.grid)
    ensures IsMoveRight(m, player, MoveUp)
            <==> !m.grid[|m.grid| - 1][player.col] || Cell(-1, player.col) == m.end
  {
    LegalityByRange(m, player, MoveUp);
  }
}
