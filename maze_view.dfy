/** The two camera projections of maze.py, `draw_maze_centric` and
    `draw_player_centric`, and the player sprite of `draw_player`. Each draw
    is specified as the list of pyxel commands it issues (a function of the
    game state and pyxel's frame counter) and implemented by the source's
    nested loops; lemmas state which cells each pass draws, where and in
    which colour. */
module MazeView {
  import opened Optional
  import opened Backend
  import opened MazeGrid
  import opened MazeLight
  import opened MazeState

  const SCREEN_WIDTH: int := 256
  const SCREEN_HEIGHT: int := 256
  const CELL_WIDTH: int := 8
  /** int(((SCREEN_WIDTH / CELL_WIDTH) - 2) / 2): the divisions are exact
      here, so Python's float division and truncation give 15. */
  const MAZE_WIDTH: int := ((SCREEN_WIDTH / CELL_WIDTH) - 2) / 2
  const MAZE_HEIGHT: int := ((SCREEN_HEIGHT / CELL_WIDTH) - 2) / 2
  const PLAYER_WIDTH: int := CELL_WIDTH / 2
  const SOLUTION_COLOR: int := 11
  /** The half-width of the player-centric window: offsets -16 to 16. */
  const WINDOW_RADIUS: int := 16
  /** One past the last window offset. */
  const WINDOW_END: int := WINDOW_RADIUS + 1
  /** int((CELL_WIDTH - 2) / 2): the offset of a solution dot in its cell. */
  const DOT_OFFSET: int := (CELL_WIDTH - 2) / 2

  // ---------------------------------------------------------------------
  // The player sprite
  // ---------------------------------------------------------------------

  /** `get_index_for`: the sprite-sheet column of the player's facing. */
  function GetIndexFor(mv: MoveVector): (u: int)
    ensures mv == MoveDown <==> u == 8
    ensures mv == MoveUp <==> u == 24
    ensures (mv == MoveRight || mv == MoveLeft) <==> u == 40
  {
    match mv
    case MoveDown => 8
    case MoveUp => 24
    case _ => 40
  }

  /** `draw_player(x, y)`: the second walk frame while `frame_count % 32`
      is at most 16, the first after; mirrored when the last move was left. */
  function DrawPlayer(lastMove: MoveVector, x: int, y: int, frameCount: nat): (c: DrawCmd)
    ensures c.Blt? && c.x == x && c.y == y && c.img == 0 && c.v == 0 && c.h == 8 && c.colkey == Some(0)
    ensures c.u - GetIndexFor(lastMove) == (if frameCount % 32 > 16 then 0 else 8)
    ensures c.w == 8 || c.w == -8
    ensures c.w < 0 <==> lastMove == MoveLeft
  {
    Blt(x, y, 0,
        GetIndexFor(lastMove) + 8 * (if frameCount % 32 > 16 then 0 else 1), 0,
        if lastMove == MoveLeft then -8 else 8, 8,
        Some(0))
  }

  /** The walk animation repeats every 32 frames, both of its 8-pixel
      frames lie inside the 16-pixel group of the facing, and the sprite
      facing left is the one facing right, mirrored. */
  lemma PlayerSpriteFrame(lastMove: MoveVector, x: int, y: int, frameCount: nat)
    ensures DrawPlayer(lastMove, x, y, frameCount + 32) == DrawPlayer(lastMove, x, y, frameCount)
    ensures var c := DrawPlayer(lastMove, x, y, frameCount);
            GetIndexFor(lastMove) <= c.u && c.u + 8 <= GetIndexFor(lastMove) + 16
    ensures var right := DrawPlayer(MoveRight, x, y, frameCount);
            right.Blt? && DrawPlayer(MoveLeft, x, y, frameCount) == right.(w := -8)
  {
  }

  // ---------------------------------------------------------------------
  // Maze-centric projection
  // ---------------------------------------------------------------------

  /** The colour of cell (i, j) in the maze-centric pass: walls by
      `get_wall_color`, corridors by `get_corridor_color`. */
  function MazeCellColor(s: GameState, i: nat, j: nat): int
    requires ValidState(s) && i < |s.m.grid| && j < |s.m.grid[i]|
  {
    if s.m.grid[i][j] then WallColor(s.player, s.light, Cell(i, j), false)
    else CorridorColor(s.player, s.light, Cell(i, j), false)
  }

  /** The rectangles of the first n cells of row i. */
  function GridRowPass(s: GameState, i: nat, n: nat): seq<DrawCmd>
    requires ValidState(s) && i < |s.m.grid| && n <= |s.m.grid[i]|
    decreases n
  {
    if n == 0 then []
    else GridRowPass(s, i, n - 1)
         + [Rect((n - 1) * CELL_WIDTH, i * CELL_WIDTH, CELL_WIDTH, CELL_WIDTH, MazeCellColor(s, i, n - 1))]
  }

  /** The rectangles of the first n rows of the grid. */
  function GridPass(s: GameState, n: nat): seq<DrawCmd>
    requires ValidState(s) && n <= |s.m.grid|
    decreases n
  {
    if n == 0 then []
    else GridPass(s, n - 1) + GridRowPass(s, n - 1, |s.m.grid[n - 1]|)
  }

  /** A cell drawn at full size in the brightest colour (`force=True`). */
  function ForcedCell(s: GameState, c: Cell): DrawCmd
    requires ValidState(s)
  {
    Rect(c.col * CELL_WIDTH, c.row * CELL_WIDTH, CELL_WIDTH, CELL_WIDTH,
         CorridorColor(s.player, s.light, c, true))
  }

  /** The 2 by 2 dot in the middle of a solution cell. */
  function SolutionDot(c: Cell): DrawCmd
  {
    Rect(c.col * CELL_WIDTH + DOT_OFFSET, c.row * CELL_WIDTH + DOT_OFFSET, 2, 2, SOLUTION_COLOR)
  }

  /** The dots of the first n cells of a solution path. */
  function SolutionDots(path: seq<Cell>, n: nat): (r: seq<DrawCmd>)
    requires n <= |path|
    ensures |r| == n
    ensures forall i :: 0 <= i < n ==> r[i] == SolutionDot(path[i])
    decreases n
  {
    if n == 0 then [] else SolutionDots(path, n - 1) + [SolutionDot(path[n - 1])]
  }

  /** Everything `draw_maze_centric` issues. The overlay reads
      `solutions[0]`, which needs a solution path to exist. */
  function MazeCentricCmds(s: GameState, frameCount: nat): (r: seq<DrawCmd>)
    requires ValidState(s)
    requires s.solution ==> |s.m.solutions| > 0
    ensures var n := |GridPass(s, |s.m.grid|)|;
            && |r| == n + 4 + (if s.solution then |s.m.solutions[0]| else 0)
            && r[0] == Cls(0)
            && r[n + 1] == ForcedCell(s, s.m.start) && r[n + 2] == ForcedCell(s, s.m.end)
            && r[n + 3] == DrawPlayer(s.lastMove, s.player.col * CELL_WIDTH, s.player.row * CELL_WIDTH, frameCount)
            && (s.solution ==> forall i :: 0 <= i < |s.m.solutions[0]| ==>
                  r[n + 4 + i] == SolutionDot(s.m.solutions[0][i]))
  {
    [Cls(0)]
    + GridPass(s, |s.m.grid|)
    + [ForcedCell(s, s.m.start), ForcedCell(s, s.m.end)]
    + [DrawPlayer(s.lastMove, s.player.col * CELL_WIDTH, s.player.row * CELL_WIDTH, frameCount)]
    + (if s.solution then SolutionDots(s.m.solutions[0], |s.m.solutions[0]|) else [])
  }

  /** `draw_maze_centric`, loop by loop. */
  method DrawMazeCentric(s: GameState, frameCount: nat) returns (cmds: seq<DrawCmd>)
    requires ValidState(s)
    requires s.solution ==> |s.m.solutions| > 0
    ensures cmds == MazeCentricCmds(s, frameCount)
  {
    // The screen is cleared first; each pass below collects its own
    // rectangles, and they reach the screen in the order of the passes.
    var grid := s.m.grid;
    var pass: seq<DrawCmd> := [];
    var i := 0;
    while i < |grid|
      invariant 0 <= i <= |grid|
      invariant pass == GridPass(s, i)
    {
      var row := grid[i];
      var rowCmds: seq<DrawCmd> := [];
      var j := 0;
      while j < |row|
        invariant 0 <= j <= |row|
        invariant rowCmds == GridRowPass(s, i, j)
      {
        var color := if row[j] then WallColor(s.player, s.light, Cell(i, j), false)
                     else CorridorColor(s.player, s.light, Cell(i, j), false);
        rowCmds := rowCmds + [Rect(j * CELL_WIDTH, i * CELL_WIDTH, CELL_WIDTH, CELL_WIDTH, color)];
        j := j + 1;
      }
      pass := pass + rowCmds;
      i := i + 1;
    }
    var ends := [s.m.start, s.m.end];
    var forced: seq<DrawCmd> := [];
    for k := 0 to 2
      invariant forced == [ForcedCell(s, s.m.start), ForcedCell(s, s.m.end)][..k]
    {
      var cell := ends[k];
      forced := forced + [Rect(cell.col * CELL_WIDTH, cell.row * CELL_WIDTH, CELL_WIDTH, CELL_WIDTH,
                               CorridorColor(s.player, s.light, cell, true))];
    }
    var player := DrawPlayer(s.lastMove, s.player.col * CELL_WIDTH, s.player.row * CELL_WIDTH, frameCount);
    var dots: seq<DrawCmd> := [];
    if s.solution {
      var path := s.m.solutions[0];
      for k := 0 to |path|
        invariant dots == SolutionDots(path, k)
      {
        var cell := path[k];
        dots := dots + [Rect(cell.col * CELL_WIDTH + DOT_OFFSET, cell.row * CELL_WIDTH + DOT_OFFSET, 2, 2, SOLUTION_COLOR)];
      }
    }
    cmds := [Cls(0)] + pass + forced + [player] + dots;
  }

  /** Every cell of the first n rows is drawn at (column * 8, row * 8) in
      its maze-centric colour. */
  lemma {:induction false} GridPassCovers(s: GameState, n: nat, i: nat, j: nat)
    requires ValidState(s) && n <= |s.m.grid| && i < n && j < |s.m.grid[i]|
    ensures Rect(j * CELL_WIDTH, i * CELL_WIDTH, CELL_WIDTH, CELL_WIDTH, MazeCellColor(s, i, j)) in GridPass(s, n)
    decreases n
  {
    if i == n - 1 {
      GridRowPassCovers(s, i, |s.m.grid[i]|, j);
    } else {
      GridPassCovers(s, n - 1, i, j);
    }
  }

  lemma {:induction false} GridRowPassCovers(s: GameState, i: nat, n: nat, j: nat)
    requires ValidState(s) && i < |s.m.grid| && n <= |s.m.grid[i]| && j < n
    ensures Rect(j * CELL_WIDTH, i * CELL_WIDTH, CELL_WIDTH, CELL_WIDTH, MazeCellColor(s, i, j)) in GridRowPass(s, i, n)
    decreases n
  {
    if j < n - 1 {
      GridRowPassCovers(s, i, n - 1, j);
    }
  }

  /** Everything the first n rows draw is one of their cells, at
      (column * 8, row * 8) in its maze-centric colour. */
  lemma {:induction false} GridPassOnly(s: GameState, n: nat, c: DrawCmd)
    requires ValidState(s) && n <= |s.m.grid| && c in GridPass(s, n)
    ensures exists i: nat, j: nat :: i < n && j < |s.m.grid[i]|
              && c == Rect(j * CELL_WIDTH, i * CELL_WIDTH, CELL_WIDTH, CELL_WIDTH, MazeCellColor(s, i, j))
    decreases n
  {
    if c in GridPass(s, n - 1) {
      GridPassOnly(s, n - 1, c);
    } else {
      GridRowPassOnly(s, n - 1, |s.m.grid[n - 1]|, c);
    }
  }

  lemma {:induction false} GridRowPassOnly(s: GameState, i: nat, n: nat, c: DrawCmd)
    requires ValidState(s) && i < |s.m.grid| && n <= |s.m.grid[i]| && c in GridRowPass(s, i, n)
    ensures exists j: nat :: j < n
              && c == Rect(j * CELL_WIDTH, i * CELL_WIDTH, CELL_WIDTH, CELL_WIDTH, MazeCellColor(s, i, j))
    decreases n
  {
    if c in GridRowPass(s, i, n - 1) {
      GridRowPassOnly(s, i, n - 1, c);
    }
  }

  /** On a numpy grid the maze-centric pass issues exactly one rectangle per
      cell: H * W rectangles, each cell's at its own place. */
  lemma {:induction false} GridPassSize(s: GameState, n: nat)
    requires ValidState(s) && Rectangular(s.m.grid) && n <= |s.m.grid|
    ensures |GridPass(s, n)| == n * Width(s.m.grid)
    decreases n
  {
    if n > 0 {
      var w := Width(s.m.grid);
      GridPassSize(s, n - 1);
      GridRowPassSize(s, n - 1, |s.m.grid[n - 1]|);
      assert |s.m.grid[n - 1]| == w;
      assert (n - 1) * w + w == n * w;
    }
  }

  lemma {:induction false} GridRowPassSize(s: GameState, i: nat, n: nat)
    requires ValidState(s) && i < |s.m.grid| && n <= |s.m.grid[i]|
    ensures |GridRowPass(s, i, n)| == n
    decreases n
  {
    if n > 0 {
      GridRowPassSize(s, i, n - 1);
    }
  }

  /** The maze-centric view: every cell of the grid, and nothing else in the
      base pass, drawn at (column * 8, row * 8) with `get_wall_color` for
      walls and `get_corridor_color` for corridors; then the start and the end
      in the brightest colour, whether or not they lie in the grid. */
  lemma MazeCentricProjection(s: GameState, frameCount: nat)
    requires ValidState(s)
    requires s.solution ==> |s.m.solutions| > 0
    ensures var cmds := MazeCentricCmds(s, frameCount);
            && (forall i: nat, j: nat :: i < |s.m.grid| && j < |s.m.grid[i]| ==>
                  Rect(j * CELL_WIDTH, i * CELL_WIDTH, CELL_WIDTH, CELL_WIDTH, MazeCellColor(s, i, j)) in cmds)
            && (forall c :: c in GridPass(s, |s.m.grid|) ==>
                  exists i: nat, j: nat :: i < |s.m.grid| && j < |s.m.grid[i]|
                    && c == Rect(j * CELL_WIDTH, i * CELL_WIDTH, CELL_WIDTH, CELL_WIDTH, MazeCellColor(s, i, j)))
            && ForcedCell(s, s.m.start) in cmds && ForcedCell(s, s.m.end) in cmds
            && ForcedCell(s, s.m.start).col == CORRIDOR_COLORS[0]
            && ForcedCell(s, s.m.end).col == CORRIDOR_COLORS[0]
            && (s.solution ==> forall c :: c in s.m.solutions[0] ==> SolutionDot(c) in cmds)
  {
    var cmds := MazeCentricCmds(s, frameCount);
    if s.solution {
      var n := |GridPass(s, |s.m.grid|)|;
      forall c | c in s.m.solutions[0]
        ensures SolutionDot(c) in cmds
      {
        var i :| 0 <= i < |s.m.solutions[0]| && s.m.solutions[0][i] == c;
        assert cmds[n + 4 + i] == SolutionDot(c);
      }
    }
    forall i: nat, j: nat | i < |s.m.grid| && j < |s.m.grid[i]|
      ensures Rect(j * CELL_WIDTH, i * CELL_WIDTH, CELL_WIDTH, CELL_WIDTH, MazeCellColor(s, i, j)) in cmds
    {
      GridPassCovers(s, |s.m.grid|, i, j);
    }
    forall c | c in GridPass(s, |s.m.grid|)
      ensures exists i: nat, j: nat :: i < |s.m.grid| && j < |s.m.grid[i]|
                && c == Rect(j * CELL_WIDTH, i * CELL_WIDTH, CELL_WIDTH, CELL_WIDTH, MazeCellColor(s, i, j))
    {
      GridPassOnly(s, |s.m.grid|, c);
    }
  }

  // ---------------------------------------------------------------------
  // Player-centric projection
  // ---------------------------------------------------------------------

  /** The grid cell at offset (i, j) from the player is inside the grid. */
  predicate InWindowGrid(s: GameState, i: int, j: int)
  {
    0 <= s.player.row + i < |s.m.grid| && 0 <= s.player.col + j < Width(s.m.grid)
  }

  /** The colour of the cell at offset (i, j) from the player in the
      player-centric pass: walls are always WALL_COLOR there. */
  function WindowColor(s: GameState, i: int, j: int): int
    requires ValidState(s) && Rectangular(s.m.grid) && InWindowGrid(s, i, j)
  {
    var r := s.player.row + i;
    var c := s.player.col + j;
    if s.m.grid[r][c] then WALL_COLOR
    else CorridorColor(s.player, s.light, Cell(r, c), false)
  }

  /** The colour of every window offset as one function value: WindowColor
      inside the grid (nothing is drawn outside it). The window passes are
      written over such a colour function, so that which rectangle is drawn
      where is stated apart from the distance arithmetic behind each colour. */
  function WindowPalette(s: GameState): (int, int) -> int
    requires ValidState(s) && Rectangular(s.m.grid)
  {
    (i, j) => if InWindowGrid(s, i, j) then WindowColor(s, i, j) else WALL_COLOR
  }

  /** The rectangles of window row i for column offsets -16 up to jEnd - 1,
      each in the colour `color` gives its offset. */
  function WindowRowPass(s: GameState, color: (int, int) -> int, i: int, jEnd: int): seq<DrawCmd>
    requires ValidState(s) && Rectangular(s.m.grid)
    requires 0 <= s.player.row + i < |s.m.grid|
    requires -WINDOW_RADIUS <= jEnd <= WINDOW_END
    decreases jEnd + WINDOW_RADIUS
  {
    if jEnd == -WINDOW_RADIUS then []
    else
      var j := jEnd - 1;
      WindowRowPass(s, color, i, j)
      + (if 0 <= s.player.col + j < Width(s.m.grid)
         then [Rect((MAZE_WIDTH + j) * CELL_WIDTH, (MAZE_HEIGHT + i) * CELL_WIDTH, CELL_WIDTH, CELL_WIDTH,
                    color(i, j))]
         else [])
  }

  /** The rectangles of window rows -16 up to iEnd - 1. */
  function WindowPass(s: GameState, color: (int, int) -> int, iEnd: int): seq<DrawCmd>
    requires ValidState(s) && Rectangular(s.m.grid)
    requires -WINDOW_RADIUS <= iEnd <= WINDOW_END
    decreases iEnd + WINDOW_RADIUS
  {
    if iEnd == -WINDOW_RADIUS then []
    else
      var i := iEnd - 1;
      WindowPass(s, color, i)
      + (if 0 <= s.player.row + i < |s.m.grid| then WindowRowPass(s, color, i, WINDOW_END) else [])
  }

  /** Everything `draw_player_centric` issues; the player sprite is drawn at
      (MAZE_WIDTH * 8, MAZE_WIDTH * 8), as written. */
  function PlayerCentricCmds(s: GameState, frameCount: nat): (r: seq<DrawCmd>)
    requires ValidState(s) && Rectangular(s.m.grid)
    ensures |r| == |WindowPass(s, WindowPalette(s), WINDOW_END)| + 2 && r[0] == Cls(0)
    ensures r[|r| - 1] == DrawPlayer(s.lastMove, MAZE_WIDTH * CELL_WIDTH, MAZE_HEIGHT * CELL_WIDTH, frameCount)
  {
    [Cls(0)]
    + WindowPass(s, WindowPalette(s), WINDOW_END)
    + [DrawPlayer(s.lastMove, MAZE_WIDTH * CELL_WIDTH, MAZE_WIDTH * CELL_WIDTH, frameCount)]
  }

  /** `draw_player_centric`, loop by loop. */
  method DrawPlayerCentric(s: GameState, frameCount: nat) returns (cmds: seq<DrawCmd>)
    requires ValidState(s) && Rectangular(s.m.grid)
    ensures cmds == PlayerCentricCmds(s, frameCount)
  {
    // The screen is cleared first; `pass` holds the rectangles drawn since.
    var pass: seq<DrawCmd> := [];
    for i := -WINDOW_RADIUS to WINDOW_END
      invariant pass == WindowPass(s, WindowPalette(s), i)
    {
      var rowIndex := s.player.row + i;
      if 0 <= rowIndex < |s.m.grid| {
        var rowCmds := DrawWindowRow(s, i);
        pass := pass + rowCmds;
      }
    }
    cmds := [Cls(0)] + pass + [DrawPlayer(s.lastMove, MAZE_WIDTH * CELL_WIDTH, MAZE_WIDTH * CELL_WIDTH, frameCount)];
  }

  /** The inner loop of `draw_player_centric`: the cells of window row i. */
  method DrawWindowRow(s: GameState, i: int) returns (cmds: seq<DrawCmd>)
    requires ValidState(s) && Rectangular(s.m.grid)
    requires 0 <= s.player.row + i < |s.m.grid|
    ensures cmds == WindowRowPass(s, WindowPalette(s), i, WINDOW_END)
  {
    ghost var palette := WindowPalette(s);
    var rowIndex := s.player.row + i;
    var row := s.m.grid[rowIndex];
    cmds := [];
    for j := -WINDOW_RADIUS to WINDOW_END
      invariant cmds == WindowRowPass(s, palette, i, j)
    {
      var colIndex := s.player.col + j;
      assert WindowRowPass(s, palette, i, j + 1) == WindowRowPass(s, palette, i, j)
        + (if 0 <= colIndex < Width(s.m.grid) then [Rect((MAZE_WIDTH + j) * CELL_WIDTH, (MAZE_HEIGHT + i) * CELL_WIDTH,
                                                         CELL_WIDTH, CELL_WIDTH, palette(i, j))]
           else []);
      if 0 <= colIndex < Width(s.m.grid) {
        var color := if row[colIndex] then WALL_COLOR
                     else CorridorColor(s.player, s.light, Cell(rowIndex, colIndex), false);
        assert color == palette(i, j);
        cmds := cmds + [Rect((MAZE_WIDTH + j) * CELL_WIDTH, (MAZE_HEIGHT + i) * CELL_WIDTH,
                             CELL_WIDTH, CELL_WIDTH, color)];
      }
    }
  }

  lemma {:induction false} WindowRowPassCovers(s: GameState, color: (int, int) -> int, i: int, jEnd: int, j: int)
    requires ValidState(s) && Rectangular(s.m.grid)
    requires -WINDOW_RADIUS <= j < jEnd <= WINDOW_END && InWindowGrid(s, i, j)
    ensures Rect((MAZE_WIDTH + j) * CELL_WIDTH, (MAZE_HEIGHT + i) * CELL_WIDTH, CELL_WIDTH, CELL_WIDTH,
                 color(i, j)) in WindowRowPass(s, color, i, jEnd)
    decreases jEnd + WINDOW_RADIUS
  {
    if j < jEnd - 1 {
      WindowRowPassCovers(s, color, i, jEnd - 1, j);
    }
  }

  /** The pass up to row iEnd - 1 begins with the pass up to row iEnd - 2. */
  lemma WindowPassExtends(s: GameState, color: (int, int) -> int, iEnd: int, k: int)
    requires ValidState(s) && Rectangular(s.m.grid)
    requires -WINDOW_RADIUS < iEnd <= WINDOW_END && 0 <= k < |WindowPass(s, color, iEnd - 1)|
    ensures k < |WindowPass(s, color, iEnd)| && WindowPass(s, color, iEnd)[k] == WindowPass(s, color, iEnd - 1)[k]
  {
  }

  /** A rectangle of window row i is drawn once the pass is past that row. */
  lemma WindowRowInPass(s: GameState, color: (int, int) -> int, i: int, c: DrawCmd)
    requires ValidState(s) && Rectangular(s.m.grid)
    requires -WINDOW_RADIUS <= i < WINDOW_END && 0 <= s.player.row + i < |s.m.grid|
    requires c in WindowRowPass(s, color, i, WINDOW_END)
    ensures c in WindowPass(s, color, i + 1)
  {
  }

  /** The pass up to row a - 1 is a prefix of the pass up to any later row. */
  lemma {:induction false} WindowPassGrows(s: GameState, color: (int, int) -> int, a: int, b: int, k: int)
    requires ValidState(s) && Rectangular(s.m.grid)
    requires -WINDOW_RADIUS <= a <= b <= WINDOW_END && 0 <= k < |WindowPass(s, color, a)|
    ensures k < |WindowPass(s, color, b)| && WindowPass(s, color, b)[k] == WindowPass(s, color, a)[k]
    decreases b - a
  {
    if a < b {
      WindowPassExtends(s, color, a + 1, k);
      WindowPassGrows(s, color, a + 1, b, k);
    }
  }

  lemma WindowPassCovers(s: GameState, color: (int, int) -> int, iEnd: int, i: int, j: int)
    requires ValidState(s) && Rectangular(s.m.grid)
    requires -WINDOW_RADIUS <= i < iEnd <= WINDOW_END
    requires -WINDOW_RADIUS <= j <= WINDOW_RADIUS && InWindowGrid(s, i, j)
    ensures Rect((MAZE_WIDTH + j) * CELL_WIDTH, (MAZE_HEIGHT + i) * CELL_WIDTH, CELL_WIDTH, CELL_WIDTH,
                 color(i, j)) in WindowPass(s, color, iEnd)
  {
    WindowRowPassCovers(s, color, i, WINDOW_END, j);
    var c := Rect((MAZE_WIDTH + j) * CELL_WIDTH, (MAZE_HEIGHT + i) * CELL_WIDTH,
                  CELL_WIDTH, CELL_WIDTH, color(i, j));
    WindowRowInPass(s, color, i, c);
    var k :| 0 <= k < |WindowPass(s, color, i + 1)| && WindowPass(s, color, i + 1)[k] == c;
    WindowPassGrows(s, color, i + 1, iEnd, k);
  }

  lemma {:induction false} WindowRowPassOnly(s: GameState, color: (int, int) -> int, i: int, jEnd: int, c: DrawCmd)
    requires ValidState(s) && Rectangular(s.m.grid)
    requires 0 <= s.player.row + i < |s.m.grid|
    requires -WINDOW_RADIUS <= jEnd <= WINDOW_END
    requires c in WindowRowPass(s, color, i, jEnd)
    ensures exists j :: -WINDOW_RADIUS <= j < jEnd && InWindowGrid(s, i, j)
              && c == Rect((MAZE_WIDTH + j) * CELL_WIDTH, (MAZE_HEIGHT + i) * CELL_WIDTH, CELL_WIDTH, CELL_WIDTH,
                           color(i, j))
    decreases jEnd + WINDOW_RADIUS
  {
    if c in WindowRowPass(s, color, i, jEnd - 1) {
      WindowRowPassOnly(s, color, i, jEnd - 1, c);
    }
  }

  lemma {:induction false} WindowPassOnly(s: GameState, color: (int, int) -> int, iEnd: int, c: DrawCmd)
    requires ValidState(s) && Rectangular(s.m.grid)
    requires -WINDOW_RADIUS <= iEnd <= WINDOW_END
    requires c in WindowPass(s, color, iEnd)
    ensures exists i, j :: -WINDOW_RADIUS <= i < iEnd && -WINDOW_RADIUS <= j <= WINDOW_RADIUS && InWindowGrid(s, i, j)
              && c == Rect((MAZE_WIDTH + j) * CELL_WIDTH, (MAZE_HEIGHT + i) * CELL_WIDTH, CELL_WIDTH, CELL_WIDTH,
                           color(i, j))
    decreases iEnd + WINDOW_RADIUS
  {
    var i0 := iEnd - 1;
    assert WindowPass(s, color, iEnd) == WindowPass(s, color, i0)
      + (if 0 <= s.player.row + i0 < |s.m.grid| then WindowRowPass(s, color, i0, WINDOW_END) else []);
    if c in WindowPass(s, color, i0) {
      WindowPassOnly(s, color, i0, c);
      var i, j :| -WINDOW_RADIUS <= i < i0 && -WINDOW_RADIUS <= j <= WINDOW_RADIUS && InWindowGrid(s, i, j)
                  && c == Rect((MAZE_WIDTH + j) * CELL_WIDTH, (MAZE_HEIGHT + i) * CELL_WIDTH, CELL_WIDTH, CELL_WIDTH,
                               color(i, j));
      assert i < iEnd;
    } else {
      WindowRowPassOnly(s, color, i0, WINDOW_END, c);
      var j :| -WINDOW_RADIUS <= j < WINDOW_END && InWindowGrid(s, i0, j)
               && c == Rect((MAZE_WIDTH + j) * CELL_WIDTH, (MAZE_HEIGHT + i0) * CELL_WIDTH, CELL_WIDTH, CELL_WIDTH,
                            color(i0, j));
      assert -WINDOW_RADIUS <= i0 < iEnd && j <= WINDOW_RADIUS;
    }
  }

  /** The player-centric view draws exactly the grid cells (row + i, col + j)
      with i and j in -16..16 that lie inside the grid, each at
      ((15 + j) * 8, (15 + i) * 8), so the player's cell is always at the
      middle of the screen; walls there always get WALL_COLOR. */
  lemma PlayerCentricProjection(s: GameState, frameCount: nat)
    requires ValidState(s) && Rectangular(s.m.grid)
    ensures forall i, j | -WINDOW_RADIUS <= i <= WINDOW_RADIUS && -WINDOW_RADIUS <= j <= WINDOW_RADIUS
                          && InWindowGrid(s, i, j) ::
              Rect((MAZE_WIDTH + j) * CELL_WIDTH, (MAZE_HEIGHT + i) * CELL_WIDTH, CELL_WIDTH, CELL_WIDTH,
                   WindowColor(s, i, j)) in PlayerCentricCmds(s, frameCount)
    ensures forall i, j | InWindowGrid(s, i, j) && s.m.grid[s.player.row + i][s.player.col + j] ::
              WindowColor(s, i, j) == WALL_COLOR
    ensures forall c | c in WindowPass(s, WindowPalette(s), WINDOW_END) ::
              exists i, j :: -WINDOW_RADIUS <= i <= WINDOW_RADIUS && -WINDOW_RADIUS <= j <= WINDOW_RADIUS
                && InWindowGrid(s, i, j)
                && c == Rect((MAZE_WIDTH + j) * CELL_WIDTH, (MAZE_HEIGHT + i) * CELL_WIDTH, CELL_WIDTH, CELL_WIDTH,
                             WindowColor(s, i, j))
  {
    WindowCellsDrawn(s, frameCount);
    WindowDrawsOnlyCells(s);
  }

  /** Every in-grid cell of the window is drawn by `draw_player_centric`. */
  lemma WindowCellsDrawn(s: GameState, frameCount: nat)
    requires ValidState(s) && Rectangular(s.m.grid)
    ensures forall i, j | -WINDOW_RADIUS <= i <= WINDOW_RADIUS && -WINDOW_RADIUS <= j <= WINDOW_RADIUS
                          && InWindowGrid(s, i, j) ::
              Rect((MAZE_WIDTH + j) * CELL_WIDTH, (MAZE_HEIGHT + i) * CELL_WIDTH, CELL_WIDTH, CELL_WIDTH,
                   WindowColor(s, i, j)) in PlayerCentricCmds(s, frameCount)
  {
    var cmds := PlayerCentricCmds(s, frameCount);
    var palette := WindowPalette(s);
    forall i, j | -WINDOW_RADIUS <= i <= WINDOW_RADIUS && -WINDOW_RADIUS <= j <= WINDOW_RADIUS && InWindowGrid(s, i, j)
      ensures Rect((MAZE_WIDTH + j) * CELL_WIDTH, (MAZE_HEIGHT + i) * CELL_WIDTH, CELL_WIDTH, CELL_WIDTH,
                   WindowColor(s, i, j)) in cmds
    {
      WindowPassCovers(s, palette, WINDOW_END, i, j);
      assert palette(i, j) == WindowColor(s, i, j);
    }
  }

  /** The window pass draws nothing but in-grid window cells. */
  lemma WindowDrawsOnlyCells(s: GameState)
    requires ValidState(s) && Rectangular(s.m.grid)
    ensures forall c | c in WindowPass(s, WindowPalette(s), WINDOW_END) ::
              exists i, j :: -WINDOW_RADIUS <= i <= WINDOW_RADIUS && -WINDOW_RADIUS <= j <= WINDOW_RADIUS
                && InWindowGrid(s, i, j)
                && c == Rect((MAZE_WIDTH + j) * CELL_WIDTH, (MAZE_HEIGHT + i) * CELL_WIDTH, CELL_WIDTH, CELL_WIDTH,
                             WindowColor(s, i, j))
  {
    var palette := WindowPalette(s);
    forall c | c in WindowPass(s, palette, WINDOW_END)
      ensures exists i, j :: -WINDOW_RADIUS <= i <= WINDOW_RADIUS && -WINDOW_RADIUS <= j <= WINDOW_RADIUS
                && InWindowGrid(s, i, j)
                && c == Rect((MAZE_WIDTH + j) * CELL_WIDTH, (MAZE_HEIGHT + i) * CELL_WIDTH, CELL_WIDTH, CELL_WIDTH,
                             WindowColor(s, i, j))
    {
      WindowPassOnly(s, palette, WINDOW_END, c);
      var i, j :| -WINDOW_RADIUS <= i < WINDOW_END && -WINDOW_RADIUS <= j <= WINDOW_RADIUS && InWindowGrid(s, i, j)
                  && c == Rect((MAZE_WIDTH + j) * CELL_WIDTH, (MAZE_HEIGHT + i) * CELL_WIDTH, CELL_WIDTH, CELL_WIDTH,
                               palette(i, j));
      assert palette(i, j) == WindowColor(s, i, j);
    }
  }

  /** With the player at (0, 0), no window offset with a negative row or
      column is drawn: every rectangle of the pass lies at or right of and
      below the screen position of the player. */
  lemma PlayerAtOriginSkipsNegative(s: GameState, frameCount: nat)
    requires ValidState(s) && Rectangular(s.m.grid) && s.player == Cell(0, 0)
    ensures forall c :: c in WindowPass(s, WindowPalette(s), WINDOW_END) ==>
              c.Rect? && c.x >= MAZE_WIDTH * CELL_WIDTH && c.y >= MAZE_HEIGHT * CELL_WIDTH
  {
    var palette := WindowPalette(s);
    forall c | c in WindowPass(s, palette, WINDOW_END)
      ensures c.Rect? && c.x >= MAZE_WIDTH * CELL_WIDTH && c.y >= MAZE_HEIGHT * CELL_WIDTH
    {
      WindowPassOnly(s, palette, WINDOW_END, c);
    }
  }

  // ---------------------------------------------------------------------
  // draw
  // ---------------------------------------------------------------------

  /** `draw`: the camera mode chooses the projection. */
  function Render(s: GameState, frameCount: nat): (r: seq<DrawCmd>)
    requires ValidState(s) && Rectangular(s.m.grid)
    requires s.solution ==> |s.m.solutions| > 0
    ensures |r| > 0 && r[0] == Cls(0)
    ensures s.playerCentric ==>
              r[|r| - 1] == DrawPlayer(s.lastMove, MAZE_WIDTH * CELL_WIDTH, MAZE_HEIGHT * CELL_WIDTH, frameCount)
    ensures !s.playerCentric ==>
              DrawPlayer(s.lastMove, s.player.col * CELL_WIDTH, s.player.row * CELL_WIDTH, frameCount) in r
  {
    if s.playerCentric then PlayerCentricCmds(s, frameCount) else MazeCentricCmds(s, frameCount)
  }
}
