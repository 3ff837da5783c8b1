/** The distance-tier colour classifier of maze.py (`get_corridor_color` and
    `get_wall_color`). The source compares the Euclidean distance
    sqrt(dr*dr + dc*dc) with k times the light power; both sides are
    non-negative, so `d <= b` holds exactly when `d*d <= b*b`
    (SquaredComparisonIsExact), and the model compares the integer squared
    distance with the squared threshold instead. */
module MazeLight {
  import opened MazeGrid

  const WALL_COLOR: int := 0
  /** Corridor colours from the brightest tier to the unlit one. */
  const CORRIDOR_COLORS: seq<int> := [7, 10, 9, WALL_COLOR]
  const PLAYER_COLOR: int := 8
  const EXIT_COLOR: int := 9
  /** The light powers selected by the light level. */
  const LIGHT_POWER: seq<nat> := [1, 2, 3, 4]

  /** The squared Euclidean distance between two cells. */
  function SqDist(a: Cell, b: Cell): nat
  {
    (a.row - b.row) * (a.row - b.row) + (a.col - b.col) * (a.col - b.col)
  }

  /** The square of the threshold k times p: `distance <= k * p` is
      `SqDist <= Reach(k, p)`. */
  function Reach(k: nat, p: nat): nat
  {
    (k * p) * (k * p)
  }

  lemma SquareMonotone(a: nat, b: nat)
    requires a <= b
    ensures a * a <= b * b
  {
  }

  /** The tier index of a corridor cell at squared distance d2 under light
      power p: the first of d <= 2p, d <= 4p, d <= 5p that holds, else 3. */
  function CorridorTier(d2: nat, p: nat): (t: nat)
    ensures t <= 3
    ensures t == 0 <==> d2 <= Reach(2, p)
    ensures t == 1 <==> Reach(2, p) < d2 <= Reach(4, p)
    ensures t == 2 <==> Reach(4, p) < d2 <= Reach(5, p)
    ensures t == 3 <==> Reach(5, p) < d2
  {
    SquareMonotone(2 * p, 4 * p);
    SquareMonotone(4 * p, 5 * p);
    if d2 <= Reach(2, p) then 0
    else if d2 <= Reach(4, p) then 1
    else if d2 <= Reach(5, p) then 2
    else 3
  }

  /** `get_corridor_color(cell, force)` with the player at `player` and the
      light level `light`. */
  function CorridorColor(player: Cell, light: int, cell: Cell, force: bool): (color: int)
    requires 0 <= light < |LIGHT_POWER|
    ensures force ==> color == CORRIDOR_COLORS[0]
    ensures !force ==> color == CORRIDOR_COLORS[CorridorTier(SqDist(cell, player), LIGHT_POWER[light])]
  {
    if force then CORRIDOR_COLORS[0]
    else
      var d2 := SqDist(cell, player);
      var p := LIGHT_POWER[light];
      if d2 <= Reach(2, p) then CORRIDOR_COLORS[0]
      else if d2 <= Reach(4, p) then CORRIDOR_COLORS[1]
      else if d2 <= Reach(5, p) then CORRIDOR_COLORS[2]
      else CORRIDOR_COLORS[3]
  }

  /** `get_wall_color(cell, force)`: 0 (hidden) at or beyond five times the
      light power, 1 (visible) nearer; `force` gives 0. */
  function WallColor(player: Cell, light: int, cell: Cell, force: bool): (color: int)
    requires 0 <= light < |LIGHT_POWER|
    ensures color == 0 || color == 1
    ensures force ==> color == 0
    ensures !force ==> (color == 1 <==> SqDist(cell, player) < Reach(5, LIGHT_POWER[light]))
  {
    if force then 0
    else if SqDist(cell, player) >= Reach(5, LIGHT_POWER[light]) then 0
    else 1
  }

  // ---------------------------------------------------------------------
  // Properties of the classifier
  // ---------------------------------------------------------------------

  /** Comparing squares is comparing the distances themselves, for any
      non-negative reals, so the integer comparison decides the same as the
      source's floating-point square root (exact for these small integers). */
  lemma SquaredComparisonIsExact(d: real, b: real)
    requires 0.0 <= d && 0.0 <= b
    ensures d <= b <==> d * d <= b * b
  {
    var dd, db, bb := d * d, d * b, b * b;
    if d <= b {
      assert dd <= db;
      assert db <= bb;
    } else {
      assert bb <= db;
      assert db < dd;
    }
  }

  /** The tier never decreases as the distance grows. */
  lemma CorridorTierMonotone(d1: nat, d2: nat, p: nat)
    requires d1 <= d2
    ensures CorridorTier(d1, p) <= CorridorTier(d2, p)
  {
  }

  /** Light fades with distance: a farther corridor never shows a brighter
      colour of the palette than a nearer one, so where the nearer is dark
      the farther is too, and where the farther is brightest so is the
      nearer. */
  lemma CorridorColorByDistance(player: Cell, light: int, a: Cell, b: Cell)
    requires 0 <= light < |LIGHT_POWER|
    requires SqDist(a, player) <= SqDist(b, player)
    ensures exists ta, tb :: 0 <= ta <= tb < |CORRIDOR_COLORS|
              && CorridorColor(player, light, a, false) == CORRIDOR_COLORS[ta]
              && CorridorColor(player, light, b, false) == CORRIDOR_COLORS[tb]
    ensures CorridorColor(player, light, a, false) == WALL_COLOR ==> CorridorColor(player, light, b, false) == WALL_COLOR
    ensures CorridorColor(player, light, b, false) == CORRIDOR_COLORS[0] ==> CorridorColor(player, light, a, false) == CORRIDOR_COLORS[0]
  {
    var p := LIGHT_POWER[light];
    var ta, tb := CorridorTier(SqDist(a, player), p), CorridorTier(SqDist(b, player), p);
    CorridorTierMonotone(SqDist(a, player), SqDist(b, player), p);
    assert CorridorColor(player, light, a, false) == CORRIDOR_COLORS[ta];
    assert CorridorColor(player, light, b, false) == CORRIDOR_COLORS[tb];
  }

  /** At exactly five times the light power a wall is hidden while a
      corridor is still lit with the third colour. */
  lemma WallCorridorBoundary(player: Cell, light: int, cell: Cell)
    requires 0 <= light < |LIGHT_POWER|
    requires SqDist(cell, player) == Reach(5, LIGHT_POWER[light])
    ensures WallColor(player, light, cell, false) == WALL_COLOR
    ensures CorridorColor(player, light, cell, false) == CORRIDOR_COLORS[2]
  {
    var p := LIGHT_POWER[light];
    assert Reach(4, p) < Reach(5, p) by {
      assert 1 <= p;
      assert 4 * p < 5 * p;
      assert (4 * p) * (4 * p) <= (4 * p) * (5 * p);
      assert (4 * p) * (5 * p) < (5 * p) * (5 * p);
    }
  }

  /** A visible wall lies where corridors are lit, and an unlit corridor
      position hides walls too: the wall boundary sits at or inside the
      corridor boundary. */
  lemma VisibleWallWithinLight(player: Cell, light: int, cell: Cell)
    requires 0 <= light < |LIGHT_POWER|
    ensures WallColor(player, light, cell, false) == 1 ==> CorridorColor(player, light, cell, false) != WALL_COLOR
    ensures CorridorColor(player, light, cell, false) == WALL_COLOR ==> WallColor(player, light, cell, false) == 0
  {
  }

  /** A worked example at light level 0 (power 1), player at (0, 0): the
      cell (3, 3), at distance sqrt(18) between 4 and 5, gets the third
      colour. */
  lemma ScenarioCorridorTier()
    ensures CorridorColor(Cell(0, 0), 0, Cell(3, 3), false) == 9
  {
    assert LIGHT_POWER[0] == 1;
    assert SqDist(Cell(3, 3), Cell(0, 0)) == 18;
    assert Reach(4, 1) == 16 && Reach(5, 1) == 25;
  }

  /** At light level 0 with the player at (0, 0), the cell (3, 4) is at
      distance exactly 5: hidden as a wall, third colour as a corridor; the
      cell (3, 3) is nearer and its wall is visible. */
  lemma ScenarioWallBoundary()
    ensures WallColor(Cell(0, 0), 0, Cell(3, 4), false) == 0
    ensures CorridorColor(Cell(0, 0), 0, Cell(3, 4), false) == 9
    ensures WallColor(Cell(0, 0), 0, Cell(3, 3), false) == 1
  {
    assert LIGHT_POWER[0] == 1;
    assert SqDist(Cell(3, 4), Cell(0, 0)) == 25;
    assert SqDist(Cell(3, 3), Cell(0, 0)) == 18;
    assert Reach(4, 1) == 16 && Reach(5, 1) == 25;
  }
}
