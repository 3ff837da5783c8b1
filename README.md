# aMAZEing and the sprite demo, in Dafny

A model of the two game scripts of a small pyxel project, with proofs of
what they promise.

`maze.py` is a maze-exploration game. The player walks a generated wall
grid from its start cell to its end cell. The lighting darkens cells by
their distance from the player. The player can toggle a cheat mode that
walks through walls, a solution overlay, and a player-centric camera. The
model covers the following:

- **Move legality** (`MazeGrid`): `is_move_right`, with Python and numpy
  indexing reproduced exactly. An index in `[-n, n)` selects a cell, and a
  negative one counts from the far edge. Any other index raises
  `IndexError`, which makes the move illegal.
- **Light classifier** (`MazeLight`): `get_corridor_color` and
  `get_wall_color`. The Euclidean distance is compared through exact
  integer squares.
- **Game state machine** (`MazeState`): one frame of `update` as a function
  of the state, the keys and the maze a reset would generate. It also holds
  runs of frames and the lemmas about the win latch and the light cycle.
- **Projections** (`MazeView`): the two projections and the player sprite,
  as the lists of pyxel commands they issue. Each is implemented by the
  source's nested loops and proved equal to its specification.
- **The game object** (`MazeApplication`): the class `MyMazeApplication`,
  whose fields `update`, `move` and `reset_game_state` change in place.
  Each method is proved to follow the value-level functions.

`sprite.py` is a sprite demo. It models the following:

- **Positions** (`SpritePosition`): `Position`, with `__add__` and
  `__mul__`, and the four move constants.
- **Sprite values** (`SpriteSheet`): a sprite's fixed layout, its changing
  state, one `move`, and the source rectangle `draw` blits. It also holds
  the `Sprites` factory table.
- **Sprite objects** (`SpriteDemo`): the `Sprite` and `App` objects, which
  update their fields in place. `App.update` keeps a background-colour
  counter and a selection counter, and steers the selected sprite.
- **Shared sprite sheet** (`PlayerSprite`): both scripts load `maze.pyxres`.
  The maze player's hard-coded sprite offsets pick exactly the frames of
  the demo's soldier.

pyxel calls are data. Drawing is a list of `DrawCmd` values (`Cls`, `Rect`
and `Blt`). Audio and quitting are `Effect` values returned by an update.
The keys pressed, pyxel's frame counter, the generated maze, and the
choices `randrange` makes are all parameters.

### Behaviour of the code worth noting

- **The end cell.** `is_move_right` indexes the grid before it compares
  the target with `m.end` (maze.py:122), so an end cell whose index raises
  `IndexError` is refused, and one that can be indexed is entered whatever
  the grid holds there (`EndOutsideGridRefused`, `EndAlwaysEnterable`).
- **Negative indices.** A target with a row or column in `[-n, 0)` is not
  rejected (maze.py:120-122). Python reads it from the far edge of the
  grid, so moving up from row 0 tests the last row (`NegativeIndexWraps`).
- **Walk animation.** `draw_player` tests `frame_count % 32 > 16`
  (maze.py:172), so one walk frame is shown for 15 frames of every 32 and
  the other for 17 (`PlayerWalkFrame`).
- **The player-centric camera.** It draws the player at
  `(MAZE_WIDTH * 8, MAZE_WIDTH * 8)` (maze.py:220). The two constants are
  equal, so this is also the middle of the window.
- **Quit.** `pyxel.quit()` ends the process. An update that sees Q returns
  the state unchanged with the single effect `Quit`, and a run of frames
  stops there.

## Model

| member | source | states |
|---|---|---|
| MazeGrid.Delta | maze.py:25-28 | each move constant is a unit step along one axis |
| MazeGrid.Translate | maze.py:120 | the target of a move is the neighbour of the player one unit step away in the move's direction |
| MazeGrid.DeltaInjective | maze.py:25-28 | two moves have equal offsets exactly when they are the same move, so the tuple comparisons in maze.py compare moves |
| MazeGrid.PyIndex | maze.py:121-124 | an index is accepted exactly when it lies in [-n, n); an accepted negative index reads element i + n, a non-negative one element i |
| MazeGrid.GridAt | maze.py:122-124 | `grid[row][col]` raises exactly when the row is outside [-H, H) or the column outside [-w, w) for the row it selects; otherwise it reads the cell both indices wrap to |
| MazeGrid.IsMoveRight | maze.py:119-124 | a legal move never has a raising target; a corridor target is always legal; an indexable end is always legal; an indexable wall that is not the end is illegal |
| MazeGrid.LegalityByRange | maze.py:119-124 | on a numpy grid a target row at or beyond H or below -H, or such a column, makes the move illegal; any other target is legal exactly when the wrapped cell is a corridor or the target is the end |
| MazeGrid.LegalInsideGrid | maze.py:119-124 | a target inside the grid is legal exactly when it is a corridor or the end cell |
| MazeGrid.EndAlwaysEnterable | maze.py:122 | a move onto the end cell is legal whatever the grid holds there, provided its index does not raise |
| MazeGrid.EndOutsideGridRefused | maze.py:121-124 | a move onto an end cell whose row is beyond the grid is refused, because IndexError is raised before the comparison with the end |
| MazeGrid.NegativeIndexWraps | maze.py:120-124 | on a numpy grid, moving up from row 0 is legal exactly when the last row's cell in the player's column is a corridor or (-1, col) is the end |
| MazeLight.SquaredComparisonIsExact | maze.py:230-236 | for non-negative reals d and b, d <= b exactly when d*d <= b*b, so comparing squared distances decides what the square-root comparison decides |
| MazeLight.CorridorTier | maze.py:232-239 | the tier is 0, 1, 2 or 3 exactly when the distance is within 2p, within 4p but beyond 2p, within 5p but beyond 4p, or beyond 5p |
| MazeLight.CorridorColor | maze.py:225-239 | force gives the brightest colour 7; otherwise the colour is CORRIDOR_COLORS at the distance tier for the current light power |
| MazeLight.WallColor | maze.py:241-250 | the wall colour is 0 or 1; force gives 0; otherwise it is 1 exactly when the distance is below five times the light power |
| MazeLight.CorridorTierMonotone | maze.py:232-239 | a farther cell never gets a lower tier than a nearer one |
| MazeLight.CorridorColorByDistance | maze.py:225-239 | under the same light, a cell farther from the player never gets a brighter corridor colour (earlier in 7, 10, 9, 0) than a nearer one: if the nearer is dark (0) so is the farther, and if the farther is brightest (7) so is the nearer |
| MazeLight.WallCorridorBoundary | maze.py:236-248 | at exactly five times the light power a wall is hidden (0) while a corridor still gets the third colour (9) |
| MazeLight.VisibleWallWithinLight | maze.py:232-250 | a visible wall is never at an unlit corridor distance, and an unlit corridor distance always hides walls |
| MazeLight.ScenarioCorridorTier | maze.py:230-237 | at light 0 with the player at (0, 0), the cell (3, 3) gets colour 9 |
| MazeLight.ScenarioWallBoundary | maze.py:241-250 | at light 0 with the player at (0, 0), the wall (3, 4) at distance 5 is hidden while a corridor there gets 9, and the wall (3, 3) is visible |
| MazeState.Initial | maze.py:50-70 | after a reset the player is on the new maze's start facing down, the light is 0 and every flag is false |
| MazeState.MoveStep | maze.py:111-117 | a move changes only the player and the last move; nothing once won; a step to player + move when legal or in cheat mode; nothing when neither |
| MazeState.NextLight | maze.py:87 | the next light level stays in 0..3, going up by one and wrapping from 3 to 0 |
| MazeState.ApplyToggles | maze.py:80-90 | V flips the camera, C cheat mode and S the overlay, L advances the light, and nothing else changes |
| MazeState.Arrow | maze.py:96-117 | one arrow key either leaves the state alone or, when pressed, moves the player one cell its way and faces it; in cheat mode before the win a pressed arrow always moves |
| MazeState.ApplyMoves | maze.py:96-103 | the arrows change only the player and the last move, change nothing once won, and nothing without an arrow |
| MazeState.ArrowsMoveAtMostOneRow | maze.py:96-117 | the player ends at most one row down when down is pressed, at most one row up when up is pressed, and on its row otherwise |
| MazeState.ArrowsMoveAtMostOneColumn | maze.py:96-117 | the player ends at most one column right when right is pressed, at most one column left when left is pressed, and in its column otherwise |
| MazeState.ArrowsSetFacing | maze.py:96-117 | after the arrows the player faces as before or the way of a pressed arrow |
| MazeState.CheatArrows | maze.py:96-117 | in cheat mode before the win the player ends at (row + down - up, col + right - left) and faces the last arrow handled: left, else right, else up, else down |
| MazeState.ArrowOnlyFrame | maze.py:75-117 | a frame with one arrow alone is one move that way, as walls and bounds allow, followed by the win latch that stops the music and plays the cue on reaching the end |
| MazeState.Frame | maze.py:75-109 | one update keeps the light level a valid index of LIGHT_POWER |
| MazeState.WallBlocksMove | maze.py:111-124 | without cheat mode, a wall cell inside the grid that is not the end leaves the state unchanged |
| MazeState.CheatIgnoresWalls | maze.py:115-117 | in cheat mode, before winning, every move takes the player one step whatever the grid holds |
| MazeState.FrameWinLatch | maze.py:105-109 | in a frame without Q or R, won ends up set exactly when it was set or the player ends on the end cell; the victory cue plays exactly when won goes from false to true; the maze is unchanged |
| MazeState.WonIsLatched | maze.py:106-113 | once won, a frame without R keeps won set, keeps the player where it is and plays no cue |
| MazeState.CueAtMostOnce | maze.py:105-109 | over any run of frames without R, the victory cue plays at most once, never when already won, and won stays set after it has played |
| MazeState.ViewOnlyFrame | maze.py:80-81 | a frame with only V pressed switches the camera and changes nothing else |
| MazeState.CheatOnlyFrame | maze.py:83-84 | a frame with only C pressed switches cheat mode and changes nothing else |
| MazeState.SolutionOnlyFrame | maze.py:89-90 | a frame with only S pressed switches the solution overlay and changes nothing else |
| MazeState.ResetOnlyFrame | maze.py:92-93 | a frame with only R pressed gives the initial state of the new maze and restarts the music, and also latches the win with the cue when that maze starts on its end |
| MazeState.LightOnlyFrame | maze.py:86-87 | a frame with only L pressed advances the light by one modulo 4 and changes nothing else |
| MazeState.LightRotation | maze.py:86-87 | n frames of L alone advance the light by n modulo 4, change nothing else and have no effects |
| MazeState.FourLightPressesRestore | maze.py:86-87 | four presses of L bring the state back to where it was |
| MazeView.PlayerSpriteFrame | maze.py:167-187 | the walk animation repeats every 32 frames, both frames lie inside the 16-pixel group of the facing, and facing left draws the right-facing sprite mirrored |
| MazeView.GetIndexFor | maze.py:181-187 | the sheet column is 8 exactly for down, 24 exactly for up and 40 exactly for the sideways moves |
| MazeView.DrawPlayer | maze.py:167-177 | the player blit is at the given place from bank 0 row 0, 8 pixels high, colour key 0, at the facing's column plus 8 while frame_count % 32 is at most 16, and mirrored exactly when facing left |
| MazeView.SolutionDots | maze.py:158-164 | one 2 by 2 dot per solution cell, in path order |
| MazeView.MazeCentricCmds | maze.py:135-164 | a clear, the base pass, the start and end in full brightness, the player at its cell, then, when the overlay is on, exactly the dots of the first solution path in path order |
| MazeView.DrawMazeCentric | maze.py:135-164 | the nested loops issue exactly the maze-centric command list: clear, every cell, the forced start and end, the player, then the solution dots |
| MazeView.GridPassCovers | maze.py:139-142 | every cell of the rows drawn is drawn at (col * 8, row * 8) in its wall or corridor colour |
| MazeView.GridRowPassCovers | maze.py:140-142 | every cell of a drawn row prefix is drawn at its place in its colour |
| MazeView.GridPassOnly | maze.py:139-142 | every rectangle of the base pass is some grid cell's rectangle at its place in its colour |
| MazeView.GridRowPassOnly | maze.py:140-142 | every rectangle of a row pass is one of that row's cells at its place in its colour |
| MazeView.GridPassSize | maze.py:139-142 | on a numpy grid the base pass issues one rectangle per cell, H times W in all |
| MazeView.GridRowPassSize | maze.py:140-142 | a row pass issues one rectangle per cell of the row |
| MazeView.MazeCentricProjection | maze.py:135-164 | the maze-centric view draws every grid cell and nothing else in its base pass, walls with the wall colour and corridors with the corridor colour, then the start and end in colour 7, and with the overlay on a dot for every cell of the first solution path |
| MazeView.DrawPlayerCentric | maze.py:190-220 | the loops issue exactly the player-centric command list: clear, the window cells, then the player at the middle |
| MazeView.PlayerCentricCmds | maze.py:190-220 | a clear, the window pass, then the player at the middle of the window (MAZE_WIDTH * 8, MAZE_HEIGHT * 8) |
| MazeView.DrawWindowRow | maze.py:203-218 | the inner loop issues the rectangles of the in-grid columns of one window row, in order |
| MazeView.WindowRowPassCovers | maze.py:203-218 | every in-grid column offset of a window row is drawn at ((15 + j) * 8, (15 + i) * 8), in the colour the pass's colour function gives that offset |
| MazeView.WindowPassCovers | maze.py:196-218 | every in-grid window offset is drawn at its window position, in the colour the pass's colour function gives that offset |
| MazeView.WindowCellsDrawn | maze.py:196-220 | every in-grid cell at offsets -16..16 from the player is in the player-centric command list at its window position in WindowColor (its wall or corridor colour) |
| MazeView.WindowRowPassOnly | maze.py:203-218 | every rectangle of a window row is an in-grid offset's rectangle |
| MazeView.WindowPassOnly | maze.py:196-218 | every rectangle of the window pass is an in-grid offset within -16..16 at its window position |
| MazeView.WindowDrawsOnlyCells | maze.py:196-218 | every rectangle of the player-centric pass is the rectangle of an in-grid offset within -16..16 in that cell's WindowColor |
| MazeView.PlayerCentricProjection | maze.py:196-220 | the player-centric view draws exactly the in-grid cells at offsets -16..16 from the player, each at ((15 + j) * 8, (15 + i) * 8), with walls always in WALL_COLOR |
| MazeView.PlayerAtOriginSkipsNegative | maze.py:196-207 | with the player at (0, 0) the out-of-grid negative offsets are skipped, so nothing is drawn above or left of the player's screen cell |
| MazeApplication.MyMazeApplication.constructor | maze.py:31-36 | a new game holds the initial state of the first maze, with a valid light |
| MazeApplication.MyMazeApplication.ResetGameState | maze.py:50-72 | the fields become the initial state of the new maze and the music restarts |
| MazeApplication.MyMazeApplication.Move | maze.py:111-117 | the fields become MoveStep of the old fields |
| MazeApplication.MyMazeApplication.ApplyToggleKeys | maze.py:80-90 | V, C, L and S flip their flags or advance the light, in the source's order |
| MazeApplication.MyMazeApplication.ApplyMoveKeys | maze.py:96-103 | the arrows apply moves down, up, right and left in that order |
| MazeApplication.MyMazeApplication.Update | maze.py:75-109 | the new fields and the effects are exactly one Frame of the old fields, and the light stays a valid index |
| MazeView.Render | maze.py:129-133 | both views clear the screen first; the player-centric view ends with the player at the middle, the maze-centric view draws the player at its cell |
| MazeApplication.MyMazeApplication.Draw | maze.py:129-133 | the commands are the player-centric or maze-centric projection, as the flag selects |
| SpritePosition.Position.Add | sprite.py:25-26 | the result differs from the receiver by exactly the other position, component by component |
| SpritePosition.Position.Scale | sprite.py:28-29 | scaling by 0 gives the origin and by 1 the same position |
| SpritePosition.Vector | sprite.py:37-40 | each move constant is a unit step along one axis |
| SpritePosition.VectorInjective | sprite.py:37-40 | the four constants have pairwise different coordinates, so comparing them by identity and by value agree |
| SpritePosition.OppositeVector | sprite.py:37-40 | opposite moves have opposite vectors, which cancel |
| SpritePosition.ScaleDistributes | sprite.py:25-29 | p * a + p * b == p * (a + b) |
| SpritePosition.ScaleComposes | sprite.py:28-29 | (p * a) * b == p * (a * b) |
| SpritePosition.AddAssociates | sprite.py:25-26 | addition of positions is associative |
| SpriteSheet.InitialSprite | sprite.py:45-55 | a new sprite is at its position, in walk frame 0, facing down, with speed 1 |
| SpriteSheet.Step | sprite.py:80-83 | a move leaves the walk frame in {0, 1}, flips it between 0 and 1, faces the move and keeps the speed |
| SpriteSheet.IndexFor | sprite.py:72-78 | the frame group is at the sheet origin for down, 16 to its right for up and 32 for the sideways moves, and only then |
| SpriteSheet.Blit | sprite.py:57-67 | the blit is at the sprite's position, from its bank, row and size, at the facing's group offset by width times the walk frame, with width negated exactly when facing left |
| SpriteSheet.KindLayout | sprite.py:93-113 | every factory kind uses image bank 0, 8 by 8 pixels, colour key 0 |
| SpriteSheet.TwoStepsRestoreFrame | sprite.py:80-81 | two moves, in any directions, bring the walk frame back |
| SpriteSheet.ZeroSpeedStaysPut | sprite.py:83-91 | with speed 0 a move turns the sprite but leaves its position |
| SpriteSheet.NegativeSpeedReverses | sprite.py:83-91 | with a negative speed a move carries the sprite -speed pixels the opposite way while it faces the direction pressed |
| SpriteSheet.RepeatedSteps | sprite.py:80-83 | n moves in one direction add the move vector times speed * n to the position, keep the speed, advance the walk frame n times modulo 2 and face that direction |
| SpriteSheet.FrameWithinGroup | sprite.py:62-78 | with a width of at most 8, the source rectangle lies inside the 16-pixel group of the sprite's facing |
| SpriteSheet.FacingGroupsDisjoint | sprite.py:62-78 | facings with different groups read disjoint columns of the sheet |
| SpriteSheet.KindsUseDisjointFrames | sprite.py:93-113 | two different factory kinds never read a common pixel of the sheet, whatever their facing and walk frame |
| SpriteSheet.FramesInsideImageBank | sprite.py:93-113 | every frame of every kind lies inside the 256 by 256 image bank |
| SpriteDemo.Sprite.constructor | sprite.py:45-55 | a new sprite has the given layout and the initial state at the given position |
| SpriteDemo.Sprite.Move | sprite.py:80-83 | the fields become Step of the old fields |
| SpriteDemo.Sprite.SetSpeed | sprite.py:89-91 | only the speed changes, to any integer given |
| SpriteDemo.Sprite.Draw | sprite.py:57-67 | the blit issued is Blit of the layout and the current state |
| SpriteDemo.MakeSprite | sprite.py:95-113 | each factory method returns a new sprite with its kind's layout at the given position |
| SpriteDemo.Arrow | sprite.py:148-155 | one arrow key either leaves the sprite alone or, when pressed, moves it speed pixels its way, flips its walk frame and faces that way, keeping the speed |
| SpriteDemo.ControlSprite | sprite.py:148-159 | the arrows keep the walk frame valid; A and Z change the speed by +1 and -1; the sprite faces the last arrow handled (left, else right, else up, else down) or as before; without arrows position and frame stay |
| SpriteDemo.ArrowsMoveBySpeed | sprite.py:148-155 | the sprite ends at (x + speed * (right - left), y + speed * (down - up)), at the speed it had before A and Z |
| SpriteDemo.ArrowsAdvanceWalkFrame | sprite.py:148-155 | the walk frame ends as the old one plus the number of arrows pressed, modulo 2 |
| SpriteDemo.AppFrame | sprite.py:138-160 | an update keeps the sprite count, keeps the selection in range and the colour in 0..15, keeps every walk frame valid, and changes no sprite but the selected one |
| SpriteDemo.CountersCountPresses | sprite.py:141-145 | without Q, the colour is the initial one plus the number of space presses modulo 16, and the selection the initial one plus the number of N presses modulo the number of sprites |
| SpriteDemo.App.constructor | sprite.py:117-134 | ten distinct new sprites, each of the picked allowed kind at its position in the initial state; colour and selection 0 |
| SpriteDemo.App.Control | sprite.py:148-160 | the selected sprite's fields become ControlSprite of its old fields |
| SpriteDemo.App.SteerSprite | sprite.py:148-160 | the selected sprite becomes ControlSprite of its old state and every other sprite keeps its state |
| SpriteDemo.App.Update | sprite.py:138-160 | the counters and every sprite's state become exactly AppFrame of the old ones, and the invariant is kept |
| SpriteDemo.App.Draw | sprite.py:165-168 | a clear to the current colour, then each sprite's blit in list order |
| PlayerSprite.PlayerWalkFrame | maze.py:172 | draw_player shows walk frame 0 exactly when frame_count % 32 > 16 |
| PlayerSprite.MazePlayerIsSoldier | maze.py:167-187 | the maze player's blit is the blit a soldier sprite issues at the same place, facing and walk frame |

## Left out

- pyxel calls (`init`, `load`, `run`, `cls`, `rect`, `blt`, `playm`, `play`, `stop`, `quit` and `btnp`) are foreign code. Drawing is modelled as command lists, audio and quitting as effect values, and key presses as booleans per frame. pyxel's key-repeat timing (delay 5, interval 2) is not modelled.
- `generate_maze` relies on mazelib's HuntAndKill generator and BacktrackingSolver. The generated maze is a parameter of reset and of a frame that presses R.
- `math.sqrt` and `numpy.square` are replaced by exact integer squared distances (see `SquaredComparisonIsExact`). Floating point is not modelled.
- `Position.random` and `randrange` in `App.__init__` are random. The picks and positions they would produce are constructor parameters.
- The `x` and `y` setters of `Position` are never called by the code modelled, so they are left out.
- `Sprite.update` does nothing, so it is left out.
- The unused `App.sprite` field is left out.
- `pyxel.width` and `pyxel.height`, used only by `Position.random`, are left out.
- MazeApplication.MyMazeApplication.constructor: does not report the `pyxel.playm(0, loop=True)` that `__init__` issues through `reset_game_state`, because a constructor returns no effect list; `ResetGameState` reports the same call for every later reset.
- MazeView.Render: requires at least one solution path when the overlay is on. The source raises IndexError on `solutions[0]` otherwise.
- MazeView.MazeCentricCmds: requires at least one solution path when the overlay is on, for the same reason.
- MazeView.DrawMazeCentric: requires at least one solution path when the overlay is on, for the same reason.
- MazeView.Render: requires a rectangular grid. The grid is a numpy array, which always is.
- MazeView.DrawPlayerCentric: requires a rectangular grid, because it reads `grid.shape[1]` as every row's width.
- MazeApplication.MyMazeApplication.Draw: carries the same two requirements as MazeView.Render.
- SpriteDemo.AppFrame: requires the selection to index the sprite list. The constructor establishes this, and the source would raise on an empty list.
- Identity comparison of moves: moves are an enumeration of the four constants. A `Position` equal in value to a constant but a different object cannot be expressed. Neither script creates one.
- The shared default argument `Position(0,0)` of `Sprite.__init__` is not modelled as a shared object. No code changes a `Position` in place, so sharing is unobservable.
