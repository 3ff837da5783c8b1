/** The state of `MyMazeApplication` as a value, and one frame of `update`
    as a function of that value, the keys pressed in the frame and the maze
    a reset would generate. The class in MazeApplication updates its fields
    in place and is proved to follow these functions. */
module MazeState {
  import opened Backend
  import opened MazeGrid
  import opened MazeLight

  /** The fields `m`, `player`, `last_move`, `light`, `player_centric`,
      `cheat_mode`, `solution` and `won`. */
  datatype GameState = GameState(
    m: Maze,
    player: Cell,
    lastMove: MoveVector,
    light: int,
    playerCentric: bool,
    cheatMode: bool,
    solution: bool,
    won: bool)

  /** The light level indexes LIGHT_POWER. */
  predicate ValidState(s: GameState)
  {
    0 <= s.light < |LIGHT_POWER|
  }

  /** The keys `pyxel.btnp` reports for one frame: Q, V, C, L, S, R and the
      four arrows (the arrows with pyxel's repeat after 5 frames every 2). */
  datatype Keys = Keys(
    quit: bool, view: bool, cheat: bool, light: bool, solution: bool, reset: bool,
    down: bool, up: bool, right: bool, left: bool)

  /** One frame's keys together with the maze a reset in that frame generates
      (maze generation is external). */
  datatype Input = Input(keys: Keys, newMaze: Maze)

  /** The state after a frame and the audio and process calls it made. */
  datatype FrameResult = FrameResult(state: GameState, effects: seq<Effect>)

  /** The one-shot victory cue `pyxel.play(1, 5)`. */
  const VICTORY_CUE: Effect := PlaySound(1, 5)

  /** `reset_game_state` once the maze `m` is generated. */
  function Initial(m: Maze): (s: GameState)
    ensures ValidState(s)
    ensures s.m == m && s.player == m.start && s.lastMove == MoveDown && s.light == 0
    ensures !s.playerCentric && !s.cheatMode && !s.solution && !s.won
  {
    GameState(m, m.start, MoveDown, 0, false, false, false, false)
  }

  /** `is_won`. */
  predicate IsWon(s: GameState)
  {
    s.player == s.m.end
  }

  /** `move(mv)`: nothing once won; otherwise the player steps when the move
      is legal or cheat mode is on, and nothing happens when neither holds. */
  function MoveStep(s: GameState, mv: MoveVector): (r: GameState)
    ensures r == s.(player := r.player, lastMove := r.lastMove)
    ensures s.won ==> r == s
    ensures !s.won && (IsMoveRight(s.m, s.player, mv) || s.cheatMode) ==>
              r == s.(player := Translate(s.player, mv), lastMove := mv)
    ensures !IsMoveRight(s.m, s.player, mv) && !s.cheatMode ==> r == s
  {
    if s.won then s
    else if IsMoveRight(s.m, s.player, mv) || s.cheatMode then
      s.(player := Translate(s.player, mv), lastMove := mv)
    else s
  }

  /** `(light + 1) % len(LIGHT_POWER)`; Python's `%` and Dafny's agree for a
      positive divisor. */
  function NextLight(light: int): (r: int)
    ensures 0 <= r < |LIGHT_POWER|
    ensures 0 <= light < |LIGHT_POWER| - 1 ==> r == light + 1
    ensures light == |LIGHT_POWER| - 1 ==> r == 0
  {
    (light + 1) % |LIGHT_POWER|
  }

  /** The toggles of one frame, in the order `update` applies them. Each key
      acts on its own field only: V flips the camera, C cheat mode, S the
      solution overlay, and L advances the light. */
  function ApplyToggles(s: GameState, k: Keys): (r: GameState)
    ensures r == s.(playerCentric := s.playerCentric != k.view,
                    cheatMode := s.cheatMode != k.cheat,
                    light := if k.light then NextLight(s.light) else s.light,
                    solution := s.solution != k.solution)
  {
    var s1 := if k.view then s.(playerCentric := !s.playerCentric) else s;
    var s2 := if k.cheat then s1.(cheatMode := !s1.cheatMode) else s1;
    var s3 := if k.light then s2.(light := NextLight(s2.light)) else s2;
    if k.solution then s3.(solution := !s3.solution) else s3
  }

  /** The facing the arrows of a frame leave when every pressed arrow moves
      the player: the last one `update` handles (left, then right, up, down),
      or `prev` when no arrow is pressed. */
  function LastArrow(k: Keys, prev: MoveVector): MoveVector
  {
    if k.left then MoveLeft
    else if k.right then MoveRight
    else if k.up then MoveUp
    else if k.down then MoveDown
    else prev
  }

  /** One arrow key of a frame: when it is pressed, one `move` that way;
      otherwise nothing changes. The player stays or takes that one step and
      faces its way, and in cheat mode before the win the step is always
      taken. */
  function Arrow(s: GameState, pressed: bool, mv: MoveVector): (r: GameState)
    ensures r == s || (pressed && r == s.(player := Translate(s.player, mv), lastMove := mv))
    ensures pressed && !s.won && s.cheatMode ==> r == s.(player := Translate(s.player, mv), lastMove := mv)
  {
    if pressed then MoveStep(s, mv) else s
  }

  /** The four arrow moves of one frame, applied in the order down, up,
      right, left. */
  function ApplyMoves(s: GameState, k: Keys): (r: GameState)
    ensures r == s.(player := r.player, lastMove := r.lastMove)
    ensures s.won ==> r == s
    ensures !k.down && !k.up && !k.right && !k.left ==> r == s
  {
    Arrow(Arrow(Arrow(Arrow(s, k.down, MoveDown), k.up, MoveUp), k.right, MoveRight), k.left, MoveLeft)
  }


  /** One call of `update`. Q ends the process at once (pyxel.quit does not
      return); R replaces the state by the initial one for the newMaze maze and
      restarts the music; after the moves, the first frame that finds the
      player on the end stops the music, plays the victory cue and latches
      `won`. */
  function Frame(s: GameState, k: Keys, newMaze: Maze): (r: FrameResult)
    ensures ValidState(s) ==> ValidState(r.state)
  {
    if k.quit then FrameResult(s, [Quit])
    else
      var toggled := ApplyToggles(s, k);
      var afterReset := if k.reset then Initial(newMaze) else toggled;
      var fx := if k.reset then [PlayMusic(0, true)] else [];
      var moved := ApplyMoves(afterReset, k);
      if IsWon(moved) && !moved.won then
        FrameResult(moved.(won := true), fx + [StopAudio, VICTORY_CUE])
      else
        FrameResult(moved, fx)
  }

  /** Successive frames from `s`, with the effects of all of them in order;
      a frame that quits ends the run. */
  function Run(s: GameState, inputs: seq<Input>): FrameResult
    decreases |inputs|
  {
    if |inputs| == 0 then FrameResult(s, [])
    else
      var f := Frame(s, inputs[0].keys, inputs[0].newMaze);
      if inputs[0].keys.quit then f
      else
        var rest := Run(f.state, inputs[1..]);
        FrameResult(rest.state, f.effects + rest.effects)
  }

  /** How many times the victory cue was played. */
  function Cues(fx: seq<Effect>): nat
  {
    multiset(fx)[VICTORY_CUE]
  }

  /** No key pressed but L. */
  const LIGHT_ONLY: Keys := Keys(false, false, false, true, false, false, false, false, false, false)
  /** No key pressed but V. */
  const VIEW_ONLY: Keys := Keys(false, true, false, false, false, false, false, false, false, false)
  /** No key pressed but C. */
  const CHEAT_ONLY: Keys := Keys(false, false, true, false, false, false, false, false, false, false)
  /** No key pressed but S. */
  const SOLUTION_ONLY: Keys := Keys(false, false, false, false, true, false, false, false, false, false)
  /** No key pressed but R. */
  const RESET_ONLY: Keys := Keys(false, false, false, false, false, true, false, false, false, false)

  /** No key pressed but the arrow of `mv`. */
  function ArrowOnly(mv: MoveVector): (k: Keys)
    ensures !k.quit && !k.view && !k.cheat && !k.light && !k.solution && !k.reset
    ensures k.down <==> mv == MoveDown
    ensures k.up <==> mv == MoveUp
    ensures k.right <==> mv == MoveRight
    ensures k.left <==> mv == MoveLeft
  {
    Keys(false, false, false, false, false, false, mv == MoveDown, mv == MoveUp, mv == MoveRight, mv == MoveLeft)
  }

  // ---------------------------------------------------------------------
  // Moves
  // ---------------------------------------------------------------------

  /** Without cheat mode, a wall cell inside the grid that is not the end
      stops the player where it stands. */
  lemma WallBlocksMove(s: GameState, mv: MoveVector)
    requires !s.cheatMode
    requires var t := Translate(s.player, mv);
             0 <= t.row < |s.m.grid| && 0 <= t.col < |s.m.grid[t.row]| && s.m.grid[t.row][t.col] && t != s.m.end
    ensures MoveStep(s, mv) == s
  {
    LegalInsideGrid(s.m, s.player, mv);
  }

  /** Each pressed arrow moves the player one cell its way or not at all:
      the player ends at most one row down per down arrow and one up per up
      arrow. */
  lemma ArrowsMoveAtMostOneRow(s: GameState, k: Keys)
    ensures var r := ApplyMoves(s, k);
            -Press(k.up) <= r.player.row - s.player.row <= Press(k.down)
  {
    var s1 := Arrow(s, k.down, MoveDown);
    var s2 := Arrow(s1, k.up, MoveUp);
    var s3 := Arrow(s2, k.right, MoveRight);
    assert Delta(MoveDown) == Cell(1, 0) && Delta(MoveUp) == Cell(-1, 0);
    assert Delta(MoveRight) == Cell(0, 1) && Delta(MoveLeft) == Cell(0, -1);
    assert 0 <= s1.player.row - s.player.row <= Press(k.down);
    assert -Press(k.up) <= s2.player.row - s.player.row <= Press(k.down);
    assert s3.player.row == s2.player.row;
  }

  /** Likewise for the columns: at most one right per right arrow and one
      left per left arrow. */
  lemma ArrowsMoveAtMostOneColumn(s: GameState, k: Keys)
    ensures var r := ApplyMoves(s, k);
            -Press(k.left) <= r.player.col - s.player.col <= Press(k.right)
  {
    var s1 := Arrow(s, k.down, MoveDown);
    var s2 := Arrow(s1, k.up, MoveUp);
    var s3 := Arrow(s2, k.right, MoveRight);
    assert Delta(MoveDown) == Cell(1, 0) && Delta(MoveUp) == Cell(-1, 0);
    assert Delta(MoveRight) == Cell(0, 1) && Delta(MoveLeft) == Cell(0, -1);
    assert s1.player.col == s.player.col;
    assert s2.player.col == s.player.col;
    assert 0 <= s3.player.col - s.player.col <= Press(k.right);
  }

  /** After the arrows the player faces as before, or the way of a pressed
      arrow. */
  lemma ArrowsSetFacing(s: GameState, k: Keys)
    ensures var r := ApplyMoves(s, k);
            || r.lastMove == s.lastMove
            || (k.down && r.lastMove == MoveDown) || (k.up && r.lastMove == MoveUp)
            || (k.right && r.lastMove == MoveRight) || (k.left && r.lastMove == MoveLeft)
  {
    var s1 := Arrow(s, k.down, MoveDown);
    var s2 := Arrow(s1, k.up, MoveUp);
    var s3 := Arrow(s2, k.right, MoveRight);
  }

  /** In cheat mode before the win every pressed arrow moves: the player ends
      displaced by the arrows pressed and faces the last arrow handled. */
  lemma CheatArrows(s: GameState, k: Keys)
    requires !s.won && s.cheatMode
    ensures var r := ApplyMoves(s, k);
            && r.player == Cell(s.player.row + Press(k.down) - Press(k.up),
                                s.player.col + Press(k.right) - Press(k.left))
            && r.lastMove == LastArrow(k, s.lastMove)
  {
    var s1 := Arrow(s, k.down, MoveDown);
    var s2 := Arrow(s1, k.up, MoveUp);
    var s3 := Arrow(s2, k.right, MoveRight);
  }

  /** A frame in which one arrow alone is pressed is one `move` of that
      arrow, as walls and the grid's bounds allow, followed by the win latch:
      reaching the end cell stops the music and plays the cue. */
  lemma ArrowOnlyFrame(s: GameState, mv: MoveVector, newMaze: Maze)
    ensures var moved := MoveStep(s, mv);
            Frame(s, ArrowOnly(mv), newMaze)
            == if moved.player == moved.m.end && !moved.won
               then FrameResult(moved.(won := true), [StopAudio, VICTORY_CUE])
               else FrameResult(moved, [])
  {
    var k := ArrowOnly(mv);
    assert ApplyToggles(s, k) == s;
    assert ApplyMoves(s, k) == MoveStep(s, mv);
  }

  /** Cheat mode moves the player whatever the grid holds, unless won. */
  lemma CheatIgnoresWalls(s: GameState, mv: MoveVector)
    requires s.cheatMode && !s.won
    ensures MoveStep(s, mv).player == Translate(s.player, mv)
  {
  }

  // ---------------------------------------------------------------------
  // The win latch
  // ---------------------------------------------------------------------

  /** In a frame without Q or R, `won` ends up true exactly when it was
      already, or the player stands on the end after the moves; the cue is
      played in that frame exactly when `won` was false and is now true. */
  lemma FrameWinLatch(s: GameState, k: Keys, newMaze: Maze)
    requires !k.quit && !k.reset
    ensures var r := Frame(s, k, newMaze);
            && (r.state.won <==> s.won || r.state.player == s.m.end)
            && Cues(r.effects) == (if !s.won && r.state.won then 1 else 0)
            && r.state.m == s.m
  {
    var moved := ApplyMoves(ApplyToggles(s, k), k);
    if IsWon(moved) && !moved.won {
      assert Frame(s, k, newMaze).effects == [StopAudio, VICTORY_CUE];
    }
  }

  /** Once won, frames without R keep `won` set, keep the player where it
      is, and play no cue. */
  lemma WonIsLatched(s: GameState, k: Keys, newMaze: Maze)
    requires s.won && !k.reset
    ensures var r := Frame(s, k, newMaze);
            r.state.won && r.state.player == s.player && Cues(r.effects) == 0
  {
  }

  /** Over any run of frames without R, the victory cue plays at most once,
      and not at all when the game was already won; `won` is never cleared. */
  lemma {:induction false} CueAtMostOnce(s: GameState, inputs: seq<Input>)
    requires forall i :: 0 <= i < |inputs| ==> !inputs[i].keys.reset
    ensures var r := Run(s, inputs);
            && Cues(r.effects) <= (if s.won then 0 else 1)
            && (s.won ==> r.state.won)
            && (Cues(r.effects) == 1 ==> r.state.won)
    decreases |inputs|
  {
    if |inputs| > 0 {
      var k := inputs[0].keys;
      var f := Frame(s, k, inputs[0].newMaze);
      if k.quit {
        assert f.effects == [Quit];
      } else {
        FrameWinLatch(s, k, inputs[0].newMaze);
        CueAtMostOnce(f.state, inputs[1..]);
        var rest := Run(f.state, inputs[1..]);
        assert Run(s, inputs).effects == f.effects + rest.effects;
        assert Cues(f.effects + rest.effects) == Cues(f.effects) + Cues(rest.effects);
        if Cues(f.effects) == 1 {
          assert f.state.won;
        }
      }
    }
  }

  // ---------------------------------------------------------------------
  // Toggles and reset
  // ---------------------------------------------------------------------

  /** A frame in which only V is pressed switches the camera and changes
      nothing else, provided the win has already been latched or the player
      is not on the end. */
  lemma ViewOnlyFrame(s: GameState, newMaze: Maze)
    requires IsWon(s) ==> s.won
    ensures Frame(s, VIEW_ONLY, newMaze) == FrameResult(s.(playerCentric := !s.playerCentric), [])
  {
  }

  /** A frame in which only C is pressed switches cheat mode and changes
      nothing else, under the same proviso. */
  lemma CheatOnlyFrame(s: GameState, newMaze: Maze)
    requires IsWon(s) ==> s.won
    ensures Frame(s, CHEAT_ONLY, newMaze) == FrameResult(s.(cheatMode := !s.cheatMode), [])
  {
  }

  /** A frame in which only S is pressed switches the solution overlay and
      changes nothing else, under the same proviso. */
  lemma SolutionOnlyFrame(s: GameState, newMaze: Maze)
    requires IsWon(s) ==> s.won
    ensures Frame(s, SOLUTION_ONLY, newMaze) == FrameResult(s.(solution := !s.solution), [])
  {
  }

  /** A frame in which only R is pressed discards the whole state for the
      initial state of the new maze and restarts the music, whatever the
      state was. When the new maze starts on its end cell, the same frame
      also latches the win and plays the cue. */
  lemma ResetOnlyFrame(s: GameState, newMaze: Maze)
    ensures newMaze.start != newMaze.end ==>
              Frame(s, RESET_ONLY, newMaze) == FrameResult(Initial(newMaze), [PlayMusic(0, true)])
    ensures newMaze.start == newMaze.end ==>
              Frame(s, RESET_ONLY, newMaze)
              == FrameResult(Initial(newMaze).(won := true), [PlayMusic(0, true), StopAudio, VICTORY_CUE])
  {
  }

  // ---------------------------------------------------------------------
  // Light cycling
  // ---------------------------------------------------------------------

  /** A frame in which only L is pressed advances the light level and
      changes nothing else, provided the win has already been latched or the
      player is not on the end. */
  lemma LightOnlyFrame(s: GameState, newMaze: Maze)
    requires IsWon(s) ==> s.won
    ensures Frame(s, LIGHT_ONLY, newMaze) == FrameResult(s.(light := NextLight(s.light)), [])
  {
  }

  /** n frames of L alone advance the light level by n modulo the number of
      levels, and change nothing else. */
  lemma {:induction false} LightRotation(s: GameState, inputs: seq<Input>)
    requires ValidState(s)
    requires IsWon(s) ==> s.won
    requires forall i :: 0 <= i < |inputs| ==> inputs[i].keys == LIGHT_ONLY
    ensures Run(s, inputs) == FrameResult(s.(light := (s.light + |inputs|) % |LIGHT_POWER|), [])
    decreases |inputs|
  {
    if |inputs| > 0 {
      LightOnlyFrame(s, inputs[0].newMaze);
      var s1 := s.(light := NextLight(s.light));
      LightRotation(s1, inputs[1..]);
      assert (NextLight(s.light) + (|inputs| - 1)) % 4 == (s.light + |inputs|) % 4;
    }
  }

  /** Four presses of L bring the light back to where it was. */
  lemma FourLightPressesRestore(s: GameState, inputs: seq<Input>)
    requires ValidState(s)
    requires IsWon(s) ==> s.won
    requires |inputs| == 4 && forall i :: 0 <= i < 4 ==> inputs[i].keys == LIGHT_ONLY
    ensures Run(s, inputs) == FrameResult(s, [])
  {
    LightRotation(s, inputs);
  }
}
