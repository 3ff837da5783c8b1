/** `MyMazeApplication`: the game object whose fields `update`, `move` and
    `reset_game_state` change in place. Each method is proved to follow the
    value-level functions of MazeState and MazeView; the maze a reset
    generates, the keys pyxel reports and its frame counter are parameters. */
module MazeApplication {
  import opened Backend
  import opened MazeGrid
  import opened MazeLight
  import opened MazeState
  import opened MazeView

  class MyMazeApplication {
    var m: Maze
    var player: Cell
    var lastMove: MoveVector
    var light: int
    var playerCentric: bool
    var cheatMode: bool
    var solution: bool
    var won: bool

    /** The fields as a value. */
    function State(): GameState
      reads this
    {
      GameState(m, player, lastMove, light, playerCentric, cheatMode, solution, won)
    }

    /** The light level always indexes LIGHT_POWER. */
    ghost predicate Valid()
      reads this
    {
      ValidState(State())
    }

    /** `__init__` without the pyxel set-up: the state `reset_game_state`
        gives for the first generated maze. */
    constructor (maze: Maze)
      ensures Valid()
      ensures State() == Initial(maze)
    {
      m := maze;
      player := maze.start;
      lastMove := MoveDown;
      light := 0;
      playerCentric := false;
      cheatMode := false;
      solution := false;
      won := false;
    }

    /** `reset_game_state` with the newly generated maze: the player on its
        start facing down, light 0, every flag cleared, the music restarted. */
    method ResetGameState(maze: Maze) returns (fx: seq<Effect>)
      modifies this
      ensures Valid()
      ensures State() == Initial(maze)
      ensures fx == [PlayMusic(0, true)]
    {
      m := maze;
      lastMove := MoveDown;
      player := m.start;
      light := 0;
      playerCentric := false;
      cheatMode := false;
      solution := false;
      won := false;
      fx := [PlayMusic(0, true)];
    }

    /** `move`. */
    method Move(mv: MoveVector)
      modifies this
      ensures State() == MoveStep(old(State()), mv)
    {
      if won {
        return;
      }
      if IsMoveRight(m, player, mv) || cheatMode {
        player := Translate(player, mv);
        lastMove := mv;
      }
    }

    /** The V, C, L and S toggles of `update`, in its order. */
    method ApplyToggleKeys(k: Keys)
      modifies this
      ensures State() == ApplyToggles(old(State()), k)
    {
      if k.view {
        playerCentric := !playerCentric;
      }
      if k.cheat {
        cheatMode := !cheatMode;
      }
      if k.light {
        light := (light + 1) % |LIGHT_POWER|;
      }
      if k.solution {
        solution := !solution;
      }
    }

    /** The arrow keys of `update`: down, up, right, left, each a `move`. */
    method ApplyMoveKeys(k: Keys)
      modifies this
      ensures State() == ApplyMoves(old(State()), k)
    {
      if k.down {
        Move(MoveDown);
      }
      if k.up {
        Move(MoveUp);
      }
      if k.right {
        Move(MoveRight);
      }
      if k.left {
        Move(MoveLeft);
      }
    }

    /** `update` for one frame with the keys pyxel reports and the maze a
        reset in this frame would generate. */
    method Update(k: Keys, newMaze: Maze) returns (fx: seq<Effect>)
      requires Valid()
      modifies this
      ensures FrameResult(State(), fx) == Frame(old(State()), k, newMaze)
      ensures Valid()
    {
      if k.quit {
        return [Quit];
      }
      ApplyToggleKeys(k);
      fx := [];
      if k.reset {
        fx := ResetGameState(newMaze);
      }
      ghost var afterReset := State();
      ApplyMoveKeys(k);
      assert State() == ApplyMoves(afterReset, k);
      if IsWon(State()) && won == false {
        fx := fx + [StopAudio, VICTORY_CUE];
        won := true;
      }
    }

    /** `draw` at pyxel frame `frameCount`. */
    method Draw(frameCount: nat) returns (cmds: seq<DrawCmd>)
      requires Valid() && Rectangular(m.grid)
      requires solution ==> |m.solutions| > 0
      ensures cmds == Render(State(), frameCount)
    {
      if playerCentric {
        cmds := DrawPlayerCentric(State(), frameCount);
      } else {
        cmds := DrawMazeCentric(State(), frameCount);
      }
    }
  }
}
