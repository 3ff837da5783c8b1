/** maze.py and sprite.py load the same resource file, maze.pyxres. The maze
    player is drawn by `draw_player` with its own constants; this module shows
    that those constants pick exactly the frames of the `Sprites.soldier`
    layout of sprite.py. */
module PlayerSprite {
  import MazeGrid
  import MazeView
  import SpritePosition
  import SpriteSheet

  /** The sprite.py move constant with the same coordinates as a maze.py move
      (maze.py counts rows down the screen, sprite.py y down the screen). */
  function SpriteMove(mv: MazeGrid.MoveVector): (r: SpritePosition.MoveVector)
    ensures SpritePosition.Vector(r).x == MazeGrid.Delta(mv).col
    ensures SpritePosition.Vector(r).y == MazeGrid.Delta(mv).row
  {
    match mv
    case MoveRight => SpritePosition.MoveRight
    case MoveLeft => SpritePosition.MoveLeft
    case MoveDown => SpritePosition.MoveDown
    case MoveUp => SpritePosition.MoveUp
  }

  /** The walk frame `draw_player` shows at a pyxel frame count. */
  function PlayerWalkFrame(frameCount: nat): (f: int)
    ensures f == 0 || f == 1
    ensures f == 0 <==> frameCount % 32 > 16
  {
    if frameCount % 32 > 16 then 0 else 1
  }

  /** The blit of `draw_player` is the blit `Sprite.draw` issues for a soldier
      at the same place, facing the same way, in the walk frame of the frame
      count. */
  lemma MazePlayerIsSoldier(mv: MazeGrid.MoveVector, x: int, y: int, frameCount: nat)
    ensures MazeView.DrawPlayer(mv, x, y, frameCount)
            == SpriteSheet.Blit(SpriteSheet.KindLayout(SpriteSheet.Soldier),
                                SpriteSheet.SpriteState(SpritePosition.Position(x, y), PlayerWalkFrame(frameCount), SpriteMove(mv), 1))
  {
  }
}
