/** The value-level part of `Sprite` in sprite.py: its fixed sheet layout,
    its changing state, one `move`, and the source rectangle `draw` blits,
    together with the `Sprites` factory table. The Sprite class in SpriteDemo
    updates its fields in place and is proved to follow these functions. */
module SpriteSheet {
  import opened Optional
  import opened Backend
  import opened SpritePosition

  /** The fields `__init__` sets once: `_imagebank`, the sheet origin
      `_pos_x`/`_pos_y`, `_width`, `_height` and `_colkey`. */
  datatype Layout = Layout(imageBank: int, sheetX: int, sheetY: int, width: int, height: int, colkey: Option<int>)

  /** The fields `move` and the speed setter change: `_pos`, `_state` (the
      walk frame), `_last_move` and `_speed`. */
  datatype SpriteState = SpriteState(pos: Position, state: int, lastMove: MoveVector, speed: int)

  /** The walk frame is 0 or 1. */
  predicate WalkFrame(st: SpriteState)
  {
    st.state == 0 || st.state == 1
  }

  /** The state `__init__` gives a sprite placed at `pos`. */
  function InitialSprite(pos: Position): (st: SpriteState)
    ensures WalkFrame(st) && st.state == 0
    ensures st.pos == pos && st.lastMove == MoveDown && st.speed == 1
  {
    SpriteState(pos, 0, MoveDown, 1)
  }

  /** `move(mv)`: advance the walk frame modulo 2 (Python's `%` and Dafny's
      agree for the divisor 2), face `mv` and add `mv * speed` to the
      position. */
  function Step(st: SpriteState, mv: MoveVector): (r: SpriteState)
    ensures WalkFrame(r)
    ensures WalkFrame(st) ==> r.state == 1 - st.state
    ensures r.lastMove == mv && r.speed == st.speed
  {
    SpriteState(st.pos.Add(Vector(mv).Scale(st.speed)), (st.state + 1) % 2, mv, st.speed)
  }

  /** n moves in the same direction. */
  function Steps(st: SpriteState, mv: MoveVector, n: nat): SpriteState
    decreases n
  {
    if n == 0 then st else Step(Steps(st, mv, n - 1), mv)
  }

  /** `_get_index_for(move)`: the x of the frame group for the facing, down
      at the origin, up 16 pixels right of it, the sideways moves 32. */
  function IndexFor(l: Layout, mv: MoveVector): (u: int)
    ensures mv == MoveDown <==> u == l.sheetX
    ensures mv == MoveUp <==> u == l.sheetX + 16
    ensures (mv == MoveRight || mv == MoveLeft) <==> u == l.sheetX + 32
  {
    match mv
    case MoveDown => l.sheetX
    case MoveUp => l.sheetX + 16
    case _ => l.sheetX + 32
  }

  /** The `pyxel.blt` call of `draw`: at the sprite's position, from the
      frame `_state` of the group for the last move, mirrored when the last
      move was MOVE_LEFT. */
  function Blit(l: Layout, st: SpriteState): (c: DrawCmd)
    ensures c.Blt? && c.x == st.pos.x && c.y == st.pos.y
    ensures c.img == l.imageBank && c.v == l.sheetY && c.h == l.height && c.colkey == l.colkey
    ensures c.u - IndexFor(l, st.lastMove) == l.width * st.state
    ensures c.w == l.width || c.w == -l.width
    ensures l.width > 0 ==> (c.w < 0 <==> st.lastMove == MoveLeft)
  {
    Blt(st.pos.x, st.pos.y, l.imageBank,
        IndexFor(l, st.lastMove) + l.width * st.state,
        l.sheetY,
        if st.lastMove == MoveLeft then -l.width else l.width,
        l.height,
        l.colkey)
  }

  function Abs(n: int): nat
  {
    if n < 0 then -n else n
  }

  /** Two blits read disjoint rectangles of the image bank (a negative width
      mirrors the same source rectangle). */
  predicate SourcesDisjoint(a: DrawCmd, b: DrawCmd)
    requires a.Blt? && b.Blt?
  {
    || a.u + Abs(a.w) <= b.u || b.u + Abs(b.w) <= a.u
    || a.v + Abs(a.h) <= b.v || b.v + Abs(b.h) <= a.v
  }

  /** The five factory methods of `Sprites`. */
  datatype SpriteKind = Soldier | Ennemy1 | Ennemy2 | Skeleton | Princess

  /** The layout each factory method passes to `Sprite`: image bank 0, eight
      by eight pixels, colour 0 transparent, at its own sheet origin. */
  function KindLayout(k: SpriteKind): (l: Layout)
    ensures l.imageBank == 0 && l.width == 8 && l.height == 8 && l.colkey == Some(0)
  {
    match k
    case Soldier => Layout(0, 8, 0, 8, 8, Some(0))
    case Ennemy1 => Layout(0, 0, 8, 8, 8, Some(0))
    case Ennemy2 => Layout(0, 0, 16, 8, 8, Some(0))
    case Skeleton => Layout(0, 64, 8, 8, 8, Some(0))
    case Princess => Layout(0, 64, 16, 8, 8, Some(0))
  }

  /** `allowed_sprites`, in the order App lists them. */
  const ALLOWED_KINDS: seq<SpriteKind> := [Soldier, Ennemy1, Ennemy2, Princess, Skeleton]

  // ---------------------------------------------------------------------
  // Moving
  // ---------------------------------------------------------------------

  /** Two moves bring the walk frame back to where it was. */
  lemma TwoStepsRestoreFrame(st: SpriteState, a: MoveVector, b: MoveVector)
    requires WalkFrame(st)
    ensures Step(Step(st, a), b).state == st.state
  {
  }

  /** A move with speed 0 turns the sprite and animates it but leaves it in
      place. */
  lemma ZeroSpeedStaysPut(st: SpriteState, mv: MoveVector)
    requires st.speed == 0
    ensures Step(st, mv).pos == st.pos
    ensures Step(st, mv).lastMove == mv
  {
  }

  /** With a negative speed a move carries the sprite -speed pixels the
      other way, while it faces the direction pressed. */
  lemma NegativeSpeedReverses(st: SpriteState, mv: MoveVector)
    requires st.speed < 0
    ensures Step(st, mv).pos == st.pos.Add(Vector(Opposite(mv)).Scale(-st.speed))
    ensures Step(st, mv).lastMove == mv
  {
    OppositeVector(mv);
    ScaleComposes(Vector(mv), -1, -st.speed);
  }

  /** n moves in one direction carry the sprite n times its speed along that
      direction, leave the speed alone and advance the walk frame n times. */
  lemma {:induction false} RepeatedSteps(st: SpriteState, mv: MoveVector, n: nat)
    ensures var r := Steps(st, mv, n);
            && r.pos == st.pos.Add(Vector(mv).Scale(st.speed * n))
            && r.speed == st.speed
            && (WalkFrame(st) ==> r.state == (st.state + n) % 2)
            && (n > 0 ==> r.lastMove == mv)
    decreases n
  {
    if n > 0 {
      RepeatedSteps(st, mv, n - 1);
      var v := Vector(mv);
      AddAssociates(st.pos, v.Scale(st.speed * (n - 1)), v.Scale(st.speed));
      ScaleDistributes(v, st.speed * (n - 1), st.speed);
      assert st.speed * (n - 1) + st.speed == st.speed * n;
    }
  }

  // ---------------------------------------------------------------------
  // The source rectangle
  // ---------------------------------------------------------------------

  /** With a width of at most 8 the frame drawn lies inside the 16-pixel
      group of its facing: both walk frames fit beside each other. */
  lemma FrameWithinGroup(l: Layout, st: SpriteState)
    requires WalkFrame(st) && 0 <= l.width <= 8
    ensures var c := Blit(l, st);
            IndexFor(l, st.lastMove) <= c.u && c.u + Abs(c.w) <= IndexFor(l, st.lastMove) + 16
  {
  }

  /** Facings with different groups draw from disjoint columns of the sheet. */
  lemma FacingGroupsDisjoint(l: Layout, s1: SpriteState, s2: SpriteState)
    requires WalkFrame(s1) && WalkFrame(s2) && 0 <= l.width <= 8
    requires IndexFor(l, s1.lastMove) != IndexFor(l, s2.lastMove)
    ensures SourcesDisjoint(Blit(l, s1), Blit(l, s2))
  {
    FrameWithinGroup(l, s1);
    FrameWithinGroup(l, s2);
  }

  /** Two different kinds never read the same pixel of the sheet, whatever
      their facing and walk frame. */
  lemma KindsUseDisjointFrames(k1: SpriteKind, k2: SpriteKind, s1: SpriteState, s2: SpriteState)
    requires k1 != k2 && WalkFrame(s1) && WalkFrame(s2)
    ensures SourcesDisjoint(Blit(KindLayout(k1), s1), Blit(KindLayout(k2), s2))
  {
    FrameWithinGroup(KindLayout(k1), s1);
    FrameWithinGroup(KindLayout(k2), s2);
  }

  /** Every frame of every kind lies inside pyxel's 256 by 256 image bank. */
  lemma FramesInsideImageBank(k: SpriteKind, st: SpriteState)
    requires WalkFrame(st)
    ensures var c := Blit(KindLayout(k), st);
            0 <= c.u && c.u + Abs(c.w) <= 256 && 0 <= c.v && c.v + c.h <= 256
  {
    FrameWithinGroup(KindLayout(k), st);
  }
}
